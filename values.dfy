/** The register value of the second calculator variant: a number or a string,
    and its display form as the register listing and the set command show it. */
module Values {

  /** `variant<double, string>`; the double is modelled as a `real`. */
  datatype RegisterValue = Number(n: real) | Text(s: string)

  /** The value a register holds after start-up or a clear, and the value
      `std::map::operator[]` default-constructs for a missing key. */
  const Zero: RegisterValue := Number(0.0)

  const StringSuffix: string := "\" (string)"
  const NumberSuffix: string := " (number)"

  /** `format_value`. The numeric branch (fixed, three decimals, trailing zeros
      and point trimmed) is the parameter `fixedTrimmed`; the string branch is
      modelled as written: the text between double quotes, then " (string)". */
  function FormatValue(v: RegisterValue, fixedTrimmed: real -> string): string
  {
    match v
    case Number(n) => fixedTrimmed(n) + NumberSuffix
    case Text(s) => "\"" + s + StringSuffix
  }

  /** The display of a string value starts with a quote, ends with the string
      suffix, and the text in between is exactly the stored string: the display
      can be read back. */
  lemma FormatTextReadBack(s: string, fixedTrimmed: real -> string)
    ensures var d := FormatValue(Text(s), fixedTrimmed);
      |d| == |s| + 11 && d[0] == '"' && d[|d| - 10..] == StringSuffix && d[1..|d| - 10] == s
  {
  }

  /** Two string values display alike only when they are the same string. */
  lemma FormatTextInjective(s: string, t: string, fixedTrimmed: real -> string)
    requires FormatValue(Text(s), fixedTrimmed) == FormatValue(Text(t), fixedTrimmed)
    ensures s == t
  {
    FormatTextReadBack(s, fixedTrimmed);
    FormatTextReadBack(t, fixedTrimmed);
  }

  /** A string value never displays like a number value, whatever the numeric
      formatting: their suffixes differ in the last characters. */
  lemma FormatKindsDisjoint(s: string, n: real, fixedTrimmed: real -> string)
    ensures FormatValue(Text(s), fixedTrimmed) != FormatValue(Number(n), fixedTrimmed)
  {
    var d, e := FormatValue(Text(s), fixedTrimmed), FormatValue(Number(n), fixedTrimmed);
    FormatTextReadBack(s, fixedTrimmed);
    assert e[|e| - 3] == 'e' by {
      assert e == fixedTrimmed(n) + NumberSuffix;
    }
    assert d[|d| - 3] == StringSuffix[7] == 'n';
  }
}
