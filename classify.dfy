/** The input classifiers: which characters and strings name a register, the
    register a character names and the letter a register is shown as, and the
    "a number if the whole line parses, else text" rule for register input. */
module Classify {
  import opened Values

  /** A register name is the underlying value of the `reg_name` enumeration
      (A = 0 … D = 3); `to_reg_name` can produce larger values, so it is a `nat`. */
  type RegName = nat

  /** `tolower` in the C locale: only 'A'..'Z' change. */
  function ToLower(ch: char): (r: char)
    ensures 'A' <= ch <= 'Z' ==> 'a' <= r <= 'z' && r as int - ch as int == 32
    ensures !('A' <= ch <= 'Z') ==> r == ch
  {
    if 'A' <= ch <= 'Z' then (ch as int + 32) as char else ch
  }

  /** `is_register(char)`: the lower-cased character is at least 'a' while the
      raw character is at most 'd'. */
  predicate IsRegisterChar(ch: char)
  {
    ToLower(ch) >= 'a' && ch <= 'd'
  }

  /** `is_register(string)`: non-empty and its first character is a register. */
  predicate IsRegisterStr(str: string)
  {
    |str| != 0 && IsRegisterChar(str[0])
  }

  /** `to_reg_name(char)`: the distance of the lower-cased character from 'a'.
      The `assert` of the source becomes the precondition. */
  function ToRegName(ch: char): (rn: RegName)
    requires IsRegisterChar(ch)
    ensures rn < 26
  {
    ToLower(ch) as int - 'a' as int
  }

  /** `to_reg_name(string)`: the register named by the first character. */
  function ToRegNameStr(str: string): (rn: RegName)
    requires IsRegisterStr(str)
    ensures rn < 26
  {
    ToRegName(str[0])
  }

  /** `to_char`: `static_cast<char>(rn + 'a')`, a lower-case letter for every
      name `to_reg_name` can produce; the cast keeps the low eight bits. */
  function ToChar(rn: RegName): (ch: char)
    ensures rn < 26 ==> 'a' <= ch <= 'z' && ch as int - 'a' as int == rn
  {
    ((rn + 'a' as int) % 256) as char
  }

  /** The register characters are exactly 'a'..'d' and every upper-case
      letter 'A'..'Z': the upper bound is tested on the raw character. */
  lemma IsRegisterCharExactly(ch: char)
    ensures IsRegisterChar(ch) <==> ('a' <= ch <= 'd' || 'A' <= ch <= 'Z')
  {
  }

  /** The string overloads: a string names a register exactly when it starts
      with 'a'..'d' or 'A'..'Z', and two strings with the same first character
      agree on whether they name a register and on which one. */
  lemma RegisterStringFirstChar(str: string, other: string)
    ensures IsRegisterStr(str) <==> |str| > 0 && ('a' <= str[0] <= 'd' || 'A' <= str[0] <= 'Z')
    ensures |str| > 0 && |other| > 0 && str[0] == other[0] ==>
      IsRegisterStr(str) == IsRegisterStr(other) &&
      (IsRegisterStr(str) ==> ToRegNameStr(str) == ToRegNameStr(other))
  {
  }

  /** 'a'..'d' and 'A'..'D' name the four registers 0..3 in order, and showing
      the register gives the lower-cased input character back. */
  lemma RegisterLettersRoundTrip(ch: char)
    requires 'a' <= ch <= 'd' || 'A' <= ch <= 'D'
    ensures IsRegisterChar(ch)
    ensures ToRegName(ch) < 4
    ensures ToRegName(ch) == (if ch <= 'D' then ch as int - 'A' as int else ch as int - 'a' as int)
    ensures ToChar(ToRegName(ch)) == ToLower(ch)
  {
  }

  /** 'E'..'Z' are accepted as registers but name 4..25, which are not among
      the four registers the store starts with. */
  lemma UpperLettersBeyondD(ch: char)
    requires 'E' <= ch <= 'Z'
    ensures IsRegisterChar(ch)
    ensures 4 <= ToRegName(ch) < 26
    ensures ToChar(ToRegName(ch)) == ToLower(ch)
  {
  }

  /** The letter a register is shown as is itself accepted as a register
      character only for the four registers 0..3: 'e'..'z' are refused. */
  lemma ShownLetterIsRegister(rn: RegName)
    requires rn < 26
    ensures IsRegisterChar(ToChar(rn)) <==> rn < 4
    ensures rn < 4 ==> ToRegName(ToChar(rn)) == rn
  {
  }

  /** What `stod(input, &pos)` does: it parses a number from a prefix of the
      input and reports how many characters it consumed, or it throws. */
  datatype StodResult = Parsed(value: real, consumed: nat) | Threw

  /** `parse_input`: a number exactly when the numeric parse consumed the whole
      input; on a partial parse or an exception, the input itself as text.
      `stod` is a parameter: its grammar is not part of this model. */
  function ParseInput(input: string, stod: string -> StodResult): (v: RegisterValue)
    ensures v.Number? <==> stod(input).Parsed? && stod(input).consumed == |input|
    ensures v.Number? ==> v.n == stod(input).value
    ensures v.Text? ==> v.s == input
  {
    match stod(input)
    case Parsed(num, pos) =>
      if pos == |input| then Number(num) else Text(input)
    case Threw => Text(input)
  }

  /** What the standard library guarantees of `stod` and this model relies on:
      an empty string throws, and a successful parse consumes at least one and
      at most all characters. */
  ghost predicate StodContract(stod: string -> StodResult)
  {
    stod([]) == Threw &&
    forall s :: stod(s).Parsed? ==> 0 < stod(s).consumed <= |s|
  }

  /** Under that guarantee the empty input is kept as the empty text. */
  lemma ParseEmptyIsText(stod: string -> StodResult)
    requires StodContract(stod)
    ensures ParseInput([], stod) == Text([])
  {
  }

  /** An input kept as text is confirmed as the quoted input, and the text
      between the quote and the suffix of that display is the input again. */
  lemma ParseTextDisplayReadBack(input: string, stod: string -> StodResult, fixedTrimmed: real -> string)
    requires ParseInput(input, stod).Text?
    ensures var d := FormatValue(ParseInput(input, stod), fixedTrimmed);
      d == "\"" + input + StringSuffix && |d| == |input| + 11 && d[1..|d| - 10] == input
  {
  }
}
