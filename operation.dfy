/** `perform_operation`: an operator applied to two register values, decided
    by a table over operator × (number/string, number/string). The outcome is
    returned, and the line printed for it is a separate function of it. */
module Operation {
  import opened Values
  import opened TextOps

  /** The four error messages the dispatcher can print. */
  datatype ErrorKind =
    | DivisionByZero
    | InvalidOperandCombination
    | InvalidStringMultiplication
    | CannotDivideStrings

  /** The message printed after "Error: " for each kind. */
  function Message(kind: ErrorKind): string
  {
    match kind
    case DivisionByZero => "Division by zero"
    case InvalidOperandCombination => "Invalid operation between string and number"
    case InvalidStringMultiplication => "Invalid string multiplication"
    case CannotDivideStrings => "Cannot divide strings"
  }

  /** What one operation prints: a number (its stream formatting is not
      modelled), a string, an error, or nothing for an operator outside
      + - * / (the `switch` has no default). */
  datatype Outcome =
    | NumResult(n: real)
    | TextResult(s: string)
    | Error(kind: ErrorKind)
    | NoOutput

  /** The string an operand takes in the mixed branch: strings as they are,
      numbers through `to_string`, which is the parameter `toStr`. */
  function AsText(v: RegisterValue, toStr: real -> string): string
  {
    if v.Text? then v.s else toStr(v.n)
  }

  /** The repetition the multiplication branch prints for a string and the
      number giving the count: nothing for a count of zero or less. */
  function Multiply(s: string, n: real): string
  {
    var count := Trunc(n);
    if count <= 0 then [] else Repeat(s, count)
  }

  /** `perform_operation(op, val1, val2)`, the error table stated in full:
      each error occurs exactly for the operator and operand kinds listed,
      numeric results come only from two numbers and string results only when
      some operand is a string. */
  function PerformOperation(op: char, left: RegisterValue, right: RegisterValue,
                            toStr: real -> string): (r: Outcome)
    ensures r == Error(DivisionByZero) <==>
      op == '/' && left.Number? && right.Number? && right.n == 0.0
    ensures r == Error(InvalidOperandCombination) <==> op == '-' && left.Text? != right.Text?
    ensures r == Error(InvalidStringMultiplication) <==> op == '*' && left.Text? && right.Text?
    ensures r == Error(CannotDivideStrings) <==> op == '/' && (left.Text? || right.Text?)
    ensures r == NoOutput <==> !(op in "+-*/")
    ensures r.NumResult? ==> left.Number? && right.Number?
    ensures r.TextResult? ==> left.Text? || right.Text?
  {
    if left.Number? && right.Number? then
      var num1, num2 := left.n, right.n;
      match op
      case '+' => NumResult(num1 + num2)
      case '-' => NumResult(num1 - num2)
      case '*' => NumResult(num1 * num2)
      case '/' => if num2 == 0.0 then Error(DivisionByZero) else NumResult(num1 / num2)
      case _ => NoOutput
    else
      var str1, str2 := AsText(left, toStr), AsText(right, toStr);
      match op
      case '+' => TextResult(str1 + str2)
      case '-' =>
        if left.Text? && right.Text? then TextResult(RemoveFirst(str1, str2))
        else Error(InvalidOperandCombination)
      case '*' =>
        if left.Number? && right.Text? then TextResult(Multiply(str2, left.n))
        else if left.Text? && right.Number? then TextResult(Multiply(str1, right.n))
        else Error(InvalidStringMultiplication)
      case '/' => Error(CannotDivideStrings)
      case _ => NoOutput
  }

  /** With two numbers the only error is division by zero; every other
      operator gives the arithmetic result. */
  lemma NumberOperations(op: char, a: real, b: real, toStr: real -> string)
    ensures var r := PerformOperation(op, Number(a), Number(b), toStr);
      (op == '+' ==> r == NumResult(a + b)) &&
      (op == '-' ==> r == NumResult(a - b)) &&
      (op == '*' ==> r == NumResult(a * b)) &&
      (op == '/' && b != 0.0 ==> r == NumResult(a / b)) &&
      (r.Error? <==> op == '/' && b == 0.0)
  {
  }

  /** `+` with a string operand concatenates left then right, a number first
      turned into text by `to_string`: the left operand's text is a prefix of
      the result and the right operand's text the rest. */
  lemma ConcatLeftThenRight(left: RegisterValue, right: RegisterValue, toStr: real -> string)
    requires left.Text? || right.Text?
    ensures var r := PerformOperation('+', left, right, toStr);
      r.TextResult? &&
      |r.s| == |AsText(left, toStr)| + |AsText(right, toStr)| &&
      r.s[..|AsText(left, toStr)|] == AsText(left, toStr) &&
      r.s[|AsText(left, toStr)|..] == AsText(right, toStr)
    ensures left.Text? && right.Number? ==>
      PerformOperation('+', left, right, toStr) == TextResult(left.s + toStr(right.n))
    ensures left.Number? && right.Text? ==>
      PerformOperation('+', left, right, toStr) == TextResult(toStr(left.n) + right.s)
  {
  }

  /** `-` on two strings removes the first occurrence of the right string:
      at the found position the result is the left string with that slice cut
      out, and it is the left string unchanged when there is no occurrence or
      the right string is empty. */
  lemma SubtractStrings(a: string, b: string, toStr: real -> string)
    ensures var r := PerformOperation('-', Text(a), Text(b), toStr);
      r.TextResult? &&
      (Find(a, b).Some? ==>
        var p := Find(a, b).value;
        OccursAt(a, b, p) &&
        r.s == a[..p] + a[p + |b|..] && |r.s| == |a| - |b|) &&
      ((forall j: nat :: !OccursAt(a, b, j)) ==> r.s == a) &&
      (b == [] ==> r.s == a)
  {
  }

  /** `*` with one string and one number repeats the string the truncated
      number of times, whichever side the number is on; the result is empty
      when the number is below one, and otherwise holds `Floor(n)` copies:
      its length is that count times the string's length and its characters
      run through the string cyclically. */
  lemma MultiplyStringByNumber(s: string, n: real, toStr: real -> string)
    ensures PerformOperation('*', Number(n), Text(s), toStr)
         == PerformOperation('*', Text(s), Number(n), toStr)
         == TextResult(Multiply(s, n))
    ensures n < 1.0 ==> Multiply(s, n) == []
    ensures 1.0 <= n ==> Multiply(s, n) == Repeat(s, n.Floor)
    ensures 1.0 <= n ==> |Multiply(s, n)| == n.Floor * |s|
    ensures 1.0 <= n ==> forall i :: 0 <= i < |Multiply(s, n)| ==> Multiply(s, n)[i] == s[i % |s|]
  {
    if 1.0 <= n {
      var k := n.Floor;
      RepeatLength(s, k);
      forall i | 0 <= i < |Multiply(s, n)|
        ensures Multiply(s, n)[i] == s[i % |s|]
      {
        RepeatAt(s, k, i);
      }
    }
  }

  /** Examples for `*`: 3 × "ab" either way round is "ababab",
      and 0 or -2 copies give the empty string. */
  lemma MultiplyExamples(toStr: real -> string)
    ensures PerformOperation('*', Number(3.0), Text("ab"), toStr) == TextResult("ababab")
    ensures PerformOperation('*', Text("ab"), Number(3.0), toStr) == TextResult("ababab")
    ensures PerformOperation('*', Number(0.0), Text("ab"), toStr) == TextResult("")
    ensures PerformOperation('*', Number(-2.0), Text("ab"), toStr) == TextResult("")
  {
  }

  /** Examples for `-` on strings: "hello world" − "o w" is
      "hellorld" and "abc" − "xyz" is "abc". */
  lemma SubtractExamples(toStr: real -> string)
    ensures PerformOperation('-', Text("hello world"), Text("o w"), toStr) == TextResult("hellorld")
    ensures PerformOperation('-', Text("abc"), Text("xyz"), toStr) == TextResult("abc")
  {
    var hay := "hello world";
    assert OccursAt(hay, "o w", 4);
    assert !OccursAt(hay, "o w", 0) by { assert hay[0..3][0] == hay[0] == 'h'; }
    assert !OccursAt(hay, "o w", 1) by { assert hay[1..4][0] == hay[1] == 'e'; }
    assert !OccursAt(hay, "o w", 2) by { assert hay[2..5][0] == hay[2] == 'l'; }
    assert !OccursAt(hay, "o w", 3) by { assert hay[3..6][0] == hay[3] == 'l'; }
    assert Find(hay, "o w") == Some(4);
    assert hay[..4] + hay[7..] == "hellorld";
    assert !OccursAt("abc", "xyz", 0) by { assert "abc"[0..3][0] == 'a'; }
    assert Find("abc", "xyz").None?;
  }

  /** The line `perform_operation` prints for an outcome, without its line
      end: a number through the stream formatting `streamNum` (a parameter), a
      string as it is, an error as "Error: " followed by its message, and no
      line at all for an operator the `switch` does not handle. */
  function OutcomeLine(o: Outcome, streamNum: real -> string): (line: Option<string>)
    ensures line.None? <==> o.NoOutput?
    ensures o.Error? ==> line.Some? && |line.value| > 7 && line.value[..7] == "Error: "
    ensures o.TextResult? ==> line == Some(o.s)
    ensures o.NumResult? ==> line == Some(streamNum(o.n))
  {
    match o
    case NumResult(n) => Some(streamNum(n))
    case TextResult(s) => Some(s)
    case Error(kind) => Some("Error: " + Message(kind))
    case NoOutput => None
  }

  /** The four error lines are distinct: the printed line tells which error
      occurred. */
  lemma ErrorLineIdentifiesKind(k1: ErrorKind, k2: ErrorKind, streamNum: real -> string)
    requires OutcomeLine(Error(k1), streamNum) == OutcomeLine(Error(k2), streamNum)
    ensures k1 == k2
  {
    assert Message(k1) == OutcomeLine(Error(k1), streamNum).value[7..];
    assert Message(k2) == OutcomeLine(Error(k2), streamNum).value[7..];
    assert Message(k1)[0] == Message(k2)[0] && Message(k1)[8] == Message(k2)[8];
  }

  /** The line printed for each error of the table, and no line for an
      operator outside + - * /. */
  lemma PrintedErrorLines(streamNum: real -> string, toStr: real -> string)
    ensures OutcomeLine(PerformOperation('/', Number(5.0), Number(0.0), toStr), streamNum)
         == Some("Error: " + "Division by zero")
    ensures OutcomeLine(PerformOperation('-', Text("a"), Number(1.0), toStr), streamNum)
         == Some("Error: " + "Invalid operation between string and number")
    ensures OutcomeLine(PerformOperation('*', Text("a"), Text("b"), toStr), streamNum)
         == Some("Error: " + "Invalid string multiplication")
    ensures OutcomeLine(PerformOperation('/', Number(1.0), Text("a"), toStr), streamNum)
         == Some("Error: " + "Cannot divide strings")
    ensures OutcomeLine(PerformOperation('%', Number(1.0), Text("a"), toStr), streamNum).None?
  {
    assert PerformOperation('/', Number(5.0), Number(0.0), toStr) == Error(DivisionByZero);
    assert PerformOperation('-', Text("a"), Number(1.0), toStr) == Error(InvalidOperandCombination);
    assert PerformOperation('*', Text("a"), Text("b"), toStr) == Error(InvalidStringMultiplication);
    assert PerformOperation('/', Number(1.0), Text("a"), toStr) == Error(CannotDivideStrings);
    assert PerformOperation('%', Number(1.0), Text("a"), toStr) == NoOutput;
  }

  /** Examples for `/`: 5 / 0 is a division by zero, and a
      division with a string operand reports that strings cannot be divided. */
  lemma DivideExamples(toStr: real -> string)
    ensures PerformOperation('/', Number(5.0), Number(0.0), toStr) == Error(DivisionByZero)
    ensures PerformOperation('/', Text("a"), Number(1.0), toStr) == Error(CannotDivideStrings)
  {
  }
}
