# ClaudiaCalc v2.0 value engine, modelled in Dafny

ClaudiaCalc is an interactive calculator with four registers, A to D. In its
second variant (`claudia_calc_example2.cpp`) a register holds either a number
or a string, and the operators `+ - * /` behave differently depending on
whether each operand is a number or a string. This project models that engine:

- `values.dfy`, module `Values`: the register value (`Number` or `Text`) and the
  display of a value by `format_value`.
- `classify.dfy`, module `Classify`: `is_register`, `to_reg_name` and
  `to_char` for characters and strings, and `parse_input`, which reads an
  input line as a number only when the whole line parses.
- `text_ops.dfy`, module `TextOps`: the string work the operators do. This is
  first-occurrence search and removal (`std::string::find`, `erase`),
  truncation of the repeat count (`static_cast<int>`), and repetition. The
  repetition is given both as a recursive function and as the appending loop
  of the source.
- `operation.dfy`, module `Operation`: `perform_operation` as a function that
  returns its outcome (a number, a string, one of four errors, or nothing),
  and the line printed for that outcome as a function of it.
- `registers.dfy`, module `Registers`: the global register map as a class,
  with the set, clear and operator paths of `execute` as methods.

Numbers are `real`s. Four things are parameters of the functions that use
them: `to_string(double)`, the fixed three-decimal display of numbers, the
`cout` formatting of a number, and `stod`. For `stod` the model only needs to know how many characters it
consumed, or that it threw.

A `std::string` is a `seq<char>` holding one `char` per byte of the C++
string. Lengths, indices and the positions `find` and `erase` use count those
bytes, as the C++ does. A `char` above 255 corresponds to nothing in the
source.

Three behaviours of the code are worth knowing, and the model keeps each
as written:

- A division with any string operand prints "Cannot divide strings"
  (claudia_calc_example2.cpp:172-173), even when the other operand is a
  number.
- `is_register` compares the lower-cased character with 'a' but the raw
  character with 'd' (claudia_calc_example2.cpp:30). So it accepts every
  upper-case letter 'A'..'Z', not just A..D.
  - `Classify.UpperLettersBeyondD` proves this.
  - For 'E'..'Z', `to_reg_name` gives 4..25.
  - An operator command naming such a register reads it with
    `std::map::operator[]`. That inserts a fifth key holding zero
    (`Registers.FifthRegisterScenario`).
  - For this reason the store is a `map` over `nat`, not a four-slot array.
  - This assumes `reg_name` can hold 4..25. The enumeration is declared in
    claudia_calc_example.h, which is not part of this model.
- The program's menu names the registers in upper case ("Enter a number or
  string for A,B,C,D", "Clear register A,B,C,D",
  claudia_calc_example2.cpp:80-81). `to_char` (claudia_calc_example2.cpp:44)
  shows them in lower case.

## Model

| member | source | states |
|---|---|---|
| `Values.FormatTextReadBack` | claudia_calc_example2.cpp:60 | a string value is shown as a quote, the string itself and `" (string)`; the stored string can be read back from the display |
| `Values.FormatTextInjective` | claudia_calc_example2.cpp:60 | two string values display alike only when they are equal |
| `Values.FormatKindsDisjoint` | claudia_calc_example2.cpp:58-60 | a string value never displays like a number value, whatever the numeric formatting |
| `Classify.ToLower` | claudia_calc_example2.cpp:30 | `tolower` moves 'A'..'Z' to 'a'..'z' by 32 and leaves every other character alone |
| `Classify.IsRegisterCharExactly` | claudia_calc_example2.cpp:30 | `is_register(ch)` holds exactly for 'a'..'d' and for 'A'..'Z' |
| `Classify.RegisterStringFirstChar` | claudia_calc_example2.cpp:32-42 | a string names a register exactly when it is non-empty and starts with 'a'..'d' or 'A'..'Z'; two strings with the same first character agree on whether they name a register and on which register `to_reg_name` gives |
| `Classify.ToRegName` | claudia_calc_example2.cpp:34-37 | for a register character, `to_reg_name` is below 26 |
| `Classify.ToRegNameStr` | claudia_calc_example2.cpp:39-42 | for a register string, the name is below 26 |
| `Classify.ToChar` | claudia_calc_example2.cpp:44 | `to_char` of a name below 26 is the lower-case letter that far from 'a' |
| `Classify.RegisterLettersRoundTrip` | claudia_calc_example2.cpp:34-44 | 'a'..'d' and 'A'..'D' name registers 0..3 in order, and `to_char(to_reg_name(ch)) == tolower(ch)` |
| `Classify.UpperLettersBeyondD` | claudia_calc_example2.cpp:30-37 | 'E'..'Z' are accepted as registers and name 4..25, outside the four registers |
| `Classify.ShownLetterIsRegister` | claudia_calc_example2.cpp:30-44 | the letter a register is shown as is a register character only for registers 0..3, and then names that register again |
| `Classify.ParseInput` | claudia_calc_example2.cpp:96-108 | the result is a number exactly when `stod` succeeds and consumes the whole input, and then it is the parsed number; otherwise it is the input unchanged as text (partial parse or exception) |
| `Classify.ParseEmptyIsText` | claudia_calc_example2.cpp:96-108 | when `stod` throws on the empty string, the empty input becomes the empty text |
| `Classify.ParseTextDisplayReadBack` | claudia_calc_example2.cpp:96-108 | an input kept as text displays as the quoted input with the string suffix, and the text between the quote and the suffix is the input again |
| `TextOps.FindFrom` | claudia_calc_example2.cpp:135 | the result is the least index at or after the start where the needle occurs, or none when it occurs nowhere there |
| `TextOps.Find` | claudia_calc_example2.cpp:135 | `find` succeeds exactly when the needle occurs somewhere; it returns the least such index, and 0 for the empty needle |
| `TextOps.RemoveFirst` | claudia_calc_example2.cpp:133-140 | at the first occurrence p the result is `left[..p] + left[p+|right|..]`, of length `|left| - |right|`, and putting `right` back at p gives `left`; with no occurrence, or an empty `right`, it is `left` unchanged |
| `TextOps.Trunc` | claudia_calc_example2.cpp:147 | `static_cast<int>` truncates toward zero, and the count is at most 0 exactly when the number is below 1 |
| `TextOps.RepeatLength` | claudia_calc_example2.cpp:151-154 | `count` copies of `s` have length `count * |s|` |
| `TextOps.RepeatAt` | claudia_calc_example2.cpp:151-154 | character `i` of the repetition is character `i mod |s|` of `s` |
| `TextOps.RepeatLoop` | claudia_calc_example2.cpp:151-155 | the appending loop builds exactly the recursive repetition, and nothing when the count is 0 or less |
| `Operation.PerformOperation` | claudia_calc_example2.cpp:110-177 | the error table in both directions: division by zero exactly for two numbers with a zero divisor; "invalid operation" exactly for `-` with mixed operands; "invalid string multiplication" exactly for `*` on two strings; "cannot divide strings" exactly for `/` with any string operand; no output exactly for other operators; number results only from two numbers, string results only when some operand is a string |
| `Operation.NumberOperations` | claudia_calc_example2.cpp:111-125 | with two numbers each operator gives its arithmetic result, and the only error is `/` by zero |
| `Operation.ConcatLeftThenRight` | claudia_calc_example2.cpp:128-132 | `+` with a string operand concatenates left then right, a number first turned into text by `to_string` |
| `Operation.SubtractStrings` | claudia_calc_example2.cpp:133-144 | `-` on two strings removes the first occurrence of the right string (length drops by its length), and leaves the left string unchanged when it does not occur or is empty |
| `Operation.MultiplyStringByNumber` | claudia_calc_example2.cpp:145-167 | `*` with one string and one number is symmetric in operand order; it is empty for a number below 1, and otherwise `Floor(n)` copies of the string, of length `Floor(n) * |s|`, whose characters cycle through the string |
| `Operation.MultiplyExamples` | claudia_calc_example2.cpp:145-167 | 3 × "ab" is "ababab" either way round; 0 and -2 give "" |
| `Operation.SubtractExamples` | claudia_calc_example2.cpp:133-140 | "hello world" − "o w" is "hellorld"; "abc" − "xyz" is "abc" |
| `Operation.OutcomeLine` | claudia_calc_example2.cpp:116-173 | a number is printed through the stream formatting, a string as it is, an error as a line starting "Error: " followed by its message, and an operator outside + - * / prints no line |
| `Operation.ErrorLineIdentifiesKind` | claudia_calc_example2.cpp:121-173 | the four error lines differ, so the printed line tells which error occurred |
| `Operation.PrintedErrorLines` | claudia_calc_example2.cpp:119-174 | 5 / 0 prints "Error: Division by zero"; "a" − 1 prints "Error: Invalid operation between string and number"; "a" × "b" prints "Error: Invalid string multiplication"; 1 / "a" prints "Error: Cannot divide strings"; '%' prints nothing |
| `Operation.DivideExamples` | claudia_calc_example2.cpp:119-173 | 5 / 0 is a division by zero; "a" / 1 reports that strings cannot be divided |
| `Registers.InitialRegisters` | claudia_calc_example2.cpp:19-24 | the store starts with exactly the keys A..D (0..3), all holding number zero |
| `Registers.ValueAt` | claudia_calc_example2.cpp:226 | reading a register yields its value, or number zero for a missing key |
| `Registers.RegisterStore.constructor` | claudia_calc_example2.cpp:19-24 | a new store holds the initial map and establishes the invariant that registers A..D (0..3) are present, which every method requires and keeps |
| `Registers.RegisterStore.Store` | claudia_calc_example2.cpp:202 | assignment overwrites one register and leaves the others unchanged |
| `Registers.RegisterStore.Subscript` | claudia_calc_example2.cpp:226 | `operator[]` returns the stored value, or inserts and returns number zero for a missing key; no existing register changes |
| `Registers.RegisterStore.SetCommand` | claudia_calc_example2.cpp:197-202 | an empty line changes nothing and is refused; otherwise `parse_input` of the line is written to register `cmd_ch - 'a'` and to no other |
| `Registers.RegisterStore.ClearCommand` | claudia_calc_example2.cpp:233-235 | clear '1'..'4' sets register `cmd_ch - '1'` to number zero and leaves the others unchanged; it prints "Cleared register " and a letter 'a'..'d' that names the cleared register |
| `Registers.RegisterStore.OperatorCommand` | claudia_calc_example2.cpp:218-226 | non-register characters print "Error: Invalid registers" with no change; otherwise the outcome is `perform_operation` on the two registers' values, and the printed text is the echo "<r1> <op> <r2> = " with the registers as lower-case letters, then the outcome's line. No existing register changes; the only new keys are the names read, holding zero; naming two of A..D leaves the map exactly as it was |
| `Registers.FifthRegisterScenario` | claudia_calc_example2.cpp:218-226 | an operator command naming 'E' on a fresh store leaves five keys, 0..4, and computes 0 + 0 |
| `Registers.RegisterStore.SetAndDisplay` | claudia_calc_example2.cpp:197-203 | for any store and command 'a'..'d': an empty line prints "Error: Empty input" with no change; otherwise the register is set to `parse_input` of the line and the confirmation is "Register <c> set to " plus the numeric formatting and " (number)", or the quoted input and " (string)" |

## Left out

- Terminal input is not modelled: the menu, the prompts, `cin`/`getline` handling, the `start` loop and `main`. Each `execute` path is modelled from input already read.
- Output is modelled as the text of each printed line, without its line end. The set path's confirmation and "Error: Empty input" come from `SetAndDisplay`. The operator path's echo, its outcome line and "Error: Invalid registers" come from `OperatorCommand`. The clear path's "Cleared register <c>" comes from `ClearCommand`. The printing in `print_registers` is not modelled.
- The dispatch on the command character itself is not modelled, nor the "Error: Empty command", 'm', 'p', 'q' and unknown-command cases, nor the "Invalid input" path for a failed `cin` read.
- Floating point is not modelled. Numbers are reals, so sums, differences, products and quotients of two numbers carry no rounding. Their `cout` formatting is the parameter `streamNum` of `Operation.OutcomeLine`.
- `to_string(double)`, the numeric branch of `format_value` and `stod` are parameters, not definitions. The numeric branch is fixed three-decimal output with its trailing-zero and trailing-point trimming done by `erase`/`pop_back` in place. For `stod`, its grammar is not part of this model: leading whitespace, inf/nan, hexadecimal and out-of-range.
- `Classify.ParseEmptyIsText`: it relies on the standard's promise that `stod` throws on an empty string, which is stated as a precondition on the `stod` parameter.
- `TextOps.Trunc`: numbers outside the `int` range are not considered, because the cast is undefined there.
- `Classify.ToLower`: it models `tolower` in the C locale on `char` values, and does not model negative `char` values, for which `tolower` is undefined.
- `std::string::find` and `erase` are library calls. They are modelled by their effect on values, so `erase` returns a new string instead of changing the copy in place.
- The order in which `print_registers` lists the map is not modelled.
- `Registers.RegisterStore.OperatorCommand`: registers 'E'..'Z' are stored under the keys 4..25. This assumes `reg_name` can hold those values. claudia_calc_example.h, where `reg_name` is declared, is not part of this model. If it were an unscoped enumeration without a fixed underlying type and with only A..D, casting 4..25 to it would be undefined in C++17.
- Characters are bytes: a `seq<char>` stands for a `std::string`, one `char` per byte. Multi-byte encodings and `char` values above 255 are not modelled.
- claudia_calc_example.cpp, the earlier numbers-only variant, is not part of this model. Its register helpers are the same as those modelled here.
