/** The global register map and the three paths of `execute` that touch it:
    setting a register from an input line, applying an operator to two
    registers, and clearing a register. Reading and printing are not part of
    this model; each path starts from input already read. */
module Registers {
  import opened Values
  import opened Classify
  import opened Operation

  /** The map the program starts with: A, B, C and D all hold zero. */
  function InitialRegisters(): (m: map<RegName, RegisterValue>)
    ensures m.Keys == {0, 1, 2, 3}
    ensures forall k :: k in m ==> m[k] == Zero
  {
    map[0 := Zero, 1 := Zero, 2 := Zero, 3 := Zero]
  }

  /** What `registers[rn]` yields: the stored value, or the default-constructed
      value (number zero) for a key not in the map. */
  function ValueAt(m: map<RegName, RegisterValue>, rn: RegName): (v: RegisterValue)
    ensures rn !in m ==> v == Zero
    ensures rn in m ==> v == m[rn]
  {
    if rn in m then m[rn] else Zero
  }

  /** The outcome of an operator command: a register character that is not a
      register is reported, otherwise the operation's outcome is printed. */
  datatype OperatorCommandResult = InvalidRegisters | Evaluated(outcome: Outcome)

  /** The `registers` map. Every name the program can write to is a `nat`, so
      a name beyond D that a register character produces shows up as a key. */
  class RegisterStore {
    var registers: map<RegName, RegisterValue>

    /** The four registers A..D are always present. */
    ghost predicate Populated()
      reads this
    {
      forall k: RegName :: k < 4 ==> k in registers
    }

    constructor ()
      ensures registers == InitialRegisters()
      ensures Populated()
    {
      registers := InitialRegisters();
    }

    /** `registers[rn] = v`: one register overwritten, the others unchanged. */
    method Store(rn: RegName, v: RegisterValue)
      requires Populated()
      modifies this
      ensures Populated()
      ensures registers == old(registers)[rn := v]
    {
      registers := registers[rn := v];
    }

    /** `registers[rn]` as a read: `std::map::operator[]` inserts the default
        value (number zero) when the key is missing, and changes nothing else. */
    method Subscript(rn: RegName) returns (v: RegisterValue)
      requires Populated()
      modifies this
      ensures Populated()
      ensures v == ValueAt(old(registers), rn)
      ensures registers == old(registers)[rn := v]
      ensures forall k :: k in old(registers) ==> k in registers && registers[k] == old(registers)[k]
    {
      if rn !in registers {
        registers := registers[rn := Zero];
      }
      v := registers[rn];
    }

    /** The set path of `execute` for command 'a'..'d': an empty input line is
        refused and changes nothing; otherwise the parsed input is written to
        the named register and to no other. */
    method SetCommand(cmdCh: char, input: string, stod: string -> StodResult) returns (ok: bool)
      requires 'a' <= cmdCh <= 'd'
      requires Populated()
      modifies this
      ensures Populated()
      ensures ok <==> input != []
      ensures ok ==> registers == old(registers)[ToRegName(cmdCh) := ParseInput(input, stod)]
      ensures !ok ==> registers == old(registers)
    {
      if input == [] {
        return false;
      }
      RegisterLettersRoundTrip(cmdCh);
      Store(ToRegName(cmdCh), ParseInput(input, stod));
      ok := true;
    }

    /** The clear path of `execute` for command '1'..'4': register
        `cmdCh - '1'` becomes number zero and every other register keeps its
        value, and the line "Cleared register <c>" names it by the letter
        `to_char` shows, a letter that names the cleared register again. */
    method ClearCommand(cmdCh: char) returns (shown: string)
      requires '1' <= cmdCh <= '4'
      requires Populated()
      modifies this
      ensures Populated()
      ensures registers == old(registers)[cmdCh as int - '1' as int := Zero]
      ensures |shown| == 18 && shown[..17] == "Cleared register "
      ensures 'a' <= shown[17] <= 'd' && ToRegName(shown[17]) == cmdCh as int - '1' as int
    {
      var rn: RegName := cmdCh as int - '1' as int;
      registers := registers[rn := Zero];
      ShownLetterIsRegister(rn);
      shown := "Cleared register " + [ToChar(rn)];
    }

    /** The operator path of `execute` for '+', '-', '*' and '/': two register
        characters are checked, both registers are read with `operator[]` and
        the operation is applied to their values. What is printed is an error
        line for characters that are not registers, and otherwise the echo
        "<r1> <op> <r2> = ", the registers shown by `to_char`, followed by the
        outcome's line, if it has one. No register value changes;
        the only possible change is a new key, holding zero, for a character
        beyond 'D' that `is_register` accepts. Since A..D are always present,
        naming two of them leaves the map exactly as it was. */
    method OperatorCommand(op: char, reg1: char, reg2: char, toStr: real -> string,
                           streamNum: real -> string)
      returns (r: OperatorCommandResult, shown: string)
      requires Populated()
      modifies this
      ensures Populated()
      ensures !(IsRegisterChar(reg1) && IsRegisterChar(reg2)) ==>
        r == InvalidRegisters && registers == old(registers) && shown == "Error: Invalid registers"
      ensures IsRegisterChar(reg1) && IsRegisterChar(reg2) ==>
        r.Evaluated? && |shown| >= 8 &&
        shown[..8] == [ToChar(ToRegName(reg1)), ' ', op, ' ', ToChar(ToRegName(reg2)), ' ', '=', ' '] &&
        'a' <= shown[0] <= 'z' && 'a' <= shown[4] <= 'z' &&
        (r.outcome.NoOutput? ==> shown[8..] == []) &&
        (OutcomeLine(r.outcome, streamNum).Some? ==> shown[8..] == OutcomeLine(r.outcome, streamNum).value)
      ensures IsRegisterChar(reg1) && IsRegisterChar(reg2) ==>
        r == Evaluated(PerformOperation(op, ValueAt(old(registers), ToRegName(reg1)),
                                        ValueAt(old(registers), ToRegName(reg2)), toStr))
      ensures IsRegisterChar(reg1) && IsRegisterChar(reg2) ==>
        registers.Keys == old(registers).Keys + {ToRegName(reg1), ToRegName(reg2)}
      ensures forall k :: k in old(registers) ==> k in registers && registers[k] == old(registers)[k]
      ensures forall k :: k in registers && k !in old(registers) ==>
        registers[k] == Zero && IsRegisterChar(reg1) && IsRegisterChar(reg2) &&
        (k == ToRegName(reg1) || k == ToRegName(reg2))
      ensures (IsRegisterChar(reg1) && IsRegisterChar(reg2) &&
               ToRegName(reg1) < 4 && ToRegName(reg2) < 4) ==>
        registers == old(registers)
    {
      if !IsRegisterChar(reg1) || !IsRegisterChar(reg2) {
        return InvalidRegisters, "Error: Invalid registers";
      }
      var v1 := Subscript(ToRegName(reg1));
      var v2 := Subscript(ToRegName(reg2));
      r := Evaluated(PerformOperation(op, v1, v2, toStr));
      var echo := [ToChar(ToRegName(reg1)), ' ', op, ' ', ToChar(ToRegName(reg2)), ' ', '=', ' '];
      match OutcomeLine(r.outcome, streamNum)
      case Some(line) => shown := echo + line;
      case None => shown := echo;
    }

    /** The set path with its confirmation line: an empty input line prints
        "Error: Empty input" and changes nothing; otherwise the parsed input is
        written to the named register and the line "Register <c> set to "
        followed by `format_value` of that register is printed. A line that
        parses as a whole number is shown through the numeric formatting,
        anything else quoted as the very text entered. */
    method SetAndDisplay(cmdCh: char, input: string, stod: string -> StodResult,
                         fixedTrimmed: real -> string)
      returns (ok: bool, shown: string)
      requires 'a' <= cmdCh <= 'd'
      requires Populated()
      modifies this
      ensures Populated()
      ensures ok <==> input != []
      ensures ok ==> registers == old(registers)[ToRegName(cmdCh) := ParseInput(input, stod)]
      ensures !ok ==> registers == old(registers) && shown == "Error: Empty input"
      ensures ok && ParseInput(input, stod).Text? ==>
        shown == "Register " + [cmdCh] + " set to " + "\"" + input + StringSuffix
      ensures ok && ParseInput(input, stod).Number? ==>
        shown == "Register " + [cmdCh] + " set to " + fixedTrimmed(stod(input).value) + NumberSuffix
    {
      ok := SetCommand(cmdCh, input, stod);
      if !ok {
        shown := "Error: Empty input";
        return;
      }
      shown := "Register " + [cmdCh] + " set to " + FormatValue(registers[ToRegName(cmdCh)], fixedTrimmed);
    }
  }

  /** An operator command naming 'E' on a fresh store: `is_register` accepts
      the character, the read inserts a fifth key (4) holding zero, and the
      operation sees zero for it. */
  method FifthRegisterScenario() returns (keys: set<RegName>, r: OperatorCommandResult)
    ensures keys == {0, 1, 2, 3, 4}
    ensures r == Evaluated(NumResult(0.0))
  {
    var store := new RegisterStore();
    UpperLettersBeyondD('E');
    RegisterLettersRoundTrip('a');
    assert ToRegName('E') == 4 && ToRegName('a') == 0;
    var shown;
    r, shown := store.OperatorCommand('+', 'E', 'a', n => [], n => []);
    keys := store.registers.Keys;
    assert keys == {0, 1, 2, 3} + {4, 0};
  }
}
