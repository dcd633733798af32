/**
 * The command console of the waypoint tool: an input line is split on
 * spaces into a command name, flags (tokens starting with `--`, some of
 * which take the next token as their argument) and a trailing value; the
 * line is accepted only when the command and its flags are registered;
 * `add` turns the value into coordinates, applies its flags in order and
 * stores a waypoint record, and `help` lists the registered commands.
 */
module Commands {
  import opened Builtins
  import opened Helper
  import opened CoordinateConverter
  import opened Waypoints

  // ---------------------------------------------------------------------
  // Commands, flags and the registry
  // ---------------------------------------------------------------------

  /** A registered command: its help text, whether it needs a non-empty
      value, and its flags, each marked with whether it takes an argument
      (a marker other than False). */
  datatype Command = Command(help: string, requiresValue: bool, flags: map<string, bool>)

  /** A flag as typed: the flag itself, its token index, and its argument
      with the argument's token index, when it took one. */
  datatype UserFlag = UserFlag(flag: string, flagIndex: nat, value: Option<string>, valueIndex: Option<nat>)

  /** A parsed input line. */
  datatype UserCommand = UserCommand(coreCommand: string, flags: seq<UserFlag>, value: string)

  /** The command registry, a Python dictionary: its keys in insertion
      order, and the command registered under each key. */
  datatype Registry = Registry(keys: seq<string>, commands: map<string, Command>)
  {
    predicate Valid()
    {
      (forall i, j :: 0 <= i < j < |keys| ==> keys[i] != keys[j]) &&
      (forall k :: k in commands ==> k in keys) &&
      (forall i :: 0 <= i < |keys| ==> keys[i] in commands)
    }

    /** `registry[name] = command`: a new key goes last, an existing key
        keeps its place and gets the new command. */
    function Register(name: string, command: Command): Registry
    {
      Registry(if name in commands then keys else keys + [name], commands[name := command])
    }
  }

  const EMPTY_REGISTRY: Registry := Registry([], map[])

  /** Registering keeps the registry well formed, binds the name to the new
      command, leaves every other binding alone, and keeps the order of the
      keys, with a new name placed last. */
  lemma RegisterUpdates(reg: Registry, name: string, command: Command)
    requires reg.Valid()
    ensures reg.Register(name, command).Valid()
    ensures reg.Register(name, command).commands[name] == command
    ensures forall k :: k in reg.commands && k != name ==>
      k in reg.Register(name, command).commands && reg.Register(name, command).commands[k] == reg.commands[k]
    ensures name in reg.commands ==> reg.Register(name, command).keys == reg.keys
    ensures name !in reg.commands ==> reg.Register(name, command).keys == reg.keys + [name]
  {
    var r := reg.Register(name, command);
    if name !in reg.commands {
      forall i, j | 0 <= i < j < |r.keys| ensures r.keys[i] != r.keys[j] {
        if j == |reg.keys| {
          assert r.keys[i] == reg.keys[i] && reg.keys[i] in reg.commands;
        }
      }
    }
  }

  // ---------------------------------------------------------------------
  // Parsing an input line (Console.handleInput)
  // ---------------------------------------------------------------------

  /** Tokens `handleInput` can inspect: an empty token (two spaces in a
      row) or a lone `-` makes its test of the first two characters raise
      IndexError. */
  predicate WellFormedTokens(tokens: seq<string>)
  {
    forall i :: 0 <= i < |tokens| ==> tokens[i] != "" && tokens[i] != "-"
  }

  predicate IsFlagToken(t: string) { |t| >= 2 && t[0] == '-' && t[1] == '-' }

  /** The flag is declared by the command with a marker other than False. */
  predicate TakesArgument(reg: Registry, command: string, flag: string)
  {
    command in reg.commands && flag in reg.commands[command].flags && reg.commands[command].flags[flag]
  }

  /** The flag recorded for token i: it takes token i + 1 as its argument
      when it takes an argument and that token exists; any lookup that
      fails leaves both the argument and its index unset. */
  function MakeFlag(reg: Registry, tokens: seq<string>, i: nat): UserFlag
    requires i < |tokens|
  {
    if TakesArgument(reg, tokens[0], tokens[i]) && i + 1 < |tokens| then
      UserFlag(tokens[i], i, Some(tokens[i + 1]), Some(i + 1))
    else
      UserFlag(tokens[i], i, None, None)
  }

  /** The flags among the first n tokens, in input order. */
  function FlagsUpTo(reg: Registry, tokens: seq<string>, n: nat): seq<UserFlag>
    requires n <= |tokens|
  {
    if n == 0 then []
    else
      var prev := FlagsUpTo(reg, tokens, n - 1);
      if IsFlagToken(tokens[n - 1]) then prev + [MakeFlag(reg, tokens, n - 1)] else prev
  }

  /** The flags among the first n tokens are exactly the flag tokens there,
      in increasing token order, each as `MakeFlag` records it. */
  lemma {:induction false} FlagsUpToExact(reg: Registry, tokens: seq<string>, n: nat)
    requires n <= |tokens|
    ensures var r := FlagsUpTo(reg, tokens, n);
      (forall j :: 0 <= j < |r| ==>
        r[j].flagIndex < n && IsFlagToken(tokens[r[j].flagIndex]) && r[j] == MakeFlag(reg, tokens, r[j].flagIndex)) &&
      (forall j, k :: 0 <= j < k < |r| ==> r[j].flagIndex < r[k].flagIndex) &&
      (forall i :: 0 <= i < n && IsFlagToken(tokens[i]) ==> exists j :: 0 <= j < |r| && r[j].flagIndex == i)
  {
    if n > 0 {
      FlagsUpToExact(reg, tokens, n - 1);
      var prev := FlagsUpTo(reg, tokens, n - 1);
      if IsFlagToken(tokens[n - 1]) {
        var r := prev + [MakeFlag(reg, tokens, n - 1)];
        assert r[|prev|].flagIndex == n - 1;
        assert forall j :: 0 <= j < |prev| ==> r[j] == prev[j];
      }
    }
  }

  /** One more token adds its flag, if it is one. */
  lemma FlagsStep(reg: Registry, tokens: seq<string>, n: nat)
    requires n < |tokens|
    ensures FlagsUpTo(reg, tokens, n + 1) ==
      FlagsUpTo(reg, tokens, n) + if IsFlagToken(tokens[n]) then [MakeFlag(reg, tokens, n)] else []
  {
  }

  /** A flag's argument and the argument's index are set together. */
  predicate Paired(f: UserFlag) { f.value.Some? == f.valueIndex.Some? }

  /** Where the trailing value starts: after the last flag's argument, or
      after the last flag when it took none, or after the command name. */
  function ValueStart(flags: seq<UserFlag>): nat
    requires forall j :: 0 <= j < |flags| ==> Paired(flags[j])
  {
    if flags == [] then 1
    else
      var last := flags[|flags| - 1];
      assert Paired(last);
      if last.value.None? then last.flagIndex + 1 else last.valueIndex.value + 1
  }

  /** Python's `tokens[start:]`, which is empty once `start` is past the end. */
  function Tail(tokens: seq<string>, start: nat): seq<string>
  {
    if start <= |tokens| then tokens[start..] else []
  }

  /** The command `handleInput` builds from an input line. */
  function Parse(reg: Registry, input: string): (cmd: UserCommand)
  {
    var tokens := Split(input, ' ');
    var flags := FlagsUpTo(reg, tokens, |tokens|);
    ParsedFlagsPaired(reg, tokens);
    UserCommand(tokens[0], flags, Join(Tail(tokens, ValueStart(flags)), ' '))
  }

  /** The flags of a parsed line are exactly its `--` tokens, in input
      order, each with its token index; a flag has an argument exactly when
      the command is registered, declares the flag with a marker other than
      False, and a next token exists, and the argument is that next token. */
  lemma FlagDetection(reg: Registry, input: string)
    ensures var tokens, flags := Split(input, ' '), Parse(reg, input).flags;
      (forall j :: 0 <= j < |flags| ==>
        flags[j].flagIndex < |tokens| && IsFlagToken(tokens[flags[j].flagIndex]) &&
        flags[j].flag == tokens[flags[j].flagIndex] &&
        (flags[j].value.Some? <==>
          TakesArgument(reg, tokens[0], flags[j].flag) && flags[j].flagIndex + 1 < |tokens|) &&
        (flags[j].value.Some? ==>
          flags[j].value == Some(tokens[flags[j].flagIndex + 1]) && flags[j].valueIndex == Some(flags[j].flagIndex + 1)) &&
        (flags[j].value.None? ==> flags[j].valueIndex.None?)) &&
      (forall j, k :: 0 <= j < k < |flags| ==> flags[j].flagIndex < flags[k].flagIndex) &&
      (forall i :: 0 <= i < |tokens| && IsFlagToken(tokens[i]) ==>
        exists j :: 0 <= j < |flags| && flags[j].flagIndex == i)
  {
    var tokens := Split(input, ' ');
    var flags := Parse(reg, input).flags;
    assert flags == FlagsUpTo(reg, tokens, |tokens|);
    FlagsUpToExact(reg, tokens, |tokens|);
  }

  /** Every parsed flag sets its argument and the argument's index together. */
  lemma ParsedFlagsPaired(reg: Registry, tokens: seq<string>)
    ensures forall j :: 0 <= j < |FlagsUpTo(reg, tokens, |tokens|)| ==> Paired(FlagsUpTo(reg, tokens, |tokens|)[j])
  {
    FlagsUpToExact(reg, tokens, |tokens|);
  }

  /** The trailing value starts after every flag token, and after the
      argument of the last flag when it took one. */
  lemma {:induction false} FlagsBeforeValue(reg: Registry, tokens: seq<string>)
    ensures var flags := FlagsUpTo(reg, tokens, |tokens|);
      (forall j :: 0 <= j < |flags| ==> Paired(flags[j])) &&
      (forall k :: 0 <= k < |tokens| && IsFlagToken(tokens[k]) ==> k < ValueStart(flags)) &&
      (flags != [] && flags[|flags| - 1].valueIndex.Some? ==> flags[|flags| - 1].valueIndex.value < ValueStart(flags))
  {
    var flags := FlagsUpTo(reg, tokens, |tokens|);
    FlagsUpToExact(reg, tokens, |tokens|);
    var s := ValueStart(flags);
    forall k | 0 <= k < |tokens| && IsFlagToken(tokens[k]) ensures k < s {
      var j :| 0 <= j < |flags| && flags[j].flagIndex == k;
      assert j == |flags| - 1 || flags[j].flagIndex < flags[|flags| - 1].flagIndex;
    }
  }

  /** The trailing value is the tokens from `ValueStart` on, joined with
      single spaces: splitting it on spaces gives them back. */
  lemma TrailingValue(reg: Registry, input: string)
    ensures var tokens := Split(input, ' '); var flags := FlagsUpTo(reg, tokens, |tokens|);
      (forall j :: 0 <= j < |flags| ==> Paired(flags[j])) &&
      (ValueStart(flags) < |tokens| ==> Split(Parse(reg, input).value, ' ') == tokens[ValueStart(flags)..])
  {
    var tokens := Split(input, ' ');
    var flags := FlagsUpTo(reg, tokens, |tokens|);
    ParsedFlagsPaired(reg, tokens);
    var s := ValueStart(flags);
    if s < |tokens| {
      var rest := tokens[s..];
      assert forall i :: 0 <= i < |rest| ==> ' ' !in rest[i];
      SplitJoin(rest, ' ');
    }
  }

  // ---------------------------------------------------------------------
  // Validity (Console.checkCommandValidity)
  // ---------------------------------------------------------------------

  /** The command is registered, every flag is one it declares, and it does
      not lack a value it requires. */
  predicate IsValid(reg: Registry, cmd: UserCommand)
  {
    cmd.coreCommand in reg.commands &&
    (forall j :: 0 <= j < |cmd.flags| ==> cmd.flags[j].flag in reg.commands[cmd.coreCommand].flags) &&
    !(reg.commands[cmd.coreCommand].requiresValue && cmd.value == "")
  }

  /** One undeclared flag rejects the whole command, wherever it occurs. */
  lemma UnknownFlagRejects(reg: Registry, cmd: UserCommand, j: nat)
    requires cmd.coreCommand in reg.commands && j < |cmd.flags|
    requires cmd.flags[j].flag !in reg.commands[cmd.coreCommand].flags
    ensures !IsValid(reg, cmd)
  {
  }

  /** A line that passes the check names a registered command whose flags
      are all declared, and every flag with an argument is one declared to
      take it. */
  lemma AcceptedLine(reg: Registry, input: string)
    requires IsValid(reg, Parse(reg, input))
    ensures var cmd := Parse(reg, input);
      cmd.coreCommand == Split(input, ' ')[0] && cmd.coreCommand in reg.commands &&
      forall j :: 0 <= j < |cmd.flags| ==>
        cmd.flags[j].flag in reg.commands[cmd.coreCommand].flags &&
        (cmd.flags[j].value.Some? ==> reg.commands[cmd.coreCommand].flags[cmd.flags[j].flag])
  {
    FlagDetection(reg, input);
  }

  // ---------------------------------------------------------------------
  // The coordinate parsers
  // ---------------------------------------------------------------------

  /** How `runCommand` ends: it returns a boolean, the program exits, or an
      exception propagates. */
  datatype RunOutcome = Returned(ok: bool) | Exited | Raised(error: PyError)

  /** A step of `runCommand`: it goes on with a value, or it ends. */
  datatype Step<T> = Next(value: T) | Stop(outcome: RunOutcome)

  /** `removeCommasFromNumber` applied to each text from left to right; the
      first one that raises ends the reading. */
  function ReadNumbers(texts: seq<string>): (r: Result<seq<int>>)
    ensures r.Ok? ==> |r.value| == |texts| && forall i :: 0 <= i < |texts| ==> RemoveCommas(texts[i]) == Ok(r.value[i])
    ensures r.Err? ==> r.error == ValueError && exists i :: 0 <= i < |texts| && RemoveCommas(texts[i]).Err?
  {
    if texts == [] then Ok([])
    else
      match RemoveCommas(texts[0])
      case Err(e) => Err(e)
      case Ok(n) =>
        match ReadNumbers(texts[1..])
        case Err(e) => Err(e)
        case Ok(rest) => Ok([n] + rest)
  }

  /** `parseCoordinatesFromStringCoordinates`: "X: x Z: z" gives (x, 63, z)
      and "X: x Y: y Z: z" gives (x, y, z), each number read by
      `removeCommasFromNumber`; the labels are not checked, and any other
      number of tokens ends the program. */
  function ParseStringCoordinates(s: string): (r: Step<Coordinates>)
    ensures r.Next? ==> |r.value| == 3 && r.value[0].Int? && r.value[1].Int? && r.value[2].Int?
    ensures r == Stop(Exited) <==> |Split(s, ' ')| != 4 && |Split(s, ' ')| != 6
    ensures r.Stop? && r.outcome != Exited ==> r.outcome == Raised(ValueError)
    ensures var t := Split(s, ' '); |t| == 4 ==>
      (r.Next? <==> RemoveCommas(t[1]).Ok? && RemoveCommas(t[3]).Ok?) &&
      (r.Next? ==> r.value == [Int(RemoveCommas(t[1]).value), Int(63), Int(RemoveCommas(t[3]).value)])
    ensures var t := Split(s, ' '); |t| == 6 ==>
      (r.Next? <==> RemoveCommas(t[1]).Ok? && RemoveCommas(t[3]).Ok? && RemoveCommas(t[5]).Ok?) &&
      (r.Next? ==> r.value == [Int(RemoveCommas(t[1]).value), Int(RemoveCommas(t[3]).value), Int(RemoveCommas(t[5]).value)])
  {
    var t := Split(s, ' ');
    if |t| == 4 then
      match ReadNumbers([t[1], t[3]])
      case Err(e) => Stop(Raised(e))
      case Ok(n) => Next([Int(n[0]), Int(63), Int(n[1])])
    else if |t| == 6 then
      match ReadNumbers([t[1], t[3], t[5]])
      case Err(e) => Stop(Raised(e))
      case Ok(n) => Next([Int(n[0]), Int(n[1]), Int(n[2])])
    else
      Stop(Exited)
  }

  /** `parseCoordinatesFromTeleportCommand`: "/tp x y z" gives the ints of
      tokens 1 to 3, with a `~` in place of y read as 63. The arguments are
      read left to right, so a bad x raises ValueError before a missing z
      raises IndexError. */
  function ParseTeleportCommand(s: string): (r: Result<Coordinates>)
    ensures r.Ok? ==> |r.value| == 3 && r.value[0].Int? && r.value[1].Int? && r.value[2].Int?
    ensures r.Ok? <==> var t := Split(s, ' ');
      |t| >= 4 && PyInt(t[1]).Ok? && (t[2] == "~" || PyInt(t[2]).Ok?) && PyInt(t[3]).Ok?
    ensures var t := Split(s, ' '); r.Ok? ==>
      r.value == [Int(PyInt(t[1]).value), Int(if t[2] == "~" then 63 else PyInt(t[2]).value), Int(PyInt(t[3]).value)]
    ensures var t := Split(s, ' '); |t| < 3 ==> r == Err(IndexError)
    ensures var t := Split(s, ' '); |t| >= 3 && PyInt(t[1]).Err? ==> r == Err(ValueError)
    ensures var t := Split(s, ' '); |t| >= 3 && PyInt(t[1]).Ok? && t[2] != "~" && PyInt(t[2]).Err? ==> r == Err(ValueError)
    ensures var t := Split(s, ' '); |t| == 3 && PyInt(t[1]).Ok? && (t[2] == "~" || PyInt(t[2]).Ok?) ==> r == Err(IndexError)
    ensures var t := Split(s, ' '); |t| >= 4 && PyInt(t[1]).Ok? && (t[2] == "~" || PyInt(t[2]).Ok?) && PyInt(t[3]).Err? ==>
      r == Err(ValueError)
  {
    var t := Split(s, ' ');
    if |t| < 3 then Err(IndexError)
    else
      var y := if t[2] == "~" then "63" else t[2];
      SixtyThree();
      var a, b := PyInt(t[1]), PyInt(y);
      if a.Err? then Err(a.error)
      else if b.Err? then Err(b.error)
      else if |t| < 4 then Err(IndexError)
      else
        var c := PyInt(t[3]);
        if c.Err? then Err(c.error) else Ok([Int(a.value), Int(b.value), Int(c.value)])
  }

  /** Tokens that `int` accepts but `str` would not write: a plus sign, a
      leading zero and a negative zero. */
  lemma TeleportSignedTokensExample()
    ensures ParseTeleportCommand("/tp +05 ~ -0") == Ok([Int(5), Int(63), Int(0)])
  {
    SignedTokens();
    SignedTokenValues();
  }

  lemma SignedTokens()
    ensures Split("/tp +05 ~ -0", ' ') == ["/tp", "+05", "~", "-0"]
  {
    var a, b, c, d := "/tp", "+05", "~", "-0";
    assert "/tp +05 ~ -0" == a + " " + b + " " + c + " " + d;
    assert ' ' !in a && ' ' !in b && ' ' !in c && ' ' !in d;
    FourTokens(a, b, c, d);
  }

  lemma SignedTokenValues()
    ensures PyInt("+05") == Ok(5) && PyInt("-0") == Ok(0)
  {
    var b, d := "+05", "-0";
    var u := b[1..];
    assert u == "05" && u[..1] == "0" && u[..1][..0] == [] && AllDigits(u);
    assert DigitValue('0') == 0 && DigitValue('5') == 5;
    assert DigitsValue(u[..1]) == 0;
    assert DigitsValue(u) == 5;
    assert d[1..] == "0" && d[1..][..0] == [] && AllDigits(d[1..]);
    assert DigitsValue(d[1..]) == 0;
  }

  /** The x token is read before the missing z is looked up, so `/tp a ~`
      raises ValueError, not IndexError. */
  lemma TeleportBadXBeforeMissingZ()
    ensures ParseTeleportCommand("/tp a ~") == Err(ValueError)
  {
    var a, b, c := "/tp", "a", "~";
    SplitWithout(c, ' ');
    SplitAfterField(b, ' ', c);
    assert b + " " + c == b + [' '] + c;
    SplitAfterField(a, ' ', b + " " + c);
    assert "/tp a ~" == a + [' '] + (b + " " + c);
    assert !AllDigits(b);
  }

  lemma SixtyThree()
    ensures PyInt("63") == Ok(63)
  {
    var s := NatToString(63);
    assert 63 / 10 == 6 && 63 % 10 == 3;
    assert NatToString(6) == [DigitChar(6)];
    assert s == NatToString(6) + [DigitChar(3)];
    assert DigitChar(6) == '6' && DigitChar(3) == '3';
    assert s == "63";
    IntToStringParses(63);
  }

  /** The four space-separated tokens of `a b c d`, none holding a space. */
  lemma {:induction false} FourTokens(a: string, b: string, c: string, d: string)
    requires ' ' !in a && ' ' !in b && ' ' !in c && ' ' !in d
    ensures Split(a + " " + b + " " + c + " " + d, ' ') == [a, b, c, d]
  {
    SplitWithout(d, ' ');
    SplitAfterField(c, ' ', d);
    assert c + " " + d == c + [' '] + d;
    SplitAfterField(b, ' ', c + " " + d);
    assert b + " " + (c + " " + d) == b + [' '] + (c + " " + d);
    SplitAfterField(a, ' ', b + " " + (c + " " + d));
    assert a + " " + (b + " " + (c + " " + d)) == a + [' '] + (b + " " + (c + " " + d));
    assert a + " " + b + " " + c + " " + d == a + " " + (b + " " + (c + " " + d));
  }

  /** Regrouping the spaces of a four-token line. */
  lemma Regroup(a: string, b: string, c: string, d: string)
    ensures (a + " ") + b + (" " + c + " ") + d == a + " " + b + " " + c + " " + d
  {
  }

  /** Regrouping the spaces of a six-token line around its last four tokens. */
  lemma RegroupSix(a: string, b: string, c: string, d: string, e: string, f: string)
    ensures (a + " ") + b + (" " + c + " ") + d + (" " + e + " ") + f ==
      a + [' '] + (b + [' '] + (c + " " + d + " " + e + " " + f))
  {
  }

  lemma NoSpaceInNumber(n: int)
    ensures ' ' !in IntToString(n)
  {
    var s := IntToString(n);
    var d := NatToString(if n < 0 then -n else n);
    assert forall i :: 0 <= i < |d| ==> d[i] != ' ';
    assert s == d || s == "-" + d;
  }

  /** The labeled form of two integers is read back as those integers with
      63 for y. */
  lemma LabeledRoundTrip(x: int, z: int)
    ensures ParseStringCoordinates("X: " + IntToString(x) + " Z: " + IntToString(z)) == Next([Int(x), Int(63), Int(z)])
  {
    var sx, sz := IntToString(x), IntToString(z);
    NoSpaceInNumber(x);
    NoSpaceInNumber(z);
    assert "X: " == "X:" + " " && " Z: " == " " + "Z:" + " ";
    Regroup("X:", sx, "Z:", sz);
    FourTokens("X:", sx, "Z:", sz);
    RemoveCommasOfIntString(x);
    RemoveCommasOfIntString(z);
  }

  /** The teleport form with `~` for y is read back as the two integers with
      63 for y. */
  lemma TeleportRoundTrip(x: int, z: int)
    ensures ParseTeleportCommand("/tp " + IntToString(x) + " ~ " + IntToString(z)) == Ok([Int(x), Int(63), Int(z)])
  {
    var sx, sz := IntToString(x), IntToString(z);
    NoSpaceInNumber(x);
    NoSpaceInNumber(z);
    assert "/tp " == "/tp" + " " && " ~ " == " " + "~" + " ";
    Regroup("/tp", sx, "~", sz);
    FourTokens("/tp", sx, "~", sz);
    IntToStringParses(x);
    IntToStringParses(z);
    SixtyThree();
  }

  /** The labeled form as the seed map prints it, with thousands separators. */
  lemma LabeledExample()
    ensures ParseStringCoordinates("X: -6,652 Z: -5,420") == Next([Int(-6652), Int(63), Int(-5420)])
  {
    LabeledExampleTokens();
    RemoveCommasExample();
    RemoveCommasZeroGroupExample();
  }

  lemma LabeledExampleTokens()
    ensures Split("X: -6,652 Z: -5,420", ' ') == ["X:", "-6,652", "Z:", "-5,420"]
  {
    var a, b, c, d := "X:", "-6,652", "Z:", "-5,420";
    assert "X: -6,652 Z: -5,420" == a + " " + b + " " + c + " " + d;
    assert ' ' !in a && ' ' !in b && ' ' !in c && ' ' !in d;
    FourTokens(a, b, c, d);
  }

  /** The labeled form with all three labels is read back as the three integers. */
  lemma LabeledRoundTripWithY(x: int, y: int, z: int)
    ensures ParseStringCoordinates("X: " + IntToString(x) + " Y: " + IntToString(y) + " Z: " + IntToString(z)) ==
      Next([Int(x), Int(y), Int(z)])
  {
    var sx, sy, sz := IntToString(x), IntToString(y), IntToString(z);
    NoSpaceInNumber(x);
    NoSpaceInNumber(y);
    NoSpaceInNumber(z);
    assert "X: " == "X:" + " " && " Y: " == " " + "Y:" + " " && " Z: " == " " + "Z:" + " ";
    FourTokens("Y:", sy, "Z:", sz);
    var rest := "Y:" + " " + sy + " " + "Z:" + " " + sz;
    RegroupSix("X:", sx, "Y:", sy, "Z:", sz);
    SplitAfterField(sx, ' ', rest);
    SplitAfterField("X:", ' ', sx + [' '] + rest);
    RemoveCommasOfIntString(x);
    RemoveCommasOfIntString(y);
    RemoveCommasOfIntString(z);
  }

  /** The teleport form with a number for y is read back as the three integers. */
  lemma TeleportRoundTripWithY(x: int, y: int, z: int)
    ensures ParseTeleportCommand("/tp " + IntToString(x) + " " + IntToString(y) + " " + IntToString(z)) ==
      Ok([Int(x), Int(y), Int(z)])
  {
    var sx, sy, sz := IntToString(x), IntToString(y), IntToString(z);
    NoSpaceInNumber(x);
    NoSpaceInNumber(y);
    NoSpaceInNumber(z);
    assert "/tp " == "/tp" + " ";
    FourTokens("/tp", sx, sy, sz);
    IntToStringParses(x);
    IntToStringParses(y);
    IntToStringParses(z);
    assert sy != "~" by {
      if y < 0 { assert sy[0] == '-'; } else { assert IsDigit(sy[0]); }
    }
  }

  /** A teleport command without a z raises IndexError. */
  lemma TeleportMissingZ(x: int)
    ensures ParseTeleportCommand("/tp " + IntToString(x) + " ~") == Err(IndexError)
  {
    var sx := IntToString(x);
    NoSpaceInNumber(x);
    SplitWithout("~", ' ');
    SplitAfterField(sx, ' ', "~");
    assert sx + " ~" == sx + [' '] + "~";
    SplitAfterField("/tp", ' ', sx + " ~");
    assert "/tp " + sx + " ~" == "/tp" + [' '] + (sx + [' '] + "~");
    IntToStringParses(x);
    SixtyThree();
  }

  /** Which parser reads the value of `add`: a leading `X` the labeled form,
      a leading `/` the teleport form, a value wrapped in parentheses a
      Python tuple literal, which must have three elements; anything else
      makes `add` return False. `literalEval` stands for `ast.literal_eval`:
      `None` when it raises ValueError or SyntaxError, which is caught and
      leaves the coordinates unbound. */
  function SelectCoordinates(value: string, literalEval: string -> Option<Coordinates>): (r: Step<Coordinates>)
    requires value != ""
    ensures r.Next? ==> |r.value| == 3
    ensures value[0] != 'X' && value[0] != '/' && !(value[0] == '(' && value[|value| - 1] == ')') ==>
      r == Stop(Returned(false))
    ensures value[0] == 'X' ==> r == ParseStringCoordinates(value)
    ensures value[0] == '/' ==> (r.Next? <==> ParseTeleportCommand(value).Ok?)
    ensures value[0] == '/' && r.Next? ==> r.value == ParseTeleportCommand(value).value
    ensures value[0] == '/' && r.Stop? ==> r.outcome == Raised(ParseTeleportCommand(value).error)
    ensures value[0] == '(' && value[|value| - 1] == ')' && literalEval(value).None? ==>
      r == Stop(Raised(UnboundLocalError))
    ensures value[0] == '(' && value[|value| - 1] == ')' && literalEval(value).Some? ==>
      r == (if |literalEval(value).value| == 3 then Next(literalEval(value).value) else Stop(Returned(false)))
  {
    if value[0] == 'X' then ParseStringCoordinates(value)
    else if value[0] == '/' then
      match ParseTeleportCommand(value)
      case Ok(c) => Next(c)
      case Err(e) => Stop(Raised(e))
    else if value[0] == '(' && value[|value| - 1] == ')' then
      match literalEval(value)
      case None => Stop(Raised(UnboundLocalError))
      case Some(c) => if |c| != 3 then Stop(Returned(false)) else Next(c)
    else
      Stop(Returned(false))
  }

  // ---------------------------------------------------------------------
  // The add command
  // ---------------------------------------------------------------------

  /** The waypoint being assembled while the flags of `add` are applied. */
  datatype Draft = Draft(coords: Coordinates, name: string, initials: Option<string>, color: string, dimension: string)

  const DEFAULT_NAME: string := "new waypoint"

  /** `str` of a flag argument: a missing argument prints as "None". */
  function ArgText(v: Option<string>): string
  {
    if v.Some? then v.value else "None"
  }

  /** The dimension key a `--dimension` argument names. */
  function DimensionOf(v: Option<string>): (k: Option<string>)
    ensures k.Some? ==> IsDimension(k.value)
    ensures k.Some? <==> v == Some("overworld") || v == Some("nether") || v == Some("the_end")
    ensures v == Some("overworld") ==> k == Some(OVERWORLD)
    ensures v == Some("nether") ==> k == Some(NETHER)
    ensures v == Some("the_end") ==> k == Some(THE_END)
  {
    if v == Some("overworld") then Some(OVERWORLD)
    else if v == Some("nether") then Some(NETHER)
    else if v == Some("the_end") then Some(THE_END)
    else None
  }

  predicate SetsDimension(f: UserFlag)
  {
    f.flag == "--innether" || f.flag == "--inoverworld" || f.flag == "--dimension"
  }

  /** The effect of one flag of `add`; `None` when `--dimension` names no
      dimension, which makes `add` return False. */
  function ApplyFlag(d: Draft, f: UserFlag): (r: Option<Draft>)
    requires |d.coords| >= 2
    ensures r.None? <==> f.flag == "--dimension" && DimensionOf(f.value).None?
    ensures r.Some? ==> |r.value.coords| >= 2
    ensures r.Some? && !SetsDimension(f) ==> r.value.dimension == d.dimension
    ensures r.Some? && IsDimension(d.dimension) ==> IsDimension(r.value.dimension)
    ensures f.flag == "--innether" ==> r == Some(d.(coords := OverworldToNether(d.coords), dimension := NETHER))
    ensures f.flag == "--inoverworld" ==> r == Some(d.(coords := NetherToOverworld(d.coords), dimension := OVERWORLD))
    ensures f.flag == "--dimension" && r.Some? ==> r == Some(d.(dimension := DimensionOf(f.value).value))
    ensures f.flag == "--name" ==> r == Some(d.(name := ArgText(f.value)))
    ensures f.flag == "--initial" ==> r == Some(d.(initials := f.value))
    ensures f.flag == "--color" ==> r == Some(d.(color := ArgText(f.value)))
    ensures f.flag !in {"--innether", "--inoverworld", "--dimension", "--name", "--initial", "--color"} ==> r == Some(d)
  {
    if f.flag == "--innether" then Some(d.(coords := OverworldToNether(d.coords), dimension := NETHER))
    else if f.flag == "--inoverworld" then Some(d.(coords := NetherToOverworld(d.coords), dimension := OVERWORLD))
    else if f.flag == "--dimension" then
      var k := DimensionOf(f.value);
      if k.None? then None else Some(d.(dimension := k.value))
    else if f.flag == "--name" then Some(d.(name := ArgText(f.value)))
    else if f.flag == "--initial" then Some(d.(initials := f.value))
    else if f.flag == "--color" then Some(d.(color := ArgText(f.value)))
    else Some(d)
  }

  /** The flags of `add` applied in input order. */
  function ApplyFlags(d: Draft, flags: seq<UserFlag>): (r: Option<Draft>)
    requires |d.coords| >= 2
    ensures r.Some? ==> |r.value.coords| >= 2
    ensures r.Some? && IsDimension(d.dimension) ==> IsDimension(r.value.dimension)
  {
    if flags == [] then Some(d)
    else
      match ApplyFlags(d, flags[..|flags| - 1])
      case None => None
      case Some(d') => ApplyFlag(d', flags[|flags| - 1])
  }

  /** `add` returns False because of its flags exactly when one of them is
      a `--dimension` that names no dimension. */
  lemma {:induction false} DimensionRejected(d: Draft, flags: seq<UserFlag>)
    requires |d.coords| >= 2
    ensures ApplyFlags(d, flags).None? <==>
      exists j :: 0 <= j < |flags| && flags[j].flag == "--dimension" && DimensionOf(flags[j].value).None?
  {
    if flags != [] {
      var init := flags[..|flags| - 1];
      DimensionRejected(d, init);
      assert forall j :: 0 <= j < |init| ==> init[j] == flags[j];
      if ApplyFlags(d, init).None? {
        var j :| 0 <= j < |init| && init[j].flag == "--dimension" && DimensionOf(init[j].value).None?;
        assert flags[j] == init[j];
      }
    }
  }

  /** Flag j is the last one named `name`. */
  predicate LastOf(flags: seq<UserFlag>, j: int, name: string)
  {
    0 <= j < |flags| && flags[j].flag == name && forall k :: j < k < |flags| ==> flags[k].flag != name
  }

  /** The last `--name`, `--initial` or `--color` flag decides that field. */
  lemma {:induction false} LastFlagWins(d: Draft, flags: seq<UserFlag>, j: nat)
    requires |d.coords| >= 2 && j < |flags| && ApplyFlags(d, flags).Some?
    requires forall k :: j < k < |flags| ==> flags[k].flag != flags[j].flag
    ensures flags[j].flag == "--name" ==> ApplyFlags(d, flags).value.name == ArgText(flags[j].value)
    ensures flags[j].flag == "--initial" ==> ApplyFlags(d, flags).value.initials == flags[j].value
    ensures flags[j].flag == "--color" ==> ApplyFlags(d, flags).value.color == ArgText(flags[j].value)
  {
    var init := flags[..|flags| - 1];
    if j < |flags| - 1 {
      assert init[j] == flags[j];
      LastFlagWins(d, init, j);
    }
  }

  /** The last of `--innether`, `--inoverworld` and `--dimension` decides
      the dimension. */
  lemma {:induction false} LastDimensionFlagWins(d: Draft, flags: seq<UserFlag>, j: nat)
    requires |d.coords| >= 2 && j < |flags| && ApplyFlags(d, flags).Some?
    requires SetsDimension(flags[j]) && forall k :: j < k < |flags| ==> !SetsDimension(flags[k])
    ensures flags[j].flag == "--innether" ==> ApplyFlags(d, flags).value.dimension == NETHER
    ensures flags[j].flag == "--inoverworld" ==> ApplyFlags(d, flags).value.dimension == OVERWORLD
    ensures flags[j].flag == "--dimension" ==> DimensionOf(flags[j].value) == Some(ApplyFlags(d, flags).value.dimension)
  {
    var init := flags[..|flags| - 1];
    if j < |flags| - 1 {
      assert init[j] == flags[j];
      LastDimensionFlagWins(d, init, j);
    }
  }

  /** A field no flag sets keeps its starting value; without `--innether`
      and `--inoverworld` the coordinates are those parsed. */
  lemma {:induction false} UnflaggedFieldsKept(d: Draft, flags: seq<UserFlag>)
    requires |d.coords| >= 2 && ApplyFlags(d, flags).Some?
    ensures (forall k :: 0 <= k < |flags| ==> flags[k].flag != "--name") ==> ApplyFlags(d, flags).value.name == d.name
    ensures (forall k :: 0 <= k < |flags| ==> flags[k].flag != "--initial") ==>
      ApplyFlags(d, flags).value.initials == d.initials
    ensures (forall k :: 0 <= k < |flags| ==> flags[k].flag != "--color") ==> ApplyFlags(d, flags).value.color == d.color
    ensures (forall k :: 0 <= k < |flags| ==> !SetsDimension(flags[k])) ==>
      ApplyFlags(d, flags).value.dimension == d.dimension
    ensures (forall k :: 0 <= k < |flags| ==> flags[k].flag != "--innether" && flags[k].flag != "--inoverworld") ==>
      ApplyFlags(d, flags).value.coords == d.coords
  {
    if flags != [] {
      var init := flags[..|flags| - 1];
      assert forall k :: 0 <= k < |init| ==> init[k] == flags[k];
      UnflaggedFieldsKept(d, init);
    }
  }

  /** The placement `add` asks the store for. */
  datatype Placement = Placement(point: PyPoint, dimension: string)

  /** The record `add` stores, with the fields it always sets the same way. */
  function WaypointRecord(name: string, initials: string, coords: Coordinates, color: string): (p: PyPoint)
    requires |coords| >= 3
    ensures Storable(p)
  {
    [Str(name), Str(initials), Num(coords[0]), Num(coords[1]), Num(coords[2]), Str(color),
     Str("false"), Num(Int(0)), Str("gui.xaero_default"), Str("false"), Num(Int(0)), Str("0"), Str("false")]
  }

  /** The end of `add` once the flags are applied: initials default to the
      upper-cased first character of the name, then the record is built;
      an empty name or a coordinate pair (after `--inoverworld`) raises
      IndexError. */
  function Finish(d: Draft): (r: Step<Placement>)
  {
    if d.initials.None? && d.name == "" then Stop(Raised(IndexError))
    else if |d.coords| < 3 then Stop(Raised(IndexError))
    else
      var initials := if d.initials.Some? then d.initials.value else [UpperChar(d.name[0])];
      Next(Placement(WaypointRecord(d.name, initials, d.coords, d.color), d.dimension))
  }

  /** The default colour as written: `XaeroWaypointColors.GREEN` is a plain
      int, so reading its `.value` raises AttributeError. */
  const DEFAULT_COLOR_AS_WRITTEN: Result<string> := Err(AttributeError)

  /** The default colour as intended: the text of GREEN. */
  const DEFAULT_COLOR: Result<string> := Ok(IntToString(GREEN))

  /** What `add` does with a command, given the default colour: end, or
      place a record in a dimension. */
  function AddPlan(cmd: UserCommand, literalEval: string -> Option<Coordinates>, defaultColor: Result<string>): (r: Step<Placement>)
    ensures r.Next? ==> Storable(r.value.point) && IsDimension(r.value.dimension)
  {
    if cmd.value == "" then Stop(Raised(IndexError))
    else
      match SelectCoordinates(cmd.value, literalEval)
      case Stop(o) => Stop(o)
      case Next(c) =>
        if defaultColor.Err? then Stop(Raised(defaultColor.error))
        else
          match ApplyFlags(Draft(c, DEFAULT_NAME, None, defaultColor.value, OVERWORLD), cmd.flags)
          case None => Stop(Returned(false))
          case Some(d) => Finish(d)
  }

  /** The starting draft of `add` for parsed coordinates. */
  function StartDraft(c: Coordinates): Draft
  {
    Draft(c, DEFAULT_NAME, None, IntToString(GREEN), OVERWORLD)
  }

  lemma DefaultColorIsTen()
    ensures DEFAULT_COLOR == Ok("10")
  {
    var s := NatToString(10);
    assert 10 / 10 == 1 && 10 % 10 == 0;
    assert NatToString(1) == [DigitChar(1)];
    assert s == NatToString(1) + [DigitChar(0)];
    assert DigitChar(1) == '1' && DigitChar(0) == '0';
    assert s == "10";
  }

  /** As written, every `add` whose coordinates parse raises AttributeError
      before any flag is looked at, so no waypoint is ever stored. */
  lemma AddAsWrittenRaises(cmd: UserCommand, literalEval: string -> Option<Coordinates>)
    requires cmd.value != "" && SelectCoordinates(cmd.value, literalEval).Next?
    ensures AddPlan(cmd, literalEval, DEFAULT_COLOR_AS_WRITTEN) == Stop(Raised(AttributeError))
  {
  }

  /** With the intended default colour, `add` returns False exactly when the
      value cannot be read as coordinates, a tuple has other than three
      elements, or a `--dimension` names no dimension; otherwise a record is
      placed unless an IndexError is raised building it. */
  lemma AddRejections(cmd: UserCommand, literalEval: string -> Option<Coordinates>)
    requires cmd.value != ""
    ensures SelectCoordinates(cmd.value, literalEval) == Stop(Returned(false)) ==>
      AddPlan(cmd, literalEval, DEFAULT_COLOR) == Stop(Returned(false))
    ensures SelectCoordinates(cmd.value, literalEval).Next? ==>
      (AddPlan(cmd, literalEval, DEFAULT_COLOR) == Stop(Returned(false)) <==>
       exists j :: 0 <= j < |cmd.flags| && cmd.flags[j].flag == "--dimension" && DimensionOf(cmd.flags[j].value).None?)
  {
    var sel := SelectCoordinates(cmd.value, literalEval);
    if sel.Next? {
      DefaultColorIsTen();
      var d := StartDraft(sel.value);
      DimensionRejected(d, cmd.flags);
    }
  }

  /** In every placed record the switches are the lowercase text "false",
      type and tp_yaw are 0, set is "gui.xaero_default" and visibility "0". */
  lemma AddRecordConstants(cmd: UserCommand, literalEval: string -> Option<Coordinates>, defaultColor: Result<string>)
    requires AddPlan(cmd, literalEval, defaultColor).Next?
    ensures var p := AddPlan(cmd, literalEval, defaultColor).value.point;
      p[6] == Str("false") && p[9] == Str("false") && p[12] == Str("false") &&
      p[7] == Num(Int(0)) && p[10] == Num(Int(0)) && p[8] == Str("gui.xaero_default") && p[11] == Str("0")
  {
    var c := SelectCoordinates(cmd.value, literalEval).value;
    var f := ApplyFlags(Draft(c, DEFAULT_NAME, None, defaultColor.value, OVERWORLD), cmd.flags).value;
    assert AddPlan(cmd, literalEval, defaultColor) == Finish(f);
    FinishConstants(f);
  }

  /** The fixed values of every record `Finish` builds. */
  lemma FinishConstants(d: Draft)
    requires Finish(d).Next?
    ensures var p := Finish(d).value.point;
      p[6] == Str("false") && p[9] == Str("false") && p[12] == Str("false") &&
      p[7] == Num(Int(0)) && p[10] == Num(Int(0)) && p[8] == Str("gui.xaero_default") && p[11] == Str("0")
  {
  }

  /** The record `Finish` builds carries the draft's name and colour, and
      its initials, or the upper-cased first character of the name. */
  lemma FinishFields(d: Draft)
    requires Finish(d).Next?
    ensures var p := Finish(d).value.point;
      p[0] == Str(d.name) && p[5] == Str(d.color) && Finish(d).value.dimension == d.dimension &&
      p[2] == Num(d.coords[0]) && p[3] == Num(d.coords[1]) && p[4] == Num(d.coords[2]) &&
      (d.initials.Some? ==> p[1] == Str(d.initials.value)) &&
      (d.initials.None? ==> d.name != [] && p[1] == Str([UpperChar(d.name[0])]))
  {
  }

  /** A placed record holds the last name, colour and initials given by
      flags, or the defaults "new waypoint", "10" and the upper-cased first
      character of the name. */
  lemma AddRecord(cmd: UserCommand, literalEval: string -> Option<Coordinates>)
    requires AddPlan(cmd, literalEval, DEFAULT_COLOR).Next?
    ensures var p := AddPlan(cmd, literalEval, DEFAULT_COLOR).value.point; var flags := cmd.flags;
      (forall j :: LastOf(flags, j, "--name") ==> p[0] == Str(ArgText(flags[j].value))) &&
      (forall j :: LastOf(flags, j, "--color") ==> p[5] == Str(ArgText(flags[j].value))) &&
      ((forall k :: 0 <= k < |flags| ==> flags[k].flag != "--name") ==> p[0] == Str(DEFAULT_NAME)) &&
      ((forall k :: 0 <= k < |flags| ==> flags[k].flag != "--color") ==> p[5] == Str("10")) &&
      ((forall k :: 0 <= k < |flags| ==> flags[k].flag != "--initial") ==> p[0].s != [] && p[1] == Str([UpperChar(p[0].s[0])]))
  {
    DefaultColorIsTen();
    var sel := SelectCoordinates(cmd.value, literalEval);
    var d := StartDraft(sel.value);
    var f := ApplyFlags(d, cmd.flags).value;
    UnflaggedFieldsKept(d, cmd.flags);
    assert AddPlan(cmd, literalEval, DEFAULT_COLOR) == Finish(f);
    FinishFields(f);
    forall j | LastOf(cmd.flags, j, "--name") || LastOf(cmd.flags, j, "--color")
      ensures cmd.flags[j].flag == "--name" ==> f.name == ArgText(cmd.flags[j].value)
      ensures cmd.flags[j].flag == "--color" ==> f.color == ArgText(cmd.flags[j].value)
    {
      LastFlagWins(d, cmd.flags, j);
    }
  }

  /** Flag j is the last flag that sets the dimension. */
  predicate LastDimensionFlag(flags: seq<UserFlag>, j: int)
  {
    0 <= j < |flags| && SetsDimension(flags[j]) && forall k :: j < k < |flags| ==> !SetsDimension(flags[k])
  }

  /** A placed record carries the final coordinates: without `--innether`
      and `--inoverworld`, the parsed ones. */
  lemma AddCoordinates(cmd: UserCommand, literalEval: string -> Option<Coordinates>)
    requires AddPlan(cmd, literalEval, DEFAULT_COLOR).Next?
    ensures SelectCoordinates(cmd.value, literalEval).Next?
    ensures var p := AddPlan(cmd, literalEval, DEFAULT_COLOR).value.point; var c := SelectCoordinates(cmd.value, literalEval).value;
      (forall k :: 0 <= k < |cmd.flags| ==> cmd.flags[k].flag != "--innether" && cmd.flags[k].flag != "--inoverworld") ==>
        p[2] == Num(c[0]) && p[3] == Num(c[1]) && p[4] == Num(c[2])
  {
    DefaultColorIsTen();
    var sel := SelectCoordinates(cmd.value, literalEval);
    var d := StartDraft(sel.value);
    var f := ApplyFlags(d, cmd.flags).value;
    UnflaggedFieldsKept(d, cmd.flags);
    assert AddPlan(cmd, literalEval, DEFAULT_COLOR) == Finish(f);
    FinishFields(f);
  }

  /** A record is placed in the Overworld unless a flag sets the dimension;
      otherwise the last such flag decides. */
  lemma AddDimension(cmd: UserCommand, literalEval: string -> Option<Coordinates>)
    requires AddPlan(cmd, literalEval, DEFAULT_COLOR).Next?
    ensures var dim := AddPlan(cmd, literalEval, DEFAULT_COLOR).value.dimension; var flags := cmd.flags;
      ((forall k :: 0 <= k < |flags| ==> !SetsDimension(flags[k])) ==> dim == OVERWORLD) &&
      (forall j :: LastDimensionFlag(flags, j) && flags[j].flag == "--innether" ==> dim == NETHER) &&
      (forall j :: LastDimensionFlag(flags, j) && flags[j].flag == "--inoverworld" ==> dim == OVERWORLD) &&
      (forall j :: LastDimensionFlag(flags, j) && flags[j].flag == "--dimension" ==> DimensionOf(flags[j].value) == Some(dim))
  {
    DefaultColorIsTen();
    var sel := SelectCoordinates(cmd.value, literalEval);
    var d := StartDraft(sel.value);
    var f := ApplyFlags(d, cmd.flags).value;
    UnflaggedFieldsKept(d, cmd.flags);
    assert AddPlan(cmd, literalEval, DEFAULT_COLOR) == Finish(f);
    FinishFields(f);
    forall j | LastDimensionFlag(cmd.flags, j)
      ensures cmd.flags[j].flag == "--innether" ==> f.dimension == NETHER
      ensures cmd.flags[j].flag == "--inoverworld" ==> f.dimension == OVERWORLD
      ensures cmd.flags[j].flag == "--dimension" ==> DimensionOf(cmd.flags[j].value) == Some(f.dimension)
    {
      LastDimensionFlagWins(d, cmd.flags, j);
    }
  }

  /** The last `--initial` decides the initials when it took an argument;
      without one the initials are the upper-cased first character of the name. */
  lemma AddInitials(cmd: UserCommand, literalEval: string -> Option<Coordinates>)
    requires AddPlan(cmd, literalEval, DEFAULT_COLOR).Next?
    ensures var p := AddPlan(cmd, literalEval, DEFAULT_COLOR).value.point; var flags := cmd.flags;
      (forall j :: LastOf(flags, j, "--initial") && flags[j].value.Some? ==> p[1] == Str(flags[j].value.value)) &&
      (forall j :: LastOf(flags, j, "--initial") && flags[j].value.None? ==>
        p[0].s != [] && p[1] == Str([UpperChar(p[0].s[0])]))
  {
    DefaultColorIsTen();
    var sel := SelectCoordinates(cmd.value, literalEval);
    var d := StartDraft(sel.value);
    var f := ApplyFlags(d, cmd.flags).value;
    assert AddPlan(cmd, literalEval, DEFAULT_COLOR) == Finish(f);
    FinishFields(f);
    forall j | LastOf(cmd.flags, j, "--initial")
      ensures f.initials == cmd.flags[j].value
    {
      LastFlagWins(d, cmd.flags, j);
    }
  }

  /** `--name Base --color 10` sets the name and the colour of a draft. */
  lemma NameColorExample(d: Draft)
    requires |d.coords| >= 2
    ensures ApplyFlags(d, [UserFlag("--name", 1, Some("Base"), Some(2)), UserFlag("--color", 3, Some("10"), Some(4))]) ==
      Some(d.(name := "Base", color := "10"))
  {
    var flags := [UserFlag("--name", 1, Some("Base"), Some(2)), UserFlag("--color", 3, Some("10"), Some(4))];
    assert flags[..1][..0] == [];
    assert ApplyFlags(d, flags[..1]) == Some(d.(name := "Base"));
  }

  /** The parsed command of `add --name Base --color 10 X: -6,652 Z: -5,420`,
      for a registry whose `add` declares `--name` and `--color` as taking an
      argument, places the record Base / B / (-6652, 63, -5420) / colour "10"
      in the Overworld. The registry the program ships declares neither flag,
      so it rejects this line. */
  lemma AddExample(literalEval: string -> Option<Coordinates>)
    ensures var cmd := UserCommand("add", [UserFlag("--name", 1, Some("Base"), Some(2)), UserFlag("--color", 3, Some("10"), Some(4))],
        "X: -6,652 Z: -5,420");
      AddPlan(cmd, literalEval, DEFAULT_COLOR) ==
        Next(Placement(WaypointRecord("Base", "B", [Int(-6652), Int(63), Int(-5420)], "10"), OVERWORLD))
  {
    DefaultColorIsTen();
    var value := "X: -6,652 Z: -5,420";
    var c := [Int(-6652), Int(63), Int(-5420)];
    LabeledExample();
    assert value[0] == 'X';
    assert SelectCoordinates(value, literalEval) == Next(c);
    var d := Draft(c, DEFAULT_NAME, None, "10", OVERWORLD);
    NameColorExample(d);
    var f := d.(name := "Base", color := "10");
    assert UpperChar('B') == 'B';
    assert Finish(f) == Next(Placement(WaypointRecord("Base", "B", c, "10"), OVERWORLD));
  }

  // ---------------------------------------------------------------------
  // The help command
  // ---------------------------------------------------------------------

  const HELP_HEADER: string := "List of commands:"
  const HELP_FOOTER: string := "Type \"help <command>\" " + "for additional information " + "about the command."

  /** The line `help` prints for one command. */
  function ListLine(name: string): string
  {
    "- " + name
  }

  /** One line per registered command, in registration order. */
  function Listing(keys: seq<string>): (r: seq<string>)
    ensures |r| == |keys| && forall i :: 0 <= i < |keys| ==> r[i] == ListLine(keys[i])
  {
    if keys == [] then [] else Listing(keys[..|keys| - 1]) + [ListLine(keys[|keys| - 1])]
  }

  /** What `help` prints and returns. With a value, the test and the text
      use the command name, which is "help" itself, not the value. */
  function Help(reg: Registry, value: string): (r: (RunOutcome, seq<string>))
  {
    if value != "" then
      if "help" !in reg.commands then (Returned(false), [])
      else (Returned(true), [reg.commands["help"].help])
    else
      (Returned(true), [HELP_HEADER] + Listing(reg.keys) + [HELP_FOOTER])
  }

  /** The listing of a registry's keys holds a line for every registered
      command and no other line. */
  lemma ListingExact(keys: seq<string>, commands: map<string, Command>)
    requires (forall k :: k in commands ==> k in keys) && (forall i :: 0 <= i < |keys| ==> keys[i] in commands)
    ensures forall name :: name in commands ==> ListLine(name) in Listing(keys)
    ensures forall line :: line in Listing(keys) ==> exists name :: name in commands && line == ListLine(name)
  {
    var l := Listing(keys);
    forall name | name in commands ensures ListLine(name) in l {
      var i :| 0 <= i < |keys| && keys[i] == name;
      assert l[i] == ListLine(name);
    }
    forall line | line in l ensures exists name :: name in commands && line == ListLine(name) {
      var i :| 0 <= i < |l| && l[i] == line;
      assert line == ListLine(keys[i]);
    }
  }

  /** `help` with no value prints a header, one line for each registered
      command and no other command line, and a footer. */
  lemma HelpListsCommands(reg: Registry)
    requires reg.Valid()
    ensures |Help(reg, "").1| == |reg.keys| + 2
    ensures Help(reg, "").1[0] == HELP_HEADER && Help(reg, "").1[|reg.keys| + 1] == HELP_FOOTER
    ensures forall name :: name in reg.commands ==> ListLine(name) in Help(reg, "").1[1..|reg.keys| + 1]
    ensures forall i :: 1 <= i <= |reg.keys| ==>
      exists name :: name in reg.commands && Help(reg, "").1[i] == ListLine(name)
  {
    var out := Help(reg, "").1;
    var l := Listing(reg.keys);
    assert out[1..|reg.keys| + 1] == l;
    ListingExact(reg.keys, reg.commands);
    forall i | 1 <= i <= |reg.keys| ensures exists name :: name in reg.commands && out[i] == ListLine(name) {
      assert out[i] == l[i - 1] && l[i - 1] in l;
    }
  }

  /** `help <x>` does the same whatever x is. */
  lemma HelpIgnoresValue(reg: Registry, v: string, w: string)
    requires v != "" && w != ""
    ensures Help(reg, v) == Help(reg, w)
  {
  }

  /** How `runCommand` ends after `addWaypoint` rewrote a file. */
  function AfterWrite(w: Option<FileWrite>): RunOutcome
  {
    if w.Some? && w.value.failure.Some? then Raised(w.value.failure.value) else Returned(true)
  }

  // ---------------------------------------------------------------------
  // The console
  // ---------------------------------------------------------------------

  class Console {
    var registry: Registry
    /** The last accepted command; Python leaves the attribute unset until then. */
    var currentInput: Option<UserCommand>

    constructor()
      ensures registry == EMPTY_REGISTRY && currentInput.None?
    {
      registry := EMPTY_REGISTRY;
      currentInput := None;
    }

    /** `registerCommand`. */
    method RegisterCommand(name: string, command: Command)
      modifies this
      ensures registry == old(registry).Register(name, command)
      ensures currentInput == old(currentInput)
    {
      registry := registry.Register(name, command);
    }

    /** `checkCommandValidity`: stops at the first failing test. */
    method CheckCommandValidity(userCommand: UserCommand) returns (ok: bool)
      ensures ok == IsValid(registry, userCommand)
    {
      if userCommand.coreCommand !in registry.commands {
        return false;
      }
      var command := registry.commands[userCommand.coreCommand];
      var i := 0;
      while i < |userCommand.flags|
        invariant 0 <= i <= |userCommand.flags|
        invariant forall j :: 0 <= j < i ==> userCommand.flags[j].flag in command.flags
      {
        if userCommand.flags[i].flag !in command.flags {
          return false;
        }
        i := i + 1;
      }
      if command.requiresValue && userCommand.value == "" {
        return false;
      }
      return true;
    }

    /** `handleInput`: parses the line and keeps it as the current input
        when it passes the validity check; `None` stands for False. */
    method HandleInput(userInput: string) returns (r: Option<UserCommand>)
      requires WellFormedTokens(Split(userInput, ' '))
      modifies this
      ensures registry == old(registry)
      ensures IsValid(registry, Parse(registry, userInput)) ==>
        r == Some(Parse(registry, userInput)) && currentInput == r
      ensures !IsValid(registry, Parse(registry, userInput)) ==>
        r == None && currentInput == old(currentInput)
    {
      var components := Split(userInput, ' ');
      var userFlags: seq<UserFlag> := [];
      var i := 0;
      while i < |components|
        invariant 0 <= i <= |components|
        invariant userFlags == FlagsUpTo(registry, components, i)
        invariant registry == old(registry) && currentInput == old(currentInput)
      {
        var v := components[i];
        assert v != "" && v != "-";
        assert |v| == 1 ==> v == [v[0]];
        FlagsStep(registry, components, i);
        if v[0] == '-' && v[1] == '-' {
          var flagValue: Option<string> := None;
          var flagValueIndex: Option<nat> := None;
          var core := components[0];
          if core in registry.commands && v in registry.commands[core].flags
            && registry.commands[core].flags[v] && i + 1 < |components|
          {
            flagValue := Some(components[i + 1]);
            flagValueIndex := Some(i + 1);
          }
          userFlags := userFlags + [UserFlag(v, i, flagValue, flagValueIndex)];
        }
        i := i + 1;
      }
      ParsedFlagsPaired(registry, components);
      var userValue: seq<string>;
      if |userFlags| == 0 {
        userValue := Tail(components, 1);
      } else if userFlags[|userFlags| - 1].value.None? {
        userValue := Tail(components, userFlags[|userFlags| - 1].flagIndex + 1);
      } else {
        userValue := Tail(components, userFlags[|userFlags| - 1].valueIndex.value + 1);
      }
      assert userValue == Tail(components, ValueStart(userFlags));
      var userCommand := UserCommand(components[0], userFlags, Join(userValue, ' '));
      assert userCommand == Parse(registry, userInput);
      var ok := CheckCommandValidity(userCommand);
      if ok {
        currentInput := Some(userCommand);
        r := Some(userCommand);
      } else {
        r := None;
      }
    }

    /** `runCommand` for add, help and exit; any other registered command
        does nothing and returns True. `output` is what it prints; logging
        is not modelled. */
    method RunCommand(userCommand: UserCommand, store: XaeroWaypoints, literalEval: string -> Option<Coordinates>)
      returns (outcome: RunOutcome, output: seq<string>)
      requires store.Valid()
      modifies store
      ensures store.Valid()
      ensures userCommand.coreCommand == "add" ==>
        var plan := AddPlan(userCommand, literalEval, DEFAULT_COLOR);
        output == [] &&
        (plan.Stop? ==> outcome == plan.outcome && store.Contents() == old(store.Contents())) &&
        (plan.Next? ==>
          store.Contents() == Appended(old(store.Contents()), plan.value.point, plan.value.dimension) &&
          outcome == AfterWrite(WriteOf(store.Contents(), plan.value.dimension)))
      ensures userCommand.coreCommand != "add" ==> store.Contents() == old(store.Contents())
      ensures userCommand.coreCommand == "help" ==> (outcome, output) == Help(registry, userCommand.value)
      ensures userCommand.coreCommand == "exit" ==> outcome == Exited && output == []
      ensures userCommand.coreCommand !in {"add", "help", "exit"} ==> outcome == Returned(true) && output == []
    {
      output := [];
      if userCommand.coreCommand == "add" {
        outcome := RunAdd(userCommand, store, literalEval);
      } else if userCommand.coreCommand == "help" {
        if userCommand.value != "" {
          if "help" !in registry.commands {
            return Returned(false), [];
          }
          output := [registry.commands["help"].help];
        } else {
          output := [HELP_HEADER];
          var i := 0;
          while i < |registry.keys|
            invariant 0 <= i <= |registry.keys|
            invariant output == [HELP_HEADER] + Listing(registry.keys[..i])
          {
            assert registry.keys[..i + 1][..i] == registry.keys[..i];
            output := output + [ListLine(registry.keys[i])];
            i := i + 1;
          }
          assert registry.keys[..i] == registry.keys;
          output := output + [HELP_FOOTER];
        }
        outcome := Returned(true);
      } else if userCommand.coreCommand == "exit" {
        outcome := Exited;
      } else {
        outcome := Returned(true);
      }
    }

    /** The add branch of `runCommand`. */
    method RunAdd(userCommand: UserCommand, store: XaeroWaypoints, literalEval: string -> Option<Coordinates>)
      returns (outcome: RunOutcome)
      requires store.Valid()
      modifies store
      ensures store.Valid()
      ensures var plan := AddPlan(userCommand, literalEval, DEFAULT_COLOR);
        (plan.Stop? ==> outcome == plan.outcome && store.Contents() == old(store.Contents())) &&
        (plan.Next? ==>
          store.Contents() == Appended(old(store.Contents()), plan.value.point, plan.value.dimension) &&
          outcome == AfterWrite(WriteOf(store.Contents(), plan.value.dimension)))
    {
      if userCommand.value == "" {
        return Raised(IndexError);
      }
      var selected := SelectCoordinates(userCommand.value, literalEval);
      if selected.Stop? {
        return selected.outcome;
      }
      DefaultColorIsTen();
      var start := Draft(selected.value, DEFAULT_NAME, None, "10", OVERWORLD);
      var waypointCoordinates := selected.value;
      var waypointName := DEFAULT_NAME;
      var waypointInitials: Option<string> := None;
      var waypointColor := "10";
      var waypointDimension := OVERWORLD;
      var flags := userCommand.flags;
      var i := 0;
      while i < |flags|
        invariant 0 <= i <= |flags|
        invariant ApplyFlags(start, flags[..i]) ==
          Some(Draft(waypointCoordinates, waypointName, waypointInitials, waypointColor, waypointDimension))
      {
        assert flags[..i + 1][..i] == flags[..i];
        ghost var before := Draft(waypointCoordinates, waypointName, waypointInitials, waypointColor, waypointDimension);
        assert ApplyFlags(start, flags[..i + 1]) == ApplyFlag(before, flags[i]);
        var f := flags[i];
        if f.flag == "--innether" {
          waypointCoordinates := OverworldToNether(waypointCoordinates);
          waypointDimension := NETHER;
        }
        if f.flag == "--inoverworld" {
          waypointCoordinates := NetherToOverworld(waypointCoordinates);
          waypointDimension := OVERWORLD;
        }
        if f.flag == "--dimension" {
          if f.value == Some("overworld") {
            waypointDimension := OVERWORLD;
          } else if f.value == Some("nether") {
            waypointDimension := NETHER;
          } else if f.value == Some("the_end") {
            waypointDimension := THE_END;
          } else {
            assert DimensionOf(f.value).None?;
            DimensionRejected(start, flags);
            return Returned(false);
          }
        }
        if f.flag == "--name" {
          waypointName := ArgText(f.value);
        }
        if f.flag == "--initial" {
          waypointInitials := f.value;
        }
        if f.flag == "--color" {
          waypointColor := ArgText(f.value);
        }
        i := i + 1;
      }
      assert flags[..i] == flags;
      assert AddPlan(userCommand, literalEval, DEFAULT_COLOR) ==
        Finish(Draft(waypointCoordinates, waypointName, waypointInitials, waypointColor, waypointDimension));
      outcome := StoreDraft(waypointCoordinates, waypointName, waypointInitials, waypointColor, waypointDimension, store);
    }

    /** The end of `add` once the flags are applied: default the initials,
        build the record and add it to the store. */
    method StoreDraft(coords: Coordinates, name: string, initials: Option<string>, color: string, dimension: string,
                      store: XaeroWaypoints)
      returns (outcome: RunOutcome)
      requires store.Valid() && IsDimension(dimension)
      modifies store
      ensures store.Valid()
      ensures var fin := Finish(Draft(coords, name, initials, color, dimension));
        (fin.Stop? ==> outcome == fin.outcome && store.Contents() == old(store.Contents())) &&
        (fin.Next? ==>
          store.Contents() == Appended(old(store.Contents()), fin.value.point, fin.value.dimension) &&
          outcome == AfterWrite(WriteOf(store.Contents(), fin.value.dimension)))
    {
      var waypointInitials := initials;
      if waypointInitials.None? {
        if name == "" {
          return Raised(IndexError);
        }
        waypointInitials := Some([UpperChar(name[0])]);
      }
      if |coords| < 3 {
        return Raised(IndexError);
      }
      var pyPoint := WaypointRecord(name, waypointInitials.value, coords, color);
      var written := store.AddWaypoint(pyPoint, dimension);
      outcome := AfterWrite(written);
    }
  }
}
