/**
  base/command_line.cc on POSIX: parsing an argv into switches and arguments, keeping the
  switches before the arguments.
*/
module CommandLine {
  import opened Common
  import opened CommandLineSwitches

  // ----- trimming ---------------------------------------------------------------------

  /** kWhitespaceASCII */
  predicate White(c: char) {
    9 as char <= c <= 13 as char || c == ' '
  }

  function TrimmedLeft(s: string): (t: string)
    ensures t == "" || !White(t[0])
    ensures |t| <= |s| && t == s[|s| - |t|..]
  {
    if s != "" && White(s[0]) then TrimmedLeft(s[1..]) else s
  }

  function TrimmedRight(s: string): (t: string)
    ensures t == "" || !White(t[|t| - 1])
    ensures |t| <= |s| && t == s[..|t|]
  {
    if s != "" && White(s[|s| - 1]) then TrimmedRight(s[..|s| - 1]) else s
  }

  /** TrimWhitespaceASCII at both ends */
  function Trimmed(s: string): (t: string)
    ensures |t| <= |s| && IsTrimmed(t)
    ensures IsTrimmed(s) <==> t == s
  {
    TrimmedRight(TrimmedLeft(s))
  }

  predicate IsTrimmed(s: string) {
    s == "" || (!White(s[0]) && !White(s[|s| - 1]))
  }

  // ----- what parsing amounts to ------------------------------------------------------

  /** A switch as IsSwitch takes it apart: its name with the prefix, and its value. */
  datatype Switch = Switch(name: string, value: string)

  /** The name without its prefix, as the switch map has it. */
  function Key(name: string): string {
    name[PrefixLength(name, false)..]
  }

  /** The text of a switch in argv, with a prefix. */
  function Text(s: Switch): string {
    Combined(if PrefixLength(s.name, false) == 0 then "--" + s.name else s.name, s.value)
  }

  function Texts(switches: seq<Switch>): (t: seq<string>)
    ensures |t| == |switches|
  {
    seq(|switches|, i requires 0 <= i < |switches| => Text(switches[i]))
  }

  /** Whether switches are still looked for once arg is met. */
  predicate Goes(arg: string, parsing: bool) {
    parsing && Trimmed(arg) != SWITCH_TERMINATOR
  }

  predicate Taken(arg: string, parsing: bool) {
    Goes(arg, parsing) && IsSwitch(Trimmed(arg), false)
  }

  function SwitchOf(arg: string): Switch {
    Switch(SwitchString(Trimmed(arg)), SwitchValue(Trimmed(arg)))
  }

  function Switches(args: seq<string>, parsing: bool): (s: seq<Switch>)
    ensures |s| <= |args|
  {
    if args == [] then []
    else (if Taken(args[0], parsing) then [SwitchOf(args[0])] else []) + Switches(args[1..], Goes(args[0], parsing))
  }

  function Arguments(args: seq<string>, parsing: bool): seq<string> {
    if args == [] then []
    else (if Taken(args[0], parsing) then [] else [Trimmed(args[0])]) + Arguments(args[1..], Goes(args[0], parsing))
  }

  /** The switch map after appending switches. */
  function Applied(map0: map<string, string>, switches: seq<Switch>): map<string, string>
    decreases |switches|
  {
    if switches == [] then map0
    else Applied(map0[Key(switches[0].name) := switches[0].value], switches[1..])
  }

  /** argv holds the program, the switches appended and then the arguments. */
  ghost predicate Mirrors(argv: seq<string>, switches: map<string, string>, beginArgs: nat, appended: seq<Switch>) {
    && beginArgs == 1 + |appended| <= |argv|
    && argv[1..beginArgs] == Texts(appended)
    && switches == Applied(map[], appended)
  }

  // ----- the command line -------------------------------------------------------------

  class CommandLine {
    var argv: seq<string>
    var switches: map<string, string>
    var beginArgs: nat
    ghost var appended: seq<Switch>   // the switches appended since argv was cleared

    ghost predicate Valid()
      reads this
    {
      Mirrors(argv, switches, beginArgs, appended)
    }

    constructor (argv: seq<string>)
      ensures Valid()
      ensures this.argv == Parsed(argv) && appended == Switches(Rest(argv), true)
    {
      this.argv := [""];
      switches := map[];
      beginArgs := 1;
      appended := [];
      new;
      InitFromArgv(argv);
    }

    method InitFromArgv(argv: seq<string>)
      modifies this
      ensures Valid()
      ensures this.argv == Parsed(argv) && appended == Switches(Rest(argv), true)
    {
      this.argv := [""];
      switches := map[];
      beginArgs := 1;
      appended := [];
      OnlyProgramMirrors("");
      hide Mirrors, Switches, Arguments, Texts, Trimmed;
      SetProgram(if argv == [] then "" else argv[0]);
      assert this.argv == [Trimmed(if argv == [] then "" else argv[0])];
      AppendSwitchesAndArguments(argv);
      ParsedIs(argv, this.argv);
      assert [] + appended == appended;
    }

    method SetProgram(program: string)
      requires Valid()
      modifies this`argv
      ensures Valid() && argv == [Trimmed(program)] + old(argv)[1..]
    {
      argv := argv[0 := Trimmed(program)];
    }

    /** AppendSwitchNative; the switch is inserted before the arguments. */
    method AppendSwitchNative(name: string, value: string)
      requires Valid()
      modifies this
      ensures Valid() && appended == old(appended) + [Switch(name, value)]
      ensures argv == old(argv)[..old(beginArgs)] + [Text(Switch(name, value))] + old(argv)[old(beginArgs)..]
    {
      var combined := name;
      var prefixLength := PrefixLength(combined, false);
      switches := switches[name[prefixLength..] := value];
      // the name as it lies in argv is that of Text: with a prefix of its own, or with "--"
      if prefixLength == 0 {
        combined := "--" + combined;
      }
      if value != "" {
        combined := combined + "=" + value;
      }
      assert combined == Text(Switch(name, value));
      argv := argv[..beginArgs] + [combined] + argv[beginArgs..];
      beginArgs := beginArgs + 1;
      AppliedToOneMore(map[], appended, Switch(name, value));
      TextsOfOneMore(appended, Switch(name, value));
      assert argv[1..beginArgs] == old(argv[1..beginArgs]) + [combined];
      appended := appended + [Switch(name, value)];
    }

    method AppendArgNative(value: string)
      requires Valid()
      modifies this`argv
      ensures Valid() && argv == old(argv) + [value]
    {
      argv := argv + [value];
    }

    /** The body of the loop below. */
    method AppendElement(element: string, parsing: bool) returns (parseSwitches: bool)
      requires Valid()
      modifies this
      ensures Valid() && parseSwitches == Goes(element, parsing)
      ensures appended == WithSwitch(old(appended), element, parsing)
      ensures old(beginArgs <= |argv|) && argv == WithElement(old(argv), old(beginArgs), element, parsing)
      ensures beginArgs == old(beginArgs) + if Taken(element, parsing) then 1 else 0
    {
      hide Applied, Texts, Text;
      var arg := Trimmed(element);
      parseSwitches := parsing && arg != SWITCH_TERMINATOR;
      if parseSwitches && IsSwitch(arg, false) {
        AppendSwitchNative(SwitchString(arg), SwitchValue(arg));
      } else {
        AppendArgNative(arg);
      }
    }

    /** Each element of args goes to the end of its own part of argv. */
    method AppendSwitchesAndArguments(args: seq<string>)
      requires Valid()
      modifies this
      ensures Valid() && appended == old(appended) + Switches(Rest(args), true)
      ensures argv == (old(argv)[..old(beginArgs)] + Texts(Switches(Rest(args), true)))
                      + (old(argv)[old(beginArgs)..] + Arguments(Rest(args), true))
    {
      var parseSwitches := true;
      ghost var rest := Rest(args);
      ghost var head, tail, before := argv[..beginArgs], argv[beginArgs..], appended;
      ghost var done := Progress(head, tail, before, [], []);
      NothingDone(argv, beginArgs, appended, rest);
      hide *;
      var i := 1;
      while i < |args|
        invariant 1 <= i <= |rest| + 1
        invariant done.head == head && done.tail == tail && done.before == before
        invariant Valid() && Partway(done, argv, beginArgs, appended, rest, i - 1, parseSwitches)
      {
        ghost var argv0, beginArgs0, appended0, parsing := argv, beginArgs, appended, parseSwitches;
        RestAt(args, i);
        parseSwitches := AppendElement(args[i], parseSwitches);
        done := OneMoreDone(done, argv0, beginArgs0, appended0, argv, beginArgs, appended, rest, i - 1, parsing);
        i := i + 1;
      }
      RestEnds(args, i);
      AllDone(done, argv, beginArgs, appended, rest, parseSwitches);
    }

    /** The other line contributes its elements, reparsed, and its program on request. */
    method AppendArguments(other: CommandLine, includeProgram: bool)
      requires Valid() && other.Valid() && other != this
      modifies this
      ensures Valid() && appended == old(appended) + Switches(Rest(other.argv), true)
      ensures argv == ([if includeProgram then Trimmed(other.argv[0]) else old(argv)[0]] + old(argv)[1..old(beginArgs)]
                       + Texts(Switches(Rest(other.argv), true)))
                      + (old(argv)[old(beginArgs)..] + Arguments(Rest(other.argv), true))
    {
      hide Switches, Arguments, Texts, Trimmed, Applied;
      if includeProgram {
        SetProgram(other.argv[0]);
      }
      assert argv[..beginArgs] == [if includeProgram then Trimmed(other.argv[0]) else old(argv)[0]] + old(argv)[1..beginArgs];
      assert argv[beginArgs..] == old(argv)[beginArgs..];
      AppendSwitchesAndArguments(other.argv);
    }

    /** The remaining arguments, without the first terminator among them. */
    method GetArgs() returns (args: seq<string>)
      requires Valid()
      ensures args == WithoutFirst(argv[beginArgs..], SWITCH_TERMINATOR)
    {
      args := argv[beginArgs..];
      var i := 0;
      while i < |args| && args[i] != SWITCH_TERMINATOR
        invariant i <= |args| && forall k :: 0 <= k < i ==> args[k] != SWITCH_TERMINATOR
      {
        i := i + 1;
      }
      FirstIsAt(args, SWITCH_TERMINATOR, i);
      if i < |args| {
        args := args[..i] + args[i + 1..];
      }
    }
  }

  function WithoutFirst(s: seq<string>, x: string): seq<string> {
    if s == [] then [] else if s[0] == x then s[1..] else [s[0]] + WithoutFirst(s[1..], x)
  }

  lemma {:induction false} FirstIsAt(s: seq<string>, x: string, i: nat)
    requires i <= |s| && (i < |s| ==> s[i] == x) && forall k :: 0 <= k < i ==> s[k] != x
    ensures WithoutFirst(s, x) == if i < |s| then s[..i] + s[i + 1..] else s
    decreases i
  {
    if i == 0 {
      if i < |s| {
        assert s[..0] + s[1..] == s[1..];
      }
    } else {
      var rest := s[1..];
      FirstIsAt(rest, x, i - 1);
      assert WithoutFirst(s, x) == [s[0]] + WithoutFirst(rest, x);
      hide WithoutFirst;
      FirstAndRest(s, i);
    }
  }

  lemma FirstAndRest<T>(s: seq<T>, i: nat)
    requires 0 < i <= |s|
    ensures [s[0]] + s[1..] == s
    ensures i < |s| ==> [s[0]] + (s[1..][..i - 1] + s[1..][i..]) == s[..i] + s[i + 1..]
  {
  }

  lemma TextsOfOneMore(switches: seq<Switch>, s: Switch)
    ensures Texts(switches + [s]) == Texts(switches) + [Text(s)]
  {
  }

  // ----- the loop of AppendSwitchesAndArguments, on values ------------------------------

  /** argv with one element more: a switch before the arguments, or an argument. */
  function WithElement(argv: seq<string>, beginArgs: nat, element: string, parsing: bool): seq<string>
    requires beginArgs <= |argv|
  {
    if Taken(element, parsing) then argv[..beginArgs] + [Text(SwitchOf(element))] + argv[beginArgs..]
    else argv + [Trimmed(element)]
  }

  function WithSwitch(appended: seq<Switch>, element: string, parsing: bool): seq<Switch> {
    if Taken(element, parsing) then appended + [SwitchOf(element)] else appended
  }

  /** What was there before the loop, and the switches and arguments added so far. */
  datatype Progress = Progress(head: seq<string>, tail: seq<string>, before: seq<Switch>, switches: seq<Switch>, others: seq<string>)

  /** After the first i elements of rest. */
  ghost predicate Partway(d: Progress, argv: seq<string>, beginArgs: nat, appended: seq<Switch>, rest: seq<string>,
                          i: nat, parsing: bool)
  {
    && i <= |rest| && |d.head| + |d.switches| == beginArgs && appended == d.before + d.switches
    && argv == (d.head + Texts(d.switches)) + (d.tail + d.others)
    && d.switches + Switches(rest[i..], parsing) == Switches(rest, true)
    && d.others + Arguments(rest[i..], parsing) == Arguments(rest, true)
  }

  lemma NothingDone(argv: seq<string>, beginArgs: nat, appended: seq<Switch>, rest: seq<string>)
    requires beginArgs <= |argv|
    ensures Partway(Progress(argv[..beginArgs], argv[beginArgs..], appended, [], []), argv, beginArgs, appended, rest, 0, true)
  {
    hide Switches, Arguments;
    assert rest[0..] == rest && Texts([]) == [];
    assert argv == (argv[..beginArgs] + []) + (argv[beginArgs..] + []);
  }

  lemma AllDone(d: Progress, argv: seq<string>, beginArgs: nat, appended: seq<Switch>, rest: seq<string>, parsing: bool)
    requires Partway(d, argv, beginArgs, appended, rest, |rest|, parsing)
    ensures argv == (d.head + Texts(Switches(rest, true))) + (d.tail + Arguments(rest, true))
    ensures appended == d.before + Switches(rest, true)
  {
    assert rest[|rest|..] == [];
    assert d.switches + [] == d.switches && d.others + [] == d.others;
    hide Texts;
  }

  lemma RestAt(args: seq<string>, i: nat)
    requires 1 <= i < |args|
    ensures i <= |Rest(args)| && Rest(args)[i - 1] == args[i]
  {
  }

  lemma RestEnds(args: seq<string>, i: nat)
    requires |args| <= i && 1 <= i <= |Rest(args)| + 1
    ensures i - 1 == |Rest(args)|
  {
  }

  lemma OneMoreDone(d: Progress, argv0: seq<string>, beginArgs0: nat, appended0: seq<Switch>, argv: seq<string>,
                    beginArgs: nat, appended: seq<Switch>, rest: seq<string>, i: nat, parsing: bool)
    returns (d': Progress)
    requires i < |rest| && beginArgs0 <= |argv0| && Partway(d, argv0, beginArgs0, appended0, rest, i, parsing)
    requires appended == WithSwitch(appended0, rest[i], parsing)
    requires argv == WithElement(argv0, beginArgs0, rest[i], parsing)
    requires beginArgs == beginArgs0 + if Taken(rest[i], parsing) then 1 else 0
    ensures d'.head == d.head && d'.tail == d.tail && d'.before == d.before
    ensures Partway(d', argv, beginArgs, appended, rest, i + 1, Goes(rest[i], parsing))
  {
    hide Texts, Switches, Arguments, Taken, Text, Goes, SwitchOf, Trimmed;
    SwitchesFrom(d.switches, rest, i, parsing);
    ArgumentsFrom(d.others, rest, i, parsing);
    if Taken(rest[i], parsing) {
      var s := SwitchOf(rest[i]);
      d' := d.(switches := d.switches + [s]);
      TextsOfOneMore(d.switches, s);
      InsertedBetween(d.head + Texts(d.switches), d.tail + d.others, Text(s));
      assert d.before + d.switches + [s] == d.before + (d.switches + [s]);
      assert d.head + Texts(d.switches) + [Text(s)] == d.head + (Texts(d.switches) + [Text(s)]);
    } else {
      d' := d.(others := d.others + [Trimmed(rest[i])]);
      AppendedAfter(d.head + Texts(d.switches), d.tail, d.others, Trimmed(rest[i]));
    }
  }

  lemma InsertedBetween(a: seq<string>, b: seq<string>, x: string)
    ensures (a + b)[..|a|] + [x] + (a + b)[|a|..] == (a + [x]) + b
  {
  }

  lemma AppendedAfter(a: seq<string>, b: seq<string>, c: seq<string>, x: string)
    ensures (a + (b + c)) + [x] == a + (b + (c + [x]))
  {
  }

  lemma SwitchesFrom(done: seq<Switch>, args: seq<string>, i: nat, parsing: bool)
    requires i < |args|
    ensures done + Switches(args[i..], parsing)
            == (if Taken(args[i], parsing) then done + [SwitchOf(args[i])] else done)
               + Switches(args[i + 1..], Goes(args[i], parsing))
  {
    hide Taken, SwitchOf, Goes;
    assert args[i..][1..] == args[i + 1..];
  }

  lemma ArgumentsFrom(done: seq<string>, args: seq<string>, i: nat, parsing: bool)
    requires i < |args|
    ensures done + Arguments(args[i..], parsing)
            == (if Taken(args[i], parsing) then done else done + [Trimmed(args[i])])
               + Arguments(args[i + 1..], Goes(args[i], parsing))
  {
    hide Taken, Trimmed, Goes;
    assert args[i..][1..] == args[i + 1..];
  }

  /** The elements after the program. */
  function Rest(argv: seq<string>): seq<string> {
    if argv == [] then [] else argv[1..]
  }

  /** argv_ after parsing. */
  function Parsed(argv: seq<string>): seq<string> {
    [Trimmed(if argv == [] then "" else argv[0])] + Texts(Switches(Rest(argv), true)) + Arguments(Rest(argv), true)
  }

  lemma OnlyProgramMirrors(program: string)
    ensures Mirrors([program], map[], 1, [])
  {
    hide Text;
  }

  lemma ParsedIs(argv: seq<string>, result: seq<string>)
    requires var program := [Trimmed(if argv == [] then "" else argv[0])];
             result == (program[..1] + Texts(Switches(Rest(argv), true))) + (program[1..] + Arguments(Rest(argv), true))
    ensures result == Parsed(argv)
  {
    hide Texts, Switches, Arguments, Trimmed;
    var program := [Trimmed(if argv == [] then "" else argv[0])];
    assert program[..1] == program && program[1..] == [];
    assert [] + Arguments(Rest(argv), true) == Arguments(Rest(argv), true);
  }

  lemma {:induction false} AppliedToOneMore(map0: map<string, string>, switches: seq<Switch>, s: Switch)
    ensures Applied(map0, switches + [s]) == Applied(map0, switches)[Key(s.name) := s.value]
    decreases |switches|
  {
    if switches == [] {
      assert switches + [s] == [s];
    } else {
      assert (switches + [s])[1..] == switches[1..] + [s];
      AppliedToOneMore(map0[Key(switches[0].name) := switches[0].value], switches[1..], s);
    }
  }

  // ----- what parsing promises --------------------------------------------------------

  /** No terminator among the first i elements. */
  predicate StillParsing(args: seq<string>, i: nat, parsing: bool)
    requires i <= |args|
  {
    parsing && forall k :: 0 <= k < i ==> Trimmed(args[k]) != SWITCH_TERMINATOR
  }

  /** Element i is a switch if it looks like one and no terminator came before it. */
  predicate SwitchAt(args: seq<string>, i: nat)
    requires i < |args|
  {
    StillParsing(args, i + 1, true) && IsSwitch(Trimmed(args[i]), false)
  }

  /** A stable partition: element i comes directly after those elements of its kind that came
      before it, and the two kinds hold nothing that is not an element. */
  lemma PartitionIsStable(args: seq<string>, i: nat)
    requires i < |args|
    ensures SwitchAt(args, i) ==> Switches(args[..i], true) + [SwitchOf(args[i])] <= Switches(args, true)
    ensures !SwitchAt(args, i) ==> Arguments(args[..i], true) + [Trimmed(args[i])] <= Arguments(args, true)
    ensures |Switches(args, true)| + |Arguments(args, true)| == |args|
  {
    EveryElementIsKept(args, true);
    var p := StillParsing(args, i, true);
    TakenIsSwitchAt(args, i);
    SwitchesInTwo(args, i, true);
    ArgumentsInTwo(args, i, true);
    FirstSwitches(args[i..], p);
    FirstArguments(args[i..], p);
    hide *;
    var rest, goes := args[i..][1..], Goes(args[i], p);
    if SwitchAt(args, i) {
      PrefixOf(Switches(args[..i], true), [SwitchOf(args[i])], Switches(rest, goes));
    } else {
      PrefixOf(Arguments(args[..i], true), [Trimmed(args[i])], Arguments(rest, goes));
    }
  }

  lemma TakenIsSwitchAt(args: seq<string>, i: nat)
    requires i < |args|
    ensures Taken(args[i], StillParsing(args, i, true)) == SwitchAt(args, i)
  {
    hide Trimmed, IsSwitch;
  }

  lemma PrefixOf<T>(a: seq<T>, b: seq<T>, c: seq<T>)
    ensures a + b <= a + (b + c)
  {
  }

  lemma {:induction false} EveryElementIsKept(args: seq<string>, parsing: bool)
    ensures |Switches(args, parsing)| + |Arguments(args, parsing)| == |args|
    decreases |args|
  {
    if args != [] {
      EveryElementIsKept(args[1..], Goes(args[0], parsing));
    }
  }

  lemma {:induction false} SwitchesInTwo(args: seq<string>, i: nat, parsing: bool)
    requires i <= |args|
    ensures Switches(args, parsing) == Switches(args[..i], parsing) + Switches(args[i..], StillParsing(args, i, parsing))
    decreases i
  {
    if i == 0 {
      assert args[..0] == [] && args[0..] == args;
    } else {
      var goes := Goes(args[0], parsing);
      SwitchesInTwo(args[1..], i - 1, goes);
      TailsAgree(args, i, parsing);
      FirstSwitches(args, parsing);
      FirstSwitches(args[..i], parsing);
      hide *;
      Associates(if Taken(args[0], parsing) then [SwitchOf(args[0])] else [],
                 Switches(args[1..][..i - 1], goes), Switches(args[i..], StillParsing(args, i, parsing)));
    }
  }

  lemma FirstSwitches(args: seq<string>, parsing: bool)
    requires args != []
    ensures Switches(args, parsing)
            == (if Taken(args[0], parsing) then [SwitchOf(args[0])] else [])
               + Switches(args[1..], Goes(args[0], parsing))
  {
  }

  lemma {:induction false} ArgumentsInTwo(args: seq<string>, i: nat, parsing: bool)
    requires i <= |args|
    ensures Arguments(args, parsing) == Arguments(args[..i], parsing) + Arguments(args[i..], StillParsing(args, i, parsing))
    decreases i
  {
    if i == 0 {
      assert args[..0] == [] && args[0..] == args;
    } else {
      var goes := Goes(args[0], parsing);
      ArgumentsInTwo(args[1..], i - 1, goes);
      TailsAgree(args, i, parsing);
      FirstArguments(args, parsing);
      FirstArguments(args[..i], parsing);
      hide *;
      Associates(if Taken(args[0], parsing) then [] else [Trimmed(args[0])],
                 Arguments(args[1..][..i - 1], goes), Arguments(args[i..], StillParsing(args, i, parsing)));
    }
  }

  lemma FirstArguments(args: seq<string>, parsing: bool)
    requires args != []
    ensures Arguments(args, parsing)
            == (if Taken(args[0], parsing) then [] else [Trimmed(args[0])])
               + Arguments(args[1..], Goes(args[0], parsing))
  {
  }

  lemma TailsAgree(args: seq<string>, i: nat, parsing: bool)
    requires 0 < i <= |args|
    ensures args[..i][1..] == args[1..][..i - 1] && args[..i][0] == args[0] && args[i..] == args[1..][i - 1..]
    ensures StillParsing(args, i, parsing) == StillParsing(args[1..], i - 1, Goes(args[0], parsing))
  {
    hide Trimmed;
    if StillParsing(args[1..], i - 1, Goes(args[0], parsing)) {
      forall k | 0 <= k < i ensures Trimmed(args[k]) != SWITCH_TERMINATOR {
        assert k > 0 ==> args[k] == args[1..][k - 1];
      }
    }
  }

  /** The map holds exactly the switches that occur, each with its last value. */
  lemma {:induction false} LastValueWins(switches: seq<Switch>, i: nat)
    requires i < |switches| && forall k :: i < k < |switches| ==> Key(switches[k].name) != Key(switches[i].name)
    ensures var m := Applied(map[], switches); Key(switches[i].name) in m && m[Key(switches[i].name)] == switches[i].value
    decreases |switches|
  {
    var last := |switches| - 1;
    var init := switches[..last];
    assert init + [switches[last]] == switches;
    AppliedToOneMore(map[], init, switches[last]);
    if i < last {
      LastValueWins(init, i);
    }
  }

  lemma {:induction false} OnlySwitchesAreMapped(switches: seq<Switch>, key: string)
    requires key in Applied(map[], switches)
    ensures exists i :: 0 <= i < |switches| && Key(switches[i].name) == key
    decreases |switches|
  {
    if switches != [] {
      var last := |switches| - 1;
      var init := switches[..last];
      assert init + [switches[last]] == switches;
      AppliedToOneMore(map[], init, switches[last]);
      if Key(switches[last].name) != key {
        OnlySwitchesAreMapped(init, key);
      }
    }
  }

  // ----- parsing again ------------------------------------------------------------------

  /** What is known of a switch that parsing found. */
  predicate Found(s: Switch) {
    PrefixLength(s.name, false) > 0 && '=' !in s.name && (s.value == "" || !White(s.value[|s.value| - 1]))
  }

  /** With no value, the name must be there and not end in white space. */
  predicate Stable(s: Switch) {
    s.value != "" || (Key(s.name) != "" && !White(s.name[|s.name| - 1]))
  }

  lemma SwitchIsFound(arg: string)
    requires IsSwitch(Trimmed(arg), false)
    ensures Found(SwitchOf(arg))
  {
    var t := Trimmed(arg);
    hide Trimmed;
    assert t[0] == '-';
    var n := EqualsPosition(t);
    SwitchIsItsParts(t);
    hide EqualsPosition;
    assert n > 0 && t[..n][0] == '-';
    assert n < |t| - 1 ==> t[n + 1..][|t| - n - 2] == t[|t| - 1];
  }

  lemma {:induction false} AllAreFound(args: seq<string>, parsing: bool)
    ensures forall s :: s in Switches(args, parsing) ==> Found(s)
    decreases |args|
  {
    if args != [] {
      AllAreFound(args[1..], Goes(args[0], parsing));
      if Taken(args[0], parsing) {
        SwitchIsFound(args[0]);
      }
    }
  }

  lemma StableIsFoundAgain(s: Switch)
    requires Found(s) && Stable(s)
    ensures Taken(Text(s), true) && SwitchOf(Text(s)) == s
  {
    var t := Text(s);
    PartsOfCombined(s.name, s.value);
    hide EqualsPosition, SwitchString, SwitchValue;
    assert t == Combined(s.name, s.value) && t[0] == '-';
    if s.value != "" {
      assert t[|s.name|] == '=' && t[|t| - 1] == s.value[|s.value| - 1];
    }
    assert IsTrimmed(t);
  }

  lemma UnstableIsNot(s: Switch)
    requires Found(s) && !Stable(s)
    ensures Taken(Text(s), true) ==> Text(SwitchOf(Text(s))) != Text(s)
  {
    var t := Text(s);
    assert t == s.name && '=' !in t;
    if Taken(t, true) {
      UnstableIsTrimmed(s);
      TextIsNoLonger(t);
    }
    hide Text, Taken, SwitchOf, Found, Stable;
  }

  /** An unstable switch that is taken loses white space at its end. */
  lemma UnstableIsTrimmed(s: Switch)
    requires Found(s) && !Stable(s) && Taken(s.name, true)
    ensures |Trimmed(s.name)| < |s.name|
  {
    assert Key(s.name) == "" ==> s.name == "-" || s.name == "--";
    hide Trimmed;
  }

  lemma TextIsNoLonger(t: string)
    requires Taken(t, true) && '=' !in t
    ensures |Text(SwitchOf(t))| <= |Trimmed(t)|
  {
    TrimmedIsWithin(t);
    var trimmed := Trimmed(t);
    hide Trimmed;
    SwitchIsItsParts(trimmed);
  }

  lemma TrimmedIsWithin(s: string)
    ensures forall c :: c in Trimmed(s) ==> c in s
  {
  }

  /** The arguments that parsing found are arguments again. */
  lemma {:induction false} ArgumentsAreFoundAgain(args: seq<string>, parsing: bool)
    ensures Switches(Arguments(args, parsing), parsing) == []
    ensures Arguments(Arguments(args, parsing), parsing) == Arguments(args, parsing)
    decreases |args|
  {
    if args != [] {
      var goes := Goes(args[0], parsing);
      var rest := Arguments(args[1..], goes);
      ArgumentsAreFoundAgain(args[1..], goes);
      FirstArguments(args, parsing);
      if !Taken(args[0], parsing) {
        var t := Trimmed(args[0]);
        TrimmedAgain(args[0], parsing);
        ArgumentComesFirst(t, rest, parsing);
      } else {
        TakenIsNotGone(args[0], parsing);
        hide *;
        assert [] + rest == rest;
      }
    }
  }

  lemma TakenIsNotGone(arg: string, parsing: bool)
    requires Taken(arg, parsing)
    ensures parsing && Goes(arg, parsing)
  {
  }

  lemma TrimmedAgain(arg: string, parsing: bool)
    ensures var t := Trimmed(arg); Trimmed(t) == t && Taken(t, parsing) == Taken(arg, parsing) && Goes(t, parsing) == Goes(arg, parsing)
  {
  }

  lemma ArgumentComesFirst(t: string, rest: seq<string>, parsing: bool)
    requires Trimmed(t) == t && !Taken(t, parsing)
    ensures Switches([t] + rest, parsing) == Switches(rest, Goes(t, parsing))
    ensures Arguments([t] + rest, parsing) == [t] + Arguments(rest, Goes(t, parsing))
  {
    assert ([t] + rest)[1..] == rest && ([t] + rest)[0] == t;
    FirstSwitches([t] + rest, parsing);
    FirstArguments([t] + rest, parsing);
    hide *;
    assert [] + Switches(rest, Goes(t, parsing)) == Switches(rest, Goes(t, parsing));
  }

  lemma SwitchComesFirst(t: string, rest: seq<string>, parsing: bool)
    requires Taken(t, parsing)
    ensures Switches([t] + rest, parsing) == [SwitchOf(t)] + Switches(rest, true)
    ensures Arguments([t] + rest, parsing) == Arguments(rest, true)
  {
    assert ([t] + rest)[1..] == rest && ([t] + rest)[0] == t;
    TakenIsNotGone(t, parsing);
    FirstSwitches([t] + rest, parsing);
    FirstArguments([t] + rest, parsing);
    hide *;
    assert [] + Arguments(rest, true) == Arguments(rest, true);
  }

  lemma TrimmedTwice(s: string)
    ensures Trimmed(Trimmed(s)) == Trimmed(s)
  {
  }

  lemma {:induction false} NoSwitchWhenTerminated(args: seq<string>)
    ensures Switches(args, false) == []
    decreases |args|
  {
    if args != [] {
      NoSwitchWhenTerminated(args[1..]);
    }
  }

  /** Parsing finds at most so many switches as stand before elements that are none. */
  lemma {:induction false} AtMostSoManySwitches(texts: seq<string>, others: seq<string>, parsing: bool)
    requires Switches(others, true) == []
    ensures |Switches(texts + others, parsing)| <= |texts|
    decreases |texts|
  {
    if !parsing {
      NoSwitchWhenTerminated(texts + others);
    } else if texts == [] {
      assert texts + others == others;
    } else {
      assert (texts + others)[1..] == texts[1..] + others;
      FirstSwitches(texts + others, parsing);
      AtMostSoManySwitches(texts[1..], others, Goes(texts[0], parsing));
    }
  }

  /** Parsing the texts of switches that were found, followed by arguments. */
  ghost predicate SameAgain(switches: seq<Switch>, others: seq<string>) {
    var argv := Texts(switches) + others;
    Texts(Switches(argv, true)) + Arguments(argv, true) == argv && |Switches(argv, true)| == |switches|
  }

  lemma {:induction false} AllStableAreFoundAgain(switches: seq<Switch>, others: seq<string>)
    requires Switches(others, true) == [] && Arguments(others, true) == others
    requires forall s :: s in switches ==> Found(s) && Stable(s)
    ensures var argv := Texts(switches) + others;
            Switches(argv, true) == switches && Arguments(argv, true) == others
    decreases |switches|
  {
    hide *;
    var argv := Texts(switches) + others;
    if switches == [] {
      assert argv == others;
    } else {
      var s := switches[0];
      AllStableAreFoundAgain(switches[1..], others);
      StableIsFoundAgain(s);
      FirstText(switches, others);
      SwitchComesFirst(Text(s), Texts(switches[1..]) + others, true);
      assert [s] + switches[1..] == switches;
    }
  }

  lemma FirstText(switches: seq<Switch>, others: seq<string>)
    requires switches != []
    ensures Texts(switches) + others == [Text(switches[0])] + (Texts(switches[1..]) + others)
  {
    hide Text;
    assert Texts(switches) == [Text(switches[0])] + Texts(switches[1..]);
  }

  lemma {:induction false} UnstableIsNotFoundAgain(switches: seq<Switch>, others: seq<string>)
    requires Switches(others, true) == []
    requires forall s :: s in switches ==> Found(s)
    requires exists s :: s in switches && !Stable(s)
    ensures !SameAgain(switches, others)
    decreases |switches|
  {
    hide *;
    var s := switches[0];
    if Stable(s) {
      var unstable :| unstable in switches && !Stable(unstable);
      assert unstable in switches[1..];
      StableIsFoundAgain(s);
      UnstableIsNotFoundAgain(switches[1..], others);
      if SameAgain(switches, others) {
        SameInTail(switches, others);
      }
    } else if Taken(Text(s), true) {
      UnstableIsNot(s);
      FirstDiffers(switches, others);
    } else {
      OneIsMissing(switches, others);
    }
  }

  lemma FirstDiffers(switches: seq<Switch>, others: seq<string>)
    requires switches != [] && Taken(Text(switches[0]), true)
    requires Text(SwitchOf(Text(switches[0]))) != Text(switches[0])
    ensures !SameAgain(switches, others)
  {
    var t, tail := Text(switches[0]), Texts(switches[1..]) + others;
    FirstText(switches, others);
    SwitchComesFirst(t, tail, true);
    var again := Switches([t] + tail, true);
    FirstText(again, Arguments([t] + tail, true));
    hide Switches, Arguments, Text, Texts, SwitchOf, Taken;
    assert (Texts(again) + Arguments([t] + tail, true))[0] == Text(SwitchOf(t));
    assert (Texts(switches) + others)[0] == t;
  }

  lemma OneIsMissing(switches: seq<Switch>, others: seq<string>)
    requires switches != [] && !Taken(Text(switches[0]), true) && Switches(others, true) == []
    ensures !SameAgain(switches, others)
  {
    var t, tail := Text(switches[0]), Texts(switches[1..]) + others;
    FirstText(switches, others);
    FirstSwitches([t] + tail, true);
    assert ([t] + tail)[1..] == tail;
    AtMostSoManySwitches(Texts(switches[1..]), others, Goes(t, true));
    hide Switches, Arguments, Text, Taken;
  }

  lemma SameInTail(switches: seq<Switch>, others: seq<string>)
    requires switches != [] && Taken(Text(switches[0]), true) && SwitchOf(Text(switches[0])) == switches[0]
    requires SameAgain(switches, others)
    ensures SameAgain(switches[1..], others)
  {
    hide Switches, Arguments, Text, Texts, SwitchOf, Taken;
    var t, tail := Text(switches[0]), Texts(switches[1..]) + others;
    FirstText(switches, others);
    SwitchComesFirst(t, tail, true);
    var again, rest := Switches([t] + tail, true), Switches(tail, true);
    ConsTail(switches[0], rest);
    FirstText(again, Arguments(tail, true));
    ConsIsInjective(t, Texts(rest) + Arguments(tail, true), tail);
  }

  lemma ConsTail<T>(x: T, s: seq<T>)
    ensures ([x] + s)[0] == x && ([x] + s)[1..] == s
  {
  }

  lemma ConsIsInjective<T>(x: T, a: seq<T>, b: seq<T>)
    ensures [x] + a == [x] + b ==> a == b
  {
    ConsTail(x, a);
    ConsTail(x, b);
  }

  /** Parsing argv() again gives the same argv, as many switches and the same map, exactly if
      every switch found without a value is stable. */
  lemma ParsingAgainChangesNothingIff(argv: seq<string>)
    ensures var found, again := Switches(Rest(argv), true), Switches(Rest(Parsed(argv)), true);
            Parsed(Parsed(argv)) == Parsed(argv) && |again| == |found| && Applied(map[], again) == Applied(map[], found)
            <==> forall s :: s in found ==> Stable(s)
  {
    hide *;
    var found, others := Switches(Rest(argv), true), Arguments(Rest(argv), true);
    var parsed := Parsed(argv);
    AllAreFound(Rest(argv), true);
    ArgumentsAreFoundAgain(Rest(argv), true);
    ParsedAgain(argv);
    if forall s :: s in found ==> Stable(s) {
      AllStableAreFoundAgain(found, others);
    } else {
      UnstableIsNotFoundAgain(found, others);
    }
  }

  lemma ParsedAgain(argv: seq<string>)
    ensures var found, others := Switches(Rest(argv), true), Arguments(Rest(argv), true);
            var parsed := Parsed(argv);
            && Rest(parsed) == Texts(found) + others
            && (Parsed(parsed) == parsed
                <==> Texts(Switches(Rest(parsed), true)) + Arguments(Rest(parsed), true) == Rest(parsed))
            && (SameAgain(found, others) <==> Parsed(parsed) == parsed && |Switches(Rest(parsed), true)| == |found|)
  {
    var found, others := Switches(Rest(argv), true), Arguments(Rest(argv), true);
    var parsed := Parsed(argv);
    TrimmedTwice(if argv == [] then "" else argv[0]);
    hide Texts, Switches, Arguments, Trimmed;
    TailOfProgram(parsed[0], Texts(found), others);
    TailOfProgram(parsed[0], Texts(Switches(Rest(parsed), true)), Arguments(Rest(parsed), true));
    assert parsed == [parsed[0]] + Rest(parsed);
  }

  lemma TailOfProgram(program: string, a: seq<string>, b: seq<string>)
    ensures [program] + a + b == [program] + (a + b) && ([program] + a + b)[1..] == a + b
  {
  }

  /** A switch for which it fails. */
  lemma EmptySwitchBecomesTheTerminator()
    ensures Switches(["--="], true) == [Switch("--", "")] && Texts([Switch("--", "")]) == ["--"]
    ensures Switches(["--"], true) == []
  {
    var s, t := "--=", "--";
    EmptySwitchIsFound();
    assert IsTrimmed(t) && Trimmed(t) == t;
    assert Text(Switch(t, "")) == t;
    hide Trimmed, Text, SwitchOf;
    assert [s] + [] == [s] && [t] + [] == [t] && !Taken(t, true);
    SwitchComesFirst(s, [], true);
    ArgumentComesFirst(t, [], true);
  }

  lemma EmptySwitchIsFound()
    ensures Taken("--=", true) && SwitchOf("--=") == Switch("--", "")
  {
    var s := "--=";
    EqualsPositionIs(s, 2);
    hide EqualsPosition;
    assert IsTrimmed(s) && Trimmed(s) == s && s[..2] == "--" && s[3..] == "";
  }
}
