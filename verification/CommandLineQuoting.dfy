/**
  base/command_line.cc, Windows: quoting an argument, and the rules by which
  CommandLineToArgvW takes a command line apart again.
*/
module CommandLineQuoting {
  import opened Common
  import opened CommandLineSwitches

  // ----- the documented parser --------------------------------------------------------

  /** The arguments completed so far, and the one being read: whether it has begun, whether
      reading is inside double quotes, and how many backslashes were just read. */
  datatype Reader = Reader(done: seq<string>, current: string, begun: bool, quoted: bool, slashes: nat)

  const START := Reader([], "", false, false, 0)

  function Backslashes(n: nat): (s: string)
    ensures |s| == n && forall c :: c in s ==> c == '\\'
  {
    if n == 0 then "" else "\\" + Backslashes(n - 1)
  }

  /** Backslashes that no double quote follows are literal. */
  function Flushed(r: Reader): Reader {
    r.(current := r.current + Backslashes(r.slashes), slashes := 0)
  }

  /** The argument ends, if one was being read. */
  function Ended(r: Reader): Reader {
    if r.begun then START.(done := r.done + [Flushed(r).current]) else r
  }

  /** 2n backslashes and a double quote give n backslashes and a delimiter; 2n + 1 give n
      backslashes and a literal double quote. Space and tab separate outside quotes. */
  function ReadChar(r: Reader, c: char): Reader {
    if c == '\\' then r.(slashes := r.slashes + 1, begun := true)
    else if c == '\"' then
      var half := r.current + Backslashes(r.slashes / 2);
      if r.slashes % 2 == 0 then r.(current := half, slashes := 0, begun := true, quoted := !r.quoted)
      else r.(current := half + "\"", slashes := 0)
    else if !r.quoted && (c == ' ' || c == '\t') then Ended(r)
    else var f := Flushed(r); f.(current := f.current + [c], begun := true)
  }

  function ReadAll(r: Reader, s: string): Reader
    decreases |s|
  {
    if s == "" then r else ReadAll(ReadChar(r, s[0]), s[1..])
  }

  /** The arguments of a command line. */
  function Arguments(line: string): seq<string> {
    Ended(ReadAll(START, line)).done
  }

  lemma {:induction false} ReadAllInTwo(r: Reader, s: string, t: string)
    ensures ReadAll(r, s + t) == ReadAll(ReadAll(r, s), t)
    decreases |s|
  {
    if s == "" {
      assert s + t == t;
    } else {
      assert (s + t)[1..] == s[1..] + t;
      ReadAllInTwo(ReadChar(r, s[0]), s[1..], t);
    }
  }

  lemma {:induction false} ReadBackslashes(r: Reader, n: nat)
    ensures ReadAll(r, Backslashes(n)) == r.(slashes := r.slashes + n, begun := r.begun || n > 0)
    decreases n
  {
    if n == 0 {
    } else {
      assert Backslashes(n)[1..] == Backslashes(n - 1);
      ReadBackslashes(ReadChar(r, '\\'), n - 1);
    }
  }

  // ----- the quoting --------------------------------------------------------------------

  predicate Quotable(c: char, placeholders: bool) {
    c == ' ' || c == '\\' || c == '\"' || (placeholders && c == '%')
  }

  predicate NeedsQuotes(arg: string, placeholders: bool) {
    exists i :: 0 <= i < |arg| && Quotable(arg[i], placeholders)
  }

  /** What follows the opening quote when k backslashes were just met and s remains. */
  function Escaped(s: string, k: nat): string {
    if s == "" then Backslashes(2 * k)
    else if s[0] == '\\' then Escaped(s[1..], k + 1)
    else if s[0] == '\"' then Backslashes(2 * k) + "\\\"" + Escaped(s[1..], 0)
    else Backslashes(k) + [s[0]] + Escaped(s[1..], 0)
  }

  function Quoted(arg: string, placeholders: bool): string {
    if NeedsQuotes(arg, placeholders) then "\"" + Escaped(arg, 0) + "\"" else arg
  }

  /** QuoteForCommandLineToArgvW */
  method QuoteForCommandLineToArgvW(arg: string, quotePlaceholders: bool) returns (out: string)
    ensures out == Quoted(arg, quotePlaceholders)
  {
    if !NeedsQuotes(arg, quotePlaceholders) {
      return arg;
    }
    out := "\"";
    ghost var whole := out + Escaped(arg, 0);
    assert arg[0..] == arg;
    hide Escaped, NeedsQuotes;
    var i := 0;
    while i < |arg|
      invariant 0 <= i <= |arg|
      invariant out + Escaped(arg[i..], 0) == whole
    {
      if arg[i] == '\\' {
        out, i := EscapeRun(out, arg, i);
      } else {
        CharIsEscaped(out, arg, i);
        if arg[i] == '\"' {
          out := out + "\\\"";
        } else {
          out := out + [arg[i]];
        }
        i := i + 1;
      }
    }
    NothingIsLeft(arg[i..]);
    assert out + "" == out;
    out := out + "\"";
  }

  /** A run of backslashes, which are escapes only before a double quote. */
  method EscapeRun(text: string, arg: string, start: nat) returns (out: string, end: nat)
    requires start < |arg| && arg[start] == '\\'
    ensures start < end <= |arg|
    ensures out + Escaped(arg[end..], 0) == text + Escaped(arg[start..], 0)
  {
    hide Escaped;
    end := start + 1;
    SlashIsCounted(arg, start, 0);
    while end < |arg| && arg[end] == '\\'
      invariant start < end <= |arg|
      invariant Escaped(arg[start..], 0) == Escaped(arg[end..], end - start)
    {
      SlashIsCounted(arg, end, end - start);
      end := end + 1;
    }
    var backslashCount := end - start;
    RunEnds(arg[end..], backslashCount);
    // Double them before a double quote, and before the one that will end the string.
    if end == |arg| || arg[end] == '\"' {
      backslashCount := backslashCount * 2;
    }
    out := AppendBackslashes(text, backslashCount);
    Associates(text, Backslashes(backslashCount), Escaped(arg[end..], 0));
  }

  method AppendBackslashes(text: string, count: nat) returns (out: string)
    ensures out == text + Backslashes(count)
  {
    out := text;
    for j := 0 to count
      invariant out == text + Backslashes(j)
    {
      BackslashesGrow(j);
      Associates(text, Backslashes(j), "\\");
      out := out + "\\";
    }
  }

  lemma SlashIsCounted(arg: string, i: nat, k: nat)
    requires i < |arg| && arg[i] == '\\'
    ensures Escaped(arg[i..], k) == Escaped(arg[i + 1..], k + 1)
  {
    assert arg[i..][1..] == arg[i + 1..];
  }

  lemma CharIsEscaped(text: string, arg: string, i: nat)
    requires i < |arg| && arg[i] != '\\'
    ensures text + Escaped(arg[i..], 0)
            == text + (if arg[i] == '\"' then "\\\"" else [arg[i]]) + Escaped(arg[i + 1..], 0)
  {
    assert arg[i..][1..] == arg[i + 1..];
    assert Backslashes(2 * 0) == "";
    Associates(text, if arg[i] == '\"' then "\\\"" else [arg[i]], Escaped(arg[i + 1..], 0));
  }

  lemma NothingIsLeft(s: string)
    requires s == ""
    ensures Escaped(s, 0) == ""
  {
    assert Backslashes(2 * 0) == "";
  }

  lemma {:induction false} BackslashesGrow(n: nat)
    ensures Backslashes(n) + "\\" == Backslashes(n + 1)
  {
    if n == 0 {
    } else {
      BackslashesGrow(n - 1);
    }
  }

  /** After a run of k backslashes, Escaped emits them and goes on afresh. */
  lemma RunEnds(s: string, k: nat)
    requires s == "" || s[0] != '\\'
    ensures Escaped(s, k) == Backslashes(if s == "" || s[0] == '\"' then 2 * k else k) + Escaped(s, 0)
  {
    assert Backslashes(0) == "";
  }

  // ----- what the parser makes of it ----------------------------------------------------

  /** Inside quotes, the escaped form and the closing quote give back the text. */
  lemma {:induction false} EscapedIsReadBack(r: Reader, s: string, k: nat)
    requires r.begun && r.quoted && r.slashes == 0
    ensures ReadAll(r, Escaped(s, k) + "\"") == r.(current := r.current + Backslashes(k) + s, quoted := false)
    decreases |s|
  {
    if s == "" {
      ReadAllInTwo(r, Backslashes(2 * k), "\"");
      ReadBackslashes(r, 2 * k);
      var f := r.(slashes := 2 * k);
      assert ReadAll(f, "\"") == ReadChar(f, '\"');
    } else if s[0] == '\\' {
      EscapedIsReadBack(r, s[1..], k + 1);
      BackslashesGrow(k);
      assert r.current + Backslashes(k + 1) + s[1..] == r.current + Backslashes(k) + s;
    } else if s[0] == '\"' {
      LiteralQuote(r, k);
      var q := r.(current := r.current + Backslashes(k) + "\"");
      ReadAllInTwo(r, Backslashes(2 * k) + "\\\"", Escaped(s[1..], 0) + "\"");
      assert Escaped(s, k) + "\"" == (Backslashes(2 * k) + "\\\"") + (Escaped(s[1..], 0) + "\"");
      EscapedIsReadBack(q, s[1..], 0);
      assert q.current + Backslashes(0) + s[1..] == r.current + Backslashes(k) + s;
    } else {
      LiteralRun(r, k, s[0]);
      var q := r.(current := r.current + Backslashes(k) + [s[0]]);
      ReadAllInTwo(r, Backslashes(k) + [s[0]], Escaped(s[1..], 0) + "\"");
      assert Escaped(s, k) + "\"" == (Backslashes(k) + [s[0]]) + (Escaped(s[1..], 0) + "\"");
      EscapedIsReadBack(q, s[1..], 0);
      assert q.current + Backslashes(0) + s[1..] == r.current + Backslashes(k) + s;
    }
  }

  lemma LiteralQuote(r: Reader, k: nat)
    requires r.begun && r.slashes == 0
    ensures ReadAll(r, Backslashes(2 * k) + "\\\"") == r.(current := r.current + Backslashes(k) + "\"")
  {
    BackslashesGrow(2 * k);
    assert Backslashes(2 * k) + "\\\"" == Backslashes(2 * k + 1) + "\"";
    ReadAllInTwo(r, Backslashes(2 * k + 1), "\"");
    ReadBackslashes(r, 2 * k + 1);
    var f := r.(slashes := 2 * k + 1);
    assert ReadAll(f, "\"") == ReadChar(f, '\"');
  }

  lemma LiteralRun(r: Reader, k: nat, c: char)
    requires r.begun && r.slashes == 0 && r.quoted && c != '\\' && c != '\"'
    ensures ReadAll(r, Backslashes(k) + [c]) == r.(current := r.current + Backslashes(k) + [c])
  {
    ReadAllInTwo(r, Backslashes(k), [c]);
    ReadBackslashes(r, k);
    var f := r.(slashes := k);
    assert ReadAll(f, [c]) == ReadChar(f, c);
  }

  /** Text without double quotes and, outside quotes, without separators is read as it is. */
  predicate Plain(s: string) {
    '\"' !in s && ' ' !in s && '\t' !in s
  }

  lemma {:induction false} PlainIsRead(r: Reader, s: string)
    requires Plain(s)
    ensures var e := ReadAll(r, s);
            && Flushed(e).current == Flushed(r).current + s
            && e.done == r.done && e.quoted == r.quoted && e.begun == (r.begun || s != "")
            && (s != "" && s[|s| - 1] != '\\' ==> e.slashes == 0)
            && (s == "" ==> e == r)
    decreases |s|
  {
    if s == "" {
    } else {
      var q := ReadChar(r, s[0]);
      if s[0] == '\\' {
        BackslashesGrow(r.slashes);
        assert Flushed(q).current == Flushed(r).current + [s[0]];
      }
      assert Backslashes(0) == "";
      PlainIsRead(q, s[1..]);
      assert Flushed(r).current + [s[0]] + s[1..] == Flushed(r).current + s;
    }
  }

  /** When the quoted form is one argument again: when quotes were put around it, or it is
      neither empty nor broken by a tab, which is not among the quotable characters. */
  predicate Survives(arg: string, placeholders: bool) {
    NeedsQuotes(arg, placeholders) || (arg != "" && '\t' !in arg)
  }

  lemma BareHasNoQuotables(arg: string, placeholders: bool)
    requires !NeedsQuotes(arg, placeholders)
    ensures '\"' !in arg && ' ' !in arg && '\\' !in arg
  {
    forall i | 0 <= i < |arg| ensures !Quotable(arg[i], placeholders) {}
  }

  /** Wherever an argument may start or go on, its quoted form adds it to what was read. */
  lemma QuotedIsReadBack(r: Reader, arg: string, placeholders: bool)
    requires !r.quoted && r.slashes == 0 && (Survives(arg, placeholders) || arg == "")
    ensures ReadAll(r, Quoted(arg, placeholders)) == r.(current := r.current + arg, begun := r.begun || arg != "")
  {
    if NeedsQuotes(arg, placeholders) {
      var text := Escaped(arg, 0) + "\"";
      var q := r.(begun := true, quoted := true);
      assert Quoted(arg, placeholders) == "\"" + text;
      assert r.current + Backslashes(0) == r.current;
      assert ReadAll(r, "\"") == ReadAll(q, "");
      ReadAllInTwo(r, "\"", text);
      EscapedIsReadBack(q, arg, 0);
    } else {
      BareHasNoQuotables(arg, placeholders);
      PlainIsRead(r, arg);
      assert forall x: string :: x + Backslashes(0) == x;
      assert r.current + arg == ReadAll(r, arg).current;
    }
  }

  // ----- how far the first argument gets -----------------------------------------------

  predicate Separator(c: char) {
    c == ' ' || c == '\t'
  }

  predicate Blank(s: string) {
    forall c :: c in s ==> Separator(c)
  }

  predicate Separated(s: string) {
    exists c :: c in s && Separator(c)
  }

  /** Before an argument has begun, nothing is held back. */
  predicate Neat(r: Reader) {
    r.begun || (r.current == "" && r.slashes == 0 && !r.quoted)
  }

  /** The length of the first argument so far, backslashes included. */
  function Written(r: Reader): nat {
    |r.current| + r.slashes
  }

  lemma {:induction false} DoneStays(r: Reader, s: string)
    ensures r.done <= ReadAll(r, s).done
    decreases |s|
  {
    if s != "" {
      DoneStays(ReadChar(r, s[0]), s[1..]);
    }
  }

  lemma OneCharIsWritten(r: Reader, c: char)
    requires r.done == [] && Neat(r)
    ensures var q := ReadChar(r, c);
            && Neat(q)
            && (q.done == [] ==>
                  && Written(q) <= Written(r) + 1
                  && (c == '\"' || (!r.quoted && Separator(c)) ==> Written(q) <= Written(r))
                  && (r.begun || !Separator(c) ==> q.begun)
                  && (c != '\"' ==> q.quoted == r.quoted)
                  && !(r.begun && !r.quoted && Separator(c)))
            && (q.done != [] ==> |q.done[0]| == Written(r) && q.done == [q.done[0]])
  {
  }

  /** What is written of the first argument is at most what was read. It is less once a double
      quote or a separator outside quotes was read; and a separator ends an argument that has
      begun. */
  lemma {:induction false} WrittenAtMost(r: Reader, s: string)
    requires r.done == [] && Neat(r)
    ensures var e := ReadAll(r, s);
            if e.done != [] then |e.done[0]| < Written(r) + |s|
            else
              && Neat(e) && Written(e) <= Written(r) + |s|
              && ('\"' in s || (!r.quoted && Separated(s)) ==> Written(e) < Written(r) + |s|)
              && (r.begun || !Blank(s) ==> e.begun)
              && ('\"' !in s ==> e.quoted == r.quoted)
              && ('\"' !in s && !r.quoted && Separated(s) ==> !r.begun && (s != "" ==> Separator(s[0])))
    decreases |s|
  {
    if s != "" {
      OneCharIsWritten(r, s[0]);
      var q, rest := ReadChar(r, s[0]), s[1..];
      assert s == [s[0]] + rest;
      assert forall c :: c in s <==> c == s[0] || c in rest;
      hide ReadChar;
      if q.done == [] {
        WrittenAtMost(q, rest);
      } else {
        DoneStays(q, rest);
      }
    }
  }

  /** The first argument begins with what was read of it. */
  lemma {:induction false} CurrentStays(r: Reader, s: string)
    requires r.done == [] && r.begun
    ensures var result := Ended(ReadAll(r, s)).done; result != [] && r.current <= result[0]
    decreases |s|
  {
    if s != "" {
      var q := ReadChar(r, s[0]);
      if q.done == [] {
        assert r.current <= q.current;
        CurrentStays(q, s[1..]);
      } else {
        assert r.current <= q.done[0];
        DoneStays(q, s[1..]);
        var e := ReadAll(q, s[1..]);
        assert e.done <= Ended(e).done;
      }
    }
  }

  /** The first argument ends where it is. */
  lemma FirstEnds(r: Reader, s: string)
    requires r.done == [] && r.begun && (s == "" || (!r.quoted && Separator(s[0])))
    ensures var result := Ended(ReadAll(r, s)).done; result != [] && |result[0]| == Written(r)
  {
    if s != "" {
      var q := ReadChar(r, s[0]);
      DoneStays(q, s[1..]);
      var e := ReadAll(q, s[1..]);
      assert e.done <= Ended(e).done;
    }
  }

  /** The first argument goes on with a character that is taken as it is. */
  lemma FirstGoesOn(r: Reader, s: string)
    requires r.done == [] && s != "" && s[0] != '\"' && s[0] != '\\' && (r.quoted || !Separator(s[0]))
    ensures var result := Ended(ReadAll(r, s)).done;
            result != [] && Written(r) < |result[0]| && result[0][Written(r)] == s[0]
  {
    var q := ReadChar(r, s[0]);
    assert q.current == r.current + Backslashes(r.slashes) + [s[0]];
    CurrentStays(q, s[1..]);
  }

  /** The result does not start with the argument. */
  predicate Differs(result: seq<string>, arg: string) {
    result == [] || result[0] != arg
  }

  /** If the first argument was completed within s, it is shorter than s. */
  lemma ShortFirst(s: string, rest: string, arg: string)
    requires ReadAll(START, s).done != [] && |s| <= |arg|
    ensures Differs(Arguments(s + rest), arg)
  {
    WrittenAtMost(START, s);
    ReadAllInTwo(START, s, rest);
    DoneStays(ReadAll(START, s), rest);
    var e := ReadAll(START, s + rest);
    assert e.done <= Ended(e).done;
  }

  /** A bare argument with a tab and something else comes out shorter. */
  lemma BareDiverges(arg: string, rest: string)
    requires '\"' !in arg && Separated(arg) && !Blank(arg) && (rest == "" || rest[0] == ' ')
    ensures Differs(Arguments(arg + rest), arg)
  {
    WrittenAtMost(START, arg);
    var e := ReadAll(START, arg);
    if e.done != [] {
      ShortFirst(arg, rest, arg);
    } else {
      ReadAllInTwo(START, arg, rest);
      FirstEnds(e, rest);
    }
  }

  lemma {:induction false} BlankIsSkipped(s: string)
    requires Blank(s)
    ensures ReadAll(START, s) == START
    decreases |s|
  {
    if s != "" {
      assert s[0] in s && forall c :: c in s[1..] ==> c in s;
      BlankIsSkipped(s[1..]);
    }
  }

  lemma BareIsBlankOrTorn(arg: string, placeholders: bool)
    requires !Survives(arg, placeholders)
    ensures Quoted(arg, placeholders) == arg && '\"' !in arg && (Blank(arg) || Separated(arg))
    ensures forall c :: c in arg ==> c != ' '
  {
    BareHasNoQuotables(arg, placeholders);
    assert arg != "" ==> '\t' in arg && Separator('\t');
  }

  /** The quoted form of an argument is one argument, the same, exactly if it survives. */
  lemma QuotedIsOneArgument(arg: string, placeholders: bool)
    ensures Arguments(Quoted(arg, placeholders)) == [arg] <==> Survives(arg, placeholders)
  {
    if Survives(arg, placeholders) {
      QuotedIsReadBack(START, arg, placeholders);
      assert "" + arg + Backslashes(0) == arg;
    } else {
      BareIsBlankOrTorn(arg, placeholders);
      if Blank(arg) {
        BlankIsSkipped(arg);
      } else {
        BareDiverges(arg, "");
        assert arg + "" == arg;
      }
    }
  }

  // ----- a whole line -------------------------------------------------------------------

  /** What GetArgumentsStringInternal emits for one element of argv. */
  function Emitted(arg: string, switches: bool, slash: bool, placeholders: bool): string {
    if switches && IsSwitch(arg, slash) then
      SwitchString(arg) + if SwitchValue(arg) == "" then "" else "=" + Quoted(SwitchValue(arg), placeholders)
    else Quoted(arg, placeholders)
  }

  /** The elements, separated by spaces; no switches after the terminator. */
  function Line(args: seq<string>, switches: bool, slash: bool, placeholders: bool): string {
    if args == [] then ""
    else
      var s := switches && args[0] != SWITCH_TERMINATOR;
      Emitted(args[0], s, slash, placeholders) + if |args| == 1 then "" else " " + Line(args[1..], s, slash, placeholders)
  }

  method AppendElement(params: string, arg: string, switches: bool, slash: bool, quotePlaceholders: bool)
    returns (out: string)
    ensures out == params + Emitted(arg, switches, slash, quotePlaceholders)
  {
    hide Quoted, IsSwitch, SwitchString, SwitchValue;
    if switches && IsSwitch(arg, slash) {
      out := params + SwitchString(arg);
      var value := SwitchValue(arg);
      if value != "" {
        value := QuoteForCommandLineToArgvW(value, quotePlaceholders);
        out := out + ("=" + value);
      }
    } else {
      out := QuoteForCommandLineToArgvW(arg, quotePlaceholders);
      out := params + out;
    }
  }

  /** GetArgumentsStringInternal */
  method GetArgumentsString(argv: seq<string>, slash: bool, quotePlaceholders: bool) returns (params: string)
    ensures params == Line(if argv == [] then [] else argv[1..], true, slash, quotePlaceholders)
  {
    params := "";
    if argv == [] {
      return;
    }
    var parseSwitches := true;
    ghost var whole := Line(argv[1..], true, slash, quotePlaceholders);
    RemainingAtTheStart(argv, slash, quotePlaceholders);
    hide *;
    for i := 1 to |argv|
      invariant i == 1 ==> parseSwitches
      invariant whole == params + Remaining(argv, i, parseSwitches, slash, quotePlaceholders)
    {
      var arg := argv[i];
      RemainingFrom(params, argv, i, parseSwitches, slash, quotePlaceholders);
      ghost var start := params;
      parseSwitches := parseSwitches && arg != SWITCH_TERMINATOR;
      if i > 1 {
        params := params + " ";
      }
      params := AppendElement(params, arg, parseSwitches, slash, quotePlaceholders);
      assert params == (if i > 1 then start + " " else start) + Emitted(argv[i], parseSwitches, slash, quotePlaceholders);
    }
    NothingRemains(params, argv, parseSwitches, slash, quotePlaceholders);
  }

  /** What the loop has still to append at element i. */
  function Remaining(argv: seq<string>, i: nat, switches: bool, slash: bool, placeholders: bool): string
    requires 1 <= i <= |argv|
  {
    if i == |argv| then "" else (if i > 1 then " " else "") + Line(argv[i..], switches, slash, placeholders)
  }

  lemma RemainingAtTheStart(argv: seq<string>, slash: bool, placeholders: bool)
    requires 1 <= |argv|
    ensures "" + Remaining(argv, 1, true, slash, placeholders) == Line(argv[1..], true, slash, placeholders)
  {
    assert forall x: string :: "" + x == x;
  }

  lemma NothingRemains(params: string, argv: seq<string>, switches: bool, slash: bool, placeholders: bool)
    requires 1 <= |argv|
    ensures params + Remaining(argv, |argv|, switches, slash, placeholders) == params
  {
    assert params + "" == params;
  }

  lemma RemainingFrom(params: string, argv: seq<string>, i: nat, switches: bool, slash: bool, placeholders: bool)
    requires 1 <= i < |argv|
    ensures var s := switches && argv[i] != SWITCH_TERMINATOR;
            params + Remaining(argv, i, switches, slash, placeholders)
            == (if i > 1 then params + " " else params) + Emitted(argv[i], s, slash, placeholders)
               + Remaining(argv, i + 1, s, slash, placeholders)
  {
    hide Emitted, Line, Remaining;
    var s := switches && argv[i] != SWITCH_TERMINATOR;
    LineFrom(argv, i, switches, slash, placeholders);
    Reassociates(params, if i > 1 then " " else "", Emitted(argv[i], s, slash, placeholders),
                 Remaining(argv, i + 1, s, slash, placeholders));
    assert params + "" == params;
  }

  lemma LineFrom(argv: seq<string>, i: nat, switches: bool, slash: bool, placeholders: bool)
    requires 1 <= i < |argv|
    ensures var s := switches && argv[i] != SWITCH_TERMINATOR;
            Remaining(argv, i, switches, slash, placeholders)
            == (if i > 1 then " " else "")
               + (Emitted(argv[i], s, slash, placeholders) + Remaining(argv, i + 1, s, slash, placeholders))
  {
    hide Emitted;
    assert argv[i..][1..] == argv[i + 1..];
  }

  lemma Reassociates(a: string, b: string, c: string, d: string)
    ensures a + (b + (c + d)) == a + b + c + d
  {
  }

  /** When an element of argv comes back from its emitted form. A switch must not end in its
      only '=', and what is emitted without quotes must not need them. */
  predicate Kept(arg: string, switches: bool, slash: bool, placeholders: bool) {
    if switches && IsSwitch(arg, slash) then
      && Plain(SwitchString(arg)) && EqualsPosition(arg) != |arg| - 1
      && (SwitchValue(arg) != "" ==> Survives(SwitchValue(arg), placeholders))
    else Survives(arg, placeholders)
  }

  predicate AllKept(args: seq<string>, switches: bool, slash: bool, placeholders: bool) {
    args == []
    || var s := switches && args[0] != SWITCH_TERMINATOR;
       Kept(args[0], s, slash, placeholders) && AllKept(args[1..], s, slash, placeholders)
  }

  lemma HeadAndValueAreReadBack(name: string, value: string, placeholders: bool)
    requires Plain(name) && (value == "" || Survives(value, placeholders))
    ensures ReadAll(START, name + "=" + Quoted(value, placeholders))
            == START.(current := name + "=" + value, begun := true)
  {
    var head := name + "=";
    PlainIsRead(START, head);
    var r := ReadAll(START, head);
    assert forall x: string :: x + Backslashes(0) == x;
    assert "" + head == head;
    QuotedIsReadBack(r, value, placeholders);
    ReadAllInTwo(START, head, Quoted(value, placeholders));
  }

  lemma NameAndValueAreReadBack(name: string, value: string, placeholders: bool)
    requires Plain(name) && name != "" && (value == "" || Survives(value, placeholders))
    ensures var e := ReadAll(START, name + if value == "" then "" else "=" + Quoted(value, placeholders));
            e.begun && !e.quoted && e.done == [] && Flushed(e).current == Combined(name, value)
  {
    assert forall x: string :: x + Backslashes(0) == x;
    if value == "" {
      PlainIsRead(START, name);
      assert name + "" == name && "" + name == name;
    } else {
      HeadAndValueAreReadBack(name, value, placeholders);
      assert name + ("=" + Quoted(value, placeholders)) == name + "=" + Quoted(value, placeholders);
    }
  }

  lemma SwitchIsReadBack(arg: string, slash: bool, placeholders: bool)
    requires IsSwitch(arg, slash) && Kept(arg, true, slash, placeholders)
    ensures var e := ReadAll(START, Emitted(arg, true, slash, placeholders));
            e.begun && !e.quoted && e.done == [] && Flushed(e).current == arg
  {
    SwitchIsItsParts(arg);
    assert EqualsPosition(arg) != 0;
    NameAndValueAreReadBack(SwitchString(arg), SwitchValue(arg), placeholders);
  }

  /** An element that is kept comes back alone and unchanged. */
  lemma ElementIsKept(arg: string, switches: bool, slash: bool, placeholders: bool)
    requires Kept(arg, switches, slash, placeholders)
    ensures var text := Emitted(arg, switches, slash, placeholders);
            !ReadAll(START, text).quoted && Arguments(text) == [arg]
  {
    if switches && IsSwitch(arg, slash) {
      SwitchIsReadBack(arg, slash, placeholders);
    } else {
      QuotedIsReadBack(START, arg, placeholders);
      QuotedIsOneArgument(arg, placeholders);
    }
  }

  lemma {:induction false} StaysNeat(r: Reader, s: string)
    requires Neat(r)
    ensures Neat(ReadAll(r, s))
    decreases |s|
  {
    if s != "" {
      StaysNeat(ReadChar(r, s[0]), s[1..]);
    }
  }

  lemma {:induction false} DoneIsKept(d: seq<string>, r: Reader, s: string)
    ensures ReadAll(r.(done := d + r.done), s) == ReadAll(r, s).(done := d + ReadAll(r, s).done)
    decreases |s|
  {
    if s != "" {
      var q := ReadChar(r, s[0]);
      assert d + (r.done + [Flushed(r).current]) == (d + r.done) + [Flushed(r).current];
      assert ReadChar(r.(done := d + r.done), s[0]) == q.(done := d + q.done);
      DoneIsKept(d, q, s[1..]);
    }
  }

  lemma ArgumentsInTwo(text: string, rest: string)
    requires !ReadAll(START, text).quoted
    ensures Arguments(text + (" " + rest)) == Arguments(text) + Arguments(rest)
  {
    var e := ReadAll(START, text);
    StaysNeat(START, text);
    ReadAllInTwo(START, text, " " + rest);
    assert (" " + rest)[1..] == rest;
    var q := ReadChar(e, ' ');
    assert q == START.(done := Arguments(text));
    DoneIsKept(Arguments(text), START, rest);
    assert Arguments(text) + [] == Arguments(text);
    var f := ReadAll(START, rest);
    assert Ended(f.(done := Arguments(text) + f.done)).done == Arguments(text) + Ended(f).done;
  }

  /** The line that GetArgumentsString makes is taken apart into the same arguments if every
      element is kept. */
  lemma {:induction false} LineIsKept(args: seq<string>, switches: bool, slash: bool, placeholders: bool)
    requires AllKept(args, switches, slash, placeholders)
    ensures Arguments(Line(args, switches, slash, placeholders)) == args
    decreases |args|
  {
    if args == [] {
      assert Arguments("") == [];
    } else {
      var s := switches && args[0] != SWITCH_TERMINATOR;
      hide Kept, Emitted, Arguments, Line, ReadAll, IsSwitch, SwitchString;
      ElementIsKept(args[0], s, slash, placeholders);
      LineInTwo(args, switches, slash, placeholders);
      LineIsKept(args[1..], s, slash, placeholders);
      assert args == [args[0]] + args[1..];
    }
  }

  lemma LineInTwo(args: seq<string>, switches: bool, slash: bool, placeholders: bool)
    requires args != []
    requires !ReadAll(START, Emitted(args[0], switches && args[0] != SWITCH_TERMINATOR, slash, placeholders)).quoted
    ensures var s := switches && args[0] != SWITCH_TERMINATOR;
            Arguments(Line(args, switches, slash, placeholders))
            == Arguments(Emitted(args[0], s, slash, placeholders)) + Arguments(Line(args[1..], s, slash, placeholders))
  {
    var s := switches && args[0] != SWITCH_TERMINATOR;
    var text, rest := Emitted(args[0], s, slash, placeholders), Line(args[1..], s, slash, placeholders);
    assert Arguments("") == [];
    hide Arguments, Emitted;
    if |args| == 1 {
      assert text + "" == text;
    } else {
      ArgumentsInTwo(text, rest);
    }
  }

  // ----- an element that is not kept ------------------------------------------------------

  function FirstSpace(s: string): (p: nat)
    ensures p <= |s| && ' ' !in s[..p] && (p < |s| ==> s[p] == ' ')
  {
    if s == "" || s[0] == ' ' then 0 else
      var p := 1 + FirstSpace(s[1..]);
      assert s[..p] == [s[0]] + s[1..][..p - 1];
      p
  }

  /** A bare name with a quote or a separator in it, or one that has lost its '='. From the
      first quote on, what is written lags behind what was read. So up to the first space of
      the name, or else to what follows the name, the argument either ends and is too short, or
      goes on with a space or '=' where the name has neither. */
  lemma NameDiverges(name: string, rest: string, arg: string)
    requires name != "" && !Separator(name[0]) && name[0] != '\"' && '=' !in name && name <= arg
    requires rest == "" || rest[0] == ' ' || rest[0] == '='
    requires !Plain(name) || (|name| < |arg| && (rest == "" || rest[0] == ' '))
    ensures Differs(Arguments(name + rest), arg)
  {
    var p := FirstSpace(name);
    var s, tail := name[..p], name[p..] + rest;
    assert name + rest == s + tail && s[0] == name[0] && s[0] in s;
    WrittenAtMost(START, s);
    var e := ReadAll(START, s);
    if e.done != [] {
      ShortFirst(s, tail, arg);
    } else {
      ReadAllInTwo(START, s, tail);
      if p < |name| {
        assert tail[0] == ' ';
        EndsOrGoesOn(e, tail, s, arg);
      } else {
        assert s == name && tail == rest;
        if '\"' in name {
          EndsOrGoesOn(e, tail, s, arg);
        } else {
          assert '\t' in name ==> Separator('\t');
          FirstEnds(e, rest);
        }
      }
    }
  }

  /** After s without spaces and '=', at the end, a space or an '='. */
  lemma EndsOrGoesOn(e: Reader, tail: string, s: string, arg: string)
    requires e.done == [] && e.begun && s <= arg && ' ' !in s && '=' !in s
    requires Written(e) < |s| || (Written(e) == |s| < |arg| && !e.quoted && tail != "" && tail[0] == ' ')
    requires tail == "" || tail[0] == ' ' || tail[0] == '='
    ensures Differs(Ended(ReadAll(e, tail)).done, arg)
  {
    if tail == "" || (!e.quoted && tail[0] == ' ') {
      FirstEnds(e, tail);
    } else {
      FirstGoesOn(e, tail);
      assert arg[Written(e)] == s[Written(e)];
    }
  }

  lemma SwitchDiverges(arg: string, slash: bool, placeholders: bool, rest: string)
    requires IsSwitch(arg, slash) && !Kept(arg, true, slash, placeholders) && (rest == "" || rest[0] == ' ')
    ensures Differs(Arguments(Emitted(arg, true, slash, placeholders) + rest), arg)
  {
    var name, value := SwitchString(arg), SwitchValue(arg);
    PartsOfSwitch(arg, slash);
    hide EqualsPosition, SwitchString, SwitchValue, IsSwitch, Arguments;
    if value == "" {
      assert name + "" + rest == name + rest;
      NameDiverges(name, rest, arg);
    } else if !Plain(name) {
      assert name + ("=" + Quoted(value, placeholders)) + rest == name + ("=" + Quoted(value, placeholders) + rest);
      NameDiverges(name, "=" + Quoted(value, placeholders) + rest, arg);
    } else {
      TornValueDiverges(name, value, placeholders, rest);
      assert name + ("=" + Quoted(value, placeholders)) == name + "=" + value;
    }
  }

  lemma PartsOfSwitch(arg: string, slash: bool)
    requires IsSwitch(arg, slash)
    ensures var name, value := SwitchString(arg), SwitchValue(arg);
            && name != "" && name <= arg && name[0] == arg[0] && !Separator(name[0]) && name[0] != '\"'
            && (EqualsPosition(arg) == |arg| - 1 <==> value == "" && |name| < |arg|)
            && (EqualsPosition(arg) != |arg| - 1 ==> arg == if value == "" then name else name + "=" + value)
  {
    SwitchIsItsParts(arg);
    assert SwitchString(arg) == arg[..EqualsPosition(arg)] && EqualsPosition(arg) > 0;
  }

  lemma TornValueDiverges(name: string, value: string, placeholders: bool, rest: string)
    requires Plain(name) && value != "" && !Survives(value, placeholders) && (rest == "" || rest[0] == ' ')
    ensures Quoted(value, placeholders) == value
    ensures Differs(Arguments(name + "=" + value + rest), name + "=" + value)
  {
    BareIsBlankOrTorn(value, placeholders);
    var whole := name + "=" + value;
    assert '\t' in whole && Separator('\t') && '=' in whole;
    BareDiverges(whole, rest);
  }

  predicate Tabs(s: string) {
    forall c :: c in s ==> c == '\t'
  }

  /** The first argument of a line has more in it than tabs. */
  lemma {:induction false} FirstHasInk(args: seq<string>, switches: bool, slash: bool, placeholders: bool)
    ensures var result := Arguments(Line(args, switches, slash, placeholders)); result == [] || !Tabs(result[0])
    decreases |args|
  {
    if args != [] {
      var s := switches && args[0] != SWITCH_TERMINATOR;
      var text, rest := Emitted(args[0], s, slash, placeholders), if |args| == 1 then "" else " " + Line(args[1..], s, slash, placeholders);
      hide Line;
      LineIs(args, switches, slash, placeholders);
      if s && IsSwitch(args[0], slash) {
        SwitchHasInk(args[0], slash, placeholders, rest);
      } else if NeedsQuotes(args[0], placeholders) {
        QuotedHasInk(args[0], placeholders, rest);
      } else if Tabs(args[0]) {
        BlankIsSkipped(args[0]);
        FirstHasInk(args[1..], s, slash, placeholders);
        SkippedFirst(args[0], rest);
        assert |args| > 1 ==> rest[1..] == Line(args[1..], s, slash, placeholders);
      } else {
        BareHasInk(args[0], placeholders, rest);
      }
    }
  }

  lemma LineIs(args: seq<string>, switches: bool, slash: bool, placeholders: bool)
    requires args != []
    ensures var s := switches && args[0] != SWITCH_TERMINATOR;
            Line(args, switches, slash, placeholders)
            == Emitted(args[0], s, slash, placeholders)
               + if |args| == 1 then "" else " " + Line(args[1..], s, slash, placeholders)
  {
  }

  lemma SkippedFirst(blank: string, rest: string)
    requires Blank(blank) && (rest == "" || rest[0] == ' ')
    ensures Arguments(blank + rest) == if rest == "" then [] else Arguments(rest[1..])
  {
    BlankIsSkipped(blank);
    ReadAllInTwo(START, blank, rest);
  }

  lemma SwitchHasInk(arg: string, slash: bool, placeholders: bool, rest: string)
    requires IsSwitch(arg, slash)
    ensures var result := Arguments(Emitted(arg, true, slash, placeholders) + rest); result != [] && !Tabs(result[0])
  {
    assert EqualsPosition(arg) > 0 && SwitchString(arg)[0] == arg[0];
    var text := Emitted(arg, true, slash, placeholders) + rest;
    assert text[0] == arg[0] && !Separator(text[0]);
    FirstGoesOn(START, text);
    assert Arguments(text)[0][0] in Arguments(text)[0];
  }

  lemma QuotedHasInk(arg: string, placeholders: bool, rest: string)
    requires NeedsQuotes(arg, placeholders)
    ensures var result := Arguments(Quoted(arg, placeholders) + rest); result != [] && !Tabs(result[0])
  {
    hide Quoted, ReadAll;
    QuotedIsReadBack(START, arg, placeholders);
    ReadAllInTwo(START, Quoted(arg, placeholders), rest);
    var r := ReadAll(START, Quoted(arg, placeholders));
    assert "" + arg == arg;
    CurrentStays(r, rest);
    var i :| 0 <= i < |arg| && Quotable(arg[i], placeholders);
    var first := Ended(ReadAll(r, rest)).done[0];
    assert first[i] == arg[i] && first[i] in first;
  }

  lemma {:induction false} BareHasInk(arg: string, placeholders: bool, rest: string)
    requires !NeedsQuotes(arg, placeholders) && !Tabs(arg)
    ensures var result := Arguments(arg + rest); result != [] && !Tabs(result[0])
    decreases |arg|
  {
    BareHasNoQuotables(arg, placeholders);
    assert arg[0] in arg && (arg + rest)[0] == arg[0] && (arg + rest)[1..] == arg[1..] + rest;
    if arg[0] == '\t' {
      forall i | 0 <= i < |arg[1..]| ensures !Quotable(arg[1..][i], placeholders) {
        assert arg[1..][i] == arg[i + 1] && !Quotable(arg[i + 1], placeholders);
      }
      assert arg == [arg[0]] + arg[1..];
      assert forall c :: c in arg ==> c == arg[0] || c in arg[1..];
      BareHasInk(arg[1..], placeholders, rest);
    } else {
      FirstGoesOn(START, arg + rest);
      var first := Arguments(arg + rest)[0];
      assert first[0] in first;
    }
  }

  lemma NotKeptDiverges(args: seq<string>, switches: bool, slash: bool, placeholders: bool)
    requires args != [] && !Kept(args[0], switches && args[0] != SWITCH_TERMINATOR, slash, placeholders)
    ensures Differs(Arguments(Line(args, switches, slash, placeholders)), args[0])
  {
    var s := switches && args[0] != SWITCH_TERMINATOR;
    var rest := if |args| == 1 then "" else " " + Line(args[1..], s, slash, placeholders);
    LineIs(args, switches, slash, placeholders);
    hide Line;
    if s && IsSwitch(args[0], slash) {
      SwitchDiverges(args[0], slash, placeholders, rest);
    } else {
      BareIsBlankOrTorn(args[0], placeholders);
      if Blank(args[0]) {
        SkippedFirst(args[0], rest);
        FirstHasInk(args[1..], s, slash, placeholders);
        assert |args| > 1 ==> rest[1..] == Line(args[1..], s, slash, placeholders);
        assert Tabs(args[0]);
      } else {
        BareDiverges(args[0], rest);
      }
    }
  }

  /** At the first element that is not kept, something else comes back. */
  lemma {:induction false} LineDiverges(args: seq<string>, switches: bool, slash: bool, placeholders: bool)
    requires !AllKept(args, switches, slash, placeholders)
    ensures Arguments(Line(args, switches, slash, placeholders)) != args
    decreases |args|
  {
    var s := switches && args[0] != SWITCH_TERMINATOR;
    hide Kept, Emitted, Arguments, Line, ReadAll, IsSwitch, SwitchString;
    if Kept(args[0], s, slash, placeholders) {
      ElementIsKept(args[0], s, slash, placeholders);
      LineInTwo(args, switches, slash, placeholders);
      LineDiverges(args[1..], s, slash, placeholders);
      var result := [args[0]] + Arguments(Line(args[1..], s, slash, placeholders));
      assert result[1..] == Arguments(Line(args[1..], s, slash, placeholders));
    } else {
      NotKeptDiverges(args, switches, slash, placeholders);
    }
  }

  /** The main result: the arguments come back exactly if every element is kept. */
  lemma LineIsTakenApart(args: seq<string>, slash: bool, placeholders: bool)
    ensures Arguments(Line(args, true, slash, placeholders)) == args <==> AllKept(args, true, slash, placeholders)
  {
    if AllKept(args, true, slash, placeholders) {
      LineIsKept(args, true, slash, placeholders);
    } else {
      LineDiverges(args, true, slash, placeholders);
    }
  }

  /** A value after an unquoted name and '=' comes back with the name exactly if its quoted
      form survives or it is empty. */
  lemma ValueFollowsItsName(name: string, value: string, placeholders: bool)
    requires Plain(name)
    ensures Arguments(name + "=" + Quoted(value, placeholders)) == [name + "=" + value]
            <==> Survives(value, placeholders) || value == ""
  {
    var whole := name + "=" + value;
    if Survives(value, placeholders) || value == "" {
      HeadAndValueAreReadBack(name, value, placeholders);
      assert whole + Backslashes(0) == whole;
    } else {
      TornValueDiverges(name, value, placeholders, "");
      assert whole + "" == whole;
    }
  }

  /** Inputs that show the losses: a bare empty argument, a bare tab, an empty value. */
  lemma EmptyArgumentIsLost()
    ensures Arguments(Line([""], true, false, false)) == []
  {
  }

  lemma TabTearsAnArgument()
    ensures Arguments(Line(["a\tb"], true, false, false)) == ["a", "b"]
  {
    var tab := "a\tb";
    assert Line([tab], true, false, false) == tab;
    assert tab[1..] == "\tb" && tab[1..][1..] == "b" && tab[1..][1..][1..] == "";
    var a := ReadChar(START, 'a');
    var b := ReadChar(ReadChar(a, '\t'), 'b');
    assert Backslashes(0) == "" && Flushed(a).current == "a";
    assert b.done == ["a"] && Flushed(b).current == "b";
    assert ReadAll(START, tab) == ReadAll(b, "");
  }

  lemma EmptyValueLosesItsEquals()
    ensures Arguments(Line(["-a="], true, false, false)) == ["-a"]
  {
    var switch, text := "-a=", "-a";
    EqualsPositionIs(switch, 2);
    assert switch[..2] == text && switch[3..] == "";
    assert Emitted(switch, true, false, false) == text;
    assert Line([switch], true, false, false) == text;
    assert text[1..] == "a" && text[1..][1..] == "";
    var dash := ReadChar(START, '-');
    var a := ReadChar(dash, 'a');
    assert Backslashes(0) == "" && dash.current == "-" && a.current == "-a";
    assert ReadAll(START, text) == ReadAll(a, "");
  }
}
