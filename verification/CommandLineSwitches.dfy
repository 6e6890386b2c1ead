/** base/command_line.cc: what makes a string a switch. */
module CommandLineSwitches {

  const SWITCH_TERMINATOR := "--"

  /** GetSwitchPrefixLength: longer prefixes first; a slash counts on Windows only, and there
      as long as it has not been turned off. */
  function PrefixLength(s: string, slash: bool): (n: nat)
    ensures n <= |s|
  {
    if "--" <= s then 2 else if "-" <= s then 1 else if slash && "/" <= s then 1 else 0
  }

  predicate IsSwitch(s: string, slash: bool) {
    PrefixLength(s, slash) != 0 && PrefixLength(s, slash) != |s|
  }

  /** The position of the first '=', or the length. */
  function EqualsPosition(s: string): (n: nat)
    ensures n <= |s| && (n < |s| ==> s[n] == '=') && forall i :: 0 <= i < n ==> s[i] != '='
  {
    if s == "" || s[0] == '=' then 0 else
      var n := EqualsPosition(s[1..]);
      assert forall i :: 0 < i < n + 1 ==> s[i] == s[1..][i - 1];
      n + 1
  }

  /** The switch with its prefix, and its value. */
  function SwitchString(s: string): string {
    s[..EqualsPosition(s)]
  }

  function SwitchValue(s: string): string {
    if EqualsPosition(s) == |s| then "" else s[EqualsPosition(s) + 1..]
  }

  /** A switch put together from its name and value. */
  function Combined(name: string, value: string): string {
    if value == "" then name else name + "=" + value
  }

  lemma EqualsPositionIs(s: string, n: nat)
    requires n <= |s| && (n < |s| ==> s[n] == '=') && forall i :: 0 <= i < n ==> s[i] != '='
    ensures EqualsPosition(s) == n
  {
  }

  /** Taking a switch apart and combining it again gives it back, unless it ends in its only
      '='. */
  lemma SwitchIsItsParts(s: string)
    ensures '=' !in SwitchString(s)
    ensures Combined(SwitchString(s), SwitchValue(s)) == (if EqualsPosition(s) == |s| - 1 then s[..|s| - 1] else s)
  {
    var n := EqualsPosition(s);
    hide EqualsPosition;
    if n == |s| {
      assert s[..n] == s;
    } else if n < |s| - 1 {
      SplitAtEquals(s, n);
    }
  }

  lemma SplitAtEquals(s: string, n: nat)
    requires n < |s| && s[n] == '='
    ensures s[..n] + "=" + s[n + 1..] == s
  {
    assert "=" == [s[n]];
    assert s[..n] + [s[n]] == s[..n + 1];
  }

  lemma PartsOfCombined(name: string, value: string)
    requires '=' !in name
    ensures SwitchString(Combined(name, value)) == name && SwitchValue(Combined(name, value)) == value
  {
    var s := Combined(name, value);
    EqualsPositionIs(s, |name|);
  }
}
