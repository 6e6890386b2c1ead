/**
  base/environment.cc: building the environment for a child process from the lines of an
  environment and a map of changes, in which an empty value removes a variable.
*/
module Environment {
  import opened Common

  const NUL := '\0'

  // ----- lines ------------------------------------------------------------------------

  /** Up to the first NUL: what a C string is. */
  function UpToNul(s: string): (c: string)
    ensures NUL !in c
  {
    if s == "" || s[0] == NUL then "" else [s[0]] + UpToNul(s[1..])
  }

  /** The key of a line: up to the first '=', or all of it. */
  function Key(line: string): (k: string)
    ensures '=' !in k && |k| <= |line| && k == line[..|k|] && (|k| < |line| ==> line[|k|] == '=')
  {
    if line == "" || line[0] == '=' then "" else [line[0]] + Key(line[1..])
  }

  /** ParseEnvLine on the characters from a pointer on, of which one is a NUL. */
  method ParseEnvLine(input: string) returns (key: string, length: nat)
    requires NUL in input
    ensures key == Key(UpToNul(input)) && length == |UpToNul(input)| + 1 <= |input|
  {
    ghost var line := UpToNul(input);
    UpToNulIs(input);
    hide UpToNul, Key;
    // what lies before cur has no equals sign, so that KeyIs recognises the key
    var cur := 0;
    while input[cur] != NUL && input[cur] != '='
      invariant cur <= |line| && forall i :: 0 <= i < cur ==> input[i] != '='
      decreases |line| - cur
    {
      cur := cur + 1;
    }
    key := input[..cur];
    assert key == line[..cur];
    KeyIs(line, cur);
    while input[cur] != NUL
      invariant cur <= |line|
      decreases |line| - cur
    {
      cur := cur + 1;
    }
    length := cur + 1;
  }

  lemma {:induction false} UpToNulIs(input: string)
    requires NUL in input
    ensures var line := UpToNul(input); |line| < |input| && line == input[..|line|] && input[|line|] == NUL
    decreases |input|
  {
    if input[0] != NUL {
      UpToNulIs(input[1..]);
    }
  }

  lemma {:induction false} KeyIs(line: string, n: nat)
    requires n <= |line| && (n < |line| ==> line[n] == '=') && forall i :: 0 <= i < n ==> line[i] != '='
    ensures Key(line) == line[..n]
    decreases n
  {
    if n > 0 {
      KeyIs(line[1..], n - 1);
      assert [line[0]] + line[1..][..n - 1] == line[..n];
    }
  }

  /** The changes in the order of the map, with different keys. */
  datatype Change = Change(key: string, value: string)

  predicate DistinctKeys(changes: seq<Change>) {
    forall i, j :: 0 <= i < j < |changes| ==> changes[i].key != changes[j].key
  }

  predicate Changed(changes: seq<Change>, key: string) {
    exists i :: 0 <= i < |changes| && changes[i].key == key
  }

  /** The lines that no change is about, in order. */
  function Kept(env: seq<string>, changes: seq<Change>): seq<string> {
    if env == [] then []
    else (if Changed(changes, Key(env[0])) then [] else [env[0]]) + Kept(env[1..], changes)
  }

  /** key=value for each change that is no removal. */
  function Added(changes: seq<Change>): seq<string> {
    if changes == [] then []
    else (if changes[0].value == "" then [] else [changes[0].key + "=" + changes[0].value]) + Added(changes[1..])
  }

  function Altered(env: seq<string>, changes: seq<Change>): seq<string> {
    Kept(env, changes) + Added(changes)
  }

  // ----- storage ------------------------------------------------------------------------

  /** The lines one after the other, each with its NUL. */
  function Storage(lines: seq<string>): string {
    if lines == [] then "" else Storage(lines[..|lines| - 1]) + lines[|lines| - 1] + [NUL]
  }

  /** Where the lines start. */
  function Offsets(lines: seq<string>): (o: seq<nat>)
    ensures |o| == |lines|
  {
    if lines == [] then [] else Offsets(lines[..|lines| - 1]) + [|Storage(lines[..|lines| - 1])|]
  }

  lemma {:induction false} OneMoreStored(lines: seq<string>, line: string)
    ensures Storage(lines + [line]) == Storage(lines) + line + [NUL]
    ensures Offsets(lines + [line]) == Offsets(lines) + [|Storage(lines)|]
  {
    assert (lines + [line])[..|lines|] == lines;
  }

  /** One allocation: cells of eight bytes, the first of which are pointers, given as offsets
      in bytes from its start, with 0 for null; the characters come after them. */
  datatype Block = Block(cells: nat, pointers: seq<nat>, storage: string)
  {
    function StorageStart(): nat {
      8 * |pointers|
    }

    /** The C string that a pointer points to. */
    function StringAt(p: nat): string
      requires StorageStart() <= p <= StorageStart() + |storage|
    {
      UpToNul(storage[p - StorageStart()..])
    }
  }

  /** The lines so far, followed by what the rest of the environment keeps, are always Kept. */
  method KeepUnchanged(env: seq<string>, changes: seq<Change>) returns (valueStorage: string, resultIndices: seq<nat>)
    requires forall line :: line in env ==> NUL !in line
    ensures valueStorage == Storage(Kept(env, changes)) && resultIndices == Offsets(Kept(env, changes))
  {
    valueStorage, resultIndices := "", [];
    ghost var lines: seq<string> := [];
    NothingStored();
    assert env[0..] == env && [] + Kept(env, changes) == Kept(env, changes);
    hide Storage, Offsets, Kept, Key, UpToNul;
    var i := 0;
    while i < |env|
      invariant i <= |env| && lines + Kept(env[i..], changes) == Kept(env, changes)
      invariant valueStorage == Storage(lines) && resultIndices == Offsets(lines)
    {
      KeptFrom(lines, env, changes, i);
      CString(env[i]);
      var input := env[i] + [NUL];
      var key, lineLength := ParseEnvLine(input);
      if !Changed(changes, key) {
        OneMoreStored(lines, env[i]);
        LineAndNul(valueStorage, env[i]);
        lines := lines + [env[i]];
        resultIndices := resultIndices + [|valueStorage|];
        valueStorage := valueStorage + input[..lineLength];
      }
      i := i + 1;
    }
    NoMoreKept(lines, env[|env|..], changes);
  }

  /** The lines that the changes set, behind those in storage; on Windows the indices are unused. */
  method AppendAdded(changes: seq<Change>, storage: string, indices: seq<nat>, ghost lines: seq<string>)
    returns (valueStorage: string, resultIndices: seq<nat>)
    requires storage == Storage(lines)
    ensures valueStorage == Storage(lines + Added(changes))
    ensures resultIndices == indices + Offsets(lines + Added(changes))[|lines|..]
  {
    valueStorage, resultIndices := storage, indices;
    ghost var done := lines;
    assert changes[0..] == changes;
    hide Storage, Offsets, Added;
    var i := 0;
    while i < |changes|
      invariant i <= |changes| && done + Added(changes[i..]) == lines + Added(changes)
      invariant valueStorage == Storage(done) && |lines| <= |done| && resultIndices == indices + Offsets(done)[|lines|..]
    {
      AddedFrom(done, changes, i);
      if changes[i].value != "" {
        ghost var line := changes[i].key + "=" + changes[i].value;
        OneMoreStored(done, line);
        LineInParts(valueStorage, changes[i].key, changes[i].value);
        done := done + [line];
        resultIndices := resultIndices + [|valueStorage|];
        valueStorage := valueStorage + changes[i].key;
        valueStorage := valueStorage + "=";
        valueStorage := valueStorage + changes[i].value;
        valueStorage := valueStorage + [NUL];
      }
      i := i + 1;
    }
    NoMoreAdded(done, changes[|changes|..]);
  }

  lemma {:induction false} OffsetsOfFirst(a: seq<string>, b: seq<string>)
    ensures Offsets(a + b)[..|a|] == Offsets(a)
    decreases |b|
  {
    if b == [] {
      assert a + b == a;
    } else {
      var last := |b| - 1;
      assert a + b == (a + b[..last]) + [b[last]];
      OffsetsOfFirst(a, b[..last]);
      OneMoreStored(a + b[..last], b[last]);
    }
  }

  lemma {:induction false} LineAndNul(storage: string, line: string)
    ensures (line + [NUL])[..|line| + 1] == line + [NUL] && storage + (line + [NUL]) == storage + line + [NUL]
  {
  }

  lemma {:induction false} LineInParts(storage: string, key: string, value: string)
    ensures storage + key + "=" + value + [NUL] == storage + (key + "=" + value) + [NUL]
  {
  }

  /** The block holds, in one allocation, a pointer to each line, a null pointer and the
      lines. */
  ghost predicate Holds(b: Block, lines: seq<string>) {
    && |b.pointers| == |lines| + 1 && b.pointers[|lines|] == 0
    && (forall i :: 0 <= i < |lines| ==>
          var p := b.pointers[i];
          && b.StorageStart() <= p && p + |lines[i]| + 1 <= b.StorageStart() + |b.storage|
          && b.StringAt(p) == UpToNul(lines[i]))
    && b.StorageStart() + |b.storage| <= 8 * b.cells
  }

  /** AlterEnvironment on POSIX. The lines of env are C strings. */
  method AlterEnvironment(env: seq<string>, changes: seq<Change>) returns (result: Block)
    requires DistinctKeys(changes)
    requires forall line :: line in env ==> NUL !in line
    ensures Holds(result, Altered(env, changes))
  {
    hide Holds, Storage, Offsets, Kept, Added;
    var valueStorage, resultIndices := KeepUnchanged(env, changes);
    ghost var kept := Kept(env, changes);
    valueStorage, resultIndices := AppendAdded(changes, valueStorage, resultIndices, kept);
    OffsetsOfFirst(kept, Added(changes));
    ghost var all := Offsets(kept + Added(changes));
    assert all[..|kept|] + all[|kept|..] == all;
    result := LayOut(valueStorage, resultIndices, kept + Added(changes));
  }

  method LayOut(valueStorage: string, resultIndices: seq<nat>, ghost lines: seq<string>) returns (result: Block)
    requires valueStorage == Storage(lines) && resultIndices == Offsets(lines)
    ensures Holds(result, lines)
  {
    hide Storage, Offsets, UpToNul;
    var pointerCountRequired := |resultIndices| + 1 + (|valueStorage| + 8 - 1) / 8;
    var start := 8 * (|resultIndices| + 1);
    var pointers := seq(|resultIndices|, k requires 0 <= k < |resultIndices| => start + resultIndices[k]) + [0];
    result := Block(pointerCountRequired, pointers, valueStorage);
    forall k | 0 <= k < |lines|
      ensures && resultIndices[k] + |lines[k]| + 1 <= |valueStorage|
              && UpToNul(valueStorage[resultIndices[k]..]) == UpToNul(lines[k])
    {
      LineIsStored(lines, k);
    }
  }

  lemma {:induction false} CString(line: string)
    requires NUL !in line
    ensures UpToNul(line + [NUL]) == line
  {
    UpToNulStops(line, "");
    assert line + [NUL] + "" == line + [NUL];
    NulFreeIsReadBack(line);
  }

  lemma {:induction false} NothingStored()
    ensures Storage([]) == "" && Offsets([]) == []
  {
  }

  lemma {:induction false} KeptFrom(lines: seq<string>, env: seq<string>, changes: seq<Change>, i: nat)
    requires i < |env|
    ensures lines + Kept(env[i..], changes)
            == (if Changed(changes, Key(env[i])) then lines else lines + [env[i]]) + Kept(env[i + 1..], changes)
  {
    assert env[i..][1..] == env[i + 1..];
    hide Changed, Key;
    var rest := Kept(env[i + 1..], changes);
    if Changed(changes, Key(env[i])) {
      assert [] + rest == rest;
    } else {
      assert lines + ([env[i]] + rest) == (lines + [env[i]]) + rest;
    }
  }

  lemma {:induction false} NoMoreKept(lines: seq<string>, env: seq<string>, changes: seq<Change>)
    requires env == []
    ensures lines + Kept(env, changes) == lines
  {
  }

  lemma {:induction false} AddedFrom(lines: seq<string>, changes: seq<Change>, i: nat)
    requires i < |changes|
    ensures var line := changes[i].key + "=" + changes[i].value;
            lines + Added(changes[i..])
            == (if changes[i].value == "" then lines else lines + [line]) + Added(changes[i + 1..])
  {
    assert changes[i..][1..] == changes[i + 1..];
    var line := changes[i].key + "=" + changes[i].value;
    var rest := Added(changes[i + 1..]);
    if changes[i].value == "" {
      assert [] + rest == rest;
    } else {
      assert lines + ([line] + rest) == (lines + [line]) + rest;
    }
  }

  lemma {:induction false} NoMoreAdded(lines: seq<string>, changes: seq<Change>)
    requires changes == []
    ensures lines + Added(changes) == lines
  {
  }

  lemma {:induction false} UpToNulStops(a: string, b: string)
    ensures UpToNul(a + [NUL] + b) == UpToNul(a)
    decreases |a|
  {
    if a == "" {
      assert (a + [NUL] + b)[0] == NUL;
    } else {
      assert (a + [NUL] + b)[0] == a[0] && (a + [NUL] + b)[1..] == a[1..] + [NUL] + b;
      UpToNulStops(a[1..], b);
    }
  }

  /** Line k lies at its offset, within the storage. */
  lemma {:induction false} LineIsStored(lines: seq<string>, k: nat)
    requires k < |lines|
    ensures Offsets(lines)[k] + |lines[k]| + 1 <= |Storage(lines)|
    ensures UpToNul(Storage(lines)[Offsets(lines)[k]..]) == UpToNul(lines[k])
    decreases |lines|
  {
    var last := |lines| - 1;
    var init := lines[..last];
    var before := Storage(init);
    assert lines == init + [lines[last]];
    OneMoreStored(init, lines[last]);
    if k < last {
      LineIsStored(init, k);
      StoredLine(init, k);
      TailGrows(before, lines[last], lines[k], Offsets(init)[k]);
    } else {
      TailIs(before, lines[last]);
      UpToNulStops(lines[last], "");
    }
  }

  /** The characters of line k and its NUL, at its offset. */
  lemma {:induction false} StoredLine(lines: seq<string>, k: nat)
    requires k < |lines|
    ensures var o := Offsets(lines)[k];
            o + |lines[k]| + 1 <= |Storage(lines)| && Storage(lines)[o..o + |lines[k]| + 1] == lines[k] + [NUL]
    decreases |lines|
  {
    var last := |lines| - 1;
    var init := lines[..last];
    if k < last {
      StoredLine(init, k);
    }
  }

  lemma {:induction false} TailGrows(before: string, last: string, line: string, o: nat)
    requires o + |line| + 1 <= |before| && before[o..o + |line| + 1] == line + [NUL]
    ensures UpToNul((before + last + [NUL])[o..]) == UpToNul(line)
  {
    var whole := before + last + [NUL];
    assert whole[o..o + |line| + 1] == line + [NUL];
    assert whole[o..] == line + [NUL] + whole[o + |line| + 1..];
    UpToNulStops(line, whole[o + |line| + 1..]);
  }

  lemma {:induction false} TailIs(before: string, last: string)
    ensures (before + last + [NUL])[|before|..] == last + [NUL] + ""
  {
  }

  // ----- looking a variable up ----------------------------------------------------------

  /** The value of the first line with this key and an '='. */
  function Lookup(lines: seq<string>, key: string): Option<string> {
    if lines == [] then None
    else if Key(lines[0]) == key && |key| < |lines[0]| then Some(lines[0][|key| + 1..])
    else Lookup(lines[1..], key)
  }

  /** What a variable should be afterwards. */
  function Wanted(env: seq<string>, changes: seq<Change>, key: string): Option<string> {
    match ChangeOf(changes, key)
    case None => Lookup(env, key)
    case Some(value) => if value == "" then None else Some(value)
  }

  function ChangeOf(changes: seq<Change>, key: string): Option<string> {
    if changes == [] then None
    else if changes[0].key == key then Some(changes[0].value)
    else ChangeOf(changes[1..], key)
  }

  /** The lines as they are read back. */
  function ReadBack(lines: seq<string>): (r: seq<string>)
    ensures |r| == |lines|
    ensures forall i :: 0 <= i < |lines| ==> r[i] == UpToNul(lines[i])
  {
    seq(|lines|, i requires 0 <= i < |lines| => UpToNul(lines[i]))
  }

  /** A change that a line can express. */
  predicate Clean(c: Change) {
    c.value == "" || ('=' !in c.key && NUL !in c.key && NUL !in c.value)
  }

  lemma {:induction false} LookupInTwo(a: seq<string>, b: seq<string>, key: string)
    ensures Lookup(a + b, key) == if Lookup(a, key).Some? then Lookup(a, key) else Lookup(b, key)
    decreases |a|
  {
    if a == [] {
      assert a + b == b;
    } else {
      assert (a + b)[1..] == a[1..] + b;
      LookupInTwo(a[1..], b, key);
    }
  }

  lemma {:induction false} LookupKept(env: seq<string>, changes: seq<Change>, key: string)
    ensures Lookup(Kept(env, changes), key) == if Changed(changes, key) then None else Lookup(env, key)
    decreases |env|
  {
    if env != [] {
      hide Changed, Key;
      LookupKept(env[1..], changes, key);
      var rest := Kept(env[1..], changes);
      if Changed(changes, Key(env[0])) {
        assert [] + rest == rest;
      } else {
        assert ([env[0]] + rest)[1..] == rest;
      }
    }
  }

  lemma {:induction false} ChangeOfIs(changes: seq<Change>, key: string)
    ensures ChangeOf(changes, key).Some? <==> Changed(changes, key)
    decreases |changes|
  {
    if changes != [] {
      ChangeOfIs(changes[1..], key);
      if Changed(changes[1..], key) {
        var i :| 0 <= i < |changes[1..]| && changes[1..][i].key == key;
        assert changes[i + 1].key == key;
      }
      if Changed(changes, key) && changes[0].key != key {
        var i :| 0 <= i < |changes| && changes[i].key == key;
        assert changes[1..][i - 1].key == key;
      }
    }
  }

  lemma {:induction false} KeyOfAdded(key: string, value: string)
    requires '=' !in key
    ensures Key(key + "=" + value) == key && (key + "=" + value)[|key| + 1..] == value
    decreases |key|
  {
    var line := key + "=" + value;
    if key == "" {
      assert line[0] == '=';
    } else {
      assert line[0] == key[0] && line[1..] == key[1..] + "=" + value;
      KeyOfAdded(key[1..], value);
    }
  }

  lemma {:induction false} LookupAdded(changes: seq<Change>, key: string)
    requires DistinctKeys(changes) && forall c :: c in changes ==> Clean(c)
    ensures Lookup(Added(changes), key)
            == match ChangeOf(changes, key) { case None => None case Some(v) => if v == "" then None else Some(v) }
    decreases |changes|
  {
    if changes != [] {
      var c, rest := changes[0], Added(changes[1..]);
      assert c in changes && Clean(c);
      LookupAdded(changes[1..], key);
      ChangeOfIs(changes[1..], key);
      if c.value == "" {
        assert [] + rest == rest;
        assert c.key == key ==> !Changed(changes[1..], key);
      } else {
        KeyOfAdded(c.key, c.value);
        assert ([c.key + "=" + c.value] + rest)[1..] == rest;
      }
    }
  }

  lemma {:induction false} NulFreeIsReadBack(s: string)
    requires NUL !in s
    ensures UpToNul(s) == s
    decreases |s|
  {
    if s != "" {
      NulFreeIsReadBack(s[1..]);
    }
  }

  lemma {:induction false} KeptAreLines(env: seq<string>, changes: seq<Change>)
    ensures forall line :: line in Kept(env, changes) ==> line in env
    decreases |env|
  {
    if env != [] {
      KeptAreLines(env[1..], changes);
    }
  }

  lemma {:induction false} AddedAreNulFree(changes: seq<Change>)
    requires forall c :: c in changes ==> Clean(c)
    ensures forall line :: line in Added(changes) ==> NUL !in line
    decreases |changes|
  {
    if changes != [] {
      AddedAreNulFree(changes[1..]);
      assert changes[0] in changes && Clean(changes[0]);
    }
  }

  lemma {:induction false} AllReadBack(env: seq<string>, changes: seq<Change>)
    requires forall line :: line in env ==> NUL !in line
    requires forall c :: c in changes ==> Clean(c)
    ensures ReadBack(Altered(env, changes)) == Altered(env, changes)
  {
    KeptAreLines(env, changes);
    AddedAreNulFree(changes);
    var lines := Altered(env, changes);
    hide UpToNul, Kept, Added, Clean;
    forall i | 0 <= i < |lines| ensures UpToNul(lines[i]) == lines[i] {
      assert lines[i] in Kept(env, changes) || lines[i] in Added(changes);
      NulFreeIsReadBack(lines[i]);
    }
  }

  /** Nothing that is looked up in C strings has a NUL, nor a name an '='. */
  lemma {:induction false} LookupIsPlain(lines: seq<string>, key: string)
    requires forall line :: line in lines ==> NUL !in line
    requires Lookup(lines, key).Some?
    ensures '=' !in key && NUL !in key && NUL !in Lookup(lines, key).value
    decreases |lines|
  {
    assert lines[0] in lines;
    if Key(lines[0]) == key && |key| < |lines[0]| {
      assert forall c :: c in key || c in lines[0][|key| + 1..] ==> c in lines[0];
    } else {
      LookupIsPlain(lines[1..], key);
    }
  }

  lemma {:induction false} ChangeAt(changes: seq<Change>, i: nat)
    requires DistinctKeys(changes) && i < |changes|
    ensures ChangeOf(changes, changes[i].key) == Some(changes[i].value)
    decreases |changes|
  {
    if i > 0 {
      ChangeAt(changes[1..], i - 1);
    }
  }

  /** Looking every variable up in the result gives the old environment with the changes made,
      exactly if every change that is no removal can be expressed as a line. */
  lemma {:induction false} ChangesAreMadeIff(env: seq<string>, changes: seq<Change>)
    requires DistinctKeys(changes) && forall line :: line in env ==> NUL !in line
    ensures (forall key :: Lookup(ReadBack(Altered(env, changes)), key) == Wanted(env, changes, key))
            <==> forall c :: c in changes ==> Clean(c)
  {
    hide ReadBack, Lookup, Wanted, Clean, Altered;
    if forall c :: c in changes ==> Clean(c) {
      forall key ensures Lookup(ReadBack(Altered(env, changes)), key) == Wanted(env, changes, key) {
        CleanChangesAreMade(env, changes, key);
      }
    } else {
      var i :| 0 <= i < |changes| && !Clean(changes[i]);
      UncleanChangeIsNotMade(env, changes, i);
    }
  }

  lemma {:induction false} CleanChangesAreMade(env: seq<string>, changes: seq<Change>, key: string)
    requires DistinctKeys(changes) && forall line :: line in env ==> NUL !in line
    requires forall c :: c in changes ==> Clean(c)
    ensures Lookup(ReadBack(Altered(env, changes)), key) == Wanted(env, changes, key)
  {
    AllReadBack(env, changes);
    hide ReadBack, Altered, Lookup, Wanted;
    CleanLinesAreFound(env, changes, key);
  }

  lemma CleanLinesAreFound(env: seq<string>, changes: seq<Change>, key: string)
    requires DistinctKeys(changes) && forall c :: c in changes ==> Clean(c)
    ensures Lookup(Altered(env, changes), key) == Wanted(env, changes, key)
  {
    LookupInTwo(Kept(env, changes), Added(changes), key);
    LookupKept(env, changes, key);
    LookupAdded(changes, key);
    ChangeOfIs(changes, key);
    hide Kept, Added, Lookup, ChangeOf;
  }

  lemma UncleanChangeIsNotMade(env: seq<string>, changes: seq<Change>, i: nat)
    requires DistinctKeys(changes) && i < |changes| && !Clean(changes[i])
    ensures Lookup(ReadBack(Altered(env, changes)), changes[i].key) != Wanted(env, changes, changes[i].key)
  {
    var lines := ReadBack(Altered(env, changes));
    assert forall line :: line in lines ==> NUL !in line by { hide Altered; }
    hide ReadBack, Lookup, Wanted, Clean;
    UncleanIsNotFound(env, changes, i, lines);
  }

  /** Whatever C strings a reader finds, they do not say what the change asked for. */
  lemma UncleanIsNotFound(env: seq<string>, changes: seq<Change>, i: nat, lines: seq<string>)
    requires DistinctKeys(changes) && i < |changes| && !Clean(changes[i])
    requires forall line :: line in lines ==> NUL !in line
    ensures Lookup(lines, changes[i].key) != Wanted(env, changes, changes[i].key)
  {
    ChangeAt(changes, i);
    if Lookup(lines, changes[i].key).Some? {
      LookupIsPlain(lines, changes[i].key);
    }
    hide Lookup;
  }

  // ----- the block on Windows -----------------------------------------------------------

  /** The lines of a block, which an empty line ends. */
  function Lines(block: string): seq<string>
    decreases |block|
  {
    var line := UpToNul(block);
    if line == "" || |line| >= |block| then [] else [line] + Lines(block[|line| + 1..])
  }

  /** The block of these lines; there are two NULs even if there is no line. */
  function BlockOf(lines: seq<string>): string {
    Storage(lines) + if lines == [] then [NUL, NUL] else [NUL]
  }

  /** What a block can hold. */
  predicate Proper(line: string) {
    line != "" && NUL !in line
  }

  lemma {:induction false} FirstStored(lines: seq<string>)
    requires lines != []
    ensures Storage(lines) == lines[0] + [NUL] + Storage(lines[1..])
    decreases |lines|
  {
    var last := |lines| - 1;
    if last > 0 {
      FirstStored(lines[..last]);
      assert lines[..last][1..] == lines[1..][..last - 1] && lines[1..][last - 1] == lines[last];
    }
  }

  /** A block is read back as the lines that it was made of. */
  lemma {:induction false} LinesOfBlock(lines: seq<string>, rest: string)
    requires forall line :: line in lines ==> Proper(line)
    ensures Lines(Storage(lines) + [NUL] + rest) == lines
    decreases |lines|
  {
    var block := Storage(lines) + [NUL] + rest;
    if lines == [] {
      assert block[0] == NUL;
    } else {
      var line, more := lines[0], Storage(lines[1..]) + [NUL] + rest;
      assert line in lines && Proper(line);
      FirstStored(lines);
      assert block == line + [NUL] + more;
      UpToNulStops(line, more);
      NulFreeIsReadBack(line);
      hide Storage, UpToNul;
      assert block[|line| + 1..] == more;
      LinesOfBlock(lines[1..], rest);
      assert [line] + lines[1..] == lines;
    }
  }

  /** The same for a block: looking every variable up in it gives the old environment with the
      changes made, exactly if every change that is no removal can be expressed as a line. */
  lemma BlockChangesAreMadeIff(env: seq<string>, changes: seq<Change>)
    requires DistinctKeys(changes) && forall line :: line in env ==> Proper(line)
    ensures (forall key :: Lookup(Lines(BlockOf(Altered(env, changes))), key) == Wanted(env, changes, key))
            <==> forall c :: c in changes ==> Clean(c)
  {
    var lines := Lines(BlockOf(Altered(env, changes)));
    if forall c :: c in changes ==> Clean(c) {
      AllProper(env, changes);
      LinesOfBlock(Altered(env, changes), if Altered(env, changes) == [] then [NUL] else []);
      assert BlockOf([]) == Storage([]) + [NUL] + [NUL];
      assert forall a: string :: a + [] == a;
      hide BlockOf, Lookup, Wanted, Clean, Altered;
      forall key ensures Lookup(lines, key) == Wanted(env, changes, key) {
        CleanLinesAreFound(env, changes, key);
      }
    } else {
      var i :| 0 <= i < |changes| && !Clean(changes[i]);
      hide Storage;
      LinesAreNulFree(BlockOf(Altered(env, changes)));
      UncleanIsNotFound(env, changes, i, lines);
    }
  }

  lemma {:induction false} LinesAreNulFree(block: string)
    ensures forall line :: line in Lines(block) ==> NUL !in line
    decreases |block|
  {
    var line := UpToNul(block);
    if line != "" && |line| < |block| {
      LinesAreNulFree(block[|line| + 1..]);
    }
  }

  lemma AllProper(env: seq<string>, changes: seq<Change>)
    requires forall line :: line in env ==> Proper(line)
    requires forall c :: c in changes ==> Clean(c)
    ensures forall line :: line in Altered(env, changes) ==> Proper(line)
  {
    KeptAreLines(env, changes);
    AddedAreNulFree(changes);
    AddedAreNotEmpty(changes);
    hide Kept, Added, Clean;
  }

  lemma {:induction false} AddedAreNotEmpty(changes: seq<Change>)
    ensures forall line :: line in Added(changes) ==> line != ""
    decreases |changes|
  {
    if changes != [] {
      AddedAreNotEmpty(changes[1..]);
    }
  }

  lemma {:induction false} StoredInTwo(lines: seq<string>, n: nat)
    requires n <= |lines|
    ensures Storage(lines) == Storage(lines[..n]) + Storage(lines[n..])
    decreases n
  {
    if n == 0 {
      assert lines[..0] == [] && lines[0..] == lines;
    } else {
      StoredInTwo(lines, n - 1);
      FirstStored(lines[n - 1..]);
      OneMoreStored(lines[..n - 1], lines[n - 1]);
      hide Storage;
      assert lines[n - 1..][1..] == lines[n..] && lines[..n - 1] + [lines[n - 1]] == lines[..n];
      Associates(Storage(lines[..n - 1]), lines[n - 1], [NUL]);
      Associates(Storage(lines[..n - 1]), lines[n - 1] + [NUL], Storage(lines[n..]));
    }
  }

  /** The block from line n on. */
  lemma {:induction false} LineAtPointer(lines: seq<string>, n: nat)
    requires n <= |lines| && forall line :: line in lines ==> Proper(line)
    ensures var env, c := Storage(lines) + [NUL], |Storage(lines[..n])|;
            c < |env| && env[c..] == Storage(lines[n..]) + [NUL] && (env[c] != NUL <==> n < |lines|)
  {
    StoredInTwo(lines, n);
    if n < |lines| {
      FirstStored(lines[n..]);
      assert lines[n] in lines && Proper(lines[n]);
      hide Storage;
      assert (Storage(lines[n..]) + [NUL])[0] == lines[n][0];
    } else {
      assert Storage(lines[n..]) == "";
    }
  }

  /** Line n, at its pointer. */
  lemma {:induction false} LineIs(lines: seq<string>, n: nat, memory: string)
    requires n < |lines| && Proper(lines[n]) && memory == Storage(lines[n..]) + [NUL]
    ensures NUL in memory && UpToNul(memory) == lines[n]
    ensures |lines[n]| + 1 <= |memory| && memory[..|lines[n]| + 1] == lines[n] + [NUL]
    ensures |Storage(lines[..n + 1])| == |Storage(lines[..n])| + |lines[n]| + 1
  {
    FirstStored(lines[n..]);
    OneMoreStored(lines[..n], lines[n]);
    assert lines[..n] + [lines[n]] == lines[..n + 1];
    var more := Storage(lines[n..][1..]) + [NUL];
    hide Storage;
    assert memory == lines[n] + [NUL] + more;
    UpToNulStops(lines[n], more);
    NulFreeIsReadBack(lines[n]);
  }

  lemma {:induction false} EmptyStorage(lines: seq<string>)
    ensures Storage(lines) == "" <==> lines == []
  {
  }

  /** AlterEnvironment on Windows, where an environment is one block. */
  method AlterEnvironmentBlock(env: string, changes: seq<Change>, ghost lines: seq<string>) returns (result: string)
    requires DistinctKeys(changes)
    requires (forall line :: line in lines ==> Proper(line)) && env == Storage(lines) + [NUL]
    ensures result == BlockOf(Altered(lines, changes))
  {
    result := CopyUnmodified(env, changes, lines);
    var unused: seq<nat>;
    result, unused := AppendAdded(changes, result, [], Kept(lines, changes));

    // a line that is stored ends in a NUL already; with none stored there are two to add
    EmptyStorage(Altered(lines, changes));
    hide Storage, Kept, Added;
    if result == "" {
      result := result + [NUL];
    }
    result := result + [NUL];
  }

  /** The same on a block: line n begins at curEnv, and the NUL after the last line stops the loop. */
  method CopyUnmodified(env: string, changes: seq<Change>, ghost lines: seq<string>) returns (result: string)
    requires (forall line :: line in lines ==> Proper(line)) && env == Storage(lines) + [NUL]
    ensures result == Storage(Kept(lines, changes))
  {
    result := "";
    ghost var done: seq<string>, n := [], 0;
    NothingStored();
    assert lines[0..] == lines && lines[..0] == [] && [] + Kept(lines, changes) == Kept(lines, changes);
    hide Storage, Proper, Kept, Key, UpToNul;
    LineAtPointer(lines, 0);
    var curEnv := 0;
    while env[curEnv] != NUL
      invariant n <= |lines| && curEnv == |Storage(lines[..n])| < |env|
      invariant env[curEnv..] == Storage(lines[n..]) + [NUL]
      invariant env[curEnv] != NUL <==> n < |lines|
      invariant done + Kept(lines[n..], changes) == Kept(lines, changes) && result == Storage(done)
      decreases |lines| - n
    {
      KeptFrom(done, lines, changes, n);
      var line := env[curEnv..];
      assert lines[n] in lines;
      LineIs(lines, n, line);
      LineAtPointer(lines, n + 1);
      var key, lineLength := ParseEnvLine(line);
      if !Changed(changes, key) {
        OneMoreStored(done, lines[n]);
        LineAndNul(result, lines[n]);
        done := done + [lines[n]];
        result := result + line[..lineLength];
      }
      curEnv := curEnv + lineLength;
      n := n + 1;
    }
    NoMoreKept(done, lines[n..], changes);
  }
}
