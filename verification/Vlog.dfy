/** base/vlog.cc: the verbosity level of a file, found by glob patterns. */
module Vlog {

  // ----- the language of a pattern ------------------------------------------------------

  predicate IsSlash(c: char) {
    c == '/' || c == '\\'
  }

  /** A '*' stands for any run, a '?' for any character, a slash for either slash, and any
      other character for itself. */
  predicate StandsFor(c: char, piece: string) {
    if c == '*' then true
    else if IsSlash(c) then |piece| == 1 && IsSlash(piece[0])
    else if c == '?' then |piece| == 1
    else piece == [c]
  }

  function Joined(pieces: seq<string>): string {
    if pieces == [] then "" else pieces[0] + Joined(pieces[1..])
  }

  /** The string can be cut into pieces, one for each character of the pattern. */
  ghost predicate Cuts(s: string, pattern: string, pieces: seq<string>) {
    |pieces| == |pattern| && Joined(pieces) == s && forall i :: 0 <= i < |pattern| ==> StandsFor(pattern[i], pieces[i])
  }

  ghost predicate InLanguage(s: string, pattern: string) {
    exists pieces :: Cuts(s, pattern, pieces)
  }

  // ----- the language, character by character -------------------------------------------

  ghost predicate Glob(s: string, p: string)
    decreases |p|
  {
    if p == "" then s == ""
    else if p[0] == '*' then exists k :: 0 <= k <= |s| && Glob(s[k..], p[1..])
    else s != "" && StandsFor(p[0], s[..1]) && Glob(s[1..], p[1..])
  }

  lemma {:induction false} GlobHasPieces(s: string, p: string) returns (pieces: seq<string>)
    requires Glob(s, p)
    ensures Cuts(s, p, pieces)
    decreases |p|
  {
    if p == "" {
      pieces := [];
    } else {
      var k := 1;
      if p[0] == '*' {
        k :| 0 <= k <= |s| && Glob(s[k..], p[1..]);
      }
      var rest := GlobHasPieces(s[k..], p[1..]);
      pieces := [s[..k]] + rest;
      assert pieces[1..] == rest;
      forall i | 0 <= i < |p| ensures StandsFor(p[i], pieces[i]) {
        if i > 0 {
          assert p[i] == p[1..][i - 1] && pieces[i] == rest[i - 1];
        }
      }
    }
  }

  lemma {:induction false} PiecesMakeGlob(s: string, p: string, pieces: seq<string>)
    requires Cuts(s, p, pieces)
    ensures Glob(s, p)
    decreases |p|
  {
    if p != "" {
      var k := |pieces[0]|;
      assert s[..k] == pieces[0] && s[k..] == Joined(pieces[1..]);
      PiecesMakeGlob(s[k..], p[1..], pieces[1..]);
    }
  }

  lemma GlobIsLanguage(s: string, p: string)
    ensures Glob(s, p) <==> InLanguage(s, p)
  {
    if Glob(s, p) {
      var pieces := GlobHasPieces(s, p);
    }
    if InLanguage(s, p) {
      var pieces :| Cuts(s, p, pieces);
      PiecesMakeGlob(s, p, pieces);
    }
  }

  /** One more star in a run of stars makes no difference. */
  lemma StarsCoalesce(s: string, p: string)
    ensures Glob(s, "**" + p) == Glob(s, "*" + p)
  {
    assert ("**" + p)[1..] == "*" + p && ("*" + p)[1..] == p;
    if Glob(s, "**" + p) {
      var k :| 0 <= k <= |s| && Glob(s[k..], "*" + p);
      var j :| 0 <= j <= |s[k..]| && Glob(s[k..][j..], p);
      assert s[k..][j..] == s[k + j..];
    }
    if Glob(s, "*" + p) {
      assert s[0..] == s;
      assert Glob(s[0..], "*" + p);
    }
  }

  lemma StarIsAnySuffix(s: string, p: string)
    ensures Glob(s, "*" + p) <==> exists k :: 0 <= k <= |s| && Glob(s[k..], p)
  {
    assert ("*" + p)[1..] == p;
  }

  lemma EverythingMatches(s: string)
    ensures Glob(s, "*" + "")
  {
    assert ("*" + "")[1..] == "";
    assert s[|s|..] == "" && Glob(s[|s|..], "");
  }

  /** Every star after the first is dropped, which StarsCoalesce allows. There is no star only
      when the string was used up. */
  method SkipStars(s: string, pattern: string) returns (p: string)
    requires pattern != "" && (s == "" || pattern[0] == '*')
    ensures p == "" || p[0] != '*'
    ensures if pattern[0] == '*' then |p| < |pattern| && Glob(s, "*" + p) == Glob(s, pattern) else p == pattern
  {
    p := pattern;
    hide Glob;
    while p != "" && p[0] == '*'
      invariant |p| <= |pattern|
      invariant p == pattern || (pattern[0] == '*' && |p| < |pattern| && Glob(s, "*" + p) == Glob(s, pattern))
      decreases |p|
    {
      if p == pattern {
        assert "*" + p[1..] == p;
      } else {
        assert "**" + p[1..] == "*" + p;
        StarsCoalesce(s, p[1..]);
      }
      p := p[1..];
    }
  }

  /** As long as both agree, dropping a character from both keeps the question the same. */
  method ConsumeUntilStar(text: string, vlogPattern: string) returns (agree: bool, s: string, p: string)
    ensures if agree then Glob(s, p) == Glob(text, vlogPattern) && |p| <= |vlogPattern| else !Glob(text, vlogPattern)
    ensures agree ==> p == "" || s == "" || p[0] == '*'
  {
    p, s := vlogPattern, text;
    while p != "" && s != "" && p[0] != '*'
      invariant Glob(s, p) == Glob(text, vlogPattern) && |p| <= |vlogPattern|
      decreases |p|
    {
      if IsSlash(p[0]) {
        if !IsSlash(s[0]) {
          return false, s, p;
        }
      } else if p[0] != '?' {
        if p[0] != s[0] {
          return false, s, p;
        }
      }
      assert s[..1] == [s[0]];
      p, s := p[1..], s[1..];
    }
    agree := true;
  }

  /** MatchVlogPattern decides the language of the pattern. */
  method MatchVlogPattern(text: string, vlogPattern: string) returns (matches: bool)
    ensures matches <==> Glob(text, vlogPattern)
    ensures matches <==> InLanguage(text, vlogPattern)
    decreases |vlogPattern|
  {
    GlobIsLanguage(text, vlogPattern);
    hide InLanguage;
    var agree, s, p := ConsumeUntilStar(text, vlogPattern);
    if !agree {
      return false;
    }

    if p == "" {
      return s == "";
    }

    p := SkipStars(s, p);

    if p == "" {
      EverythingMatches(s);
      return true;
    }

    // p is not empty and begins with no star, so the empty suffix cannot match it
    ghost var whole, n := s, 0;
    StarIsAnySuffix(whole, p);
    while s != ""
      invariant 0 <= n <= |whole| && s == whole[n..]
      invariant forall k :: 0 <= k < n ==> !Glob(whole[k..], p)
      decreases |s|
    {
      var found := MatchVlogPattern(s, p);
      if found {
        return true;
      }
      assert s[1..] == whole[n + 1..];
      s, n := s[1..], n + 1;
    }
    return false;
  }

  // ----- the module of a file -----------------------------------------------------------

  /** What follows the last slash. */
  function Basename(file: string): string {
    if file == "" || IsSlash(file[|file| - 1]) then "" else Basename(file[..|file| - 1]) + [file[|file| - 1]]
  }

  /** What precedes the last dot, or everything. */
  function WithoutExtension(name: string): string {
    if '.' !in name then name
    else if name[|name| - 1] == '.' then name[..|name| - 1]
    else
      assert name == name[..|name| - 1] + [name[|name| - 1]];
      WithoutExtension(name[..|name| - 1])
  }

  function WithoutInl(stem: string): string {
    if |stem| >= 4 && stem[|stem| - 4..] == "-inl" then stem[..|stem| - 4] else stem
  }

  function Module(file: string): string {
    WithoutInl(WithoutExtension(Basename(file)))
  }

  predicate NoSlash(s: string) {
    forall i :: 0 <= i < |s| ==> !IsSlash(s[i])
  }

  lemma {:induction false} BasenameIs(directory: string, name: string)
    requires directory == "" || IsSlash(directory[|directory| - 1])
    requires NoSlash(name)
    ensures Basename(directory + name) == name
    decreases |name|
  {
    if name == "" {
      assert directory + name == directory;
    } else {
      var init := name[..|name| - 1];
      assert (directory + name)[..|directory + name| - 1] == directory + init;
      BasenameIs(directory, init);
      assert init + [name[|name| - 1]] == name;
    }
  }

  lemma {:induction false} ExtensionIs(stem: string, extension: string)
    requires '.' !in extension
    ensures WithoutExtension(stem + "." + extension) == stem
    decreases |extension|
  {
    var name := stem + "." + extension;
    assert name[|stem|] == '.';
    if extension == "" {
      assert name[..|name| - 1] == stem;
    } else {
      var init := extension[..|extension| - 1];
      assert name[..|name| - 1] == stem + "." + init;
      ExtensionIs(stem, init);
    }
  }

  lemma SplitAtDot(name: string, dot: nat)
    requires 0 < dot <= |name| && name[dot - 1] == '.'
    ensures name[..dot - 1] + "." + name[dot..] == name
  {
    assert name[..dot - 1] + [name[dot - 1]] == name[..dot];
  }

  lemma DotIsAt(name: string, dot: nat)
    requires dot <= |name| && (dot > 0 ==> name[dot - 1] == '.') && forall i :: dot <= i < |name| ==> name[i] != '.'
    ensures WithoutExtension(name) == if dot > 0 then name[..dot - 1] else name
  {
    assert '.' !in name[dot..];
    if dot > 0 {
      SplitAtDot(name, dot);
      ExtensionIs(name[..dot - 1], name[dot..]);
      hide WithoutExtension;
    } else {
      assert name[dot..] == name;
    }
  }

  /** module.find_last_of and rfind: the end of the longest prefix that ends in a separator. */
  method AfterLast(s: string, slash: bool) returns (n: nat)
    ensures n <= |s|
    ensures n > 0 ==> if slash then IsSlash(s[n - 1]) else s[n - 1] == '.'
    ensures forall i :: n <= i < |s| ==> if slash then !IsSlash(s[i]) else s[i] != '.'
  {
    n := |s|;
    while n > 0 && !(if slash then IsSlash(s[n - 1]) else s[n - 1] == '.')
      invariant n <= |s| && forall i :: n <= i < |s| ==> if slash then !IsSlash(s[i]) else s[i] != '.'
    {
      n := n - 1;
    }
  }

  /** GetModule */
  method GetModule(file: string) returns (module_: string)
    ensures module_ == Module(file)
  {
    hide Basename, WithoutExtension;
    var lastSlash := AfterLast(file, true);
    module_ := file[lastSlash..];
    BasenameIs(file[..lastSlash], module_);
    assert file[..lastSlash] + module_ == file;
    var dot := AfterLast(module_, false);
    DotIsAt(module_, dot);
    if dot > 0 {
      module_ := module_[..dot - 1];
    }
    if |module_| >= 4 && module_[|module_| - 4..] == "-inl" {
      module_ := module_[..|module_| - 4];
    }
  }

  /** The module of a file in a directory, with an extension: neither counts. */
  lemma ModuleOfPath(directory: string, stem: string, extension: string)
    requires directory == "" || IsSlash(directory[|directory| - 1])
    requires NoSlash(stem) && NoSlash(extension) && '.' !in extension
    ensures Module(directory + (stem + "." + extension)) == WithoutInl(stem)
  {
    assert NoSlash(stem + "." + extension);
    BasenameIs(directory, stem + "." + extension);
    ExtensionIs(stem, extension);
    hide Basename, WithoutExtension, WithoutInl;
  }

  // ----- levels -------------------------------------------------------------------------

  class IntCell {
    var value: int
    constructor (value: int)
      ensures this.value == value
    {
      this.value := value;
    }
  }

  /** A pattern with a slash is meant for the whole path, another for the module. */
  datatype VmodulePattern = VmodulePattern(pattern: string, level: int) {
    predicate MatchFile() {
      exists i :: 0 <= i < |pattern| && IsSlash(pattern[i])
    }

    ghost predicate Matches(file: string) {
      InLanguage(if MatchFile() then file else Module(file), pattern)
    }
  }

  class VlogInfo {
    const vmoduleLevels: seq<VmodulePattern>
    const minLogLevel: IntCell

    constructor (vmoduleLevels: seq<VmodulePattern>, minLogLevel: IntCell)
      ensures this.vmoduleLevels == vmoduleLevels && this.minLogLevel == minLogLevel
    {
      this.vmoduleLevels := vmoduleLevels;
      this.minLogLevel := minLogLevel;
    }

    /** The level is stored negated, and read back negated again. */
    method SetMaxVlogLevel(level: int)
      modifies minLogLevel
      ensures MaxVlogLevel() == level
    {
      minLogLevel.value := -level;
    }

    function MaxVlogLevel(): int
      reads minLogLevel
    {
      -minLogLevel.value
    }

    /** The level of the first pattern that matches, or else the maximum. */
    method GetVlogLevel(file: string) returns (level: int)
      ensures forall i :: 0 <= i < |vmoduleLevels| && vmoduleLevels[i].Matches(file)
                          && (forall j :: 0 <= j < i ==> !vmoduleLevels[j].Matches(file)) ==>
                          level == vmoduleLevels[i].level
      ensures (forall i :: 0 <= i < |vmoduleLevels| ==> !vmoduleLevels[i].Matches(file)) ==> level == MaxVlogLevel()
    {
      var module_ := GetModule(file);
      hide InLanguage, Module, Glob, IsSlash;
      for i := 0 to |vmoduleLevels|
        invariant forall j :: 0 <= j < i ==> !vmoduleLevels[j].Matches(file)
      {
        var it := vmoduleLevels[i];
        var target := if it.MatchFile() then file else module_;
        var matches := MatchVlogPattern(target, it.pattern);
        if matches {
          return it.level;
        }
      }
      return MaxVlogLevel();
    }
  }
}
