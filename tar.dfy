/** The packer's tar walk: a bundle directory is scanned recursively and every
    file that neither it nor any directory above it is excluded goes into the
    tar. Legacy specs (no version) exclude by shell-style patterns, version
    1.0 specs by regular expressions anchored at the start of the path. */
module TarWalk {
  import opened Values

  /** The patterns a legacy spec excludes on top of the caller's, in order. */
  const DefaultPatterns: seq<string> :=
    ["spec.yaml", "pylintrc", ".[0-9a-zA-Z]*", "*pycache*", "README.md", "*requirements*", "*.gz", "*.md"]

  // Shell-style patterns

  /** The first `]` at or after `j`. */
  function FindClose(p: string, j: nat): (r: Option<nat>)
    ensures r.Some? ==> j <= r.value < |p| && p[r.value] == ']'
    ensures r.Some? ==> forall k :: j <= k < r.value ==> p[k] != ']'
    ensures r.None? ==> forall k :: j <= k < |p| ==> p[k] != ']'
    decreases |p| - j
  {
    if j >= |p| then None
    else if p[j] == ']' then Some(j)
    else FindClose(p, j + 1)
  }

  /** Where the bracket expression opening `p` closes: a `]` right after `[`
      or `[!` is a member, not the end. */
  function BracketEnd(p: string): (r: Option<nat>)
    requires |p| > 0 && p[0] == '['
    ensures r.Some? ==> 1 <= r.value < |p| && p[r.value] == ']'
  {
    var j := if 1 < |p| && p[1] == '!' then 2 else 1;
    var j' := if j < |p| && p[j] == ']' then j + 1 else j;
    FindClose(p, j')
  }

  /** Membership in the items of a bracket expression: single characters and
      ranges `x-y`. */
  function InItems(items: string, c: char): bool
    decreases |items|
  {
    if items == [] then false
    else if |items| >= 3 && items[1] == '-' then (items[0] <= c <= items[2]) || InItems(items[3..], c)
    else c == items[0] || InItems(items[1..], c)
  }

  /** Membership in a bracket expression's body; a leading `!` negates it. */
  function InBracket(body: string, c: char): bool {
    if |body| > 0 && body[0] == '!' then !InItems(body[1..], c) else InItems(body, c)
  }

  /** `fnmatch(s, p)` on a POSIX system: `*` matches any run of characters
      (slashes included), `?` any one character, `[...]` one character of a
      set, an unclosed `[` itself, everything else itself; the whole of `s`
      must match. */
  function Glob(p: string, s: string): bool
    decreases |p| + |s|
  {
    if p == [] then s == []
    else if p[0] == '*' then Glob(p[1..], s) || (s != [] && Glob(p, s[1..]))
    else if p[0] == '?' then s != [] && Glob(p[1..], s[1..])
    else if p[0] == '[' && BracketEnd(p).Some? then
      var j := BracketEnd(p).value;
      s != [] && InBracket(p[1..j], s[0]) && Glob(p[j + 1..], s[1..])
    else s != [] && s[0] == p[0] && Glob(p[1..], s[1..])
  }

  /** A pattern without `*`, `?` or `[`. */
  predicate Literal(p: string) {
    forall k :: 0 <= k < |p| ==> p[k] != '*' && p[k] != '?' && p[k] != '['
  }

  /** A literal pattern matches exactly itself. */
  lemma {:induction false} GlobLiteral(p: string, s: string)
    requires Literal(p)
    ensures Glob(p, s) <==> s == p
    decreases |p|
  {
    if p != [] {
      assert Literal(p[1..]) by {
        assert forall k :: 0 <= k < |p[1..]| ==> p[1..][k] == p[k + 1];
      }
      if s != [] {
        GlobLiteral(p[1..], s[1..]);
        if s[0] == p[0] && s[1..] == p[1..] {
          assert s == [s[0]] + s[1..] && p == [p[0]] + p[1..];
        }
      }
    }
  }

  /** `*` matches every string. */
  lemma {:induction false} GlobStarAll(s: string)
    ensures Glob("*", s)
    decreases |s|
  {
    if s != [] {
      GlobStarAll(s[1..]);
    }
  }

  /** `*` followed by a literal matches exactly the strings ending in it. */
  lemma {:induction false} GlobStarSuffix(lit: string, s: string)
    requires Literal(lit)
    ensures Glob(['*'] + lit, s) <==> |s| >= |lit| && s[|s| - |lit|..] == lit
    decreases |s|
  {
    var p := ['*'] + lit;
    assert p[1..] == lit;
    GlobLiteral(lit, s);
    if s != [] {
      GlobStarSuffix(lit, s[1..]);
      if |s| > |lit| {
        assert s[|s| - |lit|..] == s[1..][|s[1..]| - |lit|..];
      }
    }
  }

  /** The bracket expression of the hidden-file pattern closes at index 10. */
  lemma HiddenBracketEnd()
    ensures BracketEnd("[0-9a-zA-Z]*") == Some(10)
  {
    var q := "[0-9a-zA-Z]*";
    assert FindClose(q, 10) == Some(10);
    assert FindClose(q, 5) == FindClose(q, 10) by {
      assert q[5] != ']' && q[6] != ']' && q[7] != ']' && q[8] != ']' && q[9] != ']';
    }
    assert FindClose(q, 1) == FindClose(q, 5) by {
      assert q[1] != ']' && q[2] != ']' && q[3] != ']' && q[4] != ']';
    }
  }

  /** The set `0-9a-zA-Z` holds every ASCII letter and digit. */
  lemma AlnumItems(c: char)
    requires '0' <= c <= '9' || 'a' <= c <= 'z' || 'A' <= c <= 'Z'
    ensures InItems("0-9a-zA-Z", c)
  {
    var items := "0-9a-zA-Z";
    assert items[3..] == "a-zA-Z";
    assert "a-zA-Z"[3..] == "A-Z";
  }

  /** A bracket expression at the front of the pattern matches one
      character of its set. */
  lemma GlobBracketStep(p: string, s: string, j: nat)
    requires |p| > 0 && p[0] == '[' && BracketEnd(p) == Some(j)
    requires s != [] && InBracket(p[1..j], s[0]) && Glob(p[j + 1..], s[1..])
    ensures Glob(p, s)
  {
  }

  /** An ordinary character at the front of the pattern matches itself. */
  lemma GlobCharStep(p: string, s: string)
    requires |p| > 0 && p[0] != '*' && p[0] != '?' && p[0] != '['
    requires s != [] && s[0] == p[0] && Glob(p[1..], s[1..])
    ensures Glob(p, s)
  {
  }

  /** The pieces of the hidden-file pattern. */
  lemma HiddenPatternParts()
    ensures ".[0-9a-zA-Z]*"[0] == '.' && ".[0-9a-zA-Z]*"[1..] == "[0-9a-zA-Z]*"
    ensures "[0-9a-zA-Z]*"[1..10] == "0-9a-zA-Z" && "[0-9a-zA-Z]*"[11..] == "*"
  {
  }

  /** `.[0-9a-zA-Z]*` matches a name that starts with a dot and a letter or
      digit: hidden files are excluded from legacy bundles. */
  lemma HiddenNameMatches(name: string)
    requires |name| >= 2 && name[0] == '.'
    requires '0' <= name[1] <= '9' || 'a' <= name[1] <= 'z' || 'A' <= name[1] <= 'Z'
    ensures Glob(".[0-9a-zA-Z]*", name)
  {
    var p := ".[0-9a-zA-Z]*";
    var q := "[0-9a-zA-Z]*";
    HiddenPatternParts();
    HiddenBracketEnd();
    AlnumItems(name[1]);
    var rest := name[1..];
    assert rest[1..] == name[2..];
    GlobStarAll(name[2..]);
    GlobBracketStep(q, rest, 10);
    GlobCharStep(p, name);
  }

  // The comparator

  /** What `compare_helper` returns: the legacy matcher over the (extended)
      pattern list, or the 1.0 matcher over the compiled expressions. */
  datatype Comparator = Legacy(patterns: seq<string>) | Regex(expressions: seq<string>)

  /** Some legacy pattern matches the path or the bare name. */
  function AnyGlob(patterns: seq<string>, path: string, name: string): (r: bool)
    ensures r <==> exists i :: 0 <= i < |patterns| && (Glob(patterns[i], path) || Glob(patterns[i], name))
    decreases |patterns|
  {
    if patterns == [] then false
    else
      assert forall i :: 1 <= i < |patterns| ==> patterns[i] == patterns[1..][i - 1];
      Glob(patterns[0], path) || Glob(patterns[0], name) || AnyGlob(patterns[1..], path, name)
  }

  /** Some expression matches at the start of the path; `reMatch(e, s)` is
      `re.match(e, s)` succeeding. */
  function AnyRegex(expressions: seq<string>, path: string, reMatch: (string, string) -> bool): (r: bool)
    ensures r <==> exists i :: 0 <= i < |expressions| && reMatch(expressions[i], path)
    decreases |expressions|
  {
    if expressions == [] then false
    else
      assert forall i :: 1 <= i < |expressions| ==> expressions[i] == expressions[1..][i - 1];
      reMatch(expressions[0], path) || AnyRegex(expressions[1..], path, reMatch)
  }

  /** Whether the comparator excludes the entry with this normalized path and
      name; the 1.0 matcher ignores the bare name. */
  function Excluded(c: Comparator, path: string, name: string, reMatch: (string, string) -> bool): bool {
    match c
    case Legacy(patterns) => AnyGlob(patterns, path, name)
    case Regex(expressions) => AnyRegex(expressions, path, reMatch)
  }

  /** The comparator call: `v_none` or `v_1_0`, each a loop that stops at the
      first pattern that matches. */
  method Matches(c: Comparator, path: string, name: string, reMatch: (string, string) -> bool) returns (r: bool)
    ensures r == Excluded(c, path, name, reMatch)
  {
    match c
    case Legacy(patterns) =>
      for i := 0 to |patterns|
        invariant !AnyGlob(patterns[..i], path, name)
      {
        if Glob(patterns[i], path) || Glob(patterns[i], name) {
          assert patterns[..i + 1][i] == patterns[i];
          return true;
        }
        assert forall k :: 0 <= k < i + 1 ==> patterns[..i + 1][k] == patterns[k];
        assert forall k :: 0 <= k < i ==> patterns[..i][k] == patterns[k];
      }
      assert forall k :: 0 <= k < |patterns| ==> patterns[..|patterns|][k] == patterns[k];
      return false;
    case Regex(expressions) =>
      for i := 0 to |expressions|
        invariant !AnyRegex(expressions[..i], path, reMatch)
      {
        if reMatch(expressions[i], path) {
          assert expressions[..i + 1][i] == expressions[i];
          return true;
        }
        assert forall k :: 0 <= k < i + 1 ==> expressions[..i + 1][k] == expressions[k];
        assert forall k :: 0 <= k < i ==> expressions[..i][k] == expressions[k];
      }
      assert forall k :: 0 <= k < |expressions| ==> expressions[..|expressions|][k] == expressions[k];
      return false;
  }

  /** A legacy comparator made by `compare_helper` excludes every Markdown
      file, wherever it lies. */
  lemma LegacyExcludesMarkdown(caller: seq<string>, path: string, name: string, reMatch: (string, string) -> bool)
    requires |name| >= 3 && name[|name| - 3..] == ".md"
    ensures Excluded(Legacy(caller + DefaultPatterns), path, name, reMatch)
  {
    var ps := caller + DefaultPatterns;
    assert ps[|caller| + 7] == "*.md";
    assert "*.md" == ['*'] + ".md";
    GlobStarSuffix(".md", name);
  }

  /** The caller's `except_list`, which `compare_helper` extends in place. */
  class PatternList {
    var items: seq<string>

    constructor(items: seq<string>)
      ensures this.items == items
    {
      this.items := items;
    }

    /** `list.extend(more)`. */
    method Extend(more: seq<string>)
      modifies this
      ensures items == old(items) + more
    {
      items := items + more;
    }
  }

  /** `compare_helper(version, except_list)`: anything but None or "1.0" is
      refused; a legacy spec gets the default patterns appended to the
      caller's list. */
  method CompareHelper(version: Json, exceptList: PatternList) returns (r: Result<Comparator>)
    modifies exceptList
    ensures version != Null && version != Str("1.0") ==>
              r == Err(NotValidSpecVersion) && exceptList.items == old(exceptList.items)
    ensures version == Null ==>
              exceptList.items == old(exceptList.items) + DefaultPatterns && r == Ok(Legacy(exceptList.items))
    ensures version == Str("1.0") ==>
              exceptList.items == old(exceptList.items) && r == Ok(Regex(exceptList.items))
  {
    if version != Null && version != Str("1.0") {
      return Err(NotValidSpecVersion);
    }
    if version == Null {
      exceptList.Extend(DefaultPatterns);
      r := Ok(Legacy(exceptList.items));
    } else {
      r := Ok(Regex(exceptList.items));
    }
  }

  // The directory walk

  /** A directory entry as `scandir` yields it, with the order of a
      directory's children the order of the scan. */
  datatype Node = File(name: string) | Dir(name: string, children: seq<Node>)

  /** `normpath(sub.path)` for an entry of the directory at `dir` (the bundle
      root is the empty path: `./name` normalizes to `name`). */
  function EntryPath(dir: string, name: string): string {
    if dir == "" then name else dir + "/" + name
  }

  /** What `_add_to_tar` adds, in order, from the children of `dir` (found at
      `path`) starting at the `i`-th. */
  function Collected(c: Comparator, dir: Node, path: string, i: nat, reMatch: (string, string) -> bool): seq<string>
    requires dir.Dir? && i <= |dir.children|
    decreases dir, |dir.children| - i
  {
    if i == |dir.children| then []
    else
      var sub := dir.children[i];
      var p := EntryPath(path, sub.name);
      (if Excluded(c, p, sub.name, reMatch) then []
       else if sub.Dir? then Collected(c, sub, p, 0, reMatch)
       else [p])
      + Collected(c, dir, path, i + 1, reMatch)
  }

  /** What one child contributes, followed by the rest. */
  function Piece(c: Comparator, dir: Node, path: string, i: nat, reMatch: (string, string) -> bool): seq<string>
    requires dir.Dir? && i < |dir.children|
    decreases dir, 0
  {
    var sub := dir.children[i];
    var p := EntryPath(path, sub.name);
    if Excluded(c, p, sub.name, reMatch) then []
    else if sub.Dir? then Collected(c, sub, p, 0, reMatch)
    else [p]
  }

  lemma CollectedStep(c: Comparator, dir: Node, path: string, i: nat, reMatch: (string, string) -> bool)
    requires dir.Dir? && i < |dir.children|
    ensures Collected(c, dir, path, i, reMatch) == Piece(c, dir, path, i, reMatch) + Collected(c, dir, path, i + 1, reMatch)
  {
  }

  /** The archive being written. */
  class Tar {
    var members: seq<string>

    constructor()
      ensures members == []
    {
      members := [];
    }

    /** `tar.add(path)`. */
    method Add(path: string)
      modifies this
      ensures members == old(members) + [path]
    {
      members := members + [path];
    }
  }

  /** The recursive `_add_to_tar(path)`: visits the children in scan
      order. */
  method Walk(c: Comparator, dir: Node, path: string, tar: Tar, reMatch: (string, string) -> bool)
    requires dir.Dir?
    modifies tar
    ensures tar.members == old(tar.members) + Collected(c, dir, path, 0, reMatch)
    decreases dir, 1
  {
    var i := 0;
    while i < |dir.children|
      invariant 0 <= i <= |dir.children|
      invariant tar.members + Collected(c, dir, path, i, reMatch) == old(tar.members) + Collected(c, dir, path, 0, reMatch)
    {
      ghost var before := tar.members;
      CollectedStep(c, dir, path, i, reMatch);
      Visit(c, dir, path, i, tar, reMatch);
      AppendAssoc(before, Piece(c, dir, path, i, reMatch), Collected(c, dir, path, i + 1, reMatch));
      i := i + 1;
    }
    assert Collected(c, dir, path, i, reMatch) == [];
  }

  lemma AppendAssoc(a: seq<string>, b: seq<string>, d: seq<string>)
    ensures (a + b) + d == a + (b + d)
  {
  }

  /** One iteration of `_add_to_tar`: an excluded entry is skipped, a
      directory is descended into, a file is added. */
  method Visit(c: Comparator, dir: Node, path: string, i: nat, tar: Tar, reMatch: (string, string) -> bool)
    requires dir.Dir? && i < |dir.children|
    modifies tar
    ensures tar.members == old(tar.members) + Piece(c, dir, path, i, reMatch)
    decreases dir, 0
  {
    var sub := dir.children[i];
    var p := EntryPath(path, sub.name);
    var excluded := Matches(c, p, sub.name, reMatch);
    if !excluded {
      if sub.Dir? {
        Walk(c, sub, p, tar, reMatch);
      } else {
        tar.Add(p);
      }
    }
  }

  /** `add_to_tar(version, directory, except_list, tar)` on the tree of
      `directory`. */
  method AddToTar(version: Json, root: Node, exceptList: PatternList, tar: Tar, reMatch: (string, string) -> bool)
    returns (r: Result<()>)
    requires root.Dir?
    modifies exceptList, tar
    ensures r.Err? <==> version != Null && version != Str("1.0")
    ensures r.Err? ==> r.error == NotValidSpecVersion && tar.members == old(tar.members)
    ensures version == Null ==>
              exceptList.items == old(exceptList.items) + DefaultPatterns &&
              tar.members == old(tar.members) + Collected(Legacy(exceptList.items), root, "", 0, reMatch)
    ensures version == Str("1.0") ==>
              exceptList.items == old(exceptList.items) &&
              tar.members == old(tar.members) + Collected(Regex(exceptList.items), root, "", 0, reMatch)
  {
    var comparator := CompareHelper(version, exceptList);
    if comparator.Err? {
      return Err(comparator.error);
    }
    Walk(comparator.value, root, "", tar, reMatch);
    r := Ok(());
  }

  // What the walk adds, stated without the walk

  /** One entry on the way to a file: its normalized path, its name, and
      whether it is the file itself. */
  datatype Step = Step(path: string, name: string, file: bool)

  function PrefixAll(st: Step, chains: seq<seq<Step>>): (r: seq<seq<Step>>)
    ensures |r| == |chains|
    ensures forall k :: 0 <= k < |r| ==> r[k] == [st] + chains[k]
    decreases |chains|
  {
    if chains == [] then [] else [[st] + chains[0]] + PrefixAll(st, chains[1..])
  }

  /** Every file below the children of `dir` from the `i`-th on, in scan
      order, each with the chain of entries leading to it. */
  function FileChains(dir: Node, path: string, i: nat): (r: seq<seq<Step>>)
    requires dir.Dir? && i <= |dir.children|
    ensures EndInFiles(r)
    decreases dir, |dir.children| - i
  {
    if i == |dir.children| then []
    else
      var sub := dir.children[i];
      var p := EntryPath(path, sub.name);
      var head :=
        if sub.Dir? then
          var below := FileChains(sub, p, 0);
          PrefixAllEndInFiles(Step(p, sub.name, false), below);
          PrefixAll(Step(p, sub.name, false), below)
        else [[Step(p, sub.name, true)]];
      EndInFilesConcat(head, FileChains(dir, path, i + 1));
      head + FileChains(dir, path, i + 1)
  }

  /** Every chain is non-empty and ends in a file. */
  predicate EndInFiles(chains: seq<seq<Step>>) {
    forall k :: 0 <= k < |chains| ==> |chains[k]| >= 1 && chains[k][|chains[k]| - 1].file
  }

  lemma EndInFilesConcat(a: seq<seq<Step>>, b: seq<seq<Step>>)
    requires EndInFiles(a) && EndInFiles(b)
    ensures EndInFiles(a + b)
  {
    forall k: int | 0 <= k < |a + b|
      ensures |(a + b)[k]| >= 1 && (a + b)[k][|(a + b)[k]| - 1].file
    {
      if k < |a| {
        assert (a + b)[k] == a[k];
      } else {
        assert (a + b)[k] == b[k - |a|];
      }
    }
  }

  lemma PrefixAllEndInFiles(st: Step, chains: seq<seq<Step>>)
    requires EndInFiles(chains)
    ensures EndInFiles(PrefixAll(st, chains))
  {
    var r: seq<seq<Step>> := PrefixAll(st, chains);
    forall k: int | 0 <= k < |r|
      ensures |r[k]| >= 1 && r[k][|r[k]| - 1].file
    {
      assert r[k] == [st] + chains[k];
      assert r[k][|r[k]| - 1] == chains[k][|chains[k]| - 1];
    }
  }

  /** No entry on the chain is excluded. */
  predicate Reachable(c: Comparator, chain: seq<Step>, reMatch: (string, string) -> bool) {
    forall k :: 0 <= k < |chain| ==> !Excluded(c, chain[k].path, chain[k].name, reMatch)
  }

  /** The paths of the files whose chains are reachable, in order. */
  function Admitted(c: Comparator, chains: seq<seq<Step>>, reMatch: (string, string) -> bool): seq<string>
    requires forall k :: 0 <= k < |chains| ==> |chains[k]| >= 1
    decreases |chains|
  {
    if chains == [] then []
    else
      (if Reachable(c, chains[0], reMatch) then [chains[0][|chains[0]| - 1].path] else [])
      + Admitted(c, chains[1..], reMatch)
  }

  lemma ReachableCons(c: Comparator, st: Step, chain: seq<Step>, reMatch: (string, string) -> bool)
    ensures Reachable(c, [st] + chain, reMatch) <==> !Excluded(c, st.path, st.name, reMatch) && Reachable(c, chain, reMatch)
  {
    var r := [st] + chain;
    if Reachable(c, r, reMatch) {
      assert r[0] == st;
      forall k | 0 <= k < |chain|
        ensures !Excluded(c, chain[k].path, chain[k].name, reMatch)
      {
        assert chain[k] == r[k + 1];
      }
    }
    if !Excluded(c, st.path, st.name, reMatch) && Reachable(c, chain, reMatch) {
      forall k | 0 <= k < |r|
        ensures !Excluded(c, r[k].path, r[k].name, reMatch)
      {
        if k > 0 {
          assert r[k] == chain[k - 1];
        }
      }
    }
  }

  /** What one child holds, as chains. */
  function ChainPiece(dir: Node, path: string, i: nat): (r: seq<seq<Step>>)
    requires dir.Dir? && i < |dir.children|
    ensures forall k :: 0 <= k < |r| ==> |r[k]| >= 1 && r[k][|r[k]| - 1].file
    decreases dir, 0
  {
    var sub := dir.children[i];
    var p := EntryPath(path, sub.name);
    if sub.Dir? then PrefixAll(Step(p, sub.name, false), FileChains(sub, p, 0))
    else [[Step(p, sub.name, true)]]
  }

  lemma FileChainsStep(dir: Node, path: string, i: nat)
    requires dir.Dir? && i < |dir.children|
    ensures FileChains(dir, path, i) == ChainPiece(dir, path, i) + FileChains(dir, path, i + 1)
  {
  }

  lemma {:induction false} AdmittedConcat(c: Comparator, a: seq<seq<Step>>, b: seq<seq<Step>>, reMatch: (string, string) -> bool)
    requires forall k :: 0 <= k < |a| ==> |a[k]| >= 1
    requires forall k :: 0 <= k < |b| ==> |b[k]| >= 1
    ensures Admitted(c, a + b, reMatch) == Admitted(c, a, reMatch) + Admitted(c, b, reMatch)
    decreases |a|
  {
    if a != [] {
      assert (a + b)[1..] == a[1..] + b;
      AdmittedConcat(c, a[1..], b, reMatch);
    } else {
      assert a + b == b;
    }
  }

  /** Below an excluded directory nothing is admitted. */
  lemma {:induction false} AdmittedPrunedDir(c: Comparator, st: Step, chains: seq<seq<Step>>, reMatch: (string, string) -> bool)
    requires Excluded(c, st.path, st.name, reMatch)
    ensures Admitted(c, PrefixAll(st, chains), reMatch) == []
    decreases |chains|
  {
    if chains != [] {
      var r := PrefixAll(st, chains);
      assert r[0][0] == st;
      assert r[1..] == PrefixAll(st, chains[1..]);
      AdmittedPrunedDir(c, st, chains[1..], reMatch);
    }
  }

  /** Below a directory that is not excluded, what is admitted is what its
      own chains admit. */
  lemma {:induction false} AdmittedOpenDir(c: Comparator, st: Step, chains: seq<seq<Step>>, reMatch: (string, string) -> bool)
    requires !Excluded(c, st.path, st.name, reMatch)
    requires forall k :: 0 <= k < |chains| ==> |chains[k]| >= 1
    ensures Admitted(c, PrefixAll(st, chains), reMatch) == Admitted(c, chains, reMatch)
    decreases |chains|
  {
    if chains != [] {
      var r := PrefixAll(st, chains);
      var chain := chains[0];
      assert r[0] == [st] + chain;
      ReachableCons(c, st, chain, reMatch);
      assert r[0][|r[0]| - 1] == chain[|chain| - 1];
      assert r[1..] == PrefixAll(st, chains[1..]);
      AdmittedOpenDir(c, st, chains[1..], reMatch);
    }
  }

  /** The walk adds exactly the files none of whose entries on the way down
      (the file included) is excluded, in scan order: excluded directories
      are pruned, and only files are added. */
  lemma {:induction false} CollectedIsAdmitted(c: Comparator, dir: Node, path: string, i: nat, reMatch: (string, string) -> bool)
    requires dir.Dir? && i <= |dir.children|
    ensures Collected(c, dir, path, i, reMatch) == Admitted(c, FileChains(dir, path, i), reMatch)
    decreases dir, |dir.children| - i
  {
    if i < |dir.children| {
      var sub := dir.children[i];
      var p := EntryPath(path, sub.name);
      var here := ChainPiece(dir, path, i);
      FileChainsStep(dir, path, i);
      CollectedStep(c, dir, path, i, reMatch);
      AdmittedConcat(c, here, FileChains(dir, path, i + 1), reMatch);
      CollectedIsAdmitted(c, dir, path, i + 1, reMatch);
      PieceIsAdmitted(c, dir, path, i, reMatch);
    }
  }

  lemma {:induction false} PieceIsAdmitted(c: Comparator, dir: Node, path: string, i: nat, reMatch: (string, string) -> bool)
    requires dir.Dir? && i < |dir.children|
    ensures Piece(c, dir, path, i, reMatch) == Admitted(c, ChainPiece(dir, path, i), reMatch)
    decreases dir, 0
  {
    var sub := dir.children[i];
    var p := EntryPath(path, sub.name);
    var st := Step(p, sub.name, !sub.Dir?);
    if sub.Dir? {
      if Excluded(c, p, sub.name, reMatch) {
        AdmittedPrunedDir(c, st, FileChains(sub, p, 0), reMatch);
      } else {
        AdmittedOpenDir(c, st, FileChains(sub, p, 0), reMatch);
        CollectedIsAdmitted(c, sub, p, 0, reMatch);
      }
    } else {
      var here := [[st]];
      assert here[1..] == [];
      ReachableCons(c, st, [], reMatch);
      assert [st] + [] == [st];
    }
  }
}
