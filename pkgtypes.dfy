/** The list and command computations of the packer's `python_mod_req`
    preprocessor: which modules a prepared image adds over the base image,
    which top-level paths of those modules are copied into the bundle, and
    the shell commands that install packages and copy the files. The docker
    calls themselves are inputs. */
module PackerTypes {
  import opened Text
  import opened Values
  import opened Lists

  const DefaultImage := "arenadata/adcm:latest"

  // `str.split()`

  /** The whitespace `str.split()` separates on (the ASCII part). */
  predicate IsSpace(c: char) {
    c == ' ' || c == '\t' || c == '\n' || c == '\r' || c == '\U{0B}' || c == '\U{0C}' ||
    c == '\U{1C}' || c == '\U{1D}' || c == '\U{1E}' || c == '\U{1F}'
  }

  predicate NoSpace(w: string) {
    forall k :: 0 <= k < |w| ==> !IsSpace(w[k])
  }

  /** The words of `s` after the word `current` that is being read. */
  function WordsFrom(s: string, current: string): (r: seq<string>)
    requires NoSpace(current)
    ensures forall i :: 0 <= i < |r| ==> r[i] != "" && NoSpace(r[i])
    decreases |s|
  {
    var done := if current == "" then [] else [current];
    if s == [] then done
    else if IsSpace(s[0]) then done + WordsFrom(s[1..], "")
    else
      assert NoSpace(current + [s[0]]) by {
        assert forall k :: 0 <= k < |current| ==> (current + [s[0]])[k] == current[k];
      }
      WordsFrom(s[1..], current + [s[0]])
  }

  /** `s.split()`: the maximal runs of non-whitespace characters. */
  function Words(s: string): (r: seq<string>)
    ensures forall i :: 0 <= i < |r| ==> r[i] != "" && NoSpace(r[i])
  {
    WordsFrom(s, "")
  }

  lemma {:induction false} WordsFromWord(w: string, rest: string, current: string)
    requires NoSpace(current) && NoSpace(w)
    requires rest == [] || IsSpace(rest[0])
    ensures NoSpace(current + w) && WordsFrom(w + rest, current) == WordsFrom(rest, current + w)
    decreases |w|
  {
    assert NoSpace(current + w) by {
      assert forall k :: 0 <= k < |current + w| ==> (current + w)[k] == if k < |current| then current[k] else w[k - |current|];
    }
    if w != [] {
      assert (w + rest)[0] == w[0] && (w + rest)[1..] == w[1..] + rest;
      assert NoSpace(w[1..]) by {
        assert forall k :: 0 <= k < |w[1..]| ==> w[1..][k] == w[k + 1];
      }
      WordsFromWord(w[1..], rest, current + [w[0]]);
      assert current + [w[0]] + w[1..] == current + w;
    } else {
      assert w + rest == rest;
      assert current + w == current;
    }
  }

  /** Splitting words joined by single spaces gives the words back. */
  lemma {:induction false} WordsOfJoin(ws: seq<string>)
    requires forall i :: 0 <= i < |ws| ==> ws[i] != "" && NoSpace(ws[i])
    ensures Words(Join(ws, " ")) == ws
    decreases |ws|
  {
    if |ws| == 1 {
      WordsFromWord(ws[0], "", "");
      assert ws[0] + "" == ws[0];
      assert "" + ws[0] == ws[0];
    } else if |ws| > 1 {
      var rest := Join(ws[1..], " ");
      assert Join(ws, " ") == ws[0] + (" " + rest);
      WordsFromWord(ws[0], " " + rest, "");
      assert "" + ws[0] == ws[0];
      assert (" " + rest)[1..] == rest;
      assert WordsFrom(" " + rest, ws[0]) == [ws[0]] + WordsFrom(rest, "");
      WordsOfJoin(ws[1..]);
      assert ws == [ws[0]] + ws[1..];
    }
  }

  // `_get_top_dirs`

  /** `x.split('/')[0]` for every listed file. */
  function Segments(words: seq<string>): (r: seq<string>)
    ensures |r| == |words| && forall i :: 0 <= i < |r| ==> r[i] == Before(words[i], "/")
    decreases |words|
  {
    if words == [] then [] else [Before(words[0], "/")] + Segments(words[1..])
  }

  /** The elements other than "." and "..", in order. */
  function DropDots(xs: seq<string>): (r: seq<string>)
    ensures forall x :: x in r <==> x in xs && x != "." && x != ".."
    ensures NoDup(xs) ==> NoDup(r)
    ensures NoDup(xs) ==> forall i, j :: 0 <= i < j < |r| ==> IndexOf(xs, r[i]) < IndexOf(xs, r[j])
    decreases |xs|
  {
    if xs == [] then []
    else
      var rest := DropDots(xs[1..]);
      assert forall y :: y in xs[1..] && y != xs[0] ==> IndexOf(xs, y) == 1 + IndexOf(xs[1..], y);
      assert NoDup(xs) ==> NoDup(xs[1..]) && xs[0] !in xs[1..] by {
        if NoDup(xs) {
          assert forall i, j :: 0 <= i < j < |xs[1..]| ==> xs[1..][i] == xs[i + 1] && xs[1..][j] == xs[j + 1];
        }
      }
      if xs[0] == "." || xs[0] == ".." then rest else [xs[0]] + rest
  }

  /** The distinct first segments of the listed files, in first-occurrence
      order, without "." and "..". */
  function TopSegments(files: string): seq<string> {
    DropDots(Dedup(Segments(Words(files))))
  }

  /** `os.path.join(location, segment)` for every segment. */
  function JoinAll(location: string, segments: seq<string>): (r: seq<string>)
    ensures |r| == |segments| && forall i :: 0 <= i < |r| ==> r[i] == PathJoin(location, segments[i])
    decreases |segments|
  {
    if segments == [] then [] else [PathJoin(location, segments[0])] + JoinAll(location, segments[1..])
  }

  /** `_get_top_dirs` on the parsed output of `pip show -f <module>`:
      `Location` is read only once a path has to be built. */
  function TopDirs(data: Json): (r: Result<seq<string>>)
    ensures PyIndex(data, "Files").Err? ==> r == Err(PyIndex(data, "Files").error)
    ensures PyIndex(data, "Files").Ok? && !PyIndex(data, "Files").value.Str? ==> r == Err(AttributeError)
    ensures PyIndex(data, "Files").Ok? && PyIndex(data, "Files").value.Str? &&
            TopSegments(PyIndex(data, "Files").value.s) != [] ==>
              (PyIndex(data, "Location").Err? ==> r == Err(PyIndex(data, "Location").error)) &&
              (PyIndex(data, "Location").Ok? && !PyIndex(data, "Location").value.Str? ==> r == Err(TypeError))
    ensures r.Ok? <==> PyIndex(data, "Files").Ok? && PyIndex(data, "Files").value.Str? &&
                       (TopSegments(PyIndex(data, "Files").value.s) != [] ==>
                          PyIndex(data, "Location").Ok? && PyIndex(data, "Location").value.Str?)
    ensures r.Ok? ==> PyIndex(data, "Files").Ok? && PyIndex(data, "Files").value.Str?
    ensures r.Ok? && TopSegments(PyIndex(data, "Files").value.s) != [] ==>
              PyIndex(data, "Location").Ok? && PyIndex(data, "Location").value.Str? &&
              r.value == JoinAll(PyIndex(data, "Location").value.s, TopSegments(PyIndex(data, "Files").value.s))
    ensures r.Ok? && TopSegments(PyIndex(data, "Files").value.s) == [] ==> r.value == []
  {
    var files :- PyIndex(data, "Files");
    if !files.Str? then Err(AttributeError)
    else
      var segments := TopSegments(files.s);
      if segments == [] then Ok([])
      else
        var location :- PyIndex(data, "Location");
        if !location.Str? then Err(TypeError)
        else Ok(JoinAll(location.s, segments))
  }

  /** A first segment holds no slash. */
  lemma SegmentHasNoSlash(w: string, k: nat)
    requires k < |Before(w, "/")|
    ensures Before(w, "/")[k] != '/'
  {
    var b := Before(w, "/");
    assert !OccursAt(w, "/", k);
    assert w[k] == b[k];
  }

  /** Joining a location with slash-free segments tells different segments
      apart. */
  lemma PathJoinInjective(location: string, a: string, b: string)
    requires (|a| == 0 || a[0] != '/') && (|b| == 0 || b[0] != '/')
    requires PathJoin(location, a) == PathJoin(location, b)
    ensures a == b
  {
    var sep := if location == "" || location[|location| - 1] == '/' then "" else "/";
    assert PathJoin(location, a) == (location + sep) + a;
    assert PathJoin(location, b) == (location + sep) + b;
    assert a == PathJoin(location, a)[|location + sep|..];
  }

  /** The top-level paths of a module: each is the location joined with the
      first segment of a listed file; every listed file's first segment
      other than "." and ".." is there; none repeats. */
  lemma TopDirsSpec(data: Json)
    requires TopDirs(data).Ok?
    ensures var files := PyIndex(data, "Files").value.s;
            var segments := TopSegments(files);
            (forall x :: x in segments <==> x in Segments(Words(files)) && x != "." && x != "..") &&
            NoDup(segments) &&
            NoDup(TopDirs(data).value)
    ensures InFirstOccurrenceOrder(TopSegments(PyIndex(data, "Files").value.s),
                                   Segments(Words(PyIndex(data, "Files").value.s)))
  {
    var files := PyIndex(data, "Files").value.s;
    TopSegmentsSpec(files);
    TopSegmentsOrder(files);
    if TopSegments(files) != [] {
      TopSegmentsNoLeadingSlash(files);
      JoinAllNoDup(PyIndex(data, "Location").value.s, TopSegments(files));
    }
  }

  /** The top segments are the first segments other than "." and "..", each once. */
  lemma TopSegmentsSpec(files: string)
    ensures forall x :: x in TopSegments(files) <==> x in Segments(Words(files)) && x != "." && x != ".."
    ensures NoDup(TopSegments(files))
  {
  }

  /** The elements of `ys` occur in `xs`, and in the order of their first
      occurrences there. */
  predicate InFirstOccurrenceOrder(ys: seq<string>, xs: seq<string>) {
    forall i, j :: 0 <= i < j < |ys| ==> ys[i] in xs && ys[j] in xs && IndexOf(xs, ys[i]) < IndexOf(xs, ys[j])
  }

  /** An order-keeping selection from an order-keeping selection keeps the order. */
  lemma OrderCompose(t: seq<string>, d: seq<string>, xs: seq<string>)
    requires forall i :: 0 <= i < |t| ==> t[i] in d
    requires forall a :: 0 <= a < |d| ==> d[a] in xs
    requires forall i, j :: 0 <= i < j < |t| ==> IndexOf(d, t[i]) < IndexOf(d, t[j])
    requires forall a, b :: 0 <= a < b < |d| ==> IndexOf(xs, d[a]) < IndexOf(xs, d[b])
    ensures InFirstOccurrenceOrder(t, xs)
  {
    forall i, j | 0 <= i < j < |t|
      ensures t[i] in xs && t[j] in xs && IndexOf(xs, t[i]) < IndexOf(xs, t[j])
    {
      var a, b := IndexOf(d, t[i]), IndexOf(d, t[j]);
      assert d[a] == t[i] && d[b] == t[j];
    }
  }

  lemma DropDotsDedupKeepsOrder(xs: seq<string>)
    ensures InFirstOccurrenceOrder(DropDots(Dedup(xs)), xs)
  {
    var d := Dedup(xs);
    var t := DropDots(d);
    forall a, b | 0 <= a < b < |d|
      ensures IndexOf(xs, d[a]) < IndexOf(xs, d[b])
    {
      DedupKeepsFirstOccurrenceOrder(xs, a, b);
    }
    forall i | 0 <= i < |t|
      ensures t[i] in d
    {
      assert t[i] in t;
    }
    OrderCompose(t, d, xs);
  }

  /** The top segments keep the order in which they first occur among the
      listed files' first segments, as `dict.fromkeys` keeps them. */
  lemma TopSegmentsOrder(files: string)
    ensures InFirstOccurrenceOrder(TopSegments(files), Segments(Words(files)))
  {
    DropDotsDedupKeepsOrder(Segments(Words(files)));
  }

  /** Joining one location with distinct segments that do not start with a
      slash gives distinct paths. */
  lemma JoinAllNoDup(location: string, segments: seq<string>)
    requires NoDup(segments)
    requires forall s :: s in segments ==> |s| == 0 || s[0] != '/'
    ensures NoDup(JoinAll(location, segments))
  {
    var r := JoinAll(location, segments);
    forall i, j | 0 <= i < j < |r|
      ensures r[i] != r[j]
    {
      assert segments[i] in segments && segments[j] in segments;
      if r[i] == r[j] {
        PathJoinInjective(location, segments[i], segments[j]);
      }
    }
  }

  /** No top segment starts with a slash. */
  lemma TopSegmentsNoLeadingSlash(files: string)
    ensures forall s :: s in TopSegments(files) ==> |s| == 0 || s[0] != '/'
  {
    var segments := TopSegments(files);
    forall s | s in segments
      ensures |s| == 0 || s[0] != '/'
    {
      var w :| w in Words(files) && s == Before(w, "/") by {
        var k :| 0 <= k < |Segments(Words(files))| && Segments(Words(files))[k] == s;
      }
      if |s| > 0 {
        SegmentHasNoSlash(w, 0);
      }
    }
  }

  // The modules to copy

  /** The prepared image's freeze entries missing from the base image's,
      each with its `==version` suffix removed. */
  function ModuleFilter(prepared: seq<string>, base: seq<string>): (r: seq<string>)
    ensures |r| <= |prepared|
    ensures forall m :: m in r <==> exists v :: v in prepared && v !in base && Before(v, "==") == m
    decreases |prepared|
  {
    if prepared == [] then []
    else
      var rest := ModuleFilter(prepared[1..], base);
      assert forall v :: v in prepared <==> v == prepared[0] || v in prepared[1..];
      if prepared[0] !in base then [Before(prepared[0], "==")] + rest else rest
  }

  /** Every module's listing succeeds. */
  predicate AllListed(modules: seq<string>, show: string -> Json)
    decreases |modules|
  {
    modules == [] || (TopDirs(show(modules[0])).Ok? && AllListed(modules[1..], show))
  }

  /** `chain.from_iterable(_get_top_dirs(m) for m in modules)`, with
      `show(m)` the parsed `pip show -f m` of the prepared image; the first
      module whose listing fails stops the preprocessor. */
  function PackageDirs(modules: seq<string>, show: string -> Json): (r: Result<seq<string>>)
    ensures r.Ok? <==> AllListed(modules, show)
    decreases |modules|
  {
    if modules == [] then Ok([])
    else
      var first :- TopDirs(show(modules[0]));
      var rest :- PackageDirs(modules[1..], show);
      Ok(first + rest)
  }

  /** The listing succeeds iff every module's listing does. */
  lemma {:induction false} PackageDirsOk(modules: seq<string>, show: string -> Json)
    ensures PackageDirs(modules, show).Ok? <==> forall i :: 0 <= i < |modules| ==> TopDirs(show(modules[i])).Ok?
    decreases |modules|
  {
    if modules != [] {
      PackageDirsOk(modules[1..], show);
      assert forall i :: 1 <= i < |modules| ==> modules[i] == modules[1..][i - 1];
    }
  }

  // Commands

  /** `' '.join(j)` for a YAML value: every item visited must be a string. */
  function JoinJson(j: Json): (r: Result<string>)
    ensures r.Ok? <==> PyIter(j).Ok? && forall i :: 0 <= i < |PyIter(j).value| ==> PyIter(j).value[i].Str?
    ensures r.Err? ==> r.error == TypeError
  {
    var items :- PyIter(j);
    if forall i :: 0 <= i < |items| ==> items[i].Str? then Ok(Join(StrsOf(items), " "))
    else Err(TypeError)
  }

  function StrsOf(items: seq<Json>): (r: seq<string>)
    requires forall i :: 0 <= i < |items| ==> items[i].Str?
    ensures |r| == |items| && forall i :: 0 <= i < |r| ==> Str(r[i]) == items[i]
    decreases |items|
  {
    if items == [] then [] else [items[0].s] + StrsOf(items[1..])
  }

  const ShellPrefix := "/bin/sh -c \""
  const ApkPrefix := "apk add "

  /** The command of the container a prepared image is committed from:
      `apk add` of the system packages when there are any, then `pip
      install` of the Python modules. */
  function ContainerCommand(pkgs: seq<Entry>): (r: Result<string>) {
    var system := GetOr(pkgs, "system_pkg", Null);
    var apk :- if Truthy(system) then
                 var packages :- JoinJson(system);
                 Ok(ApkPrefix + packages + " >/dev/null ;")
               else Ok("");
    var modules :- JoinJson(GetOr(pkgs, "python_mod", Null));
    Ok(ShellPrefix + apk + " pip install " + modules + " >/dev/null\"")
  }

  /** `_get_prepared_container`'s command, built up piece by piece. */
  method PreparedContainerCommand(pkgs: seq<Entry>) returns (r: Result<string>)
    ensures r == ContainerCommand(pkgs)
  {
    var command := ShellPrefix;
    var system := GetOr(pkgs, "system_pkg", Null);
    ghost var apk := "";
    if Truthy(system) {
      var packages := JoinJson(system);
      if packages.Err? {
        return Err(packages.error);
      }
      apk := ApkPrefix + packages.value + " >/dev/null ;";
      command := command + ApkPrefix + packages.value + " >/dev/null ;";
      assert command == ShellPrefix + apk;
    }
    var modules := JoinJson(GetOr(pkgs, "python_mod", Null));
    if modules.Err? {
      return Err(modules.error);
    }
    command := command + " pip install " + modules.value + " >/dev/null\"";
    assert command == ShellPrefix + apk + " pip install " + modules.value + " >/dev/null\"";
    r := Ok(command);
  }

  /** The command is the shell prefix, the `apk add` part when there are
      system packages, and the `pip install` tail. */
  lemma ContainerCommandShape(pkgs: seq<Entry>)
    requires ContainerCommand(pkgs).Ok?
    ensures var system := GetOr(pkgs, "system_pkg", Null);
            var tail := " pip install " + JoinJson(GetOr(pkgs, "python_mod", Null)).value + " >/dev/null\"";
            JoinJson(GetOr(pkgs, "python_mod", Null)).Ok? &&
            (Truthy(system) ==>
               JoinJson(system).Ok? &&
               ContainerCommand(pkgs).value == ShellPrefix + (ApkPrefix + JoinJson(system).value + " >/dev/null ;") + tail) &&
            (!Truthy(system) ==> ContainerCommand(pkgs).value == ShellPrefix + "" + tail)
  {
  }

  /** Where the shell prefix is followed by `apk add` and where by the tail. */
  lemma CommandPrefixes(middle: string, tail: string)
    requires tail != [] && tail[0] == ' '
    ensures IsPrefix(ShellPrefix + ApkPrefix, ShellPrefix + (ApkPrefix + middle) + tail)
    ensures !IsPrefix(ShellPrefix + ApkPrefix, ShellPrefix + "" + tail)
    ensures var r := ShellPrefix + (ApkPrefix + middle) + tail; r[|r| - |tail|..] == tail
    ensures var r := ShellPrefix + "" + tail; r[|r| - |tail|..] == tail
  {
    var p := ShellPrefix + ApkPrefix;
    var r1 := ShellPrefix + (ApkPrefix + middle) + tail;
    assert r1[..|p|] == p;
    var r2 := ShellPrefix + "" + tail;
    assert r2[|ShellPrefix|] == ' ' && p[|ShellPrefix|] == 'a';
    if |p| <= |r2| {
      assert r2[..|p|][|ShellPrefix|] == ' ';
    }
    assert r1[|r1| - |tail|..] == tail;
    assert r2[|r2| - |tail|..] == tail;
  }

  /** The command starts with `apk add` exactly when there are system
      packages, and always ends by installing the Python modules. */
  lemma ContainerCommandParts(pkgs: seq<Entry>)
    requires ContainerCommand(pkgs).Ok?
    ensures var r := ContainerCommand(pkgs).value;
            IsPrefix(ShellPrefix + ApkPrefix, r) <==> Truthy(GetOr(pkgs, "system_pkg", Null))
    ensures var r := ContainerCommand(pkgs).value;
            var tail := " pip install " + JoinJson(GetOr(pkgs, "python_mod", Null)).value + " >/dev/null\"";
            |tail| <= |r| && r[|r| - |tail|..] == tail
  {
    var system := GetOr(pkgs, "system_pkg", Null);
    var tail := " pip install " + JoinJson(GetOr(pkgs, "python_mod", Null)).value + " >/dev/null\"";
    ContainerCommandShape(pkgs);
    var middle := if Truthy(system) then JoinJson(system).value + " >/dev/null ;" else "";
    CommandPrefixes(middle, tail);
    if Truthy(system) {
      assert ApkPrefix + JoinJson(system).value + " >/dev/null ;" == ApkPrefix + middle;
    }
  }

  /** The directories `_copy_pkgs_files` copies: each once, at its first
      occurrence. */
  function CopiedDirs(dirs: seq<string>): (r: seq<string>)
    ensures NoDup(r)
    ensures forall d :: d in r <==> d in dirs
  {
    Dedup(dirs)
  }

  /** The command that copies the module files into `<source>/pmod` and
      hands them to the user `uid`. */
  function CopyCommand(source: string, dirs: seq<string>, uid: nat): string {
    ShellPrefix + "mkdir " + source + "/pmod; cp -r " + Join(CopiedDirs(dirs), " ") + " " + source + "/pmod ;" +
    " chown -R " + NatToString(uid) + " " + source + "/pmod\""
  }

  // `python_mod_req`

  /** What docker reports: the base and prepared images' `pip freeze`
      outputs, each module's parsed `pip show -f`, whether a named prepared
      image exists, and the user id. */
  datatype Docker = Docker(baseFreeze: string, preparedFreeze: string, show: string -> Json, preparedFound: bool, uid: nat)

  /** The image the modules come from: an existing one or one committed from
      a container running this command. */
  datatype Prepared = Existing(name: Json) | Built(command: string)

  /** The decisions of one `python_mod_req` run. */
  datatype Plan = Plan(image: Json, prepared: Prepared, modules: seq<string>, copy: string, removePrepared: bool)

  /** `python_mod_req(source_path, workspace, **kwargs)` on the parsed
      requirements file `pkgs`. */
  function PythonModReq(source: string, kwargs: seq<Entry>, pkgs: Json, docker: Docker): (r: Result<Plan>)
    ensures !HasKey(kwargs, "requirements") ==> r == Err(KeyError("requirements"))
    ensures HasKey(kwargs, "requirements") && pkgs.Obj? && !Truthy(GetOr(pkgs.entries, "python_mod", Null)) ==>
              r == Err(NoModulesToInstall)
    ensures r.Ok? ==> pkgs.Obj? && Truthy(GetOr(pkgs.entries, "python_mod", Null))
    ensures r.Ok? ==> r.value.image == (if Truthy(GetOr(kwargs, "image", Null)) then GetOr(kwargs, "image", Null) else Str(DefaultImage))
    ensures r.Ok? ==> (r.value.removePrepared <==> !Truthy(GetOr(kwargs, "prepared_image", Null)))
    ensures r.Ok? ==> (r.value.prepared.Existing? <==> Truthy(GetOr(kwargs, "prepared_image", Null)) && docker.preparedFound)
    ensures r.Ok? ==> r.value.modules == ModuleFilter(Words(docker.preparedFreeze), Words(docker.baseFreeze))
    ensures r.Ok? && r.value.prepared.Existing? ==> r.value.prepared.name == GetOr(kwargs, "prepared_image", Null)
    ensures r.Ok? && r.value.prepared.Built? ==> ContainerCommand(pkgs.entries) == Ok(r.value.prepared.command)
    ensures r.Ok? ==> PackageDirs(r.value.modules, docker.show).Ok? &&
                      r.value.copy == CopyCommand(source, PackageDirs(r.value.modules, docker.show).value, docker.uid)
  {
    var _ :- PyIndex(Obj(kwargs), "requirements");
    var d :- AsDict(pkgs);
    if !Truthy(GetOr(d, "python_mod", Null)) then Err(NoModulesToInstall)
    else
      var image := if Truthy(GetOr(kwargs, "image", Null)) then GetOr(kwargs, "image", Null) else Str(DefaultImage);
      var named := GetOr(kwargs, "prepared_image", Null);
      var prepared :- if Truthy(named) && docker.preparedFound then Ok(Existing(named))
                      else
                        var command :- ContainerCommand(d);
                        Ok(Built(command));
      var modules := ModuleFilter(Words(docker.preparedFreeze), Words(docker.baseFreeze));
      var dirs :- PackageDirs(modules, docker.show);
      Ok(Plan(image, prepared, modules, CopyCommand(source, dirs, docker.uid), !Truthy(named)))
  }

  /** A named prepared image that is missing is built instead, and the built
      image is kept. */
  lemma MissingPreparedImageIsKept(source: string, kwargs: seq<Entry>, pkgs: Json, docker: Docker)
    requires PythonModReq(source, kwargs, pkgs, docker).Ok?
    requires Truthy(GetOr(kwargs, "prepared_image", Null)) && !docker.preparedFound
    ensures PythonModReq(source, kwargs, pkgs, docker).value.prepared.Built?
    ensures !PythonModReq(source, kwargs, pkgs, docker).value.removePrepared
  {
  }

  // `get_type_func`

  datatype TypeFunc = PythonModReqFunc | SplitterFunc

  /** `get_type_func(tpe)`: the two preprocessor types; any other name is a
      failed lookup. */
  function GetTypeFunc(tpe: string): (r: Result<TypeFunc>)
    ensures r == Ok(PythonModReqFunc) <==> tpe == "python_mod_req"
    ensures r == Ok(SplitterFunc) <==> tpe == "splitter"
    ensures r.Err? <==> tpe != "python_mod_req" && tpe != "splitter"
    ensures r.Err? ==> r.error == KeyError(tpe)
  {
    if tpe == "python_mod_req" then Ok(PythonModReqFunc)
    else if tpe == "splitter" then Ok(SplitterFunc)
    else Err(KeyError(tpe))
  }
}
