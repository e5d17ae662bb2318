/** The bundle spec file of the packer: a legacy spec (no version) is
    migrated to the 1.0 layout, which lists editions with their exclusions
    and preprocessors, and a build narrows the spec to one edition. */
module BundleSpec {
  import opened Text
  import opened Values
  import Lists

  /** The spec versions migrations lead to, oldest first. */
  const Versions: seq<string> := ["1.0"]

  const NoEditionsMessage := "Current spec version doent support editions"
  const EditionMissingMessage := "setuped build edition is not present in spec file"
  const NotAFloatMessage := "could not convert string to float"

  /** The values of the keys whose name contains "_dir", in order. */
  function DirValues(config: seq<Entry>): (r: seq<Json>)
    ensures |r| <= |config|
    decreases |config|
  {
    if config == [] then []
    else (if Contains(config[0].0, "_dir") then [config[0].1] else []) + DirValues(config[1..])
  }

  /** The `file` (None when missing) of every processing entry whose
      `except_file` is truthy, in order; an entry without `get` fails. */
  function ExceptFiles(items: seq<Json>): (r: Result<seq<Json>>)
    ensures r.Ok? <==> forall i :: 0 <= i < |items| ==> items[i].Obj?
    ensures r.Err? ==> r.error == AttributeError
    ensures r.Ok? ==> |r.value| <= |items|
    decreases |items|
  {
    if items == [] then Ok([])
    else
      var entry :- AsDict(items[0]);
      var rest :- ExceptFiles(items[1..]);
      assert forall i :: 1 <= i < |items| ==> items[i] == items[1..][i - 1];
      if Truthy(GetOr(entry, "except_file", Bool(false))) then Ok([GetOr(entry, "file", Null)] + rest)
      else Ok(rest)
  }

  /** What `for i in data.get("processing", {})` visits. */
  function ProcessingItems(data: seq<Entry>): Result<seq<Json>> {
    PyIter(GetOr(data, "processing", Obj([])))
  }

  /** `SpecFile.except_var(config)`. */
  function Excludes(config: seq<Entry>): Result<seq<Json>> {
    var items :- ProcessingItems(config);
    var files :- ExceptFiles(items);
    Ok(DirValues(config) + files)
  }

  /** The exclusions start with the "_dir" values, in order, each of which
      comes from a "_dir" key. */
  lemma {:induction false} DirValuesFromDirKeys(config: seq<Entry>, i: nat)
    requires i < |DirValues(config)|
    ensures exists j :: 0 <= j < |config| && Contains(config[j].0, "_dir") && config[j].1 == DirValues(config)[i]
    decreases |config|
  {
    var head := if Contains(config[0].0, "_dir") then [config[0].1] else [];
    if i < |head| {
      assert config[0].1 == DirValues(config)[i];
    } else {
      assert DirValues(config)[i] == DirValues(config[1..])[i - |head|];
      DirValuesFromDirKeys(config[1..], i - |head|);
      var j :| 0 <= j < |config[1..]| && Contains(config[1..][j].0, "_dir") && config[1..][j].1 == DirValues(config[1..])[i - |head|];
      assert config[j + 1] == config[1..][j];
    }
  }

  /** Every value under a "_dir" key is excluded. */
  lemma {:induction false} DirKeysInDirValues(config: seq<Entry>, j: nat)
    requires j < |config| && Contains(config[j].0, "_dir")
    ensures config[j].1 in DirValues(config)
    decreases |config|
  {
    if j > 0 {
      assert config[1..][j - 1] == config[j];
      DirKeysInDirValues(config[1..], j - 1);
    }
  }

  /** One processing entry of a legacy spec as a 1.0 preprocessor: a script
      (its path joined to the entry's "<name>_dir" directory, its `file` as
      the only argument) or a `python_mod_req` step; anything else ends the
      program with the entry's name. */
  function Preprocessor(data: seq<Entry>, item: Json): (r: Result<Json>)
    ensures r.Ok? ==> item.Obj? && r.value.Obj?
    ensures !item.Obj? ==> r == Err(AttributeError)
    ensures item.Obj? && Truthy(GetOr(item.entries, "script", Null)) ==>
              var name := GetOr(item.entries, "name", Null);
              var script := GetOr(item.entries, "script", Null);
              (r.Ok? <==> name.Str? && HasKey(data, name.s + "_dir") && Get(data, name.s + "_dir").value.Str? &&
                          script.Str? && HasKey(item.entries, "file")) &&
              (r.Ok? ==> r.value == Obj([("type", Str("script")),
                                         ("script", Str(PathJoin(Get(data, name.s + "_dir").value.s, script.s))),
                                         ("args", Arr([Get(item.entries, "file").value]))]))
    ensures item.Obj? && !Truthy(GetOr(item.entries, "script", Null)) && GetOr(item.entries, "name", Null) == Str("python_mod_req") ==>
              (r.Ok? <==> HasKey(item.entries, "file")) &&
              (r.Ok? ==> r.value == Obj([("type", Str("python_mod_req")), ("requirements", Get(item.entries, "file").value)]))
    ensures item.Obj? && !Truthy(GetOr(item.entries, "script", Null)) && GetOr(item.entries, "name", Null) != Str("python_mod_req") ==>
              r == Err(SystemExit(GetOr(item.entries, "name", Null)))
  {
    var entry :- AsDict(item);
    if Truthy(GetOr(entry, "script", Null)) then
      var name :- PyIndex(item, "name");
      if !name.Str? then Err(TypeError)
      else
        var dir :- PyIndex(Obj(data), name.s + "_dir");
        var script := GetOr(entry, "script", Null);
        if !(dir.Str? && script.Str?) then Err(TypeError)
        else
          var file :- PyIndex(item, "file");
          Ok(Obj([("type", Str("script")), ("script", Str(PathJoin(dir.s, script.s))), ("args", Arr([file]))]))
    else if GetOr(entry, "name", Null) == Str("python_mod_req") then
      var file :- PyIndex(item, "file");
      Ok(Obj([("type", Str("python_mod_req")), ("requirements", file)]))
    else Err(SystemExit(GetOr(entry, "name", Null)))
  }

  /** The preprocessors of all processing entries, in order; the first entry
      that cannot be converted stops the migration. */
  function Preprocessors(data: seq<Entry>, items: seq<Json>): (r: Result<seq<Json>>)
    ensures r.Ok? ==> |r.value| == |items| && forall i :: 0 <= i < |items| ==> Preprocessor(data, items[i]) == Ok(r.value[i])
    ensures r.Err? ==> exists i :: 0 <= i < |items| && Preprocessor(data, items[i]) == Err(r.error) &&
                                  forall j :: 0 <= j < i ==> Preprocessor(data, items[j]).Ok?
    decreases |items|
  {
    if items == [] then Ok([])
    else
      var p :- Preprocessor(data, items[0]);
      var rest := Preprocessors(data, items[1..]);
      assert forall i :: 1 <= i < |items| ==> items[i] == items[1..][i - 1];
      if rest.Err? then
        var i :| 0 <= i < |items[1..]| && Preprocessor(data, items[1..][i]) == Err(rest.error) &&
                 forall j :: 0 <= j < i ==> Preprocessor(data, items[1..][j]).Ok?;
        assert Preprocessor(data, items[i + 1]) == Err(rest.error);
        Err(rest.error)
      else Ok([p] + rest.value)
  }

  /** The 1.0 spec `to_1_0` builds: no version, one unnamed edition. */
  function NewSpec(exclude: seq<Json>, preprocessors: seq<Json>): seq<Entry> {
    [("version", Null),
     ("editions", Arr([Obj([("name", Null), ("exclude", Arr(exclude)), ("preprocessors", Arr(preprocessors))])]))]
  }

  /** `SpecFile.to_1_0` on the spec's data. */
  function Migrate10(data: seq<Entry>): Result<seq<Entry>> {
    var exclude :- Excludes(data);
    var items :- ProcessingItems(data);
    var preprocessors :- Preprocessors(data, items);
    Ok(NewSpec(exclude, preprocessors))
  }

  /** The fields of the spec `to_1_0` builds. */
  lemma NewSpecFields(exclude: seq<Json>, preprocessors: seq<Json>)
    ensures var s := NewSpec(exclude, preprocessors);
            var edition := Obj([("name", Null), ("exclude", Arr(exclude)), ("preprocessors", Arr(preprocessors))]);
            Get(s, "version") == Some(Null) &&
            Get(s, "editions") == Some(Arr([edition])) &&
            Get(edition.entries, "name") == Some(Null) &&
            Get(edition.entries, "exclude") == Some(Arr(exclude)) &&
            Get(edition.entries, "preprocessors") == Some(Arr(preprocessors))
  {
    var s := NewSpec(exclude, preprocessors);
    var e := [("name", Null), ("exclude", Arr(exclude)), ("preprocessors", Arr(preprocessors))];
    assert s[1..] == [s[1]];
    assert e[1..] == [e[1], e[2]];
    assert e[1..][1..] == [e[2]];
    assert Get(e[1..][1..], "preprocessors") == Some(Arr(preprocessors));
    assert Get(e[1..], "preprocessors") == Some(Arr(preprocessors));
  }

  /** A migrated spec has version None and exactly one edition, named None,
      that excludes what `except_var` collects and has one preprocessor per
      processing entry, in the entries' order. */
  lemma MigratedShape(data: seq<Entry>)
    requires Migrate10(data).Ok?
    ensures var s := Migrate10(data).value;
            Get(s, "version") == Some(Null) &&
            Get(s, "editions").Some? && Get(s, "editions").value.Arr? &&
            |Get(s, "editions").value.items| == 1 &&
            var edition := Get(s, "editions").value.items[0];
            edition.Obj? &&
            Get(edition.entries, "name") == Some(Null) &&
            Get(edition.entries, "exclude") == Some(Arr(Excludes(data).value)) &&
            Get(edition.entries, "preprocessors").Some? &&
            Get(edition.entries, "preprocessors").value.Arr? &&
            var pre := Get(edition.entries, "preprocessors").value.items;
            |pre| == |ProcessingItems(data).value| &&
            forall i :: 0 <= i < |pre| ==> Preprocessor(data, ProcessingItems(data).value[i]) == Ok(pre[i])
  {
    var pre := Preprocessors(data, ProcessingItems(data).value).value;
    NewSpecFields(Excludes(data).value, pre);
  }

  /** A processing entry that is neither a script nor `python_mod_req` makes
      the migration fail, unless an earlier entry already did. */
  lemma UnrecognizedEntryStops(data: seq<Entry>, i: nat)
    requires Excludes(data).Ok? && ProcessingItems(data).Ok?
    requires i < |ProcessingItems(data).value|
    requires Preprocessor(data, ProcessingItems(data).value[i]).Err?
    ensures Migrate10(data).Err?
  {
  }

  /** The migration that `normalize_spec` performs: none at version "1.0",
      the 1.0 migration otherwise. */
  function Normalized(data: seq<Entry>): Result<seq<Entry>> {
    if Get(data, "version") == Some(Str("1.0")) then Ok(data) else Migrate10(data)
  }

  /** Whether `s` is a plain decimal `float()` accepts: digits with at most
      one point, and at least one digit. */
  predicate IsDigit(c: char) { '0' <= c <= '9' }

  predicate AllDigits(s: string) {
    forall i :: 0 <= i < |s| ==> IsDigit(s[i])
  }

  predicate IsUnsignedDecimal(s: string) {
    var whole := Before(s, ".");
    AllDigits(whole) &&
    (whole == s || AllDigits(s[|whole| + 1..])) &&
    (|whole| > 0 || |s| > 1)
  }

  /** The value of a digit string. */
  function DigitsValue(s: string): nat
    requires AllDigits(s)
    decreases |s|
  {
    if s == [] then 0 else DigitsValue(s[..|s| - 1]) * 10 + (s[|s| - 1] as int - '0' as int)
  }

  /** `float(s) < 1.0` for the decimals a spec version is written as: true
      for a negative number and for one whose whole part is 0. */
  function BelowOne(s: string): (r: Result<bool>)
    ensures r.Err? ==> r.error == ValueError(NotAFloatMessage)
    ensures r.Ok? && |s| > 0 && s[0] == '-' ==> r.value
    ensures IsUnsignedDecimal(s) ==> r.Ok? && (r.value <==> DigitsValue(Before(s, ".")) == 0)
  {
    if |s| > 0 && (s[0] == '-' || s[0] == '+') then
      SignedNotUnsigned(s);
      if IsUnsignedDecimal(s[1..]) then
        WholeZeroIffValueZero(s[1..]);
        Ok(s[0] == '-' || forall i :: 0 <= i < |Before(s[1..], ".")| ==> Before(s[1..], ".")[i] == '0')
      else Err(ValueError(NotAFloatMessage))
    else if IsUnsignedDecimal(s) then
      WholeZeroIffValueZero(s);
      Ok(forall i :: 0 <= i < |Before(s, ".")| ==> Before(s, ".")[i] == '0')
    else Err(ValueError(NotAFloatMessage))
  }

  /** A signed number is not an unsigned decimal. */
  lemma SignedNotUnsigned(s: string)
    requires |s| > 0 && (s[0] == '-' || s[0] == '+')
    ensures !IsUnsignedDecimal(s)
  {
    var whole := Before(s, ".");
    if |whole| > 0 {
      assert whole[0] == s[0];
      assert !IsDigit(whole[0]);
    }
  }

  lemma {:induction false} ZeroDigits(s: string)
    requires AllDigits(s)
    ensures DigitsValue(s) == 0 <==> forall i :: 0 <= i < |s| ==> s[i] == '0'
    decreases |s|
  {
    if s != [] {
      var init := s[..|s| - 1];
      assert AllDigits(init);
      ZeroDigits(init);
      assert forall i :: 0 <= i < |init| ==> init[i] == s[i];
    }
  }

  lemma WholeZeroIffValueZero(s: string)
    requires IsUnsignedDecimal(s)
    ensures AllDigits(Before(s, "."))
    ensures DigitsValue(Before(s, ".")) == 0 <==>
              forall i :: 0 <= i < |Before(s, ".")| ==> Before(s, ".")[i] == '0'
  {
    ZeroDigits(Before(s, "."));
  }

  /** The first edition whose `name` (None when missing) equals the user's
      edition; an edition without `get` fails. */
  function FindEdition(editions: seq<Json>, user: Json): (r: Result<Option<Json>>)
    ensures r.Err? ==> r == Err(AttributeError)
    decreases |editions|
  {
    if editions == [] then Ok(None)
    else
      var edition :- AsDict(editions[0]);
      if GetOr(edition, "name", Null) == user then Ok(Some(editions[0]))
      else FindEdition(editions[1..], user)
  }

  /** An edition is a match. */
  predicate Matches(edition: Json, user: Json) {
    edition.Obj? && GetOr(edition.entries, "name", Null) == user
  }

  /** One step of `FindEdition`. */
  lemma FindEditionStep(editions: seq<Json>, user: Json)
    requires editions != []
    ensures !editions[0].Obj? ==> FindEdition(editions, user) == Err(AttributeError)
    ensures Matches(editions[0], user) ==> FindEdition(editions, user) == Ok(Some(editions[0]))
    ensures editions[0].Obj? && !Matches(editions[0], user) ==>
              FindEdition(editions, user) == FindEdition(editions[1..], user)
  {
  }

  /** The edition found is the first match, every edition before it being a
      dictionary that does not match. */
  lemma {:induction false} FindEditionFirst(editions: seq<Json>, user: Json)
    requires FindEdition(editions, user).Ok? && FindEdition(editions, user).value.Some?
    ensures exists i :: 0 <= i < |editions| && editions[i] == FindEdition(editions, user).value.value &&
                        Matches(editions[i], user) &&
                        forall j :: 0 <= j < i ==> editions[j].Obj? && !Matches(editions[j], user)
    decreases |editions|
  {
    FindEditionStep(editions, user);
    if !Matches(editions[0], user) {
      FindEditionFirst(editions[1..], user);
      var i :| 0 <= i < |editions[1..]| && editions[1..][i] == FindEdition(editions[1..], user).value.value &&
               Matches(editions[1..][i], user) &&
               forall j :: 0 <= j < i ==> editions[1..][j].Obj? && !Matches(editions[1..][j], user);
      assert forall j :: 1 <= j <= i ==> editions[j] == editions[1..][j - 1];
      assert editions[i + 1] == editions[1..][i];
    }
  }

  /** No edition is found exactly when all are dictionaries and none matches. */
  lemma {:induction false} FindEditionNone(editions: seq<Json>, user: Json)
    ensures FindEdition(editions, user) == Ok(None) <==>
              forall j :: 0 <= j < |editions| ==> editions[j].Obj? && !Matches(editions[j], user)
    decreases |editions|
  {
    if editions != [] {
      FindEditionStep(editions, user);
      FindEditionNone(editions[1..], user);
      assert forall j :: 1 <= j < |editions| ==> editions[j] == editions[1..][j - 1];
    }
  }

  /** `self.data["editions"][:]`: the copy of the editions `pop_edition` scans. */
  function EditionsOf(data: seq<Entry>): (r: Result<seq<Json>>)
    ensures r.Ok? <==> HasKey(data, "editions") && (Get(data, "editions").value.Arr? || Get(data, "editions").value.Str?)
    ensures r.Ok? && Get(data, "editions").value.Arr? ==> r.value == Get(data, "editions").value.items
  {
    var editions :- PyIndex(Obj(data), "editions");
    PySliceAll(editions)
  }

  /** The edition at index `i` is the first match: every edition before it
      is a dictionary that does not match. */
  predicate FirstMatchAt(editions: seq<Json>, user: Json, i: nat)
    requires i < |editions|
  {
    Matches(editions[i], user) && forall j :: 0 <= j < i ==> editions[j].Obj? && !Matches(editions[j], user)
  }

  /** `pop_edition(user_edition)` on the spec's data, as the new data: the
      editions are replaced by the first matching one alone. */
  function Popped(data: seq<Entry>, currentVersion: string, user: Json): (r: Result<seq<Entry>>)
    ensures BelowOne(currentVersion) == Ok(true) ==> r == Err(ValueError(NoEditionsMessage))
    ensures r.Ok? ==> BelowOne(currentVersion) == Ok(false) && EditionsOf(data).Ok?
    ensures r.Ok? ==> exists i :: 0 <= i < |EditionsOf(data).value| && FirstMatchAt(EditionsOf(data).value, user, i) &&
                                 r.value == Set(data, "editions", Arr([EditionsOf(data).value[i]]))
    ensures r == Err(ValueError(EditionMissingMessage)) <==>
              BelowOne(currentVersion) == Ok(false) && EditionsOf(data).Ok? &&
              forall j :: 0 <= j < |EditionsOf(data).value| ==>
                EditionsOf(data).value[j].Obj? && !Matches(EditionsOf(data).value[j], user)
  {
    var below :- BelowOne(currentVersion);
    if below then Err(ValueError(NoEditionsMessage))
    else
      var copy :- EditionsOf(data);
      FindEditionNone(copy, user);
      var found :- FindEdition(copy, user);
      if found.None? then Err(ValueError(EditionMissingMessage))
      else
        FindEditionFirst(copy, user);
        Ok(Set(data, "editions", Arr([found.value])))
  }

  /** A spec file being prepared for a build. */
  class SpecFile {
    var data: seq<Entry>
    var currentVersion: string

    /** The loaded spec and the text of its `version` (0 when missing). */
    constructor(data: seq<Entry>, currentVersion: string)
      ensures this.data == data && this.currentVersion == currentVersion
    {
      this.data := data;
      this.currentVersion := currentVersion;
    }

    /** `except_var(config)`. */
    static method ExceptVar(config: seq<Entry>) returns (r: Result<seq<Json>>)
      ensures r == Excludes(config)
    {
      var tarExcept: seq<Json> := [];
      var i := 0;
      while i < |config|
        invariant 0 <= i <= |config|
        invariant tarExcept + DirValues(config[i..]) == DirValues(config)
      {
        assert config[i..][1..] == config[i + 1..];
        if Contains(config[i].0, "_dir") {
          tarExcept := tarExcept + [config[i].1];
        }
        i := i + 1;
      }
      assert config[i..] == [];
      assert tarExcept == DirValues(config);
      var items := ProcessingItems(config);
      if items.Err? {
        return Err(items.error);
      }
      var dirs := tarExcept;
      var k := 0;
      while k < |items.value|
        invariant 0 <= k <= |items.value|
        invariant ExceptFiles(items.value).Ok? ==>
                    ExceptFiles(items.value[k..]).Ok? &&
                    dirs + ExceptFiles(items.value).value == tarExcept + ExceptFiles(items.value[k..]).value
        invariant ExceptFiles(items.value).Err? <==> ExceptFiles(items.value[k..]).Err?
      {
        var item := items.value[k];
        assert items.value[k..][1..] == items.value[k + 1..];
        if !item.Obj? {
          assert ExceptFiles(items.value[k..]).Err?;
          return Err(AttributeError);
        }
        if Truthy(GetOr(item.entries, "except_file", Bool(false))) {
          tarExcept := tarExcept + [GetOr(item.entries, "file", Null)];
        }
        k := k + 1;
      }
      assert items.value[k..] == [];
      assert ExceptFiles(items.value[k..]) == Ok([]);
      assert ExceptFiles(items.value).Ok?;
      assert tarExcept == dirs + ExceptFiles(items.value).value;
      r := Ok(tarExcept);
    }

    /** The preprocessor loop of `to_1_0`. */
    static method ConvertProcessing(spec: seq<Entry>, items: seq<Json>) returns (r: Result<seq<Json>>)
      ensures r == Preprocessors(spec, items)
    {
      var preprocessors: seq<Json> := [];
      var i := 0;
      while i < |items|
        invariant 0 <= i <= |items|
        invariant |preprocessors| == i
        invariant forall j :: 0 <= j < i ==> Preprocessor(spec, items[j]) == Ok(preprocessors[j])
      {
        var p := Preprocessor(spec, items[i]);
        if p.Err? {
          PreprocessorsStopAt(spec, items, i);
          return Err(p.error);
        }
        preprocessors := preprocessors + [p.value];
        i := i + 1;
      }
      PreprocessorsAll(spec, items, preprocessors);
      r := Ok(preprocessors);
    }

    /** `to_1_0()`. */
    method ToV10() returns (r: Result<seq<Entry>>)
      ensures r == Migrate10(data)
    {
      var spec := data;
      var exclude := ExceptVar(spec);
      if exclude.Err? {
        return Err(exclude.error);
      }
      var items := ProcessingItems(spec).value;
      var preprocessors := ConvertProcessing(spec, items);
      if preprocessors.Err? {
        return Err(preprocessors.error);
      }
      r := Ok(NewSpec(exclude.value, preprocessors.value));
    }

    /** `normalize_spec()`: applies the pending migrations, then records the
        latest version. */
    method NormalizeSpec() returns (r: Result<seq<Entry>>)
      modifies this
      ensures r == Normalized(old(data))
      ensures r.Ok? ==> data == r.value && currentVersion == Versions[|Versions| - 1]
      ensures r.Err? ==> data == old(data) && currentVersion == old(currentVersion)
    {
      var version := Get(data, "version");
      var index := if version.Some? && version.value.Str? && version.value.s in Versions
                   then Lists.IndexOf(Versions, version.value.s) + 1 else 0;
      var i := index;
      while i < |Versions|
        invariant index <= i <= |Versions|
        invariant i == index ==> data == old(data)
        invariant i > index ==> Migrate10(old(data)).Ok? && data == Migrate10(old(data)).value
        invariant currentVersion == old(currentVersion)
      {
        var migrated := ToV10();
        if migrated.Err? {
          return Err(migrated.error);
        }
        data := migrated.value;
        i := i + 1;
      }
      currentVersion := Versions[|Versions| - 1];
      r := Ok(data);
    }

    /** The loop of `pop_edition` over the copied editions. */
    static method FirstEdition(editions: seq<Json>, user: Json) returns (r: Result<Option<Json>>)
      ensures r == FindEdition(editions, user)
    {
      var i := 0;
      while i < |editions|
        invariant 0 <= i <= |editions|
        invariant FindEdition(editions, user) == FindEdition(editions[i..], user)
      {
        var edition := editions[i];
        assert editions[i..][1..] == editions[i + 1..];
        FindEditionStep(editions[i..], user);
        if !edition.Obj? {
          return Err(AttributeError);
        }
        if GetOr(edition.entries, "name", Null) == user {
          return Ok(Some(edition));
        }
        i := i + 1;
      }
      assert editions[i..] == [];
      r := Ok(None);
    }

    /** `pop_edition(user_edition)`. */
    method PopEdition(user: Json) returns (r: Result<()>)
      modifies this
      ensures r.Ok? <==> Popped(old(data), old(currentVersion), user).Ok?
      ensures r.Err? ==> r.error == Popped(old(data), old(currentVersion), user).error
      ensures r.Ok? ==> data == Popped(old(data), old(currentVersion), user).value
      ensures r.Err? ==> data == old(data)
      ensures currentVersion == old(currentVersion)
    {
      var below := BelowOne(currentVersion);
      if below.Err? {
        return Err(below.error);
      }
      if below.value {
        return Err(ValueError(NoEditionsMessage));
      }
      var editions := PyIndex(Obj(data), "editions");
      if editions.Err? {
        return Err(editions.error);
      }
      var copy := PySliceAll(editions.value);
      if copy.Err? {
        return Err(copy.error);
      }
      var found := FirstEdition(copy.value, user);
      if found.Err? {
        return Err(found.error);
      }
      if found.value.Some? {
        data := Set(data, "editions", Arr([found.value.value]));
        return Ok(());
      }
      r := Err(ValueError(EditionMissingMessage));
    }
  }

  lemma PreprocessorsStopAt(data: seq<Entry>, items: seq<Json>, i: nat)
    requires i < |items| && Preprocessor(data, items[i]).Err?
    requires forall j :: 0 <= j < i ==> Preprocessor(data, items[j]).Ok?
    ensures Preprocessors(data, items) == Err(Preprocessor(data, items[i]).error)
  {
    var r := Preprocessors(data, items);
    if r.Err? {
      var k :| 0 <= k < |items| && Preprocessor(data, items[k]) == Err(r.error) &&
               forall j :: 0 <= j < k ==> Preprocessor(data, items[j]).Ok?;
      assert k == i;
    }
  }

  lemma {:induction false} PreprocessorsAll(data: seq<Entry>, items: seq<Json>, pre: seq<Json>)
    requires |pre| == |items| && forall j :: 0 <= j < |items| ==> Preprocessor(data, items[j]) == Ok(pre[j])
    ensures Preprocessors(data, items) == Ok(pre)
    decreases |items|
  {
    if items != [] {
      assert forall j :: 0 <= j < |items[1..]| ==> items[1..][j] == items[j + 1] && pre[1..][j] == pre[j + 1];
      PreprocessorsAll(data, items[1..], pre[1..]);
      assert Preprocessor(data, items[0]) == Ok(pre[0]);
      PreprocessorsStep(data, items);
      assert pre == [pre[0]] + pre[1..];
    }
  }

  /** `Preprocessors` on a non-empty list whose head and rest convert. */
  lemma PreprocessorsStep(data: seq<Entry>, items: seq<Json>)
    requires items != [] && Preprocessor(data, items[0]).Ok? && Preprocessors(data, items[1..]).Ok?
    ensures Preprocessors(data, items) == Ok([Preprocessor(data, items[0]).value] + Preprocessors(data, items[1..]).value)
  {
  }

  /** A spec already at version "1.0" is left as it is by normalization. */
  lemma NormalizedAtCurrentVersion(data: seq<Entry>)
    requires Get(data, "version") == Some(Str("1.0"))
    ensures Normalized(data) == Ok(data)
  {
  }

  /** A spec at version "1.0" supports editions. */
  lemma VersionOneSupportsEditions()
    ensures BelowOne("1.0") == Ok(false)
  {
    assert Before("1.0", ".") == "1" by {
      assert !IsPrefix(".", "1.0");
      assert IsPrefix(".", "1.0"[1..]);
      assert Before("1.0"[1..], ".") == "";
    }
    assert DigitsValue("1") == 1 by {
      assert "1"[..0] == "";
    }
  }

  /** Narrowing a migrated spec to the unnamed edition keeps its only edition. */
  lemma PopMigratedEdition(exclude: seq<Json>, preprocessors: seq<Json>)
    ensures Popped(NewSpec(exclude, preprocessors), "1.0", Null) == Ok(NewSpec(exclude, preprocessors))
  {
    var s := NewSpec(exclude, preprocessors);
    NewSpecFields(exclude, preprocessors);
    VersionOneSupportsEditions();
    var edition := Obj([("name", Null), ("exclude", Arr(exclude)), ("preprocessors", Arr(preprocessors))]);
    assert FindEdition([edition], Null) == Ok(Some(edition));
    SetSameValue(s, "editions");
  }
}
