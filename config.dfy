/** The configuration documents of `_BaseObject`: reading the current
    history entry (`config`), saving a complete configuration
    (`config_set`) and saving a difference against the current one
    (`config_set_diff`), which deep-merges the difference into the current
    configuration with the inner `update`. Server replies are inputs. */
module ConfigDocs {
  import opened Values

  /** Whether `update` merges the diff value `v` into the value `prev` already
      stored under its key, instead of replacing it: both must be mappings. */
  predicate Merges(prev: Option<Json>, v: Json) {
    v.Obj? && prev.Some? && prev.value.Obj?
  }

  /** The value `update` stores under a key: the recursive merge when both
      sides are mappings, the diff value otherwise. */
  function MergedValue(prev: Option<Json>, v: Json): Json
    decreases v, 2, 0
  {
    if Merges(prev, v) then Obj(MergeFrom(prev.value.entries, v, 0)) else v
  }

  /** `update(d, u)` on a dictionary `d` once the entries of `u` before index
      `i` have been written: the remaining entries are written in order. */
  function MergeFrom(d: seq<Entry>, u: Json, i: nat): seq<Entry>
    requires u.Obj? && i <= |u.entries|
    decreases u, 1, |u.entries| - i
  {
    if i == |u.entries| then d
    else
      var k := u.entries[i].0;
      MergeFrom(Set(d, k, MergedValue(Get(d, k), u.entries[i].1)), u, i + 1)
  }

  /** The inner `update(d, u)` of `config_set_diff` on arbitrary values: `u`
      must have `items()`, and a non-empty `u` can only be written into a
      dictionary (`in`, subscripting or item assignment fails otherwise). */
  function Update(d: Json, u: Json): (r: Result<Json>)
    ensures !u.Obj? ==> r == Err(AttributeError)
    ensures u.Obj? && u.entries != [] && !d.Obj? ==> r == Err(TypeError)
    ensures u.Obj? && u.entries == [] ==> r == Ok(d)
    ensures u.Obj? && d.Obj? ==> r == Ok(Obj(MergeFrom(d.entries, u, 0)))
  {
    if !u.Obj? then Err(AttributeError)
    else if u.entries == [] then Ok(d)
    else if !d.Obj? then Err(TypeError)
    else Ok(Obj(MergeFrom(d.entries, u, 0)))
  }

  /** `update` on a dictionary, rewriting `d` key by key as the source does. */
  method DeepUpdate(d: seq<Entry>, u: Json) returns (r: seq<Entry>)
    requires u.Obj?
    ensures r == MergeFrom(d, u, 0)
    decreases u
  {
    r := d;
    var i := 0;
    while i < |u.entries|
      invariant 0 <= i <= |u.entries|
      invariant MergeFrom(r, u, i) == MergeFrom(d, u, 0)
    {
      var key, value := u.entries[i].0, u.entries[i].1;
      var prev := Get(r, key);
      var next := value;
      if value.Obj? && prev.Some? && prev.value.Obj? {
        var merged := DeepUpdate(prev.value.entries, value);
        next := Obj(merged);
      }
      assert next == MergedValue(prev, value);
      r := Set(r, key, next);
      i := i + 1;
    }
  }

  /** `update(d, u)` called on the values `config_set_diff` passes it. */
  method UpdateDocument(d: Json, u: Json) returns (r: Result<Json>)
    ensures r == Update(d, u)
  {
    if !u.Obj? {
      return Err(AttributeError);
    }
    if u.entries == [] {
      return Ok(d);
    }
    if !d.Obj? {
      return Err(TypeError);
    }
    var merged := DeepUpdate(d.entries, u);
    r := Ok(Obj(merged));
  }

  /** Keys that the rest of the diff does not mention keep their value. */
  lemma {:induction false} MergeKeepsUnmentionedFrom(d: seq<Entry>, u: Json, i: nat, k: string)
    requires u.Obj? && i <= |u.entries|
    requires forall j :: i <= j < |u.entries| ==> u.entries[j].0 != k
    ensures Get(MergeFrom(d, u, i), k) == Get(d, k)
    decreases |u.entries| - i
  {
    if i < |u.entries| {
      var k' := u.entries[i].0;
      MergeKeepsUnmentionedFrom(Set(d, k', MergedValue(Get(d, k'), u.entries[i].1)), u, i + 1, k);
    }
  }

  /** A key present only in the old configuration is unchanged by the merge. */
  lemma MergeKeepsUnmentioned(d: seq<Entry>, u: Json, k: string)
    requires u.Obj? && !HasKey(u.entries, k)
    ensures Get(MergeFrom(d, u, 0), k) == Get(d, k)
  {
    MergeKeepsUnmentionedFrom(d, u, 0, k);
  }

  lemma {:induction false} MergeAtKeyFrom(d: seq<Entry>, u: Json, i: nat, j: nat, k: string)
    requires u.Obj? && i <= j < |u.entries| && u.entries[j].0 == k
    requires forall m :: i <= m < |u.entries| && m != j ==> u.entries[m].0 != k
    ensures Get(MergeFrom(d, u, i), k) == Some(MergedValue(Get(d, k), u.entries[j].1))
    decreases j - i
  {
    var k' := u.entries[i].0;
    var d1 := Set(d, k', MergedValue(Get(d, k'), u.entries[i].1));
    if i == j {
      MergeKeepsUnmentionedFrom(d1, u, i + 1, k);
    } else {
      MergeAtKeyFrom(d1, u, i + 1, j, k);
    }
  }

  /** A key the diff mentions ends up with the diff's value, or with the
      recursive merge of the two values when both are mappings. */
  lemma MergeAtKey(d: seq<Entry>, u: Json, k: string)
    requires u.Obj? && Unique(u.entries) && HasKey(u.entries, k)
    ensures Get(MergeFrom(d, u, 0), k) == Some(MergedValue(Get(d, k), Get(u.entries, k).value))
  {
    GetFound(u.entries, k);
    var j :| 0 <= j < |u.entries| && u.entries[j] == (k, Get(u.entries, k).value);
    MergeAtKeyFrom(d, u, 0, j, k);
  }

  lemma {:induction false} MergeKeysFrom(d: seq<Entry>, u: Json, i: nat, k: string)
    requires u.Obj? && i <= |u.entries|
    ensures HasKey(MergeFrom(d, u, i), k) <==>
              HasKey(d, k) || exists j :: i <= j < |u.entries| && u.entries[j].0 == k
    decreases |u.entries| - i
  {
    if i < |u.entries| {
      var k' := u.entries[i].0;
      var d1 := Set(d, k', MergedValue(Get(d, k'), u.entries[i].1));
      MergeKeysFrom(d1, u, i + 1, k);
      assert HasKey(d1, k) <==> HasKey(d, k) || k' == k by {
        assert Get(d1, k).None? <==> !HasKey(d1, k);
      }
    }
  }

  /** The merged configuration has exactly the keys of the old one and of the diff. */
  lemma MergeKeys(d: seq<Entry>, u: Json, k: string)
    requires u.Obj?
    ensures HasKey(MergeFrom(d, u, 0), k) <==> HasKey(d, k) || HasKey(u.entries, k)
  {
    MergeKeysFrom(d, u, 0, k);
  }

  /** The merge of a dictionary is a dictionary. */
  lemma {:induction false} MergeUnique(d: seq<Entry>, u: Json, i: nat)
    requires u.Obj? && i <= |u.entries| && Unique(d)
    ensures Unique(MergeFrom(d, u, i))
    decreases |u.entries| - i
  {
    if i < |u.entries| {
      var k := u.entries[i].0;
      MergeUnique(Set(d, k, MergedValue(Get(d, k), u.entries[i].1)), u, i + 1);
    }
  }

  /** `u` repeats what `d` already holds: every diff value equals the stored
      one, or both are mappings and the diff is covered by the stored one. */
  predicate Covered(d: seq<Entry>, u: Json)
    requires u.Obj?
    decreases u, 1
  {
    forall i :: 0 <= i < |u.entries| ==> CoveredEntry(Get(d, u.entries[i].0), u.entries[i].1)
  }

  predicate CoveredEntry(prev: Option<Json>, v: Json)
    decreases v, 2
  {
    if Merges(prev, v) then Covered(prev.value.entries, v) else prev == Some(v)
  }

  /** A diff that repeats the current values, in particular an empty diff,
      leaves the configuration unchanged. */
  lemma {:induction false} MergeCoveredIsIdentity(d: seq<Entry>, u: Json, i: nat)
    requires u.Obj? && i <= |u.entries| && Covered(d, u)
    ensures MergeFrom(d, u, i) == d
    decreases u, |u.entries| - i
  {
    if i < |u.entries| {
      var k, v := u.entries[i].0, u.entries[i].1;
      var prev := Get(d, k);
      assert CoveredEntry(prev, v);
      if Merges(prev, v) {
        MergeCoveredIsIdentity(prev.value.entries, v, 0);
        assert MergedValue(prev, v) == prev.value;
      } else {
        assert MergedValue(prev, v) == prev.value;
      }
      SetSameValue(d, k);
      MergeCoveredIsIdentity(d, u, i + 1);
    }
  }

  /** `"config" in data and "attr" in data`. */
  function IsFull(data: Json): (r: Result<bool>)
    ensures data.Obj? ==> r == Ok(HasKey(data.entries, "config") && HasKey(data.entries, "attr"))
    ensures r.Err? <==> !(data.Obj? || data.Arr? || data.Str?)
  {
    var hasConfig :- PyIn("config", data);
    if !hasConfig then Ok(false) else PyIn("attr", data)
  }

  /** `config(full)`: the current history entry, or its `config`. */
  function ReadConfig(entry: Json, full: bool): (r: Result<Json>)
    ensures full ==> r == Ok(entry)
    ensures !full ==> (r.Ok? <==> entry.Obj? && HasKey(entry.entries, "config"))
    ensures !full && r.Ok? ==> Get(entry.entries, "config") == Some(r.value)
  {
    if full then Ok(entry) else PyIndex(entry, "config")
  }

  /** The history-create call `config_set` makes. */
  datatype HistoryRequest = FullRequest(config: Json, attr: Json) | PlainRequest(config: Json)

  /** What a save did: the request sent, the value returned, and the caller's
      `data` afterwards (a None `attr` is replaced by `{}` in place). */
  datatype Saved = Saved(request: HistoryRequest, returned: Json, data: Json)

  /** `{key: value for key, value in d.items() if key in keys}`. */
  function KeepKeys(d: seq<Entry>, keys: seq<string>): (r: seq<Entry>)
    ensures forall i :: 0 <= i < |r| ==> r[i].0 in keys
    decreases |d|
  {
    if d == [] then []
    else if d[0].0 in keys then [d[0]] + KeepKeys(d[1..], keys)
    else KeepKeys(d[1..], keys)
  }

  /** The kept dictionary looks up a kept key as the original does, and has no other key. */
  lemma {:induction false} KeepKeysGet(d: seq<Entry>, keys: seq<string>, k: string)
    ensures Get(KeepKeys(d, keys), k) == (if k in keys then Get(d, k) else None)
    decreases |d|
  {
    if d != [] {
      KeepKeysGet(d[1..], keys, k);
    }
  }

  /** `config_set(data)` given the history entry `entry` the server creates. */
  function ConfigSet(data: Json, entry: Json): (r: Result<Saved>)
    ensures data.Obj? && HasKey(data.entries, "config") && HasKey(data.entries, "attr") ==>
              (r.Ok? <==> entry.Obj?) &&
              (r.Ok? ==> r.value == Saved(
                 FullRequest(Get(data.entries, "config").value, NullAsEmpty(Get(data.entries, "attr").value)),
                 Obj(KeepKeys(entry.entries, ["config", "attr"])),
                 Obj(Set(data.entries, "attr", NullAsEmpty(Get(data.entries, "attr").value)))))
    ensures data.Obj? && !(HasKey(data.entries, "config") && HasKey(data.entries, "attr")) ==>
              (r.Ok? <==> entry.Obj? && HasKey(entry.entries, "config")) &&
              (r.Ok? ==> r.value == Saved(PlainRequest(data), Get(entry.entries, "config").value, data))
  {
    var full :- IsFull(data);
    if full then
      var attr0 :- PyIndex(data, "attr");
      var data' := Obj(Set(data.entries, "attr", NullAsEmpty(attr0)));
      var config := Get(data'.entries, "config").value;
      var attr := Get(data'.entries, "attr").value;
      var items :- AsDict(entry);
      Ok(Saved(FullRequest(config, attr), Obj(KeepKeys(items, ["config", "attr"])), data'))
    else
      var config :- PyIndex(entry, "config");
      Ok(Saved(PlainRequest(data), config, data))
  }

  /** A None `attr` is sent as `{}`. */
  function NullAsEmpty(attr: Json): (r: Json)
    ensures r != Null
    ensures attr != Null ==> r == attr
  {
    if attr == Null then Obj([]) else attr
  }

  /** `config_set_diff(data)`: `current` is the current history entry read
      from the server, `created` the history entry the save creates. */
  function ConfigSetDiff(data: Json, current: Json, created: Json): (r: Result<Saved>)
    ensures !(data.Obj? || data.Arr? || data.Str?) ==> r == Err(TypeError)
  {
    var full :- IsFull(data);
    var config :- ReadConfig(current, full);
    var merged :- Update(config, data);
    ConfigSet(merged, created)
  }

  /** A diff that is not a complete entry is merged into the current `config`
      and the merge is sent as the new configuration: untouched keys keep
      their current value, mentioned keys take the diff's value or the
      recursive merge. */
  lemma DiffSendsMergedConfig(data: Json, current: Json, created: Json, k: string)
    requires data.Obj? && Unique(data.entries)
    requires !(HasKey(data.entries, "config") && HasKey(data.entries, "attr"))
    requires current.Obj? && HasKey(current.entries, "config")
    requires Get(current.entries, "config").value.Obj?
    requires var c := Get(current.entries, "config").value.entries;
             !HasKey(c, "config") && !HasKey(data.entries, "config")
    requires created.Obj? && HasKey(created.entries, "config")
    ensures ConfigSetDiff(data, current, created).Ok?
    ensures var s := ConfigSetDiff(data, current, created).value;
            var c := Get(current.entries, "config").value.entries;
            s.returned == Get(created.entries, "config").value &&
            s.request.PlainRequest? && s.request.config.Obj? &&
            Get(s.request.config.entries, k) ==
              (if HasKey(data.entries, k) then Some(MergedValue(Get(c, k), Get(data.entries, k).value))
               else Get(c, k))
  {
    var c := Get(current.entries, "config").value.entries;
    MergeKeys(c, data, "config");
    assert Update(Obj(c), data) == Ok(Obj(MergeFrom(c, data, 0)));
    if HasKey(data.entries, k) {
      MergeAtKey(c, data, k);
    } else {
      MergeKeepsUnmentioned(c, data, k);
    }
  }

  /** A diff that is a complete entry is merged into the whole current entry:
      both sections are sent merged, a merged `attr` of None as `{}`. */
  lemma DiffMergesFullEntry(data: Json, current: Json, created: Json)
    requires data.Obj? && Unique(data.entries)
    requires HasKey(data.entries, "config") && HasKey(data.entries, "attr")
    requires current.Obj? && created.Obj?
    ensures ConfigSetDiff(data, current, created).Ok?
    ensures var s := ConfigSetDiff(data, current, created).value;
            var e := current.entries;
            s.request == FullRequest(
              MergedValue(Get(e, "config"), Get(data.entries, "config").value),
              NullAsEmpty(MergedValue(Get(e, "attr"), Get(data.entries, "attr").value))) &&
            s.returned == Obj(KeepKeys(created.entries, ["config", "attr"]))
  {
    var e := current.entries;
    MergeKeys(e, data, "config");
    MergeKeys(e, data, "attr");
    MergeAtKey(e, data, "config");
    MergeAtKey(e, data, "attr");
  }
}
