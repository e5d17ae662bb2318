/** `Action._get_config` and `Action.run`: the configuration an action run
    sends is either given by the caller, or built from the action's declared
    config items and optionally overlaid with a `config_diff`; the run
    arguments then pass the `verbose` gate, and a refused run is classified.
    The server's reply to the run call is an input. */
module Actions {
  import opened Values
  import opened Versions
  import Gates

  /** One declared config item of an action. `subname` is "" for an item that
      is not inside a group (the server's empty or null subname). */
  datatype ConfigItem = ConfigItem(kind: string, name: string, subname: string, value: Json)

  predicate IsGroup(it: ConfigItem) { it.kind == "group" }

  /** An item stored inside its group. */
  predicate IsSubItem(it: ConfigItem) { !IsGroup(it) && it.subname != "" }

  /** An item stored at the top level of the configuration. */
  predicate IsTopItem(it: ConfigItem) { !IsGroup(it) && it.subname == "" }

  /** `cfg[name][sub] = v`: the section must exist and be a dictionary. */
  function SetSub(cfg: seq<Entry>, name: string, sub: string, v: Json): (r: Result<seq<Entry>>)
    ensures r.Ok? <==> Get(cfg, name).Some? && Get(cfg, name).value.Obj?
    ensures Get(cfg, name).None? ==> r == Err(KeyError(name))
    ensures r.Err? && Get(cfg, name).Some? ==> r == Err(TypeError)
    ensures r.Ok? ==> (forall k :: k != name ==> Get(r.value, k) == Get(cfg, k)) &&
                      Get(r.value, name) == Some(Obj(Set(Get(cfg, name).value.entries, sub, v)))
  {
    match Get(cfg, name)
    case None => Err(KeyError(name))
    case Some(section) =>
      if section.Obj? then Ok(Set(cfg, name, Obj(Set(section.entries, sub, v)))) else Err(TypeError)
  }

  /** One iteration of `_get_config`. */
  function AddItem(cfg: seq<Entry>, it: ConfigItem): Result<seq<Entry>>
  {
    if IsGroup(it) then Ok(Set(cfg, it.name, Obj([])))
    else if it.subname != "" then SetSub(cfg, it.name, it.subname, it.value)
    else Ok(Set(cfg, it.name, it.value))
  }

  /** `_get_config` once the items before index `i` have been added to `cfg`. */
  function ConfigFrom(cfg: seq<Entry>, items: seq<ConfigItem>, i: nat): Result<seq<Entry>>
    requires i <= |items|
    decreases |items| - i
  {
    if i == |items| then Ok(cfg)
    else
      var next :- AddItem(cfg, items[i]);
      ConfigFrom(next, items, i + 1)
  }

  /** One step of `ConfigFrom`: the item's error, or the rest from the
      extended configuration. */
  lemma ConfigFromStep(cfg: seq<Entry>, items: seq<ConfigItem>, i: nat)
    requires i < |items|
    ensures AddItem(cfg, items[i]).Err? ==> ConfigFrom(cfg, items, i) == Err(AddItem(cfg, items[i]).error)
    ensures AddItem(cfg, items[i]).Ok? ==>
              ConfigFrom(cfg, items, i) == ConfigFrom(AddItem(cfg, items[i]).value, items, i + 1)
  {
  }

  /** `Action._get_config`. */
  method GetConfig(items: seq<ConfigItem>) returns (r: Result<seq<Entry>>)
    ensures r == ConfigFrom([], items, 0)
  {
    var config: seq<Entry> := [];
    var i := 0;
    while i < |items|
      invariant 0 <= i <= |items|
      invariant ConfigFrom(config, items, i) == ConfigFrom([], items, 0)
    {
      var item := items[i];
      ConfigFromStep(config, items, i);
      var next: seq<Entry>;
      if item.kind == "group" {
        next := Set(config, item.name, Obj([]));
      } else if item.subname != "" {
        var section := Get(config, item.name);
        if section.None? {
          assert AddItem(config, item) == Err(KeyError(item.name));
          return Err(KeyError(item.name));
        }
        if !section.value.Obj? {
          assert AddItem(config, item) == Err(TypeError);
          return Err(TypeError);
        }
        next := Set(config, item.name, Obj(Set(section.value.entries, item.subname, item.value)));
      } else {
        next := Set(config, item.name, item.value);
      }
      assert AddItem(config, item) == Ok(next);
      config := next;
      i := i + 1;
    }
    r := Ok(config);
  }

  /** The position of an item in the configuration: a group and the items
      outside groups by name, a grouped item by name and subname. */
  function ItemKey(it: ConfigItem): (string, string) {
    if IsGroup(it) then (it.name, "") else (it.name, it.subname)
  }

  /** The item lists the server declares: no two items share a position,
      and every grouped item comes after its group. */
  predicate WellFormed(items: seq<ConfigItem>) {
    (forall i, j :: 0 <= i < j < |items| ==> ItemKey(items[i]) != ItemKey(items[j])) &&
    (forall i :: 0 <= i < |items| && IsSubItem(items[i]) ==>
       exists j :: 0 <= j < i && IsGroup(items[j]) && items[j].name == items[i].name)
  }

  /** Where the built configuration holds an item. */
  predicate ItemHolds(cfg: seq<Entry>, it: ConfigItem) {
    if IsGroup(it) then Get(cfg, it.name).Some? && Get(cfg, it.name).value.Obj?
    else if it.subname != "" then
      Get(cfg, it.name).Some? && Get(cfg, it.name).value.Obj? &&
      Get(Get(cfg, it.name).value.entries, it.subname) == Some(it.value)
    else Get(cfg, it.name) == Some(it.value)
  }

  /** In a well-formed list, an earlier item with the same name as a later
      one can only be its group or a sibling at another subname. */
  lemma SameNameEarlier(items: seq<ConfigItem>, m: nat, n: nat)
    requires WellFormed(items) && m < n < |items| && items[m].name == items[n].name
    ensures IsSubItem(items[n])
    ensures IsGroup(items[m]) || (IsSubItem(items[m]) && items[m].subname != items[n].subname)
  {
    assert ItemKey(items[m]) != ItemKey(items[n]);
    if IsSubItem(items[m]) {
      var j :| 0 <= j < m && IsGroup(items[j]) && items[j].name == items[m].name;
      assert ItemKey(items[j]) != ItemKey(items[n]);
    }
  }

  /** The items before index `n` hold in `cfg`. */
  predicate HoldsBefore(cfg: seq<Entry>, items: seq<ConfigItem>, n: nat)
    requires n <= |items|
  {
    forall m :: 0 <= m < n ==> ItemHolds(cfg, items[m])
  }

  /** Every key of `cfg` is the name of an item before index `n`. */
  ghost predicate KeysBefore(cfg: seq<Entry>, items: seq<ConfigItem>, n: nat)
    requires n <= |items|
  {
    forall k :: HasKey(cfg, k) ==> exists m :: 0 <= m < n && items[m].name == k
  }

  /** Adding the item at index `n` succeeds: a grouped item's group is
      already there. */
  lemma BuildStepOk(cfg: seq<Entry>, items: seq<ConfigItem>, n: nat)
    requires WellFormed(items) && n < |items|
    requires HoldsBefore(cfg, items, n)
    ensures AddItem(cfg, items[n]).Ok?
  {
    var it := items[n];
    if IsSubItem(it) {
      var j :| 0 <= j < n && IsGroup(items[j]) && items[j].name == it.name;
      assert ItemHolds(cfg, items[j]);
    }
  }

  /** Adding the item at index `n` keeps the earlier items and holds the new one. */
  lemma BuildStepHolds(cfg: seq<Entry>, items: seq<ConfigItem>, n: nat)
    requires WellFormed(items) && n < |items|
    requires HoldsBefore(cfg, items, n)
    requires AddItem(cfg, items[n]).Ok?
    ensures HoldsBefore(AddItem(cfg, items[n]).value, items, n + 1)
  {
    var it := items[n];
    var next := AddItem(cfg, it).value;
    forall m | 0 <= m < n + 1
      ensures ItemHolds(next, items[m])
    {
      if m < n {
        if items[m].name == it.name {
          SameNameEarlier(items, m, n);
        } else {
          assert Get(next, items[m].name) == Get(cfg, items[m].name);
        }
      }
    }
  }

  /** Adding the item at index `n` only adds its name as a key. */
  lemma BuildStepKeys(cfg: seq<Entry>, items: seq<ConfigItem>, n: nat)
    requires n < |items|
    requires KeysBefore(cfg, items, n)
    requires AddItem(cfg, items[n]).Ok?
    ensures KeysBefore(AddItem(cfg, items[n]).value, items, n + 1)
  {
    var it := items[n];
    var next := AddItem(cfg, it).value;
    forall k | HasKey(next, k)
      ensures exists m :: 0 <= m < n + 1 && items[m].name == k
    {
      if k != it.name {
        assert Get(next, k) == Get(cfg, k);
        assert HasKey(cfg, k);
      } else {
        assert items[n].name == k;
      }
    }
  }

  lemma {:induction false} BuildFrom(cfg: seq<Entry>, items: seq<ConfigItem>, n: nat)
    requires WellFormed(items) && n <= |items|
    requires HoldsBefore(cfg, items, n) && KeysBefore(cfg, items, n)
    ensures ConfigFrom(cfg, items, n).Ok?
    ensures HoldsBefore(ConfigFrom(cfg, items, n).value, items, |items|)
    decreases |items| - n
  {
    if n < |items| {
      BuildStepOk(cfg, items, n);
      var next := AddItem(cfg, items[n]).value;
      BuildStepHolds(cfg, items, n);
      BuildStepKeys(cfg, items, n);
      ConfigFromStep(cfg, items, n);
      BuildFrom(next, items, n + 1);
    }
  }

  /** For a well-formed item list `_get_config` succeeds: every group's name
      holds a dictionary, every grouped item's value sits under its name and
      subname, and every other item's value under its name. */
  lemma BuildWellFormed(items: seq<ConfigItem>)
    requires WellFormed(items)
    ensures ConfigFrom([], items, 0).Ok?
    ensures forall m :: 0 <= m < |items| ==> ItemHolds(ConfigFrom([], items, 0).value, items[m])
  {
    BuildFrom([], items, 0);
    assert HoldsBefore(ConfigFrom([], items, 0).value, items, |items|);
  }

  lemma {:induction false} ConfigKeysFrom(cfg: seq<Entry>, items: seq<ConfigItem>, i: nat, k: string)
    requires i <= |items| && ConfigFrom(cfg, items, i).Ok?
    ensures HasKey(ConfigFrom(cfg, items, i).value, k) <==> HasKey(cfg, k) || NamedFrom(items, i, k)
    decreases |items| - i
  {
    if i < |items| {
      ConfigFromStep(cfg, items, i);
      var next := AddItem(cfg, items[i]).value;
      AddItemKeys(cfg, items[i], k);
      ConfigKeysFrom(next, items, i + 1, k);
      NamedFromStep(items, i, k);
    }
  }

  /** Some item from index `i` on has name `k`. */
  predicate NamedFrom(items: seq<ConfigItem>, i: nat, k: string) {
    exists j :: i <= j < |items| && items[j].name == k
  }

  lemma NamedFromStep(items: seq<ConfigItem>, i: nat, k: string)
    requires i < |items|
    ensures NamedFrom(items, i, k) <==> items[i].name == k || NamedFrom(items, i + 1, k)
  {
    if NamedFrom(items, i, k) && items[i].name != k {
      var j :| i <= j < |items| && items[j].name == k;
      assert i + 1 <= j;
    }
  }

  /** Adding an item adds exactly its name as a key. */
  lemma AddItemKeys(cfg: seq<Entry>, it: ConfigItem, k: string)
    requires AddItem(cfg, it).Ok?
    ensures HasKey(AddItem(cfg, it).value, k) <==> HasKey(cfg, k) || it.name == k
  {
    var next := AddItem(cfg, it).value;
    assert Get(next, k).None? <==> !HasKey(next, k);
    assert Get(cfg, k).None? <==> !HasKey(cfg, k);
  }

  /** The built configuration has one top-level key per declared name. */
  lemma ConfigKeys(items: seq<ConfigItem>, k: string)
    requires ConfigFrom([], items, 0).Ok?
    ensures HasKey(ConfigFrom([], items, 0).value, k) <==> exists j :: 0 <= j < |items| && items[j].name == k
  {
    ConfigKeysFrom([], items, 0, k);
  }

  /** One iteration of the `config_diff` loop of `run`. */
  function OverlayItem(cfg: seq<Entry>, it: ConfigItem, diff: Json): Result<seq<Entry>>
  {
    if IsGroup(it) then Ok(cfg)
    else if it.subname != "" then
      var d :- AsDict(diff);
      var section := GetOr(d, it.name, Obj([]));
      var present :- PyIn(it.subname, section);
      if present then
        var v :- PyIndex(section, it.subname);
        SetSub(cfg, it.name, it.subname, v)
      else Ok(cfg)
    else
      var present :- PyIn(it.name, diff);
      if present then
        var v :- PyIndex(diff, it.name);
        Ok(Set(cfg, it.name, v))
      else Ok(cfg)
  }

  /** The `config_diff` loop once the items before index `i` are overlaid. */
  function OverlayFrom(cfg: seq<Entry>, items: seq<ConfigItem>, diff: Json, i: nat): Result<seq<Entry>>
    requires i <= |items|
    decreases |items| - i
  {
    if i == |items| then Ok(cfg)
    else
      var next :- OverlayItem(cfg, items[i], diff);
      OverlayFrom(next, items, diff, i + 1)
  }

  /** An empty `config_diff` changes nothing. */
  lemma {:induction false} OverlayEmptyDiff(cfg: seq<Entry>, items: seq<ConfigItem>, i: nat)
    requires i <= |items|
    ensures OverlayFrom(cfg, items, Obj([]), i) == Ok(cfg)
    decreases |items| - i
  {
    if i < |items| {
      assert OverlayItem(cfg, items[i], Obj([])) == Ok(cfg);
      OverlayEmptyDiff(cfg, items, i + 1);
    }
  }

  /** The diff is a mapping without a top-level key `k`. */
  predicate TopAbsent(diff: Json, k: string) {
    diff.Obj? && !HasKey(diff.entries, k)
  }

  /** The diff's section `k` is a mapping without the subkey `sub` (a
      missing section reads as an empty one). */
  predicate SubAbsent(diff: Json, k: string, sub: string) {
    diff.Obj? && GetOr(diff.entries, k, Obj([])).Obj? && !HasKey(GetOr(diff.entries, k, Obj([])).entries, sub)
  }

  /** The configuration holds a dictionary under `k`. */
  predicate SectionIsDict(cfg: seq<Entry>, k: string) {
    Get(cfg, k).Some? && Get(cfg, k).value.Obj?
  }

  /** The value under `sub` in the section `k`. */
  function SubAt(cfg: seq<Entry>, k: string, sub: string): Option<Json>
    requires SectionIsDict(cfg, k)
  {
    Get(Get(cfg, k).value.entries, sub)
  }

  /** A key that no declared non-group item uses, or that only a top-level
      item the diff does not name uses, is never overwritten by the diff. */
  lemma {:induction false} OverlayKeepsUndeclared(cfg: seq<Entry>, items: seq<ConfigItem>, diff: Json, i: nat, k: string)
    requires i <= |items| && OverlayFrom(cfg, items, diff, i).Ok?
    requires forall j :: i <= j < |items| ==>
               IsGroup(items[j]) || items[j].name != k || (IsTopItem(items[j]) && TopAbsent(diff, k))
    ensures Get(OverlayFrom(cfg, items, diff, i).value, k) == Get(cfg, k)
    decreases |items| - i
  {
    if i < |items| {
      var next := OverlayItem(cfg, items[i], diff).value;
      assert Get(next, k) == Get(cfg, k);
      OverlayKeepsUndeclared(next, items, diff, i + 1, k);
    }
  }

  lemma {:induction false} OverlayTopFrom(cfg: seq<Entry>, items: seq<ConfigItem>, diff: Json, i: nat, j: nat)
    requires i <= j < |items| && IsTopItem(items[j])
    requires diff.Obj? && HasKey(diff.entries, items[j].name)
    requires forall m :: i <= m < |items| && m != j ==> IsGroup(items[m]) || items[m].name != items[j].name
    requires OverlayFrom(cfg, items, diff, i).Ok?
    ensures Get(OverlayFrom(cfg, items, diff, i).value, items[j].name) == Get(diff.entries, items[j].name)
    decreases j - i
  {
    var next := OverlayItem(cfg, items[i], diff).value;
    if i == j {
      OverlayKeepsUndeclared(next, items, diff, i + 1, items[j].name);
    } else {
      OverlayTopFrom(next, items, diff, i + 1, j);
    }
  }

  /** A sub-item's section may only be touched by that section's other sub-items. */
  predicate OnlySiblingsAfter(items: seq<ConfigItem>, i: nat, j: nat)
    requires i <= j < |items|
  {
    forall m :: i <= m < |items| && m != j && !IsGroup(items[m]) && items[m].name == items[j].name ==>
      IsSubItem(items[m]) && items[m].subname != items[j].subname
  }

  lemma {:induction false} OverlaySiblingsKeep(cfg: seq<Entry>, items: seq<ConfigItem>, diff: Json, i: nat, j: nat)
    requires j < i <= |items| && IsSubItem(items[j]) && OnlySiblingsAfter(items, j, j)
    requires OverlayFrom(cfg, items, diff, i).Ok?
    requires Get(cfg, items[j].name).Some? && Get(cfg, items[j].name).value.Obj?
    ensures var r := OverlayFrom(cfg, items, diff, i).value;
            Get(r, items[j].name).Some? && Get(r, items[j].name).value.Obj? &&
            Get(Get(r, items[j].name).value.entries, items[j].subname) ==
              Get(Get(cfg, items[j].name).value.entries, items[j].subname)
    decreases |items| - i
  {
    if i < |items| {
      var next := OverlayItem(cfg, items[i], diff).value;
      OverlaySiblingsKeep(next, items, diff, i + 1, j);
    }
  }

  lemma {:induction false} OverlaySubFrom(cfg: seq<Entry>, items: seq<ConfigItem>, diff: Json, i: nat, j: nat)
    requires i <= j < |items| && IsSubItem(items[j]) && OnlySiblingsAfter(items, i, j)
    requires diff.Obj? && GetOr(diff.entries, items[j].name, Obj([])).Obj?
    requires HasKey(GetOr(diff.entries, items[j].name, Obj([])).entries, items[j].subname)
    requires OverlayFrom(cfg, items, diff, i).Ok?
    ensures var r := OverlayFrom(cfg, items, diff, i).value;
            Get(r, items[j].name).Some? && Get(r, items[j].name).value.Obj? &&
            Get(Get(r, items[j].name).value.entries, items[j].subname) ==
              Get(GetOr(diff.entries, items[j].name, Obj([])).entries, items[j].subname)
    decreases j - i
  {
    var next := OverlayItem(cfg, items[i], diff).value;
    if i == j {
      OverlaySiblingsKeep(next, items, diff, i + 1, j);
    } else {
      OverlaySubFrom(next, items, diff, i + 1, j);
    }
  }

  /** A subkey of section `k` is never written when every item that could
      write into the section either has another subname or finds `sub`
      missing from the diff's section. */
  lemma {:induction false} OverlaySubKeep(cfg: seq<Entry>, items: seq<ConfigItem>, diff: Json, i: nat, k: string, sub: string)
    requires i <= |items| && OverlayFrom(cfg, items, diff, i).Ok?
    requires SectionIsDict(cfg, k)
    requires forall m :: i <= m < |items| && !IsGroup(items[m]) && items[m].name == k ==>
               IsSubItem(items[m]) && (items[m].subname != sub || SubAbsent(diff, k, sub))
    ensures SectionIsDict(OverlayFrom(cfg, items, diff, i).value, k)
    ensures SubAt(OverlayFrom(cfg, items, diff, i).value, k, sub) == SubAt(cfg, k, sub)
    decreases |items| - i
  {
    if i < |items| {
      OverlayFromStep(cfg, items, diff, i);
      var next := OverlayItem(cfg, items[i], diff).value;
      assert SectionIsDict(next, k) && SubAt(next, k, sub) == SubAt(cfg, k, sub);
      OverlaySubKeep(next, items, diff, i + 1, k, sub);
    }
  }

  /** For a well-formed item list the diff overrides exactly the declared
      non-group items it mentions: an item outside groups takes the diff's
      value under its name, a grouped item the diff's value under its name
      and subname, and a name no such item declares keeps its built value.
      Nothing else is written: an item outside groups that the diff does
      not name, and a grouped item whose subname the diff's section lacks,
      keep their values, and a subkey `sub` that no item of a group
      declares is left alone in that group. */
  lemma OverlayWellFormed(cfg: seq<Entry>, items: seq<ConfigItem>, diff: Json, j: nat, k: string, sub: string)
    requires WellFormed(items) && j < |items| && diff.Obj?
    requires OverlayFrom(cfg, items, diff, 0).Ok?
    ensures var r := OverlayFrom(cfg, items, diff, 0).value;
            (IsTopItem(items[j]) && HasKey(diff.entries, items[j].name) ==>
               Get(r, items[j].name) == Get(diff.entries, items[j].name)) &&
            (IsSubItem(items[j]) && GetOr(diff.entries, items[j].name, Obj([])).Obj? &&
             HasKey(GetOr(diff.entries, items[j].name, Obj([])).entries, items[j].subname) ==>
               Get(r, items[j].name).Some? && Get(r, items[j].name).value.Obj? &&
               Get(Get(r, items[j].name).value.entries, items[j].subname) ==
                 Get(GetOr(diff.entries, items[j].name, Obj([])).entries, items[j].subname)) &&
            ((forall m :: 0 <= m < |items| ==> IsGroup(items[m]) || items[m].name != k) ==>
               Get(r, k) == Get(cfg, k))
    ensures IsTopItem(items[j]) && TopAbsent(diff, items[j].name) ==>
              Get(OverlayFrom(cfg, items, diff, 0).value, items[j].name) == Get(cfg, items[j].name)
    ensures IsSubItem(items[j]) && SubAbsent(diff, items[j].name, items[j].subname) && SectionIsDict(cfg, items[j].name) ==>
              SectionIsDict(OverlayFrom(cfg, items, diff, 0).value, items[j].name) &&
              SubAt(OverlayFrom(cfg, items, diff, 0).value, items[j].name, items[j].subname) ==
                SubAt(cfg, items[j].name, items[j].subname)
    ensures IsGroup(items[j]) && SectionIsDict(cfg, items[j].name) &&
            (forall m :: 0 <= m < |items| && IsSubItem(items[m]) && items[m].name == items[j].name ==>
               items[m].subname != sub) ==>
              SectionIsDict(OverlayFrom(cfg, items, diff, 0).value, items[j].name) &&
              SubAt(OverlayFrom(cfg, items, diff, 0).value, items[j].name, sub) == SubAt(cfg, items[j].name, sub)
  {
    forall m | 0 <= m < |items| && m != j && !IsGroup(items[m]) && items[m].name == items[j].name
      ensures !IsGroup(items[j]) ==> IsSubItem(items[m]) && IsSubItem(items[j]) && items[m].subname != items[j].subname
      ensures IsGroup(items[j]) ==> IsSubItem(items[m])
    {
      if m < j {
        SameNameEarlier(items, m, j);
      } else {
        SameNameEarlier(items, j, m);
      }
    }
    if IsTopItem(items[j]) && HasKey(diff.entries, items[j].name) {
      OverlayTopFrom(cfg, items, diff, 0, j);
    }
    if IsTopItem(items[j]) && TopAbsent(diff, items[j].name) {
      OverlayKeepsUndeclared(cfg, items, diff, 0, items[j].name);
    }
    if IsSubItem(items[j]) && GetOr(diff.entries, items[j].name, Obj([])).Obj? &&
       HasKey(GetOr(diff.entries, items[j].name, Obj([])).entries, items[j].subname) {
      OverlaySubFrom(cfg, items, diff, 0, j);
    }
    if IsSubItem(items[j]) && SubAbsent(diff, items[j].name, items[j].subname) && SectionIsDict(cfg, items[j].name) {
      OverlaySubKeep(cfg, items, diff, 0, items[j].name, items[j].subname);
    }
    if IsGroup(items[j]) && SectionIsDict(cfg, items[j].name) &&
       (forall m :: 0 <= m < |items| && IsSubItem(items[m]) && items[m].name == items[j].name ==> items[m].subname != sub) {
      OverlaySubKeep(cfg, items, diff, 0, items[j].name, sub);
    }
    if forall m :: 0 <= m < |items| ==> IsGroup(items[m]) || items[m].name != k {
      OverlayKeepsUndeclared(cfg, items, diff, 0, k);
    }
  }

  /** In the configuration built from a well-formed list, the name of every
      group and of every grouped item holds a dictionary, so the frame of
      `OverlayWellFormed` applies to the configuration `run` overlays. */
  lemma BuiltSectionsAreDicts(items: seq<ConfigItem>, j: nat)
    requires WellFormed(items) && j < |items| && !IsTopItem(items[j])
    ensures ConfigFrom([], items, 0).Ok? && SectionIsDict(ConfigFrom([], items, 0).value, items[j].name)
  {
    BuildWellFormed(items);
    assert ItemHolds(ConfigFrom([], items, 0).value, items[j]);
  }

  /** The diff is a mapping whose section for every grouped item is a
      mapping too (a missing section reads as an empty one). */
  predicate DiffFits(items: seq<ConfigItem>, diff: Json) {
    diff.Obj? &&
    forall m :: 0 <= m < |items| && IsSubItem(items[m]) ==> GetOr(diff.entries, items[m].name, Obj([])).Obj?
  }

  lemma {:induction false} OverlaySucceedsFrom(cfg: seq<Entry>, items: seq<ConfigItem>, diff: Json, i: nat)
    requires WellFormed(items) && i <= |items| && DiffFits(items, diff)
    requires forall m :: i <= m < |items| && IsSubItem(items[m]) ==> SectionIsDict(cfg, items[m].name)
    ensures OverlayFrom(cfg, items, diff, i).Ok?
    decreases |items| - i
  {
    if i < |items| {
      OverlayFromStep(cfg, items, diff, i);
      assert OverlayItem(cfg, items[i], diff).Ok?;
      var next := OverlayItem(cfg, items[i], diff).value;
      forall m | i + 1 <= m < |items| && IsSubItem(items[m])
        ensures SectionIsDict(next, items[m].name)
      {
        if items[m].name == items[i].name {
          SameNameEarlier(items, i, m);
        }
      }
      OverlaySucceedsFrom(next, items, diff, i + 1);
    }
  }

  /** On a well-formed item list, a diff that is a mapping with a mapping
      for every group it reaches is always applied: the `config_diff` loop
      raises nothing. */
  lemma OverlaySucceeds(items: seq<ConfigItem>, diff: Json)
    requires WellFormed(items) && DiffFits(items, diff)
    ensures ConfigFrom([], items, 0).Ok?
    ensures OverlayFrom(ConfigFrom([], items, 0).value, items, diff, 0).Ok?
  {
    BuildWellFormed(items);
    forall m | 0 <= m < |items| && IsSubItem(items[m])
      ensures SectionIsDict(ConfigFrom([], items, 0).value, items[m].name)
    {
      BuiltSectionsAreDicts(items, m);
    }
    OverlaySucceedsFrom(ConfigFrom([], items, 0).value, items, diff, 0);
  }

  /** The `config` argument `run` adds when the caller gave none: built from
      the action's items (`None` when the action has no config loaded) and
      overlaid with `config_diff`, which is removed from the arguments. */
  function ConfigArgs(args: seq<Entry>, items: Option<seq<ConfigItem>>): (r: Result<seq<Entry>>)
    requires !HasKey(args, "config")
    ensures items.None? ==> r == Err(TypeError)
    ensures items.Some? && !HasKey(args, "config_diff") ==>
              (r.Ok? <==> ConfigFrom([], items.value, 0).Ok?) &&
              (r.Ok? ==> r.value == Set(args, "config", Obj(ConfigFrom([], items.value, 0).value))) &&
              (r.Err? ==> r.error == ConfigFrom([], items.value, 0).error)
    ensures items.Some? && HasKey(args, "config_diff") ==>
              (r.Ok? <==> ConfigFrom([], items.value, 0).Ok? &&
                          OverlayFrom(ConfigFrom([], items.value, 0).value, items.value, Get(args, "config_diff").value, 0).Ok?)
    ensures items.Some? && HasKey(args, "config_diff") && r.Ok? ==>
              ConfigFrom([], items.value, 0).Ok? &&
              OverlayFrom(ConfigFrom([], items.value, 0).value, items.value, Get(args, "config_diff").value, 0).Ok? &&
              Get(r.value, "config") ==
                Some(Obj(OverlayFrom(ConfigFrom([], items.value, 0).value, items.value, Get(args, "config_diff").value, 0).value))
    ensures r.Ok? ==> HasKey(r.value, "config") && !HasKey(r.value, "config_diff")
    ensures r.Ok? ==> forall k :: k != "config" && k != "config_diff" ==> Get(r.value, k) == Get(args, k)
    ensures r.Ok? && Unique(args) ==> Unique(r.value)
  {
    if items.None? then Err(TypeError)
    else
      var cfg :- ConfigFrom([], items.value, 0);
      if HasKey(args, "config_diff") then
        var overlaid :- OverlayFrom(cfg, items.value, Get(args, "config_diff").value, 0);
        Ok(Remove(Set(args, "config", Obj(overlaid)), "config_diff"))
      else
        assert Get(Set(args, "config", Obj(cfg)), "config_diff") == Get(args, "config_diff");
        Ok(Set(args, "config", Obj(cfg)))
  }

  /** The arguments `Action.run` sends to the run call. */
  function RunArgs(args: seq<Entry>, items: Option<seq<ConfigItem>>, server: Version): (r: Result<seq<Entry>>)
    ensures HasKey(args, "config") && HasKey(args, "config_diff") ==> r == Err(TypeError)
    ensures !HasKey(args, "config") && items.None? ==> r == Err(TypeError)
    ensures HasKey(args, "config") && !HasKey(args, "config_diff") ==>
              r.Ok? && forall k :: k != "verbose" ==> Get(r.value, k) == Get(args, k)
    ensures !HasKey(args, "config") && items.Some? ==>
              (r.Ok? ==> ConfigFrom([], items.value, 0).Ok?) &&
              (!HasKey(args, "config_diff") ==>
                 (r.Ok? <==> ConfigFrom([], items.value, 0).Ok?) &&
                 (r.Ok? ==> Get(r.value, "config") == Some(Obj(ConfigFrom([], items.value, 0).value))))
    ensures !HasKey(args, "config") && items.Some? && HasKey(args, "config_diff") ==>
              (r.Ok? <==> ConfigFrom([], items.value, 0).Ok? &&
                          OverlayFrom(ConfigFrom([], items.value, 0).value, items.value, Get(args, "config_diff").value, 0).Ok?) &&
              (r.Ok? ==> Get(r.value, "config") ==
                           Some(Obj(OverlayFrom(ConfigFrom([], items.value, 0).value, items.value,
                                                Get(args, "config_diff").value, 0).value)))
    ensures r.Ok? ==> forall k :: k != "config" && k != "config_diff" && k != "verbose" ==> Get(r.value, k) == Get(args, k)
    ensures r.Ok? ==> HasKey(r.value, "config") && !HasKey(r.value, "config_diff")
    ensures r.Ok? ==> (HasKey(r.value, "verbose") <==> !Older(server, Gates.VerboseSince))
    ensures r.Ok? && Unique(args) ==> Unique(r.value)
  {
    if HasKey(args, "config") && HasKey(args, "config_diff") then Err(TypeError)
    else
      var withConfig :- if HasKey(args, "config") then Ok(args) else ConfigArgs(args, items);
      var sent := Gates.VerboseArgs(withConfig, server);
      assert Get(sent, "config") == Get(withConfig, "config");
      assert Get(sent, "config_diff") == Get(withConfig, "config_diff");
      Ok(sent)
  }

  /** `run(config_diff=diff)` on an action with a well-formed item list
      and a fitting diff produces its arguments, with `config` the built
      configuration overlaid with the diff. */
  lemma RunWithDiffSucceeds(args: seq<Entry>, items: seq<ConfigItem>, server: Version)
    requires !HasKey(args, "config") && HasKey(args, "config_diff")
    requires WellFormed(items) && DiffFits(items, Get(args, "config_diff").value)
    ensures RunArgs(args, Some(items), server).Ok?
    ensures Get(RunArgs(args, Some(items), server).value, "config") ==
              Some(Obj(OverlayFrom(ConfigFrom([], items, 0).value, items, Get(args, "config_diff").value, 0).value))
  {
    OverlaySucceeds(items, Get(args, "config_diff").value);
  }

  /** One step of `OverlayFrom`. */
  lemma OverlayFromStep(cfg: seq<Entry>, items: seq<ConfigItem>, diff: Json, i: nat)
    requires i < |items|
    ensures OverlayItem(cfg, items[i], diff).Err? ==>
              OverlayFrom(cfg, items, diff, i) == Err(OverlayItem(cfg, items[i], diff).error)
    ensures OverlayItem(cfg, items[i], diff).Ok? ==>
              OverlayFrom(cfg, items, diff, i) == OverlayFrom(OverlayItem(cfg, items[i], diff).value, items, diff, i + 1)
  {
  }

  /** The `config_diff` loop of `Action.run`: every declared non-group item
      the diff mentions is written into the built configuration. */
  method ApplyDiff(built: seq<Entry>, items: seq<ConfigItem>, diff: Json) returns (r: Result<seq<Entry>>)
    ensures r == OverlayFrom(built, items, diff, 0)
  {
    var cfg := built;
    var i := 0;
    while i < |items|
      invariant 0 <= i <= |items|
      invariant OverlayFrom(cfg, items, diff, i) == OverlayFrom(built, items, diff, 0)
    {
      var item := items[i];
      OverlayFromStep(cfg, items, diff, i);
      var next := cfg;
      if item.kind != "group" {
        if item.subname != "" {
          if !diff.Obj? {
            return Err(AttributeError);
          }
          var section := GetOr(diff.entries, item.name, Obj([]));
          var present := PyIn(item.subname, section);
          if present.Err? {
            return Err(present.error);
          }
          if present.value {
            var v := PyIndex(section, item.subname);
            if v.Err? {
              return Err(v.error);
            }
            var written := SetSub(cfg, item.name, item.subname, v.value);
            if written.Err? {
              return Err(written.error);
            }
            next := written.value;
          }
        } else {
          var present := PyIn(item.name, diff);
          if present.Err? {
            return Err(present.error);
          }
          if present.value {
            var v := PyIndex(diff, item.name);
            if v.Err? {
              return Err(v.error);
            }
            next := Set(cfg, item.name, v.value);
          }
        }
      }
      assert OverlayItem(cfg, item, diff) == Ok(next);
      cfg := next;
      i := i + 1;
    }
    r := Ok(cfg);
  }

  /** The argument handling of `Action.run`, updating the keyword arguments
      in place as the source does. */
  method PrepareRunArgs(args: seq<Entry>, items: Option<seq<ConfigItem>>, server: Version)
    returns (r: Result<seq<Entry>>)
    ensures r == RunArgs(args, items, server)
  {
    if HasKey(args, "config") && HasKey(args, "config_diff") {
      return Err(TypeError);
    }
    var a := args;
    if !HasKey(a, "config") {
      if items.None? {
        return Err(TypeError);
      }
      var built := GetConfig(items.value);
      if built.Err? {
        return Err(built.error);
      }
      if HasKey(a, "config_diff") {
        var cfg := ApplyDiff(built.value, items.value, Get(a, "config_diff").value);
        if cfg.Err? {
          return Err(cfg.error);
        }
        a := Remove(Set(a, "config", Obj(cfg.value)), "config_diff");
      } else {
        a := Set(a, "config", Obj(built.value));
      }
    }
    if Compare(server, Gates.VerboseSince) >= 0 {
      if !HasKey(a, "verbose") {
        a := Set(a, "verbose", Bool(false));
      }
    } else if HasKey(a, "verbose") {
      a := Remove(a, "verbose");
    }
    r := Ok(a);
  }

  /** What the run call answers: the created task, or the transport's error
      document with its title (`""` when it has none) and data. */
  datatype RunReply = Created(task: Json) | Refused(title: string, data: seq<Entry>)

  /** The `except ErrorMessage` handler of `run`: a "409 Conflict" whose
      `desc` (default `""`) contains "has issues" becomes ActionHasIssues;
      anything else is re-raised unchanged, unless the `in` test itself
      raises. */
  function ClassifyRunError(title: string, data: seq<Entry>): (r: Error)
    ensures r == ActionHasIssues <==>
              title == "409 Conflict" && PyIn("has issues", GetOr(data, "desc", Str(""))) == Ok(true)
    ensures title != "409 Conflict" ==> r == ApiError(title, data)
    ensures title == "409 Conflict" && PyIn("has issues", GetOr(data, "desc", Str(""))) == Ok(false) ==>
              r == ApiError(title, data)
    ensures r != ActionHasIssues && r != ApiError(title, data) ==>
              title == "409 Conflict" && r == TypeError
  {
    if title != "409 Conflict" then ApiError(title, data)
    else
      match PyIn("has issues", GetOr(data, "desc", Str("")))
      case Ok(true) => ActionHasIssues
      case Ok(false) => ApiError(title, data)
      case Err(e) => e
  }

  /** A textual description classifies by substring; a missing one never
      means "has issues". */
  lemma ClassifyTextDescription(title: string, data: seq<Entry>)
    requires GetOr(data, "desc", Str("")).Str?
    ensures ClassifyRunError(title, data) == ActionHasIssues <==>
              title == "409 Conflict" && Text.Contains(GetOr(data, "desc", Str("")).s, "has issues")
    ensures ClassifyRunError(title, data) != ActionHasIssues ==> ClassifyRunError(title, data) == ApiError(title, data)
  {
  }

  /** `Action.run`: the arguments are prepared, sent, and the reply becomes
      the new task's id or an error. */
  function Run(args: seq<Entry>, items: Option<seq<ConfigItem>>, server: Version,
               reply: seq<Entry> -> RunReply): (r: Result<Json>)
    ensures RunArgs(args, items, server).Err? ==> r == Err(RunArgs(args, items, server).error)
    ensures RunArgs(args, items, server).Ok? && reply(RunArgs(args, items, server).value).Created? ==>
              r == PyIndex(reply(RunArgs(args, items, server).value).task, "id")
    ensures RunArgs(args, items, server).Ok? && reply(RunArgs(args, items, server).value).Refused? ==>
              r == Err(ClassifyRunError(reply(RunArgs(args, items, server).value).title,
                                        reply(RunArgs(args, items, server).value).data))
  {
    var sent :- RunArgs(args, items, server);
    match reply(sent)
    case Created(task) => PyIndex(task, "id")
    case Refused(title, data) => Err(ClassifyRunError(title, data))
  }
}
