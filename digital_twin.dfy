/** The catalyst digital twin of src/structure_creation/digital_twin.py: a staged record whose
    status is the furthest creation stage present among its computational parameters, with
    copy-on-branch setters for each stage.

    Materials Project documents, slabs and sites are plain values; slab generation from a
    bulk is the parameter `slabsFor`, and each fresh `uuid4()` is taken from `uuids`. */
module DigitalTwin {
  import opened Wrappers

  datatype TwinError =
    | TypeError
    | ValueError
    | KeyError(key: string)
    | IndexError
    | AssertionError
    | AttributeError(name: string)

  /** A slab: what the twin keeps of it is its shift and whether it is the top surface. */
  datatype Slab = Slab(shift: real, top: bool, slabName: string)

  /** The values stored under a stage key, in the parameters or the objects. */
  datatype Value =
    | Text(text: string)
    | Texts(texts: seq<string>)
    | Indices(indices: seq<int>)
    | Reals(reals: seq<real>)
    | Material(materialId: string)
    | ShiftTop(shift: real, top: bool)
    | SlabObject(slab: Slab)
    | Placement(surface: Value, site: seq<real>)
    | NoneValue

  /** An entry of `info`: a list or a dict. */
  datatype InfoEntry =
    | InfoList(items: seq<Value>)
    | InfoDict(fields: map<string, Value>)

  /** A setter's argument: one item (which Python wraps in a list) or a list of them. */
  datatype OneOrMany<T> = One(item: T) | Many(items: seq<T>)

  function Items<T>(arg: OneOrMany<T>): (r: seq<T>)
    ensures arg.One? ==> r == [arg.item]
    ensures arg.Many? ==> r == arg.items
  {
    if arg.One? then [arg.item] else arg.items
  }

  const AvailableStatuses: seq<string> := ["llm_answer", "symbols", "bulk", "millers", "surface", "site_placement"]

  // ------------------------------------------------------------------ status

  /** The index of the last of `statuses` present in `keys`. */
  function LastPresent(statuses: seq<string>, keys: set<string>): (r: Option<nat>)
    ensures r.Some? ==> r.value < |statuses| && statuses[r.value] in keys
                        && forall j :: r.value < j < |statuses| ==> statuses[j] !in keys
    ensures r.None? ==> forall j :: 0 <= j < |statuses| ==> statuses[j] !in keys
  {
    if statuses == [] then None
    else if statuses[|statuses| - 1] in keys then Some(|statuses| - 1)
    else LastPresent(statuses[..|statuses| - 1], keys)
  }

  /** The `status` property for a twin whose parameters have the keys `keys`. */
  function StatusOf(keys: set<string>): (r: Option<string>)
    ensures r.Some? ==> r.value in keys && r.value in AvailableStatuses
    ensures r.None? ==> forall s :: s in AvailableStatuses ==> s !in keys
  {
    var i := LastPresent(AvailableStatuses, keys);
    if i.None? then None else Some(AvailableStatuses[i.value])
  }

  /** The status is the furthest stage present, or None when no stage is present. */
  lemma StatusIsFurthestStage(keys: set<string>)
    ensures StatusOf(keys).None? <==> forall j :: 0 <= j < |AvailableStatuses| ==> AvailableStatuses[j] !in keys
    ensures StatusOf(keys).Some? ==>
              exists i :: 0 <= i < |AvailableStatuses| && StatusOf(keys).value == AvailableStatuses[i]
                && AvailableStatuses[i] in keys
                && forall j :: i < j < |AvailableStatuses| ==> AvailableStatuses[j] !in keys
  {
  }

  /** `completed` holds exactly when the last stage, "site_placement", is present. */
  lemma CompletedIff(keys: set<string>)
    ensures StatusOf(keys) == Some("site_placement") <==> "site_placement" in keys
  {
    if "site_placement" in keys {
      assert AvailableStatuses[5] in keys;
    }
  }

  /** Adding stage `i` never leaves the status at an earlier stage. */
  lemma SettingStageAdvancesStatus(keys: set<string>, i: nat)
    requires i < |AvailableStatuses|
    ensures var r := LastPresent(AvailableStatuses, keys + {AvailableStatuses[i]});
            r.Some? && r.value >= i
  {
  }

  // ------------------------------------------------------------------ update_info

  /** `update_info(key, updates)` on the info map: an absent key first stores `updates` and then
      applies it to itself; a type mismatch raises TypeError; a list is extended and a dict
      merged (the update's fields win). */
  function UpdatedInfo(info: map<string, InfoEntry>, key: string, updates: InfoEntry): (r: Result<map<string, InfoEntry>, TwinError>)
    ensures r.Err? ==> r.error == TypeError && key in info
    ensures r.Ok? ==> && r.value.Keys == info.Keys + {key}
                      && r.value[key].InfoList? == updates.InfoList?
                      && forall k :: k in info && k != key ==> r.value[k] == info[k]
  {
    var current := if key in info then info[key] else updates;
    if current.InfoList? != updates.InfoList? then Err(TypeError)
    else if current.InfoList? then Ok(info[key := InfoList(current.items + updates.items)])
    else Ok(info[key := InfoDict(current.fields + updates.fields)])
  }

  /** The type check: TypeError exactly when the key is present with the other kind of entry. */
  lemma UpdatedInfoTypeErrorIff(info: map<string, InfoEntry>, key: string, updates: InfoEntry)
    ensures UpdatedInfo(info, key, updates).Err? <==> key in info && info[key].InfoList? != updates.InfoList?
  {
  }

  /** Present entries: a list gains the updates at its end, a dict gets them merged in; no
      other key changes. */
  lemma UpdatedInfoPresent(info: map<string, InfoEntry>, key: string, updates: InfoEntry)
    requires key in info && info[key].InfoList? == updates.InfoList?
    ensures var r := UpdatedInfo(info, key, updates);
            && r.Ok? && r.value.Keys == info.Keys
            && (forall k :: k in info && k != key ==> r.value[k] == info[k])
            && (updates.InfoList? ==> r.value[key].items[..|info[key].items|] == info[key].items
                                      && r.value[key].items[|info[key].items|..] == updates.items)
            && (updates.InfoDict? ==> r.value[key].fields.Keys == info[key].fields.Keys + updates.fields.Keys
                                      && forall f :: f in updates.fields ==> r.value[key].fields[f] == updates.fields[f])
  {
  }

  /** An absent key: because the stored list is the update itself, it ends up concatenated with
      itself; a dict merged with itself is unchanged. */
  lemma UpdatedInfoAbsent(info: map<string, InfoEntry>, key: string, updates: InfoEntry)
    requires key !in info
    ensures var r := UpdatedInfo(info, key, updates);
            && r.Ok? && r.value.Keys == info.Keys + {key}
            && (updates.InfoList? ==> r.value[key] == InfoList(updates.items + updates.items))
            && (updates.InfoDict? ==> r.value[key] == updates)
  {
  }

  // ------------------------------------------------------------------ Miller indices

  /** `convert_miller_bravais_to_miller(hkil)`: drop `i`, after checking there are four
      indices and `i == -(h + k)`. */
  function ConvertMillerBravaisToMiller(hkil: seq<int>): (r: Result<seq<int>, TwinError>)
    ensures r.Ok? <==> |hkil| == 4 && hkil[2] == -(hkil[0] + hkil[1])
    ensures r.Err? ==> r.error == AssertionError
    ensures r.Ok? ==> |r.value| == 3 && MillerToMillerBravais(r.value) == hkil
  {
    if |hkil| != 4 then Err(AssertionError)
    else if hkil[2] != -(hkil[0] + hkil[1]) then Err(AssertionError)
    else Ok([hkil[0], hkil[1], hkil[3]])
  }

  /** The inverse transformation hkl -> hkil. */
  function MillerToMillerBravais(hkl: seq<int>): (r: seq<int>)
    requires |hkl| == 3
  {
    [hkl[0], hkl[1], -(hkl[0] + hkl[1]), hkl[2]]
  }

  /** The conversion succeeds exactly on the images of the inverse, and undoes it. */
  lemma MillerBravaisRoundTrip(hkil: seq<int>, hkl: seq<int>)
    requires |hkl| == 3
    ensures ConvertMillerBravaisToMiller(hkil) == Ok(hkl) <==> hkil == MillerToMillerBravais(hkl)
  {
    if ConvertMillerBravaisToMiller(hkil) == Ok(hkl) {
      assert hkil == [hkil[0], hkil[1], hkil[2], hkil[3]];
    }
    if hkil == MillerToMillerBravais(hkl) {
      assert hkl == [hkl[0], hkl[1], hkl[2]];
    }
  }

  /** The indices `set_millers` stores: three indices as given, anything else converted. */
  function NormalizedMiller(m: seq<int>): Result<seq<int>, TwinError> {
    if |m| != 3 then ConvertMillerBravaisToMiller(m) else Ok(m)
  }

  /** Stored Miller indices always have three entries, and four-index input is accepted
      exactly when it is a valid Miller-Bravais triple. */
  lemma NormalizedMillerCases(m: seq<int>)
    ensures NormalizedMiller(m).Ok? ==> |NormalizedMiller(m).value| == 3
    ensures |m| != 3 ==> (NormalizedMiller(m).Ok? <==> |m| == 4 && m[2] == -(m[0] + m[1]))
  {
  }

  // ------------------------------------------------------------------ the twin

  /** The first of `ms` that does not normalise, if any. */
  function FirstBadMiller(ms: seq<seq<int>>): (k: nat)
    ensures k <= |ms|
    ensures forall j :: 0 <= j < k ==> NormalizedMiller(ms[j]).Ok?
    ensures k < |ms| ==> NormalizedMiller(ms[k]).Err?
  {
    if ms == [] then 0
    else if NormalizedMiller(ms[0]).Err? then 0
    else 1 + FirstBadMiller(ms[1..])
  }

  class CatalystDigitalTwin {
    var objects: map<string, Value>
    var params: map<string, Value>
    var info: map<string, InfoEntry>
    var id: Option<string>
    var childrenIds: seq<string>
    var canceled: bool
    var reward: Option<real>

    /** `CatalystDigitalTwin(...)`: a fresh id is drawn only when none is given; a given id
        is never stored. */
    constructor (objects: map<string, Value>, params: map<string, Value>, info: map<string, InfoEntry>,
                 givenId: Option<string>, uuid: string, childrenIds: seq<string>, canceled: bool, reward: Option<real>)
      ensures this.objects == objects && this.params == params && this.info == info
      ensures this.id == (if givenId.None? then Some(uuid) else None)
      ensures this.childrenIds == childrenIds && this.canceled == canceled && this.reward == reward
    {
      this.objects := objects;
      this.params := params;
      this.info := info;
      if givenId.None? {
        this.id := Some(uuid);
      } else {
        this.id := None;
      }
      this.childrenIds := childrenIds;
      this.canceled := canceled;
      this.reward := reward;
    }

    function Status(): Option<string>
      reads this
    {
      StatusOf(params.Keys)
    }

    function Completed(): bool
      reads this
    {
      Status() == Some(AvailableStatuses[|AvailableStatuses| - 1])
    }

    /** A branch of this twin: the given parameters and objects, no info, a fresh id, no
        children, not canceled, no reward. */
    ghost predicate IsBranch(c: CatalystDigitalTwin, params: map<string, Value>, objects: map<string, Value>, uuid: string)
      reads c
    {
      && c.params == params && c.objects == objects && c.info == map[]
      && c.id == Some(uuid) && c.childrenIds == [] && !c.canceled && c.reward == None
    }

    /** `update_info(status_key, updates)`. */
    method UpdateInfo(key: string, updates: InfoEntry) returns (err: Option<TwinError>)
      modifies this
      ensures UpdatedInfo(old(info), key, updates).Err? ==> err == Some(TypeError) && info == old(info)
      ensures UpdatedInfo(old(info), key, updates).Ok? ==> err == None && info == UpdatedInfo(old(info), key, updates).value
      ensures params == old(params) && objects == old(objects) && id == old(id)
      ensures childrenIds == old(childrenIds) && canceled == old(canceled) && reward == old(reward)
    {
      if key !in info {
        info := info[key := updates];
      }
      var current := info[key];
      if current.InfoList? != updates.InfoList? {
        return Some(TypeError);
      } else if current.InfoList? {
        info := info[key := InfoList(current.items + updates.items)];
      } else {
        info := info[key := InfoDict(current.fields + updates.fields)];
      }
      return None;
    }

    /** `copy(copy_info)`: parameters and objects carried over, everything else fresh. */
    method Copy(copyInfo: bool, uuid: string) returns (c: CatalystDigitalTwin)
      ensures fresh(c)
      ensures c.params == params && c.objects == objects && c.info == (if copyInfo then info else map[])
      ensures c.id == Some(uuid) && c.childrenIds == [] && !c.canceled && c.reward == None
    {
      c := new CatalystDigitalTwin(objects, params, if copyInfo then info else map[], None, uuid, [], false, None);
    }

    /** What `set_answers` and `set_symbols` share: the first value is written into this twin
        under `key`, and each further value goes into a copy made from this twin. */
    method SetFirstAndBranch(key: string, values: seq<Value>, uuids: seq<string>) returns (copies: seq<CatalystDigitalTwin>)
      requires |uuids| >= |values|
      modifies this
      decreases |values|
      ensures |values| == 0 ==> params == old(params) && objects == old(objects)
      ensures |values| > 0 ==> params == old(params)[key := values[0]] && objects == old(objects)[key := values[0]]
      ensures info == old(info) && id == old(id) && childrenIds == old(childrenIds)
      ensures canceled == old(canceled) && reward == old(reward)
      ensures |copies| == if |values| == 0 then 0 else |values| - 1
      ensures forall k :: 0 <= k < |copies| ==>
                fresh(copies[k]) && IsBranch(copies[k], old(params)[key := values[k + 1]], old(objects)[key := values[k + 1]], uuids[k + 1])
    {
      copies := [];
      var i := 0;
      while i < |values|
        invariant 0 <= i <= |values|
        invariant i == 0 ==> params == old(params) && objects == old(objects)
        invariant i > 0 ==> params == old(params)[key := values[0]] && objects == old(objects)[key := values[0]]
        invariant info == old(info) && id == old(id) && childrenIds == old(childrenIds)
        invariant canceled == old(canceled) && reward == old(reward)
        invariant |copies| == if i == 0 then 0 else i - 1
        invariant forall k :: 0 <= k < |copies| ==>
                    fresh(copies[k]) && IsBranch(copies[k], old(params)[key := values[k + 1]], old(objects)[key := values[k + 1]], uuids[k + 1])
      {
        if i == 0 {
          params := params[key := values[0]];
          objects := objects[key := values[0]];
        } else {
          var cpy := Copy(false, uuids[i]);
          var _ := cpy.SetFirstAndBranch(key, [values[i]], [uuids[i]]);
          copies := copies + [cpy];
        }
        i := i + 1;
      }
    }

    /** `set_answers(answers)`. */
    method SetAnswers(answers: OneOrMany<string>, uuids: seq<string>) returns (copies: seq<CatalystDigitalTwin>)
      requires |uuids| >= |Items(answers)|
      modifies this
      ensures var xs := Items(answers);
              && (|xs| > 0 ==> params == old(params)["llm_answer" := Text(xs[0])]
                               && objects == old(objects)["llm_answer" := Text(xs[0])])
              && (|xs| == 0 ==> params == old(params) && objects == old(objects))
              && |copies| == (if |xs| == 0 then 0 else |xs| - 1)
              && forall k :: 0 <= k < |copies| ==>
                   fresh(copies[k]) && IsBranch(copies[k], old(params)["llm_answer" := Text(xs[k + 1])],
                                                old(objects)["llm_answer" := Text(xs[k + 1])], uuids[k + 1])
      ensures info == old(info) && id == old(id)
      ensures childrenIds == old(childrenIds) && canceled == old(canceled) && reward == old(reward)
    {
      var xs := Items(answers);
      var values := seq(|xs|, k requires 0 <= k < |xs| => Text(xs[k]));
      copies := SetFirstAndBranch("llm_answer", values, uuids);
    }

    /** `set_symbols(symbols)`: a flat list of symbols is one answer; an empty list fails on
        `symbols[0]`. */
    method SetSymbols(symbols: OneOrMany<seq<string>>, uuids: seq<string>) returns (r: Result<seq<CatalystDigitalTwin>, TwinError>)
      requires |uuids| >= |Items(symbols)|
      modifies this
      ensures (symbols.One? && symbols.item == []) || symbols == Many([]) ==>
                r == Err(IndexError) && params == old(params) && objects == old(objects)
      ensures var xs := Items(symbols);
              r.Ok? ==> && |xs| > 0
                        && params == old(params)["symbols" := Texts(xs[0])]
                        && objects == old(objects)["symbols" := Texts(xs[0])]
                        && |r.value| == |xs| - 1
                        && forall k :: 0 <= k < |r.value| ==>
                             fresh(r.value[k]) && IsBranch(r.value[k], old(params)["symbols" := Texts(xs[k + 1])],
                                                           old(objects)["symbols" := Texts(xs[k + 1])], uuids[k + 1])
      ensures r.Ok? || r == Err(IndexError)
      ensures !((symbols.One? && symbols.item == []) || symbols == Many([])) ==> r.Ok?
      ensures info == old(info) && id == old(id)
      ensures childrenIds == old(childrenIds) && canceled == old(canceled) && reward == old(reward)
    {
      if (symbols.One? && symbols.item == []) || symbols == Many([]) {
        return Err(IndexError);
      }
      var xs := Items(symbols);
      var values := seq(|xs|, k requires 0 <= k < |xs| => Texts(xs[k]));
      var copies := SetFirstAndBranch("symbols", values, uuids);
      return Ok(copies);
    }

    /** `set_bulk(bulks)`: one copy per Materials Project document; this twin is unchanged. */
    method SetBulk(materialIds: seq<string>, uuids: seq<string>) returns (copies: seq<CatalystDigitalTwin>)
      requires |uuids| >= |materialIds|
      ensures |copies| == |materialIds|
      ensures forall k :: 0 <= k < |copies| ==>
                fresh(copies[k]) && IsBranch(copies[k], params["bulk" := Text(materialIds[k])],
                                             objects["bulk" := Material(materialIds[k])], uuids[k])
    {
      copies := [];
      var i := 0;
      while i < |materialIds|
        invariant 0 <= i <= |materialIds| && |copies| == i
        invariant forall k :: 0 <= k < i ==>
                    fresh(copies[k]) && IsBranch(copies[k], params["bulk" := Text(materialIds[k])],
                                                 objects["bulk" := Material(materialIds[k])], uuids[k])
      {
        var cpy := Copy(false, uuids[i]);
        cpy.params := cpy.params["bulk" := Text(materialIds[i])];
        cpy.objects := cpy.objects["bulk" := Material(materialIds[i])];
        copies := copies + [cpy];
        i := i + 1;
      }
    }

    /** `set_millers(millers)`: one copy per index list, with four-index input converted and
        the slabs of the copy's bulk as its object; a bad index list or a missing bulk fails. */
    method SetMillers(millers: OneOrMany<seq<int>>, slabsFor: (seq<int>, Value) -> Value, uuids: seq<string>)
      returns (r: Result<seq<CatalystDigitalTwin>, TwinError>)
      requires |uuids| >= |Items(millers)|
      ensures var ms := Items(millers);
              var bad := FirstBadMiller(ms);
              && (r.Ok? <==> bad == |ms| && (|ms| == 0 || "bulk" in objects))
              && (bad < |ms| && (bad == 0 || "bulk" in objects) ==> r == Err(AssertionError))
              && (0 < |ms| && "bulk" !in objects && bad > 0 ==> r == Err(KeyError("bulk")))
              && (r.Ok? ==> |r.value| == |ms|
                            && forall k :: 0 <= k < |ms| ==>
                                 fresh(r.value[k])
                                 && IsBranch(r.value[k],
                                             params["millers" := Indices(NormalizedMiller(ms[k]).value)],
                                             objects["millers" := slabsFor(NormalizedMiller(ms[k]).value, objects["bulk"])],
                                             uuids[k]))
    {
      var ms := Items(millers);
      var copies: seq<CatalystDigitalTwin> := [];
      var i := 0;
      while i < |ms|
        invariant 0 <= i <= |ms| && |copies| == i
        invariant forall j :: 0 <= j < i ==> NormalizedMiller(ms[j]).Ok?
        invariant i > 0 ==> "bulk" in objects
        invariant forall k :: 0 <= k < i ==>
                    fresh(copies[k])
                    && IsBranch(copies[k],
                                params["millers" := Indices(NormalizedMiller(ms[k]).value)],
                                objects["millers" := slabsFor(NormalizedMiller(ms[k]).value, objects["bulk"])],
                                uuids[k])
      {
        var b := MillerBranch(ms[i], slabsFor, uuids[i]);
        if b.Err? {
          return Err(b.error);
        }
        copies := copies + [b.value];
        i := i + 1;
      }
      return Ok(copies);
    }

    /** One pass of the loop of `set_millers`: normalise `m`, copy this twin and store the
        indices and the slabs cut from the bulk in the copy. */
    method MillerBranch(m: seq<int>, slabsFor: (seq<int>, Value) -> Value, uuid: string)
      returns (r: Result<CatalystDigitalTwin, TwinError>)
      ensures NormalizedMiller(m).Err? ==> r == Err(AssertionError)
      ensures NormalizedMiller(m).Ok? && "bulk" !in objects ==> r == Err(KeyError("bulk"))
      ensures NormalizedMiller(m).Ok? && "bulk" in objects ==>
                r.Ok? && fresh(r.value)
                && IsBranch(r.value, params["millers" := Indices(NormalizedMiller(m).value)],
                            objects["millers" := slabsFor(NormalizedMiller(m).value, objects["bulk"])], uuid)
    {
      var m' := m;
      if |m| != 3 {
        var converted := ConvertMillerBravaisToMiller(m);
        if converted.Err? {
          return Err(converted.error);
        }
        m' := converted.value;
      }
      var cpy := Copy(false, uuid);
      cpy.params := cpy.params["millers" := Indices(m')];
      if "bulk" !in cpy.objects {
        return Err(KeyError("bulk"));
      }
      cpy.objects := cpy.objects["millers" := slabsFor(m', cpy.objects["bulk"])];
      return Ok(cpy);
    }

    /** `set_surfaces(surfaces)`: one copy per slab, keyed by its (shift, top); this twin is unchanged. */
    method SetSurfaces(surfaces: OneOrMany<Slab>, uuids: seq<string>) returns (copies: seq<CatalystDigitalTwin>)
      requires |uuids| >= |Items(surfaces)|
      ensures var ss := Items(surfaces);
              && |copies| == |ss|
              && forall k :: 0 <= k < |copies| ==>
                   fresh(copies[k]) && IsBranch(copies[k], params["surface" := ShiftTop(ss[k].shift, ss[k].top)],
                                                objects["surface" := SlabObject(ss[k])], uuids[k])
    {
      var ss := Items(surfaces);
      copies := [];
      var i := 0;
      while i < |ss|
        invariant 0 <= i <= |ss| && |copies| == i
        invariant forall k :: 0 <= k < i ==>
                    fresh(copies[k]) && IsBranch(copies[k], params["surface" := ShiftTop(ss[k].shift, ss[k].top)],
                                                 objects["surface" := SlabObject(ss[k])], uuids[k])
      {
        var s := ss[i];
        var cpy := Copy(false, uuids[i]);
        cpy.params := cpy.params["surface" := ShiftTop(s.shift, s.top)];
        cpy.objects := cpy.objects["surface" := SlabObject(s)];
        copies := copies + [cpy];
        i := i + 1;
      }
    }

    /** `set_site_placements(binding_sites)`: one copy per site, placing it on the twin's
        surface; every copy is completed. Without a surface the first site fails. */
    method SetSitePlacements(sites: OneOrMany<seq<real>>, uuids: seq<string>)
      returns (r: Result<seq<CatalystDigitalTwin>, TwinError>)
      requires |uuids| >= |Items(sites)|
      ensures var ss := Items(sites);
              && (r.Err? <==> |ss| > 0 && "surface" !in objects)
              && (r.Err? ==> r.error == KeyError("surface"))
              && (r.Ok? ==> |r.value| == |ss|
                            && forall k :: 0 <= k < |ss| ==>
                                 fresh(r.value[k])
                                 && IsBranch(r.value[k], params["site_placement" := Reals(ss[k])],
                                             objects["site_placement" := Placement(objects["surface"], ss[k])], uuids[k])
                                 && r.value[k].Completed())
    {
      var ss := Items(sites);
      var copies: seq<CatalystDigitalTwin> := [];
      var i := 0;
      while i < |ss|
        invariant 0 <= i <= |ss| && |copies| == i
        invariant i > 0 ==> "surface" in objects
        invariant forall k :: 0 <= k < i ==>
                    fresh(copies[k])
                    && IsBranch(copies[k], params["site_placement" := Reals(ss[k])],
                                objects["site_placement" := Placement(objects["surface"], ss[k])], uuids[k])
                    && copies[k].Completed()
      {
        var site := ss[i];
        var cpy := Copy(false, uuids[i]);
        cpy.params := cpy.params["site_placement" := Reals(site)];
        if "surface" !in cpy.objects {
          return Err(KeyError("surface"));
        }
        cpy.objects := cpy.objects["site_placement" := Placement(cpy.objects["surface"], site)];
        CompletedIff(cpy.params.Keys);
        copies := copies + [cpy];
        i := i + 1;
      }
      return Ok(copies);
    }

    /** `return_row()` as written: an incomplete twin raises ValueError, and a completed one
        reaches `self._parent_twin_id`, which is never assigned. */
    function ReturnRow(): (r: Result<map<string, Value>, TwinError>)
      reads this
      ensures r.Err?
      ensures r.error.AttributeError? ==> Completed()
    {
      if !Completed() then Err(ValueError)
      else if id.None? then Err(AttributeError("_id"))
      else Err(AttributeError("_parent_twin_id"))
    }

    /** As written, `return_row` never returns a row. */
    lemma ReturnRowNeverSucceeds()
      ensures ReturnRow().Err?
      ensures ReturnRow() == Err(ValueError) <==> "site_placement" !in params
    {
      CompletedIff(params.Keys);
    }

    /** The evidently intended `return_row`: the parameters plus the twin's id and a parent id
        (None, as no parent is ever recorded). */
    function ReturnRowCorrected(): (r: Result<map<string, Value>, TwinError>)
      reads this
      ensures r.Ok? <==> Completed() && id.Some?
      ensures r.Ok? ==> && "id" in r.value && r.value["id"] == Text(id.value)
                        && "parent_twin_id" in r.value && r.value["parent_twin_id"] == NoneValue
    {
      if !Completed() then Err(ValueError)
      else if id.None? then Err(AttributeError("_id"))
      else Ok(params["id" := Text(id.value)]["parent_twin_id" := NoneValue])
    }

    /** The corrected row exists exactly for completed twins with an id, carries that id and
        every other parameter unchanged. */
    lemma ReturnRowCorrectedContents()
      ensures ReturnRowCorrected().Ok? <==> "site_placement" in params && id.Some?
      ensures ReturnRowCorrected().Ok? ==>
                var row := ReturnRowCorrected().value;
                && row.Keys == params.Keys + {"id", "parent_twin_id"}
                && row["id"] == Text(id.value)
                && forall k :: k in params && k != "id" && k != "parent_twin_id" ==> row[k] == params[k]
    {
      CompletedIff(params.Keys);
    }
  }
}
