/** `_clean_json` and `_clean_list` of src/scripts/process_trees.py: strip the diagnostic keys
    of a saved search tree at every depth, and turn numpy arrays into plain lists.

    A JSON-like value is a `Json`; a Python dict is a sequence of entries in insertion order
    with distinct keys, and a numpy array is an `Array` of its elements. `list(v)` on an array
    is shallow: it lists the array's elements as they are, so the array branch of the source
    leaves nested arrays, and any dict inside an array, untouched. `Clean(v, false)` is the
    code as written; `Clean(v, true)` also cleans the elements of an array, which is what
    makes cleaning idempotent. */
module ProcessTrees {
  datatype Json =
    | Null
    | Bool(b: bool)
    | Num(n: int)
    | Str(s: string)
    | Array(elems: seq<Json>)
    | List(items: seq<Json>)
    | Dict(entries: seq<Entry>)

  datatype Entry = Entry(key: string, value: Json)

  /** The keys `_clean_json` deletes. */
  const DroppedKeys: seq<string> := ["embeddings", "embedding_model", "reward_adjustment_value",
                                      "reward_adjusted_similarities", "similarities", "reward"]

  predicate Dropped(k: string) {
    k in DroppedKeys
  }

  function Keys(entries: seq<Entry>): (r: seq<string>)
    ensures |r| == |entries| && forall i :: 0 <= i < |entries| ==> r[i] == entries[i].key
  {
    seq(|entries|, i requires 0 <= i < |entries| => entries[i].key)
  }

  predicate DistinctKeys(entries: seq<Entry>) {
    forall i, j :: 0 <= i < j < |entries| ==> entries[i].key != entries[j].key
  }

  /** Every dict at every depth has distinct keys, as a Python dict does. */
  predicate WellFormed(v: Json)
    decreases v
  {
    match v
    case Array(elems) => forall i :: 0 <= i < |elems| ==> WellFormed(elems[i])
    case List(items) => forall i :: 0 <= i < |items| ==> WellFormed(items[i])
    case Dict(entries) => DistinctKeys(entries) && forall i :: 0 <= i < |entries| ==> WellFormed(entries[i].value)
    case _ => true
  }

  // ------------------------------------------------------------------ the cleaned value

  /** The value `_clean_json`/`_clean_list` put in place of `v`. With `deep` false an array
      becomes the plain list of its elements, as `list(v)` does; with `deep` true those
      elements are cleaned too. */
  function Clean(v: Json, deep: bool): Json
    decreases v
  {
    match v
    case Array(elems) => if deep then List(CleanItems(elems, deep)) else List(elems)
    case List(items) => List(CleanItems(items, deep))
    case Dict(entries) => Dict(CleanEntries(entries, deep))
    case _ => v
  }

  /** The list `_clean_list(items)` returns: same length, element i cleaned in place. */
  function CleanItems(items: seq<Json>, deep: bool): (r: seq<Json>)
    ensures |r| == |items| && forall i :: 0 <= i < |items| ==> r[i] == Clean(items[i], deep)
    decreases items
  {
    seq(|items|, i requires 0 <= i < |items| => Clean(items[i], deep))
  }

  /** The dict `_clean_json(entries)` returns: each entry with a dropped key deleted, every
      other value cleaned where it stands. */
  function CleanEntries(entries: seq<Entry>, deep: bool): seq<Entry>
    decreases entries
  {
    if entries == [] then []
    else
      var rest := CleanEntries(entries[..|entries| - 1], deep);
      var last := entries[|entries| - 1];
      if Dropped(last.key) then rest else rest + [Entry(last.key, Clean(last.value, deep))]
  }

  /** The keys that are not dropped, in their order. */
  function Retained(keys: seq<string>): (r: seq<string>)
    ensures forall k :: k in r <==> k in keys && !Dropped(k)
  {
    if keys == [] then []
    else
      var rest := Retained(keys[..|keys| - 1]);
      var last := keys[|keys| - 1];
      assert keys == keys[..|keys| - 1] + [last];
      if Dropped(last) then rest else rest + [last]
  }

  /** The cleaned dict has exactly the keys that are not dropped, in the same order. */
  lemma {:induction false} CleanedKeys(entries: seq<Entry>, deep: bool)
    ensures Keys(CleanEntries(entries, deep)) == Retained(Keys(entries))
    decreases entries
  {
    if entries != [] {
      var init := entries[..|entries| - 1];
      CleanedKeys(init, deep);
      assert Keys(entries)[..|entries| - 1] == Keys(init);
    }
  }

  /** Every key that is not dropped keeps its value, cleaned. */
  lemma {:induction false} CleanedValues(entries: seq<Entry>, deep: bool, i: nat)
    requires i < |entries| && !Dropped(entries[i].key)
    ensures Entry(entries[i].key, Clean(entries[i].value, deep)) in CleanEntries(entries, deep)
    decreases entries
  {
    if i < |entries| - 1 {
      CleanedValues(entries[..|entries| - 1], deep, i);
    }
  }

  // ------------------------------------------------------------------ the loops as written

  /** `del d[k]` on a dict holding `k`. */
  function Delete(d: seq<Entry>, k: string): (r: seq<Entry>)
    requires k in Keys(d)
    ensures |r| == |d| - 1
  {
    if d[0].key == k then d[1..] else [d[0]] + Delete(d[1..], k)
  }

  /** `d[k] = w`: an existing key keeps its place, a new one goes last. */
  function Assign(d: seq<Entry>, k: string, w: Json): (r: seq<Entry>)
    ensures k in Keys(d) ==> |r| == |d|
    ensures k !in Keys(d) ==> r == d + [Entry(k, w)]
  {
    if d == [] then [Entry(k, w)]
    else if d[0].key == k then [Entry(k, w)] + d[1..]
    else [d[0]] + Assign(d[1..], k, w)
  }

  /** Deleting a key removes the one entry that holds it and nothing else. */
  lemma {:induction false} DeleteAt(a: seq<Entry>, e: Entry, b: seq<Entry>)
    requires e.key !in Keys(a)
    ensures e.key in Keys(a + [e] + b)
    ensures Delete(a + [e] + b, e.key) == a + b
    decreases a
  {
    var d := a + [e] + b;
    assert Keys(d)[|a|] == e.key;
    if a == [] {
      assert d == [e] + b;
    } else {
      Split3(a, e, b);
      NotInTail(a, e.key);
      DeleteAt(a[1..], e, b);
      HeadThenRest(a, b);
    }
  }

  /** Assigning to a held key replaces its value where it stands and nothing else. */
  lemma {:induction false} AssignAt(a: seq<Entry>, e: Entry, b: seq<Entry>, w: Json)
    requires e.key !in Keys(a)
    ensures Assign(a + [e] + b, e.key, w) == a + [Entry(e.key, w)] + b
    decreases a
  {
    if a == [] {
      assert a + [e] + b == [e] + b;
    } else {
      Split3(a, e, b);
      NotInTail(a, e.key);
      AssignAt(a[1..], e, b, w);
      HeadThenRest(a, [Entry(e.key, w)] + b);
    }
  }

  lemma Split3<T>(a: seq<T>, e: T, b: seq<T>)
    requires a != []
    ensures (a + [e] + b)[0] == a[0] && (a + [e] + b)[1..] == a[1..] + [e] + b
  {
  }

  lemma HeadThenRest<T>(a: seq<T>, b: seq<T>)
    requires a != []
    ensures a + b == [a[0]] + (a[1..] + b)
  {
    assert a == [a[0]] + a[1..];
  }

  lemma NotInTail(a: seq<Entry>, k: string)
    requires a != [] && k !in Keys(a)
    ensures a[0].key != k && k !in Keys(a[1..])
  {
    assert Keys(a)[0] == a[0].key;
    forall i | 0 <= i < |a| - 1 ensures Keys(a[1..])[i] == Keys(a)[i + 1] { }
  }

  /** A key the dict lacks is not in its cleaned form either. */
  lemma CleanedKeysFrom(entries: seq<Entry>, deep: bool, k: string)
    requires k !in Keys(entries)
    ensures k !in Keys(CleanEntries(entries, deep))
  {
    CleanedKeys(entries, deep);
  }

  /** `_clean_list(data)`: overwrite each position of a copy with its cleaned value. */
  method CleanList(data: seq<Json>) returns (r: seq<Json>)
    requires WellFormed(List(data))
    ensures r == CleanItems(data, false)
    decreases data
  {
    var newData := data;
    for i := 0 to |data|
      invariant |newData| == |data|
      invariant forall j :: 0 <= j < i ==> newData[j] == Clean(data[j], false)
      invariant forall j :: i <= j < |data| ==> newData[j] == data[j]
    {
      var v := data[i];
      if v.Array? {
        newData := newData[i := List(v.elems)];
      } else if v.Dict? {
        var c := CleanJson(v.entries);
        newData := newData[i := Dict(c)];
      } else if v.List? {
        var c := CleanList(v.items);
        newData := newData[i := List(c)];
      } else {
        newData := newData[i := v];
      }
    }
    return newData;
  }

  /** `_clean_json(data)`: delete the dropped keys from a copy and overwrite the others with
      their cleaned values. */
  method CleanJson(data: seq<Entry>) returns (r: seq<Entry>)
    requires WellFormed(Dict(data))
    ensures r == CleanEntries(data, false)
    decreases data
  {
    var newData := data;
    for i := 0 to |data|
      invariant newData == CleanEntries(data[..i], false) + data[i..]
    {
      var k, v := data[i].key, data[i].value;
      var w: Json;
      if Dropped(k) {
        CleanStep(data, i, v);
        newData := Delete(newData, k);
        continue;
      } else if v.Array? {
        w := List(v.elems);
      } else if v.Dict? {
        var c := CleanJson(v.entries);
        w := Dict(c);
      } else if v.List? {
        var c := CleanList(v.items);
        w := List(c);
      } else {
        w := v;
      }
      CleanStep(data, i, w);
      newData := Assign(newData, k, w);
    }
    assert data[..|data|] == data;
    return newData;
  }

  /** One pass of the loop of `_clean_json`: with the first `i` entries cleaned and the rest
      as they were, deleting or overwriting entry `i` cleans the first `i + 1`. */
  lemma CleanStep(data: seq<Entry>, i: nat, w: Json)
    requires i < |data| && DistinctKeys(data)
    requires !Dropped(data[i].key) ==> w == Clean(data[i].value, false)
    ensures var k, newData := data[i].key, CleanEntries(data[..i], false) + data[i..];
            && k in Keys(newData)
            && (Dropped(k) ==> Delete(newData, k) == CleanEntries(data[..i + 1], false) + data[i + 1..])
            && (!Dropped(k) ==> Assign(newData, k, w) == CleanEntries(data[..i + 1], false) + data[i + 1..])
  {
    var k := data[i].key;
    var done := CleanEntries(data[..i], false);
    assert data[i..] == [data[i]] + data[i + 1..];
    assert k !in Keys(data[..i]) by {
      forall j | 0 <= j < i ensures Keys(data[..i])[j] != k {
        assert data[..i][j] == data[j];
      }
    }
    CleanedKeysFrom(data[..i], false, k);
    assert data[..i + 1][..i] == data[..i];
    var newData := done + data[i..];
    assert newData[|done|] == data[i];
    assert Keys(newData)[|done|] == k;
    assert newData == done + [data[i]] + data[i + 1..];
    assert data[..i + 1][i] == data[i];
    if Dropped(k) {
      assert CleanEntries(data[..i + 1], false) == done;
      DeleteAt(done, data[i], data[i + 1..]);
    } else {
      assert CleanEntries(data[..i + 1], false) == done + [Entry(k, w)];
      AssignAt(done, data[i], data[i + 1..], w);
    }
  }

  // ------------------------------------------------------------------ what cleaning promises

  /** No array and no dropped key anywhere. */
  predicate Tidy(v: Json)
    decreases v
  {
    match v
    case Array(_) => false
    case List(items) => forall i :: 0 <= i < |items| ==> Tidy(items[i])
    case Dict(entries) => forall i :: 0 <= i < |entries| ==> !Dropped(entries[i].key) && Tidy(entries[i].value)
    case _ => true
  }

  predicate Scalar(v: Json) {
    v.Null? || v.Bool? || v.Num? || v.Str?
  }

  /** Every array, at any depth, holds only scalars. */
  predicate FlatArrays(v: Json)
    decreases v
  {
    match v
    case Array(elems) => forall i :: 0 <= i < |elems| ==> Scalar(elems[i])
    case List(items) => forall i :: 0 <= i < |items| ==> FlatArrays(items[i])
    case Dict(entries) => forall i :: 0 <= i < |entries| ==> FlatArrays(entries[i].value)
    case _ => true
  }

  /** Cleaning with array elements cleaned too leaves no array and no dropped key at any
      depth. */
  lemma {:induction false} DeepCleanIsTidy(v: Json)
    ensures Tidy(Clean(v, true))
    decreases v
  {
    match v
    case Array(elems) =>
      forall i | 0 <= i < |elems| ensures Tidy(Clean(elems[i], true)) {
        DeepCleanIsTidy(elems[i]);
      }
    case List(items) =>
      forall i | 0 <= i < |items| ensures Tidy(Clean(items[i], true)) {
        DeepCleanIsTidy(items[i]);
      }
    case Dict(entries) =>
      CleanedEntriesTidy(entries);
    case _ =>
  }

  lemma {:induction false} CleanedEntriesTidy(entries: seq<Entry>)
    ensures forall i :: 0 <= i < |CleanEntries(entries, true)| ==>
              !Dropped(CleanEntries(entries, true)[i].key) && Tidy(CleanEntries(entries, true)[i].value)
    decreases entries
  {
    if entries != [] {
      CleanedEntriesTidy(entries[..|entries| - 1]);
      DeepCleanIsTidy(entries[|entries| - 1].value);
    }
  }

  /** A tidy value is left as it is. */
  lemma {:induction false} TidyIsFixed(v: Json, deep: bool)
    requires Tidy(v)
    ensures Clean(v, deep) == v
    decreases v
  {
    match v
    case List(items) =>
      forall i | 0 <= i < |items| ensures Clean(items[i], deep) == items[i] {
        TidyIsFixed(items[i], deep);
      }
    case Dict(entries) =>
      TidyEntriesFixed(entries, deep);
    case _ =>
  }

  lemma {:induction false} TidyEntriesFixed(entries: seq<Entry>, deep: bool)
    requires forall i :: 0 <= i < |entries| ==> !Dropped(entries[i].key) && Tidy(entries[i].value)
    ensures CleanEntries(entries, deep) == entries
    decreases entries
  {
    if entries != [] {
      var n := |entries| - 1;
      TidyEntriesFixed(entries[..n], deep);
      TidyIsFixed(entries[n].value, deep);
      assert entries == entries[..n] + [entries[n]];
    }
  }

  /** Deep cleaning is idempotent. */
  lemma DeepCleanIdempotent(v: Json)
    ensures Clean(Clean(v, true), true) == Clean(v, true)
  {
    DeepCleanIsTidy(v);
    TidyIsFixed(Clean(v, true), true);
  }

  /** When every array holds only scalars, the code as written cleans exactly as deep
      cleaning does. */
  lemma {:induction false} FlatCleansDeep(v: Json)
    requires FlatArrays(v)
    ensures Clean(v, false) == Clean(v, true)
    decreases v
  {
    match v
    case Array(elems) =>
      forall i | 0 <= i < |elems| ensures Clean(elems[i], true) == elems[i] {
        assert Scalar(elems[i]);
      }
    case List(items) =>
      forall i | 0 <= i < |items| ensures Clean(items[i], false) == Clean(items[i], true) {
        FlatCleansDeep(items[i]);
      }
    case Dict(entries) =>
      FlatEntriesCleanDeep(entries);
    case _ =>
  }

  lemma {:induction false} FlatEntriesCleanDeep(entries: seq<Entry>)
    requires forall i :: 0 <= i < |entries| ==> FlatArrays(entries[i].value)
    ensures CleanEntries(entries, false) == CleanEntries(entries, true)
    decreases entries
  {
    if entries != [] {
      FlatEntriesCleanDeep(entries[..|entries| - 1]);
      FlatCleansDeep(entries[|entries| - 1].value);
    }
  }

  /** As written, cleaning a value whose arrays hold only scalars removes every dropped key
      and every array, and cleaning again changes nothing. */
  lemma FlatCleanIdempotent(v: Json)
    requires FlatArrays(v)
    ensures Tidy(Clean(v, false))
    ensures Clean(Clean(v, false), false) == Clean(v, false)
  {
    FlatCleansDeep(v);
    DeepCleanIsTidy(v);
    TidyIsFixed(Clean(v, true), false);
  }

  /** As written, an array of arrays becomes a list of arrays, which a second cleaning turns
      into a list of lists, and a dict inside an array keeps its dropped keys. */
  lemma ShallowArrayCleaning()
    ensures var v := Array([Array([Num(1)])]);
            Clean(v, false) == List([Array([Num(1)])]) &&
            Clean(Clean(v, false), false) == List([List([Num(1)])])
    ensures var v := Array([Dict([Entry("reward", Num(0))])]);
            Clean(v, false) == List([Dict([Entry("reward", Num(0))])]) && !Tidy(Clean(v, false))
  {
    var inner := [Num(1)];
    assert CleanItems([Array(inner)], false) == [List(inner)];
    var d := Dict([Entry("reward", Num(0))]);
    assert DroppedKeys[5] == "reward";
    assert d.entries[0].key == "reward";
    assert !Tidy(d);
    assert List([d]).items[0] == d;
    assert !Tidy(List([d]));
  }
}
