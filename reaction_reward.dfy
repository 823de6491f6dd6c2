/** The bookkeeping of `PathReward` in src/search/reward/reaction_reward.py: the two symbol
    reductions that name a slab, batching the samples that are not cached under
    `name/idx-<uuid>` paths, reading `(idx, name)` back from those paths, indexing heuristic
    placements, choosing the path of least reward, and collecting the samples of every slab.

    Atoms objects are an opaque type `A`, slabs an opaque type `S`; the calculator, the
    trajectory search, the stored predictions, the validity flags and the uuids are
    functions passed in. */
module ReactionReward {
  import opened Wrappers
  import opened PyStr
  import opened Paths
  import opened SymbolCounts
  import opened Batching
  import SR = SimulationReward
  import AI = AseInterface

  datatype ReactionError = IndexError | ValueError | KeyError

  // ------------------------------------------------------------------ reduce_candidate_symbols

  /** `reduce_candidate_symbols`: two symbols are joined in order; any other number keeps
      the first symbol in front of the others sorted. No symbols is an IndexError. */
  function ReduceCandidateSymbols(syms: seq<string>): (r: Result<string, ReactionError>)
    ensures r.Err? <==> syms == []
    ensures r.Err? ==> r.error == IndexError
  {
    if |syms| == 2 then Ok(syms[0] + syms[1])
    else if syms == [] then Err(IndexError)
    else Ok(syms[0] + Join(SortStrings(syms[1..]), ""))
  }

  /** One symbol names itself. */
  lemma CandidateOneSymbol(sym: string)
    ensures ReduceCandidateSymbols([sym]) == Ok(sym)
  {
    assert [sym][1..] == [];
    assert sym + Join(SortStrings([]), "") == sym;
  }

  /** Two symbols are concatenated in the order given. */
  lemma CandidateTwoSymbols(first: string, second: string)
    ensures ReduceCandidateSymbols([first, second]) == Ok(Join([first, second], ""))
  {
    assert [first, second][1..] == [second];
    assert first + "" + second == first + second;
  }

  /** Three or more give the first symbol followed by the others in alphabetical order. */
  lemma CandidateManySymbols(syms: seq<string>)
    requires |syms| >= 3
    ensures forall rest :: Sorted(rest) && multiset(rest) == multiset(syms[1..]) ==>
              ReduceCandidateSymbols(syms) == Ok(syms[0] + Join(rest, ""))
  {
    SortStringsSorted(syms[1..]);
    forall rest | Sorted(rest) && multiset(rest) == multiset(syms[1..])
      ensures rest == SortStrings(syms[1..])
    {
      SortedUnique(rest, SortStrings(syms[1..]));
    }
  }

  /** Only the first symbol's position matters: permuting the others gives the same name. */
  lemma CandidateTailOrderIndependent(first: string, s: seq<string>, t: seq<string>)
    requires multiset(s) == multiset(t)
    ensures ReduceCandidateSymbols([first] + s) == ReduceCandidateSymbols([first] + t)
  {
    assert |s| == |multiset(s)| == |multiset(t)| == |t|;
    assert ([first] + s)[1..] == s && ([first] + t)[1..] == t;
    if |s| == 1 {
      assert s[0] in multiset(t);
      assert t == [s[0]];
    }
    SortStringsDependsOnElements(s, t);
  }

  // ------------------------------------------------------------------ reduce_metal_symbols

  /** The symbols in the order the name lists them: with exactly two elements the more
      numerous first, and on a tie the one seen second; otherwise alphabetical. */
  function NameSymbols(symbols: seq<string>): seq<string> {
    var keys := Distinct(symbols);
    var counts := Tally(symbols);
    if |keys| == 2 then
      if counts[keys[0]] > counts[keys[1]] then [keys[0], keys[1]] else [keys[1], keys[0]]
    else SortStrings(keys)
  }

  /** `PathReward.reduce_metal_symbols` for atoms with the chemical symbols `symbols`. */
  function MetalName(symbols: seq<string>): (r: string)
    ensures symbols == [] ==> r == ""
    ensures |Distinct(symbols)| == 1 ==> r == symbols[0]
  {
    OneElementNamesItself(symbols);
    Join(NameSymbols(symbols), "")
  }

  lemma OneElementNamesItself(symbols: seq<string>)
    ensures |Distinct(symbols)| == 1 ==> NameSymbols(symbols) == [symbols[0]]
  {
    var keys := Distinct(symbols);
    if |keys| == 1 {
      assert keys[0] in symbols;
      assert symbols[0] in keys;
      assert keys == [symbols[0]];
      assert SortStrings(keys) == Insert(symbols[0], SortStrings([]));
    }
  }

  /** `PathReward.reduce_metal_symbols`: count the symbols, then order the distinct ones. */
  method ReduceMetalSymbols(symbols: seq<string>) returns (formula: string)
    ensures formula == MetalName(symbols)
  {
    var keys, counts := CountSymbols(symbols);
    var nameSyms;
    if |keys| == 2 {
      var k1, k2 := keys[0], keys[1];
      if counts[k1] > counts[k2] {
        nameSyms := [k1, k2];
      } else {
        nameSyms := [k2, k1];
      }
    } else {
      nameSyms := SortStrings(keys);
    }
    formula := Join(nameSyms, "");
  }

  /** Every element is named exactly once. */
  lemma NameSymbolsArePermutation(symbols: seq<string>)
    ensures multiset(NameSymbols(symbols)) == multiset(Distinct(symbols))
    ensures forall x :: x in NameSymbols(symbols) <==> x in symbols
  {
    var keys, n := Distinct(symbols), NameSymbols(symbols);
    assert multiset(n) == multiset(keys) by {
      if |keys| == 2 {
        SwapSameMultiset(keys, n);
      }
    }
    SR.SameElements(n, keys);
  }

  lemma SwapSameMultiset<T>(keys: seq<T>, n: seq<T>)
    requires |keys| == 2 && (n == [keys[0], keys[1]] || n == [keys[1], keys[0]])
    ensures multiset(n) == multiset(keys)
  {
    assert keys == [keys[0], keys[1]];
  }

  /** With two elements, the first named has at least as many atoms, and on equal counts it
      is the element whose first atom comes later. */
  lemma TwoMetalsByCount(symbols: seq<string>)
    requires |Distinct(symbols)| == 2
    ensures var n := NameSymbols(symbols);
            |n| == 2 && n[0] != n[1] && n[0] in symbols && n[1] in symbols
            && multiset(symbols)[n[0]] >= multiset(symbols)[n[1]]
            && (multiset(symbols)[n[0]] == multiset(symbols)[n[1]] ==> FirstIndex(symbols, n[1]) < FirstIndex(symbols, n[0]))
  {
  }

  /** Without exactly two elements, the name lists the elements alphabetically. */
  lemma OtherwiseAlphabetical(symbols: seq<string>)
    requires |Distinct(symbols)| != 2
    ensures Sorted(NameSymbols(symbols))
    ensures NameSymbols(symbols) == SortStrings(Distinct(symbols))
  {
    SortStringsSorted(Distinct(symbols));
  }

  /** Reordering the atoms changes the name only on a two-element tie. */
  lemma MetalNameOrderIndependent(s: seq<string>, t: seq<string>)
    requires multiset(s) == multiset(t)
    requires |Distinct(s)| == 2 ==> multiset(s)[Distinct(s)[0]] != multiset(s)[Distinct(s)[1]]
    ensures MetalName(s) == MetalName(t)
  {
    assert Tally(s) == Tally(t);
    DistinctSameElements(s, t);
    var ks, kt := Distinct(s), Distinct(t);
    assert |ks| == |multiset(ks)| == |multiset(kt)| == |kt|;
    if |ks| == 2 {
      TwoKeysSwapped(ks, kt);
      assert NameSymbols(s) == NameSymbols(t);
    } else {
      SortStringsDependsOnElements(ks, kt);
    }
  }

  /** Two distinct-element lists of length two with the same elements are equal or swapped. */
  lemma TwoKeysSwapped(a: seq<string>, b: seq<string>)
    requires |a| == 2 && a[0] != a[1] && multiset(a) == multiset(b)
    ensures b == a || b == [a[1], a[0]]
  {
    assert a == [a[0], a[1]];
    assert |b| == |multiset(b)| == 2;
    assert b == [b[0], b[1]];
    assert b[0] in multiset(a) && b[1] in multiset(a);
    assert multiset(a)[a[0]] == 1;
  }

  // ------------------------------------------------------------------ batch paths

  /** One result `(idx, name, energy, valid)`. */
  datatype Outcome<E, V> = Outcome(idx: string, name: string, energy: E, valid: V)

  /** `str(fname) + f"-{uuid.uuid4()}"`: the path a queued sample is calculated under. */
  function BatchName<A>(a: SR.Adslab<A>, uuid: string): string {
    SR.TrajName(a) + "-" + uuid
  }

  /** `Path(f).stem.split("-")[0]`: the idx read back from a batch path. */
  function BatchIdx(fname: string): string {
    Split(Stem(fname), '-')[0]
  }

  /** A uuid in its text form holds hex digits and "-" only, so neither "/" nor ".". */
  predicate CleanUuid(uuid: string) {
    '/' !in uuid && '.' !in uuid
  }

  /** `unpack_batch_results` recovers idx and name from the path built for a queued sample. */
  lemma BatchNameRoundTrip<A>(a: SR.Adslab<A>, uuid: string)
    requires a.name != [] && a.idx >= 0 && CleanUuid(uuid)
    ensures BatchIdx(BatchName(a, uuid)) == IntToString(a.idx)
    ensures Parent(BatchName(a, uuid)) == a.name
  {
    var num := IntToString(a.idx);
    var child := num + ['-'] + uuid;
    NumeralChars(a.idx);
    assert BatchName(a, uuid) == Joined(a.name, child);
    assert '/' !in child && '.' !in child by {
      assert forall x :: x in child ==> x in num || x == '-' || x in uuid;
    }
    JoinedParts(a.name, child);
    StemOfJoined(a.name, child);
    SplitPrefix(num, uuid, '-');
  }

  // ------------------------------------------------------------------ create_batches_and_calculate

  /** A sample is reused when a trajectory file starting with its path is found and
      `get_prediction2` has a value for its idx. */
  predicate Reused<E>(fname: string, trajFound: string -> bool, prediction: (string, string) -> Option<E>) {
    trajFound(fname) && prediction(Parent(fname), Stem(fname)).Some?
  }

  /** The batch paths of the samples that are calculated, in input order; sample `i` draws
      `uuids(i)`. */
  function Queued<A, E>(adslabs: seq<SR.Adslab<A>>, trajFound: string -> bool,
                        prediction: (string, string) -> Option<E>, uuids: nat -> string): seq<string>
  {
    if adslabs == [] then []
    else
      var i := |adslabs| - 1;
      var f := SR.TrajName(adslabs[i]);
      Queued(adslabs[..i], trajFound, prediction, uuids) + (if Reused(f, trajFound, prediction) then [] else [f + "-" + uuids(i)])
  }

  lemma QueuedStep<A, E>(adslabs: seq<SR.Adslab<A>>, i: nat, trajFound: string -> bool,
                         prediction: (string, string) -> Option<E>, uuids: nat -> string)
    requires i < |adslabs|
    ensures var f := SR.TrajName(adslabs[i]);
            Queued(adslabs[..i + 1], trajFound, prediction, uuids)
              == Queued(adslabs[..i], trajFound, prediction, uuids) + (if Reused(f, trajFound, prediction) then [] else [BatchName(adslabs[i], uuids(i))])
  {
    assert adslabs[..i + 1][..i] == adslabs[..i];
  }

  /** The result tuple `unpack_batch_results` builds from a batch path and a calculator result. */
  function ReadBack<E, V>(fname: string, res: E, validity: (string, string) -> V): Outcome<E, V> {
    Outcome(BatchIdx(fname), Parent(fname), res, validity(Parent(fname), BatchIdx(fname)))
  }

  /** `unpack_batch_results`: pair the i-th result with the idx and name read back from the
      i-th path and their validity flag; a result without a path is an IndexError. */
  method UnpackBatchResults<E, V>(batchResults: seq<E>, fnameBatch: seq<string>, validity: (string, string) -> V)
    returns (r: Result<seq<Outcome<E, V>>, ReactionError>)
    ensures r.Err? <==> |batchResults| > |fnameBatch|
    ensures r.Err? ==> r.error == IndexError
    ensures r.Ok? ==> |r.value| == |batchResults|
                      && forall i :: 0 <= i < |batchResults| ==> r.value[i] == ReadBack(fnameBatch[i], batchResults[i], validity)
  {
    var results: seq<Outcome<E, V>> := [];
    var i := 0;
    while i < |batchResults|
      invariant 0 <= i <= |batchResults| && i <= |fnameBatch|
      invariant |results| == i
      invariant forall j :: 0 <= j < i ==> results[j] == ReadBack(fnameBatch[j], batchResults[j], validity)
    {
      if i >= |fnameBatch| {
        return Err(IndexError);
      }
      var idx := BatchIdx(fnameBatch[i]);
      var name := Parent(fnameBatch[i]);
      var valid := validity(name, idx);
      results := results + [Outcome(idx, name, batchResults[i], valid)];
      i := i + 1;
    }
    return Ok(results);
  }

  function OutcomeKeys<E, V>(rs: seq<Outcome<E, V>>): (r: seq<(string, string)>)
    ensures |r| == |rs| && forall i :: 0 <= i < |rs| ==> r[i] == (rs[i].idx, rs[i].name)
  {
    seq(|rs|, i requires 0 <= i < |rs| => (rs[i].idx, rs[i].name))
  }

  function BatchKeys(fs: seq<string>): (r: seq<(string, string)>)
    ensures |r| == |fs| && forall i :: 0 <= i < |fs| ==> r[i] == (BatchIdx(fs[i]), Parent(fs[i]))
  {
    seq(|fs|, i requires 0 <= i < |fs| => (BatchIdx(fs[i]), Parent(fs[i])))
  }

  /** Every sample has a name, a non-negative index and a clean uuid. */
  ghost predicate Readable<A>(adslabs: seq<SR.Adslab<A>>, uuids: nat -> string) {
    forall i :: 0 <= i < |adslabs| ==> adslabs[i].name != [] && adslabs[i].idx >= 0 && CleanUuid(uuids(i))
  }

  /** Every sample seen so far is accounted for once: by a result or by a queued path. */
  predicate Accounted<A, E, V>(results: seq<Outcome<E, V>>, fnameBatch: seq<string>, done: seq<SR.Adslab<A>>) {
    multiset(OutcomeKeys(results)) + multiset(BatchKeys(fnameBatch)) == multiset(SR.InputKeys(done))
  }

  lemma AccountQueued<A, E, V>(results: seq<Outcome<E, V>>, fnameBatch: seq<string>, adslabs: seq<SR.Adslab<A>>, i: nat, uuid: string)
    requires i < |adslabs| && adslabs[i].name != [] && adslabs[i].idx >= 0 && CleanUuid(uuid)
    requires Accounted(results, fnameBatch, adslabs[..i])
    ensures Accounted(results, fnameBatch + [BatchName(adslabs[i], uuid)], adslabs[..i + 1])
  {
    BatchNameRoundTrip(adslabs[i], uuid);
    BatchKeysSnoc(fnameBatch, BatchName(adslabs[i], uuid));
    SR.InputKeysSnoc(adslabs, i);
    SR.Recount(OutcomeKeys(results), BatchKeys(fnameBatch), SR.InputKeys(adslabs[..i]), SR.InputKey(adslabs[i]));
  }

  lemma AccountReused<A, E, V>(results: seq<Outcome<E, V>>, fnameBatch: seq<string>, adslabs: seq<SR.Adslab<A>>, i: nat, o: Outcome<E, V>)
    requires i < |adslabs| && adslabs[i].name != []
    requires o.idx == Stem(SR.TrajName(adslabs[i])) && o.name == Parent(SR.TrajName(adslabs[i]))
    requires Accounted(results, fnameBatch, adslabs[..i])
    ensures Accounted(results + [o], fnameBatch, adslabs[..i + 1])
  {
    SR.TrajNameRoundTrip(adslabs[i]);
    var k := SR.InputKey(adslabs[i]);
    OutcomeKeysAppend(results, [o]);
    assert OutcomeKeys(results + [o]) == OutcomeKeys(results) + [k];
    SR.InputKeysSnoc(adslabs, i);
    SR.Recount(OutcomeKeys(results), BatchKeys(fnameBatch), SR.InputKeys(adslabs[..i]), SR.InputKey(adslabs[i]));
  }

  lemma AccountDispatched<A, E, V>(results: seq<Outcome<E, V>>, unpacked: seq<Outcome<E, V>>, fnameBatch: seq<string>, done: seq<SR.Adslab<A>>)
    requires Accounted(results, fnameBatch, done) && OutcomeKeys(unpacked) == BatchKeys(fnameBatch)
    ensures Accounted(results + unpacked, [], done)
  {
    OutcomeKeysAppend(results, unpacked);
    MoveToResults(OutcomeKeys(results), OutcomeKeys(unpacked), SR.InputKeys(done));
    assert BatchKeys([]) == [];
  }

  lemma MoveToResults<K>(ka: seq<K>, kb: seq<K>, ki: seq<K>)
    requires multiset(ka) + multiset(kb) == multiset(ki)
    ensures multiset(ka + kb) == multiset(ki)
  {
  }

  lemma OutcomeKeysAppend<E, V>(a: seq<Outcome<E, V>>, b: seq<Outcome<E, V>>)
    ensures OutcomeKeys(a + b) == OutcomeKeys(a) + OutcomeKeys(b)
  {
  }

  lemma BatchKeysSnoc(fs: seq<string>, f: string)
    ensures BatchKeys(fs + [f]) == BatchKeys(fs) + [(BatchIdx(f), Parent(f))]
  {
  }

  /** The cache check for one sample: the stored prediction and its validity flag when a
      trajectory is found and a prediction exists. */
  method LookUpReused<E, V>(fname: string, trajFound: string -> bool, prediction: (string, string) -> Option<E>,
                            validity: (string, string) -> V)
    returns (hit: Option<Outcome<E, V>>)
    ensures hit.Some? <==> Reused(fname, trajFound, prediction)
    ensures hit.Some? ==> hit.value == Outcome(Stem(fname), Parent(fname), prediction(Parent(fname), Stem(fname)).value,
                                               validity(Parent(fname), Stem(fname)))
  {
    if !trajFound(fname) {
      return None;
    }
    var idx := Stem(fname);
    var name := Parent(fname);
    var adsCalc := prediction(name, idx);
    if adsCalc.Some? {
      var valid := validity(name, idx);
      return Some(Outcome(idx, name, adsCalc.value, valid));
    }
    return None;
  }

  /** One call of the calculator on a batch, and its results unpacked. */
  method CalculateBatch<A(!new), E, V>(adslabBatch: seq<A>, fnameBatch: seq<string>, calculate: (seq<A>, seq<string>) -> seq<E>,
                                       validity: (string, string) -> V)
    returns (unpacked: Result<seq<Outcome<E, V>>, ReactionError>)
    ensures unpacked.Err? ==> unpacked.error == IndexError
    ensures SR.OneResultEach(calculate) && |adslabBatch| == |fnameBatch| ==>
              unpacked.Ok? && OutcomeKeys(unpacked.value) == BatchKeys(fnameBatch)
  {
    var batchResults := calculate(adslabBatch, fnameBatch);
    unpacked := UnpackBatchResults(batchResults, fnameBatch, validity);
    if SR.OneResultEach(calculate) && |adslabBatch| == |fnameBatch| {
      assert |batchResults| == |fnameBatch|;
    }
  }

  /** What holds after the first `i` samples: the paths queued so far are the dispatched
      batches followed by the open batch, every dispatched batch is full, and (when the
      calculator answers every atoms object) each sample so far is accounted for once. */
  ghost predicate Progress<A(!new), E, V>(adslabs: seq<SR.Adslab<A>>, i: int, batchSize: int, trajFound: string -> bool,
                                         prediction: (string, string) -> Option<E>, uuids: nat -> string,
                                         calculate: (seq<A>, seq<string>) -> seq<E>,
                                         results: seq<Outcome<E, V>>, adslabBatch: seq<A>, fnameBatch: seq<string>,
                                         dispatched: seq<seq<string>>)
  {
    && 0 <= i <= |adslabs|
    && |adslabBatch| == |fnameBatch|
    && Flatten(dispatched) + fnameBatch == Queued(adslabs[..i], trajFound, prediction, uuids)
    && (batchSize > 0 ==> |fnameBatch| < batchSize && forall j :: 0 <= j < |dispatched| ==> |dispatched[j]| == batchSize)
    && (SR.OneResultEach(calculate) ==> |results| + |fnameBatch| == i)
    && (SR.OneResultEach(calculate) && Readable(adslabs, uuids) ==> Accounted(results, fnameBatch, adslabs[..i]))
  }

  /** One turn of the sample loop: the cache check for sample `i`, then the dispatch of the
      batch when it has reached `batch_size`. */
  method VisitSample<A(!new), E, V>(adslabs: seq<SR.Adslab<A>>, i: int, batchSize: int, trajFound: string -> bool,
                                    prediction: (string, string) -> Option<E>, validity: (string, string) -> V,
                                    uuids: nat -> string, calculate: (seq<A>, seq<string>) -> seq<E>,
                                    results: seq<Outcome<E, V>>, adslabBatch: seq<A>, fnameBatch: seq<string>,
                                    dispatched: seq<seq<string>>)
    returns (failed: bool, results': seq<Outcome<E, V>>, adslabBatch': seq<A>, fnameBatch': seq<string>,
             dispatched': seq<seq<string>>)
    requires Progress(adslabs, i, batchSize, trajFound, prediction, uuids, calculate, results, adslabBatch, fnameBatch, dispatched)
    requires i < |adslabs|
    ensures failed ==> !SR.OneResultEach(calculate)
    ensures !failed ==> Progress(adslabs, i + 1, batchSize, trajFound, prediction, uuids, calculate,
                                 results', adslabBatch', fnameBatch', dispatched')
  {
    ghost var counted := SR.OneResultEach(calculate);
    ghost var keyed := counted && Readable(adslabs, uuids);
    results', adslabBatch', fnameBatch', dispatched' := results, adslabBatch, fnameBatch, dispatched;
    var a := adslabs[i];
    var fname := SR.TrajName(a);
    QueuedStep(adslabs, i, trajFound, prediction, uuids);
    var hit := LookUpReused(fname, trajFound, prediction, validity);
    if hit.Some? {
      if keyed { AccountReused(results, fnameBatch, adslabs, i, hit.value); }
      results' := results + [hit.value];
    } else {
      var batchName := fname + "-" + uuids(i);
      assert batchName == BatchName(a, uuids(i));
      if keyed { AccountQueued(results, fnameBatch, adslabs, i, uuids(i)); }
      adslabBatch' := adslabBatch + [a.atoms];
      fnameBatch' := fnameBatch + [batchName];
    }
    if |adslabBatch'| == batchSize {
      var unpacked := CalculateBatch(adslabBatch', fnameBatch', calculate, validity);
      if unpacked.Err? {
        return true, results', adslabBatch', fnameBatch', dispatched';
      }
      if keyed {
        AccountDispatched(results', unpacked.value, fnameBatch', adslabs[..i + 1]);
      }
      FlattenAppend(dispatched', fnameBatch');
      ChunkedStep(dispatched', fnameBatch', batchSize);
      results' := results' + unpacked.value;
      dispatched' := dispatched' + [fnameBatch'];
      adslabBatch' := [];
      fnameBatch' := [];
      assert Flatten(dispatched') + fnameBatch' == Flatten(dispatched');
    }
    failed := false;
  }

  /** `create_batches_and_calculate`: reused samples are answered from the stored
      predictions, the others are queued under `name/idx-<uuid>` and sent to the calculator
      in batches of `batch_size`, with one final remainder. `dispatched` lists the path
      batches handed to the calculator. */
  method CreateBatchesAndCalculate<A(!new), E, V>(adslabs: seq<SR.Adslab<A>>, batchSize: int, trajFound: string -> bool,
                                                  prediction: (string, string) -> Option<E>, validity: (string, string) -> V,
                                                  uuids: nat -> string, calculate: (seq<A>, seq<string>) -> seq<E>)
    returns (r: Result<seq<Outcome<E, V>>, ReactionError>, dispatched: seq<seq<string>>)
    ensures r.Err? ==> r.error == IndexError
    ensures r.Ok? ==> Flatten(dispatched) == Queued(adslabs, trajFound, prediction, uuids)
    ensures r.Ok? && batchSize > 0 ==> Chunked(dispatched, batchSize)
    ensures SR.OneResultEach(calculate) ==> r.Ok? && |r.value| == |adslabs|
    ensures SR.OneResultEach(calculate) && Readable(adslabs, uuids) ==>
              r.Ok? && multiset(OutcomeKeys(r.value)) == multiset(SR.InputKeys(adslabs))
  {
    var results: seq<Outcome<E, V>> := [];
    var adslabBatch: seq<A> := [];
    var fnameBatch: seq<string> := [];
    dispatched := [];
    var i := 0;
    while i < |adslabs|
      invariant Progress(adslabs, i, batchSize, trajFound, prediction, uuids, calculate, results, adslabBatch, fnameBatch, dispatched)
    {
      var failed;
      failed, results, adslabBatch, fnameBatch, dispatched :=
        VisitSample(adslabs, i, batchSize, trajFound, prediction, validity, uuids, calculate,
                    results, adslabBatch, fnameBatch, dispatched);
      if failed {
        return Err(IndexError), dispatched;
      }
      i := i + 1;
    }
    r, dispatched := FlushRemainder(adslabs, batchSize, trajFound, prediction, validity, uuids, calculate,
                                    results, adslabBatch, fnameBatch, dispatched);
  }

  /** After the loop: the last, partial batch goes to the calculator if it is not empty. */
  method FlushRemainder<A(!new), E, V>(adslabs: seq<SR.Adslab<A>>, batchSize: int, trajFound: string -> bool,
                                       prediction: (string, string) -> Option<E>, validity: (string, string) -> V,
                                       uuids: nat -> string, calculate: (seq<A>, seq<string>) -> seq<E>,
                                       results: seq<Outcome<E, V>>, adslabBatch: seq<A>, fnameBatch: seq<string>,
                                       dispatched: seq<seq<string>>)
    returns (r: Result<seq<Outcome<E, V>>, ReactionError>, dispatched': seq<seq<string>>)
    requires Progress(adslabs, |adslabs|, batchSize, trajFound, prediction, uuids, calculate, results, adslabBatch, fnameBatch, dispatched)
    ensures r.Err? ==> r.error == IndexError
    ensures r.Ok? ==> Flatten(dispatched') == Queued(adslabs, trajFound, prediction, uuids)
    ensures r.Ok? && batchSize > 0 ==> Chunked(dispatched', batchSize)
    ensures SR.OneResultEach(calculate) ==> r.Ok? && |r.value| == |adslabs|
    ensures SR.OneResultEach(calculate) && Readable(adslabs, uuids) ==>
              r.Ok? && multiset(OutcomeKeys(r.value)) == multiset(SR.InputKeys(adslabs))
  {
    assert adslabs[..|adslabs|] == adslabs;
    dispatched' := dispatched;
    if |adslabBatch| > 0 {
      var unpacked := CalculateBatch(adslabBatch, fnameBatch, calculate, validity);
      if unpacked.Err? {
        return Err(unpacked.error), dispatched';
      }
      if SR.OneResultEach(calculate) && Readable(adslabs, uuids) {
        AccountDispatched(results, unpacked.value, fnameBatch, adslabs);
      }
      FlattenAppend(dispatched, fnameBatch);
      RemainderStep(dispatched, fnameBatch, batchSize);
      dispatched' := dispatched + [fnameBatch];
      return Ok(results + unpacked.value), dispatched';
    }
    assert Flatten(dispatched) + fnameBatch == Flatten(dispatched);
    FullChunks(dispatched, batchSize);
    if SR.OneResultEach(calculate) && Readable(adslabs, uuids) {
      assert multiset(BatchKeys(fnameBatch)) == multiset{};
    }
    return Ok(results), dispatched';
  }

  // ------------------------------------------------------------------ sample_adslabs_heuristic

  /** `sample_adslabs_heuristic(slab, ads, name)`: one sample per placement the heuristic
      site generator returns, indexed from 0 and all under `name`, so no two share a
      trajectory path. (`sample_adslabs` is the same as `SimulationReward.SampleAdslabs`.) */
  function SampleAdslabsHeuristic<A>(name: string, placements: seq<A>): (r: seq<SR.Adslab<A>>)
    ensures |r| == |placements|
    ensures forall i :: 0 <= i < |r| ==> r[i].idx == i && r[i].name == name && r[i].atoms == placements[i]
    ensures forall i, j :: 0 <= i < j < |r| ==> SR.TrajName(r[i]) != SR.TrajName(r[j])
  {
    var r := seq(|placements|, i requires 0 <= i < |placements| => SR.Adslab(i, name, placements[i]));
    SR.SampledTrajNamesDistinct(r, name);
    r
  }

  // ------------------------------------------------------------------ get_reward_for_paths

  /** `np.argmin` over a nonempty list: the first index holding a least element. */
  function ArgMin(xs: seq<real>): (r: nat)
    requires |xs| > 0
    ensures r < |xs|
    ensures forall j :: 0 <= j < |xs| ==> xs[r] <= xs[j]
    ensures forall j :: 0 <= j < r ==> xs[r] < xs[j]
    decreases |xs|
  {
    if |xs| == 1 then 0
    else
      var k := ArgMin(xs[..|xs| - 1]);
      if xs[|xs| - 1] < xs[k] then |xs| - 1 else k
  }

  /** The first least index is the only index that is least and beaten by everything before it. */
  lemma ArgMinUnique(xs: seq<real>, i: nat)
    requires i < |xs|
    requires forall j :: 0 <= j < |xs| ==> xs[i] <= xs[j]
    requires forall j :: 0 <= j < i ==> xs[i] < xs[j]
    ensures i == ArgMin(xs)
  {
  }

  /** The path `get_reward_for_paths` selects: its position, its reward and the path itself. */
  datatype Selection<P> = Selection(index: nat, reward: real, path: P)

  /** `get_reward_for_paths(paths)`: the reward of every path in order, then the first path
      with the least reward (activation energy); `np.argmin` of an empty list raises
      ValueError. `rewardFor` is `get_reward_for_path`'s reward component. */
  method GetRewardForPaths<P>(paths: seq<P>, rewardFor: P -> real) returns (r: Result<Selection<P>, ReactionError>)
    ensures r.Err? <==> paths == []
    ensures r.Err? ==> r.error == ValueError
    ensures r.Ok? ==>
              var s := r.value;
              s.index < |paths| && s.path == paths[s.index] && s.reward == rewardFor(s.path) &&
              (forall j :: 0 <= j < |paths| ==> s.reward <= rewardFor(paths[j])) &&
              (forall j :: 0 <= j < s.index ==> s.reward < rewardFor(paths[j]))
  {
    var rewards: seq<real> := [];
    for i := 0 to |paths|
      invariant |rewards| == i
      invariant forall j :: 0 <= j < i ==> rewards[j] == rewardFor(paths[j])
    {
      rewards := rewards + [rewardFor(paths[i])];
    }
    if rewards == [] {
      return Err(ValueError);
    }
    var k := ArgMin(rewards);
    return Ok(Selection(k, rewards[k], paths[k]));
  }

  // ------------------------------------------------------------------ create_structures_and_calculate

  /** The structure builders `create_structures_and_calculate` consults, as functions:
      the calculator's stored slab under a name; whether generating bulks from the symbols
      raises StructureGenerationError; `choose_slab` over the generated bulks; the two
      samplers, given the slab, the adsorbate structure and the adslab name; and the keys of
      the OC20 adsorbate table that `ads_symbols_to_structure` looks symbols up in. */
  datatype Builders<!S, A> = Builders(
    getSlab: string -> Option<S>,
    bulkFails: seq<string> -> bool,
    chooseSlab: (seq<string>, string) -> Option<S>,
    sample: (S, AI.Adsorbate, string) -> seq<SR.Adslab<A>>,
    sampleHeuristic: (S, AI.Adsorbate, string) -> seq<SR.Adslab<A>>,
    adsKeys: seq<string>)

  /** The adslabs handed to the calculator and the adslab-name to candidate mapping. */
  datatype Collection<A, C> = Collection(adslabs: seq<SR.Adslab<A>>, mapping: map<string, C>)

  function AdslabName(slabName: string, ads: string): string {
    slabName + "_" + ads
  }

  /** No slab is stored under the name and bulk generation raises. */
  predicate GenerationFails<S, A>(sym: seq<string>, slabName: string, b: Builders<S, A>) {
    b.getSlab(slabName).None? && b.bulkFails(sym)
  }

  /** The stored slab, or else one chosen from freshly generated bulks. */
  function SlabFor<S, A>(sym: seq<string>, slabName: string, b: Builders<S, A>): Option<S> {
    var stored := b.getSlab(slabName);
    if stored.Some? || b.bulkFails(sym) then stored else b.chooseSlab(sym, slabName)
  }

  /** Placement types that sample anything: the default and "heuristic". */
  predicate Places(placement: Option<string>) {
    placement.None? || placement.value == "heuristic"
  }

  function Sampler<S, A>(placement: Option<string>, b: Builders<S, A>): (S, AI.Adsorbate, string) -> seq<SR.Adslab<A>> {
    if placement.None? then b.sample else b.sampleHeuristic
  }

  /** `ads_symbols_to_structure` succeeds on every adsorbate symbol. */
  predicate AllResolve(ads: seq<string>, keys: seq<string>) {
    forall k :: 0 <= k < |ads| ==> AI.AdsSymbolsToStructure(ads[k], keys).Ok?
  }

  /** Some adsorbate symbol carries a '*' and is not a key of the table. */
  predicate MissingStarred(ads: seq<string>, keys: seq<string>) {
    exists k :: 0 <= k < |ads| && '*' in ads[k] && ads[k] !in keys
  }

  /** The only adsorbates that fail to resolve are starred symbols missing from the table. */
  lemma ResolveFailsIffMissingStarred(ads: seq<string>, keys: seq<string>)
    ensures !AllResolve(ads, keys) <==> MissingStarred(ads, keys)
  {
    if !AllResolve(ads, keys) {
      var k :| 0 <= k < |ads| && AI.AdsSymbolsToStructure(ads[k], keys).Err?;
      assert '*' in ads[k] && ads[k] !in keys;
    }
    if MissingStarred(ads, keys) {
      var k :| 0 <= k < |ads| && '*' in ads[k] && ads[k] !in keys;
      assert AI.AdsSymbolsToStructure(ads[k], keys).Err?;
    }
  }

  /** The samples for every adsorbate on one slab, in adsorbate order, each taken from the
      structure its symbol resolves to. */
  function SamplesFor<S, A>(slab: S, slabName: string, ads: seq<string>, keys: seq<string>,
                            sampler: (S, AI.Adsorbate, string) -> seq<SR.Adslab<A>>): seq<SR.Adslab<A>>
    requires AllResolve(ads, keys)
  {
    if ads == [] then []
    else
      var last := ads[|ads| - 1];
      SamplesFor(slab, slabName, ads[..|ads| - 1], keys, sampler)
        + sampler(slab, AI.AdsSymbolsToStructure(last, keys).value, AdslabName(slabName, last))
  }

  /** `m` with the adslab name of every adsorbate on the slab mapped to `c`. */
  function Labelled<C>(m: map<string, C>, slabName: string, ads: seq<string>, c: C): map<string, C> {
    if ads == [] then m
    else
      var last := ads[|ads| - 1];
      Labelled(m, slabName, ads[..|ads| - 1], c)[AdslabName(slabName, last) := c]
  }

  /** The candidate list is given but has no entry at index `i`, and an adsorbate asks for it. */
  predicate TagMissing<C>(i: nat, ads: seq<string>, candidates: Option<seq<C>>) {
    candidates.Some? && ads != [] && i >= |candidates.value|
  }

  /** The loop over `ads_list` on a slab that was found: every symbol is resolved, which is a
      KeyError for a starred symbol missing from the table, then sampled, and with candidates
      given its adslab name is mapped to `candidates_list[i]`, an IndexError past the end.
      The first adsorbate meets both lookups first, so its symbol decides which of the two
      errors a missing candidate raises. */
  function AddSamples<S, A, C>(acc: Collection<A, C>, i: nat, slab: S, slabName: string, ads: seq<string>,
                               candidates: Option<seq<C>>, sampler: (S, AI.Adsorbate, string) -> seq<SR.Adslab<A>>,
                               keys: seq<string>): Result<Collection<A, C>, ReactionError>
  {
    if TagMissing(i, ads, candidates) then
      if AI.AdsSymbolsToStructure(ads[0], keys).Ok? then Err(IndexError) else Err(KeyError)
    else if !AllResolve(ads, keys) then Err(KeyError)
    else
      var adslabs := acc.adslabs + SamplesFor(slab, slabName, ads, keys, sampler);
      var mapping :=
        if candidates.Some? && ads != [] then Labelled(acc.mapping, slabName, ads, candidates.value[i])
        else acc.mapping;
      Ok(Collection(adslabs, mapping))
  }

  /** One iteration of the loop over `slab_syms`, at index `i`. */
  function AddSlab<S, A, C>(acc: Collection<A, C>, i: nat, slabSym: Option<seq<string>>, ads: seq<string>,
                            candidates: Option<seq<C>>, placement: Option<string>, b: Builders<S, A>)
    : Result<Collection<A, C>, ReactionError>
  {
    if slabSym.None? then Ok(acc)
    else
      var name := ReduceCandidateSymbols(slabSym.value);
      if name.Err? then Err(name.error)
      else
        var slab := SlabFor(slabSym.value, name.value, b);
        if slab.None? || !Places(placement) then Ok(acc)
        else AddSamples(acc, i, slab.value, name.value, ads, candidates, Sampler(placement, b), b.adsKeys)
  }

  /** What the loop over `slab_syms` collects. */
  function Collect<S, A, C>(slabSyms: seq<Option<seq<string>>>, ads: seq<string>, candidates: Option<seq<C>>,
                            placement: Option<string>, b: Builders<S, A>): (r: Result<Collection<A, C>, ReactionError>)
    ensures r.Err? ==> r.error == IndexError || r.error == KeyError
    ensures r == Err(KeyError) ==> MissingStarred(ads, b.adsKeys)
    ensures (forall j :: 0 <= j < |slabSyms| ==> slabSyms[j].None?) ==> r == Ok(Collection([], map[]))
  {
    ResolveFailsIffMissingStarred(ads, b.adsKeys);
    if slabSyms == [] then Ok(Collection([], map[]))
    else
      var i := |slabSyms| - 1;
      var prev := Collect(slabSyms[..i], ads, candidates, placement, b);
      if prev.Err? then prev else AddSlab(prev.value, i, slabSyms[i], ads, candidates, placement, b)
  }

  /** The entry as the loop leaves it: symbols whose bulk generation failed become None. */
  function Cleared<S, A>(slabSym: Option<seq<string>>, b: Builders<S, A>): Option<seq<string>> {
    if slabSym.None? then slabSym
    else
      var name := ReduceCandidateSymbols(slabSym.value);
      if name.Ok? && GenerationFails(slabSym.value, name.value, b) then None else slabSym
  }

  function ClearedAll<S, A>(slabSyms: seq<Option<seq<string>>>, b: Builders<S, A>): seq<Option<seq<string>>> {
    seq(|slabSyms|, j requires 0 <= j < |slabSyms| => Cleared(slabSyms[j], b))
  }

  /** The structure-building part of `create_structures_and_calculate`: for every candidate
      symbol list, find or generate its slab (marking the entry None in the caller's list when
      generation fails), build and sample every adsorbate on it and map each adslab name to the
      candidate at the same index. */
  method CreateStructures<S, A, C>(slabSyms: array<Option<seq<string>>>, ads: seq<string>, candidates: Option<seq<C>>,
                                   placement: Option<string>, b: Builders<S, A>)
    returns (r: Result<Collection<A, C>, ReactionError>)
    modifies slabSyms
    ensures r == Collect(old(slabSyms[..]), ads, candidates, placement, b)
    ensures forall j :: 0 <= j < slabSyms.Length ==>
              slabSyms[j] == old(slabSyms[j]) || slabSyms[j] == Cleared(old(slabSyms[j]), b)
    ensures r.Ok? ==> slabSyms[..] == ClearedAll(old(slabSyms[..]), b)
  {
    ghost var syms := slabSyms[..];
    var acc: Collection<A, C> := Collection([], map[]);
    for i := 0 to slabSyms.Length
      invariant Collect(syms[..i], ads, candidates, placement, b) == Ok(acc)
      invariant forall j :: 0 <= j < i ==> slabSyms[j] == Cleared(syms[j], b)
      invariant forall j :: i <= j < slabSyms.Length ==> slabSyms[j] == syms[j]
    {
      assert syms[..i + 1][..i] == syms[..i];
      var step := VisitSlab(slabSyms, i, acc, ads, candidates, placement, b);
      if step.Err? {
        CollectErrPersists(syms, i + 1, ads, candidates, placement, b);
        return step;
      }
      acc := step.value;
    }
    assert syms[..slabSyms.Length] == syms;
    return Ok(acc);
  }

  /** One pass of the loop body at index `i`. */
  method VisitSlab<S, A, C>(slabSyms: array<Option<seq<string>>>, i: nat, acc: Collection<A, C>, ads: seq<string>,
                            candidates: Option<seq<C>>, placement: Option<string>, b: Builders<S, A>)
    returns (r: Result<Collection<A, C>, ReactionError>)
    requires i < slabSyms.Length
    modifies slabSyms
    ensures r == AddSlab(acc, i, old(slabSyms[i]), ads, candidates, placement, b)
    ensures slabSyms[i] == old(slabSyms[i]) || slabSyms[i] == Cleared(old(slabSyms[i]), b)
    ensures r.Ok? ==> slabSyms[i] == Cleared(old(slabSyms[i]), b)
    ensures forall j :: 0 <= j < slabSyms.Length && j != i ==> slabSyms[j] == old(slabSyms[j])
  {
    var slabSym := slabSyms[i];
    if slabSym.None? {
      return Ok(acc);
    }
    var name := ReduceCandidateSymbols(slabSym.value);
    if name.Err? {
      return Err(name.error);
    }
    var slabName := name.value;
    var slab := b.getSlab(slabName);
    if slab.None? {
      if b.bulkFails(slabSym.value) {
        slabSyms[i] := None;
      } else {
        slab := b.chooseSlab(slabSym.value, slabName);
      }
    }
    if slab.None? || !Places(placement) {
      return Ok(acc);
    }
    r := SampleSlab(slab.value, slabName, ads, i, candidates, Sampler(placement, b), b.adsKeys, acc);
  }

  /** The inner loop over `ads_list` for the slab of entry `i`. */
  method SampleSlab<S, A, C>(slab: S, slabName: string, ads: seq<string>, i: nat, candidates: Option<seq<C>>,
                             sampler: (S, AI.Adsorbate, string) -> seq<SR.Adslab<A>>, keys: seq<string>,
                             acc: Collection<A, C>)
    returns (r: Result<Collection<A, C>, ReactionError>)
    ensures r == AddSamples(acc, i, slab, slabName, ads, candidates, sampler, keys)
  {
    var adslabs, mapping := acc.adslabs, acc.mapping;
    for j := 0 to |ads|
      invariant AllResolve(ads[..j], keys)
      invariant candidates.Some? && j > 0 ==> i < |candidates.value|
      invariant adslabs == acc.adslabs + SamplesFor(slab, slabName, ads[..j], keys, sampler)
      invariant mapping == if candidates.Some? && j > 0 then Labelled(acc.mapping, slabName, ads[..j], candidates.value[i])
                           else acc.mapping
    {
      assert ads[..j + 1][..j] == ads[..j];
      var ats := AI.AdsSymbolsToStructure(ads[j], keys);
      if ats.Err? {
        return Err(KeyError);
      }
      var name := AdslabName(slabName, ads[j]);
      adslabs := adslabs + sampler(slab, ats.value, name);
      if candidates.Some? {
        if i >= |candidates.value| {
          return Err(IndexError);
        }
        mapping := mapping[name := candidates.value[i]];
      }
    }
    assert ads[..|ads|] == ads;
    return Ok(Collection(adslabs, mapping));
  }

  /** An exception part-way through ends the whole loop with it. */
  lemma {:induction false} CollectErrPersists<S, A, C>(s: seq<Option<seq<string>>>, n: nat, ads: seq<string>,
                                                        candidates: Option<seq<C>>, placement: Option<string>,
                                                        b: Builders<S, A>)
    requires n <= |s|
    requires Collect(s[..n], ads, candidates, placement, b).Err?
    ensures Collect(s, ads, candidates, placement, b) == Collect(s[..n], ads, candidates, placement, b)
    decreases |s|
  {
    if n < |s| {
      assert s[..|s| - 1][..n] == s[..n];
      CollectErrPersists(s[..|s| - 1], n, ads, candidates, placement, b);
    } else {
      assert s[..n] == s;
    }
  }

  /** Marking failed entries None does not change what a later call over the same list
      collects: those entries contributed nothing. */
  lemma {:induction false} ClearingPreservesCollect<S, A, C>(s: seq<Option<seq<string>>>, ads: seq<string>,
                                                              candidates: Option<seq<C>>, placement: Option<string>,
                                                              b: Builders<S, A>)
    ensures Collect(ClearedAll(s, b), ads, candidates, placement, b) == Collect(s, ads, candidates, placement, b)
    decreases |s|
  {
    if s != [] {
      var n := |s| - 1;
      var cleared := ClearedAll(s, b);
      assert cleared[..n] == ClearedAll(s[..n], b);
      assert cleared[n] == Cleared(s[n], b);
      ClearingPreservesCollect(s[..n], ads, candidates, placement, b);
      var prev := Collect(s[..n], ads, candidates, placement, b);
      if prev.Ok? {
        ClearedAddsNothingElse(prev.value, n, s[n], ads, candidates, placement, b);
      }
    }
  }

  /** A blanked entry adds what the original entry added. */
  lemma ClearedAddsNothingElse<S, A, C>(acc: Collection<A, C>, i: nat, slabSym: Option<seq<string>>, ads: seq<string>,
                                        candidates: Option<seq<C>>, placement: Option<string>, b: Builders<S, A>)
    ensures AddSlab(acc, i, Cleared(slabSym, b), ads, candidates, placement, b)
         == AddSlab(acc, i, slabSym, ads, candidates, placement, b)
  {
  }

  /** The entry's slab is found or generated under a placement type that samples, so the loop
      over `ads_list` runs on it. */
  predicate SlabReached<S, A>(slabSym: Option<seq<string>>, placement: Option<string>, b: Builders<S, A>) {
    Places(placement) && slabSym.Some? && ReduceCandidateSymbols(slabSym.value).Ok?
    && SlabFor(slabSym.value, ReduceCandidateSymbols(slabSym.value).value, b).Some?
  }

  /** Some entry of the list reaches its slab. */
  predicate Reaches<S, A>(s: seq<Option<seq<string>>>, placement: Option<string>, b: Builders<S, A>) {
    exists j :: 0 <= j < |s| && SlabReached(s[j], placement, b)
  }

  /** With non-empty symbol lists and enough candidates, the loop fails exactly when some slab
      is reached while a starred adsorbate is missing from the table, and then with KeyError. */
  lemma {:induction false} CollectOk<S, A, C>(s: seq<Option<seq<string>>>, ads: seq<string>,
                                               candidates: Option<seq<C>>, placement: Option<string>,
                                               b: Builders<S, A>)
    requires forall j :: 0 <= j < |s| && s[j].Some? ==> s[j].value != []
    requires candidates.Some? ==> |s| <= |candidates.value|
    ensures Collect(s, ads, candidates, placement, b).Ok? <==>
              !MissingStarred(ads, b.adsKeys) || !Reaches(s, placement, b)
    ensures Collect(s, ads, candidates, placement, b).Err? ==> Collect(s, ads, candidates, placement, b).error == KeyError
    decreases |s|
  {
    ResolveFailsIffMissingStarred(ads, b.adsKeys);
    if s != [] {
      var n := |s| - 1;
      CollectOk(s[..n], ads, candidates, placement, b);
      ReachedSnoc(s, placement, b);
      var prev := Collect(s[..n], ads, candidates, placement, b);
      if prev.Ok? && SlabReached(s[n], placement, b) {
        assert !TagMissing(n, ads, candidates);
      }
    }
  }

  /** A stored slab met with a starred adsorbate the table lacks: `ads_symbols_to_structure`
      raises KeyError and the loop ends with it. */
  lemma MissingAdsorbateRaisesKeyError<S, A, C>(candidates: Option<seq<C>>, b: Builders<S, A>)
    requires b.getSlab("Pt").Some? && "*XYZ" !in b.adsKeys
    requires candidates.Some? ==> |candidates.value| >= 1
    ensures Collect([Some(["Pt"])], ["*XYZ"], candidates, None, b) == Err(KeyError)
  {
    var s := [Some(["Pt"])];
    CollectOk(s, ["*XYZ"], candidates, None, b);
    CandidateOneSymbol("Pt");
    assert SlabReached(s[0], None, b);
    assert '*' in "*XYZ";
  }

  /** A slab of the whole list is reached exactly when one of the prefix or the last is. */
  lemma ReachedSnoc<S, A>(s: seq<Option<seq<string>>>, placement: Option<string>, b: Builders<S, A>)
    requires s != []
    ensures Reaches(s, placement, b) <==> Reaches(s[..|s| - 1], placement, b) || SlabReached(s[|s| - 1], placement, b)
  {
    var n := |s| - 1;
    if j :| 0 <= j < |s| && SlabReached(s[j], placement, b) {
      if j < n {
        assert s[..n][j] == s[j];
      }
    }
    if j :| 0 <= j < n && SlabReached(s[..n][j], placement, b) {
      assert s[j] == s[..n][j];
    }
  }

  /** Every sample a sampler returns carries the name it was given. */
  ghost predicate LabelsWithName<S(!new), A>(sampler: (S, AI.Adsorbate, string) -> seq<SR.Adslab<A>>) {
    forall slab, ads, name, k :: 0 <= k < |sampler(slab, ads, name)| ==> sampler(slab, ads, name)[k].name == name
  }

  lemma {:induction false} SamplesLabelled<S(!new), A, C>(slab: S, slabName: string, ads: seq<string>, keys: seq<string>,
                                                           sampler: (S, AI.Adsorbate, string) -> seq<SR.Adslab<A>>,
                                                           m: map<string, C>, c: C)
    requires LabelsWithName(sampler)
    requires AllResolve(ads, keys)
    ensures m.Keys <= Labelled(m, slabName, ads, c).Keys
    ensures forall k :: 0 <= k < |SamplesFor(slab, slabName, ads, keys, sampler)| ==>
              SamplesFor(slab, slabName, ads, keys, sampler)[k].name in Labelled(m, slabName, ads, c)
    decreases |ads|
  {
    if ads != [] {
      SamplesLabelled(slab, slabName, ads[..|ads| - 1], keys, sampler, m, c);
    }
  }

  /** With candidates given, every collected adslab's name is a key of the mapping, so each
      calculated energy can be traced back to its candidate. */
  lemma {:induction false} CollectMapsEveryName<S(!new), A, C>(s: seq<Option<seq<string>>>, ads: seq<string>,
                                                                candidates: Option<seq<C>>, placement: Option<string>,
                                                                b: Builders<S, A>, c: Collection<A, C>)
    requires LabelsWithName(b.sample) && LabelsWithName(b.sampleHeuristic)
    requires candidates.Some?
    requires Collect(s, ads, candidates, placement, b) == Ok(c)
    ensures forall k :: 0 <= k < |c.adslabs| ==> c.adslabs[k].name in c.mapping
    decreases |s|
  {
    if s != [] {
      var n := |s| - 1;
      var prev := Collect(s[..n], ads, candidates, placement, b);
      CollectMapsEveryName(s[..n], ads, candidates, placement, b, prev.value);
      if s[n].Some? {
        var name := ReduceCandidateSymbols(s[n].value).value;
        var slab := SlabFor(s[n].value, name, b);
        if slab.Some? && Places(placement) && ads != [] {
          SamplesLabelled(slab.value, name, ads, b.adsKeys, Sampler(placement, b), prev.value.mapping, candidates.value[n]);
        }
      }
    }
  }

  /** Without candidates the mapping stays empty. */
  lemma {:induction false} CollectNoCandidates<S, A, C>(s: seq<Option<seq<string>>>, ads: seq<string>,
                                                         placement: Option<string>, b: Builders<S, A>)
    requires Collect<S, A, C>(s, ads, None, placement, b).Ok?
    ensures Collect<S, A, C>(s, ads, None, placement, b).value.mapping == map[]
    decreases |s|
  {
    if s != [] {
      CollectNoCandidates<S, A, C>(s[..|s| - 1], ads, placement, b);
    }
  }
}
