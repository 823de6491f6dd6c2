/** The bookkeeping of `StructureReward` in src/search/reward/simulation_reward.py: the
    gcd-reduced metal formula, batching the samples that are not cached, reading
    `(idx, name)` back from trajectory paths, and sample indexing.

    Atoms objects are an opaque type `A`; the relaxation and adsorption calculation is the
    function `calculate`; the trajectory directory is the predicate `trajExists` and the
    `adsorption.json` lookup is `stored`. */
module SimulationReward {
  import opened Wrappers
  import opened PyStr
  import opened Paths
  import opened NumberTheory
  import opened SymbolCounts
  import opened Batching

  datatype RewardError = TypeError | IndexError

  /** One sample `(idx, name, adslab)`. */
  datatype Adslab<A> = Adslab(idx: int, name: string, atoms: A)

  /** One result `(idx, name, energy)`, with idx and name read back from the trajectory path. */
  datatype Energy<E> = Energy(idx: string, name: string, energy: E)

  // ------------------------------------------------------------------ reduce_metal_symbols

  /** The counts in key order: the list handed to `reduce(math.gcd, ...)`. */
  function Values(keys: seq<string>, tally: map<string, nat>): (r: seq<nat>)
    requires forall k :: k in keys ==> k in tally
    ensures |r| == |keys| && forall i :: 0 <= i < |keys| ==> r[i] == tally[keys[i]]
  {
    seq(|keys|, i requires 0 <= i < |keys| => tally[keys[i]])
  }

  /** The formula text for keys `ks`, each followed by its count divided by `g`. */
  function Spell(ks: seq<string>, tally: map<string, nat>, g: nat): string
    requires g > 0 && forall k :: k in ks ==> k in tally
  {
    if ks == [] then ""
    else
      var last := ks[|ks| - 1];
      Spell(ks[..|ks| - 1], tally, g) + last + IntToString(tally[last] / g)
  }

  predicate PositiveTally(keys: seq<string>, tally: map<string, nat>) {
    forall k :: k in keys ==> k in tally && tally[k] > 0
  }

  /** The formula for a count dict with keys `keys`: the keys alphabetically, each followed
      by its count divided by the gcd of all counts; no keys is a TypeError from `reduce`. */
  function Formula(keys: seq<string>, tally: map<string, nat>): Result<string, RewardError>
    requires PositiveTally(keys, tally)
  {
    if keys == [] then Err(TypeError)
    else
      var values := Values(keys, tally);
      ListGcdDivides(values);
      var sorted := SortStrings(keys);
      SortedKeysIn(keys, tally);
      Ok(Spell(sorted, tally, ListGcd(values)))
  }

  lemma SortedKeysIn(keys: seq<string>, tally: map<string, nat>)
    requires forall k :: k in keys ==> k in tally
    ensures forall k :: k in SortStrings(keys) ==> k in tally
  {
    forall k | k in SortStrings(keys)
      ensures k in tally
    {
      assert k in multiset(SortStrings(keys));
    }
  }

  /** The loop that writes the formula: each key in turn, followed by its reduced count. */
  method SpellFormula(sorted: seq<string>, counts: map<string, nat>, gcd: nat) returns (formula: string)
    requires gcd > 0 && forall k :: k in sorted ==> k in counts
    ensures formula == Spell(sorted, counts, gcd)
  {
    formula := "";
    var j := 0;
    while j < |sorted|
      invariant 0 <= j <= |sorted|
      invariant formula == Spell(sorted[..j], counts, gcd)
    {
      assert sorted[..j + 1][..j] == sorted[..j];
      formula := formula + sorted[j] + IntToString(counts[sorted[j]] / gcd);
      j := j + 1;
    }
    assert sorted[..j] == sorted;
  }

  /** `reduce_metal_symbols` for atoms with the chemical symbols `symbols`. */
  function MetalFormula(symbols: seq<string>): (r: Result<string, RewardError>)
    ensures r.Err? <==> symbols == []
    ensures r.Err? ==> r.error == TypeError
  {
    Formula(Distinct(symbols), Tally(symbols))
  }

  /** `StructureReward.reduce_metal_symbols`: count the symbols, then write the formula. */
  method ReduceMetalSymbols(symbols: seq<string>) returns (r: Result<string, RewardError>)
    ensures r == MetalFormula(symbols)
    ensures r.Err? <==> symbols == []
  {
    var keys, counts := CountSymbols(symbols);
    if keys == [] {
      return Err(TypeError);
    }
    var values := Values(keys, counts);
    ListGcdDivides(values);
    var gcd := ListGcd(values);
    var sorted := SortStrings(keys);
    SortedKeysIn(keys, counts);
    var formula := SpellFormula(sorted, counts, gcd);
    return Ok(formula);
  }

  function ScaleTally(tally: map<string, nat>, m: nat): (t: map<string, nat>)
    ensures t.Keys == tally.Keys && forall k :: k in tally ==> t[k] == m * tally[k]
  {
    map k | k in tally :: m * tally[k]
  }

  lemma {:induction false} SpellAgree(ks: seq<string>, t1: map<string, nat>, g1: nat, t2: map<string, nat>, g2: nat)
    requires g1 > 0 && g2 > 0
    requires forall k :: k in ks ==> k in t1 && k in t2 && t1[k] / g1 == t2[k] / g2
    ensures Spell(ks, t1, g1) == Spell(ks, t2, g2)
  {
    if ks != [] {
      SpellAgree(ks[..|ks| - 1], t1, g1, t2, g2);
    }
  }

  /** Multiplying every count by the same factor leaves the formula unchanged. */
  lemma FormulaScaleInvariant(keys: seq<string>, tally: map<string, nat>, m: nat)
    requires PositiveTally(keys, tally) && m > 0
    ensures PositiveTally(keys, ScaleTally(tally, m))
    ensures Formula(keys, ScaleTally(tally, m)) == Formula(keys, tally)
  {
    var scaled := ScaleTally(tally, m);
    forall k | k in keys
      ensures scaled[k] > 0
    {
      MulBounds(m, tally[k]);
    }
    if keys != [] {
      var values := Values(keys, tally);
      assert Values(keys, scaled) == Scaled(values, m);
      ListGcdDivides(values);
      ListGcdScale(values, m);
      var g := ListGcd(values);
      SortedKeysIn(keys, tally);
      ScaledCountsAgree(SortStrings(keys), tally, m, g);
      SpellAgree(SortStrings(keys), scaled, m * g, tally, g);
    }
  }

  /** Scaling a count and the divisor by the same factor keeps the quotient. */
  lemma ScaledCountsAgree(ks: seq<string>, tally: map<string, nat>, m: nat, g: nat)
    requires m > 0 && g > 0 && forall k :: k in ks ==> k in tally
    ensures m * g > 0
    ensures forall k :: k in ks ==> k in ScaleTally(tally, m) && ScaleTally(tally, m)[k] / (m * g) == tally[k] / g
  {
    MulBounds(m, g);
    forall k | k in ks
      ensures ScaleTally(tally, m)[k] / (m * g) == tally[k] / g
    {
      DivModScale(tally[k], g, m);
    }
  }

  /** The counts the formula writes, divided by their gcd, have gcd 1. */
  lemma FormulaCountsCoprime(keys: seq<string>, tally: map<string, nat>)
    requires PositiveTally(keys, tally) && keys != []
    ensures ListGcd(Values(keys, tally)) > 0
    ensures ListGcd(Quotients(Values(keys, tally), ListGcd(Values(keys, tally)))) == 1
  {
    ReducedListGcdIsOne(Values(keys, tally));
  }

  /** The formula depends only on which atoms there are, not on their order. */
  lemma MetalFormulaOrderIndependent(s: seq<string>, t: seq<string>)
    requires multiset(s) == multiset(t)
    ensures MetalFormula(s) == MetalFormula(t)
  {
    assert Tally(t) == Tally(s);
    DistinctSameElements(s, t);
    FormulaSameKeys(Distinct(s), Distinct(t), Tally(s));
  }

  /** Key lists that are permutations of each other give the same formula. */
  lemma FormulaSameKeys(ks: seq<string>, kt: seq<string>, tally: map<string, nat>)
    requires PositiveTally(ks, tally) && multiset(ks) == multiset(kt)
    ensures PositiveTally(kt, tally)
    ensures Formula(ks, tally) == Formula(kt, tally)
  {
    SameElements(ks, kt);
    SortStringsDependsOnElements(ks, kt);
    if ks != [] {
      assert ks[0] in kt;
      ValuesSubset(ks, kt, tally);
      ValuesSubset(kt, ks, tally);
      ListGcdSameElements(Values(ks, tally), Values(kt, tally));
    } else {
      assert |kt| == |multiset(kt)|;
    }
  }

  lemma SameElements(a: seq<string>, b: seq<string>)
    requires multiset(a) == multiset(b)
    ensures forall x :: x in a <==> x in b
  {
    forall x
      ensures x in a <==> x in b
    {
      assert x in a <==> x in multiset(a);
      assert x in b <==> x in multiset(b);
    }
  }

  /** Every count listed for `ks` is also listed for a key list that holds all of `ks`. */
  lemma ValuesSubset(ks: seq<string>, kt: seq<string>, tally: map<string, nat>)
    requires forall k :: k in ks ==> k in kt
    requires forall k :: k in kt ==> k in tally
    ensures forall v :: v in Values(ks, tally) ==> v in Values(kt, tally)
  {
    var vs, vt := Values(ks, tally), Values(kt, tally);
    forall v | v in vs
      ensures v in vt
    {
      var i :| 0 <= i < |vs| && vs[i] == v;
      assert ks[i] in kt;
      var j :| 0 <= j < |kt| && kt[j] == ks[i];
      assert vt[j] == v;
    }
  }

  // ------------------------------------------------------------------ trajectory names

  /** `str(Path(f"{name}") / f"{idx}")`: where a sample's trajectory is kept. */
  function TrajName<A>(a: Adslab<A>): string {
    Joined(a.name, IntToString(a.idx))
  }

  /** `(idx, name)` as the inputs give them and as the results report them. */
  function InputKey<A>(a: Adslab<A>): (string, string) {
    (IntToString(a.idx), a.name)
  }

  function PathKey(fname: string): (string, string) {
    (Stem(fname), Parent(fname))
  }

  /** `unpack_batch_results` recovers `(idx, name)` from the trajectory path of a sample. */
  lemma TrajNameRoundTrip<A>(a: Adslab<A>)
    requires a.name != []
    ensures PathKey(TrajName(a)) == InputKey(a)
  {
    NumeralChars(a.idx);
    JoinedParts(a.name, IntToString(a.idx));
    StemOfJoined(a.name, IntToString(a.idx));
  }

  /** Samples of one name with distinct indices get distinct trajectory paths. */
  lemma TrajNamesDistinct<A>(a: Adslab<A>, b: Adslab<A>)
    requires a.name == b.name && a.idx != b.idx && a.idx >= 0 && b.idx >= 0
    ensures TrajName(a) != TrajName(b)
  {
    if TrajName(a) == TrajName(b) {
      var n := |a.name| + 1;
      assert TrajName(a)[n..] == IntToString(a.idx);
      assert TrajName(b)[n..] == IntToString(b.idx);
      NatToStringInjective(a.idx, b.idx);
    }
  }

  // ------------------------------------------------------------------ batching

  /** A sample is served from the cache when its `.traj` file exists and `adsorption.json`
      in its directory holds an adsorption energy under its idx. */
  predicate Cached<E>(fname: string, trajExists: string -> bool, stored: (string, string) -> Option<E>) {
    trajExists(fname + ".traj") && stored(Parent(fname), Stem(fname)).Some?
  }

  /** The trajectory paths of the samples that go to a batch, in input order. */
  function Queued<A, E>(adslabs: seq<Adslab<A>>, trajExists: string -> bool, stored: (string, string) -> Option<E>): seq<string> {
    if adslabs == [] then []
    else
      var f := TrajName(adslabs[|adslabs| - 1]);
      Queued(adslabs[..|adslabs| - 1], trajExists, stored) + (if Cached(f, trajExists, stored) then [] else [f])
  }

  function ResultKeys<E>(rs: seq<Energy<E>>): (r: seq<(string, string)>)
    ensures |r| == |rs| && forall i :: 0 <= i < |rs| ==> r[i] == (rs[i].idx, rs[i].name)
  {
    seq(|rs|, i requires 0 <= i < |rs| => (rs[i].idx, rs[i].name))
  }

  function PathKeys(fs: seq<string>): (r: seq<(string, string)>)
    ensures |r| == |fs| && forall i :: 0 <= i < |fs| ==> r[i] == PathKey(fs[i])
  {
    seq(|fs|, i requires 0 <= i < |fs| => PathKey(fs[i]))
  }

  function InputKeys<A>(adslabs: seq<Adslab<A>>): (r: seq<(string, string)>)
    ensures |r| == |adslabs| && forall i :: 0 <= i < |adslabs| ==> r[i] == InputKey(adslabs[i])
  {
    seq(|adslabs|, i requires 0 <= i < |adslabs| => InputKey(adslabs[i]))
  }

  predicate Named<A>(adslabs: seq<Adslab<A>>) {
    forall i :: 0 <= i < |adslabs| ==> adslabs[i].name != []
  }

  /** The calculator returns one result per atoms object. */
  ghost predicate OneResultEach<A(!new), E>(calculate: (seq<A>, seq<string>) -> seq<E>) {
    forall atoms: seq<A>, fnames: seq<string> :: |atoms| == |fnames| ==> |calculate(atoms, fnames)| == |atoms|
  }

  /** The result tuple `unpack_batch_results` builds from a path and a calculator result. */
  function ReadBack<E>(fname: string, res: E): Energy<E> {
    Energy(Stem(fname), Parent(fname), res)
  }

  /** `unpack_batch_results`: pair the i-th result with the idx and name read back from the
      i-th path; a result without a path is an IndexError. */
  method UnpackBatchResults<E>(batchResults: seq<E>, fnameBatch: seq<string>) returns (r: Result<seq<Energy<E>>, RewardError>)
    ensures r.Err? <==> |batchResults| > |fnameBatch|
    ensures r.Err? ==> r.error == IndexError
    ensures r.Ok? ==> |r.value| == |batchResults|
                      && forall i :: 0 <= i < |batchResults| ==> r.value[i] == ReadBack(fnameBatch[i], batchResults[i])
  {
    var results: seq<Energy<E>> := [];
    var i := 0;
    while i < |batchResults|
      invariant 0 <= i <= |batchResults| && i <= |fnameBatch|
      invariant |results| == i
      invariant forall j :: 0 <= j < i ==> results[j] == ReadBack(fnameBatch[j], batchResults[j])
    {
      if i >= |fnameBatch| {
        return Err(IndexError);
      }
      results := results + [ReadBack(fnameBatch[i], batchResults[i])];
      i := i + 1;
    }
    return Ok(results);
  }

  lemma UnpackedKeys<E>(unpacked: seq<Energy<E>>, batchResults: seq<E>, fnameBatch: seq<string>)
    requires |unpacked| == |batchResults| == |fnameBatch|
    requires forall i :: 0 <= i < |batchResults| ==> unpacked[i] == ReadBack(fnameBatch[i], batchResults[i])
    ensures ResultKeys(unpacked) == PathKeys(fnameBatch)
  {
  }

  lemma QueuedStep<A, E>(adslabs: seq<Adslab<A>>, i: nat, trajExists: string -> bool, stored: (string, string) -> Option<E>)
    requires i < |adslabs|
    ensures var f := TrajName(adslabs[i]);
            Queued(adslabs[..i + 1], trajExists, stored)
              == Queued(adslabs[..i], trajExists, stored) + (if Cached(f, trajExists, stored) then [] else [f])
  {
    assert adslabs[..i + 1][..i] == adslabs[..i];
  }

  /** Every sample seen so far is accounted for once: by a result or by a queued path. */
  predicate Accounted<A, E>(results: seq<Energy<E>>, fnameBatch: seq<string>, done: seq<Adslab<A>>) {
    multiset(ResultKeys(results)) + multiset(PathKeys(fnameBatch)) == multiset(InputKeys(done))
  }

  lemma AccountQueued<A, E>(results: seq<Energy<E>>, fnameBatch: seq<string>, adslabs: seq<Adslab<A>>, i: nat)
    requires i < |adslabs| && adslabs[i].name != []
    requires Accounted(results, fnameBatch, adslabs[..i])
    ensures Accounted(results, fnameBatch + [TrajName(adslabs[i])], adslabs[..i + 1])
  {
    TrajNameRoundTrip(adslabs[i]);
    PathKeysSnoc(fnameBatch, TrajName(adslabs[i]));
    InputKeysSnoc(adslabs, i);
    Recount(ResultKeys(results), PathKeys(fnameBatch), InputKeys(adslabs[..i]), InputKey(adslabs[i]));
  }

  lemma AccountCached<A, E>(results: seq<Energy<E>>, fnameBatch: seq<string>, adslabs: seq<Adslab<A>>, i: nat, e: E)
    requires i < |adslabs| && adslabs[i].name != []
    requires Accounted(results, fnameBatch, adslabs[..i])
    ensures Accounted(results + [ReadBack(TrajName(adslabs[i]), e)], fnameBatch, adslabs[..i + 1])
  {
    TrajNameRoundTrip(adslabs[i]);
    ResultKeysAppend(results, [ReadBack(TrajName(adslabs[i]), e)]);
    InputKeysSnoc(adslabs, i);
    Recount(ResultKeys(results), PathKeys(fnameBatch), InputKeys(adslabs[..i]), InputKey(adslabs[i]));
  }

  lemma AccountDispatched<A, E>(results: seq<Energy<E>>, unpacked: seq<Energy<E>>, fnameBatch: seq<string>, done: seq<Adslab<A>>)
    requires Accounted(results, fnameBatch, done) && ResultKeys(unpacked) == PathKeys(fnameBatch)
    ensures Accounted(results + unpacked, [], done)
  {
    ResultKeysAppend(results, unpacked);
    assert PathKeys([]) == [];
  }

  lemma InputKeysSnoc<A>(adslabs: seq<Adslab<A>>, i: nat)
    requires i < |adslabs|
    ensures InputKeys(adslabs[..i + 1]) == InputKeys(adslabs[..i]) + [InputKey(adslabs[i])]
  {
  }

  lemma PathKeysSnoc(fs: seq<string>, f: string)
    ensures PathKeys(fs + [f]) == PathKeys(fs) + [PathKey(f)]
  {
  }

  lemma ResultKeysAppend<E>(a: seq<Energy<E>>, b: seq<Energy<E>>)
    ensures ResultKeys(a + b) == ResultKeys(a) + ResultKeys(b)
  {
  }

  /** One more key on both sides of a balanced count keeps it balanced. */
  lemma Recount<K>(a: seq<K>, b: seq<K>, c: seq<K>, k: K)
    requires multiset(a) + multiset(b) == multiset(c)
    ensures multiset(a + [k]) + multiset(b) == multiset(c + [k])
    ensures multiset(a) + multiset(b + [k]) == multiset(c + [k])
  {
  }

  /** The cache check for one sample: the stored result when its trajectory file exists and
      `adsorption.json` has its energy. */
  method LookUpCached<E>(fname: string, trajExists: string -> bool, stored: (string, string) -> Option<E>)
    returns (hit: Option<Energy<E>>)
    ensures hit.Some? <==> Cached(fname, trajExists, stored)
    ensures hit.Some? ==> hit.value == ReadBack(fname, stored(Parent(fname), Stem(fname)).value)
  {
    if !trajExists(fname + ".traj") {
      return None;
    }
    var idx := Stem(fname);
    var name := Parent(fname);
    var energy := stored(name, idx);
    if energy.Some? {
      return Some(Energy(idx, name, energy.value));
    }
    return None;
  }

  /** One call of the calculator on a full batch, and its results unpacked. */
  method CalculateBatch<A(!new), E>(adslabBatch: seq<A>, fnameBatch: seq<string>, calculate: (seq<A>, seq<string>) -> seq<E>)
    returns (unpacked: Result<seq<Energy<E>>, RewardError>)
    ensures unpacked.Err? ==> unpacked.error == IndexError
    ensures OneResultEach(calculate) && |adslabBatch| == |fnameBatch| ==>
              unpacked.Ok? && ResultKeys(unpacked.value) == PathKeys(fnameBatch)
  {
    var batchResults := calculate(adslabBatch, fnameBatch);
    unpacked := UnpackBatchResults(batchResults, fnameBatch);
    if OneResultEach(calculate) && |adslabBatch| == |fnameBatch| {
      assert |batchResults| == |fnameBatch|;
      UnpackedKeys(unpacked.value, batchResults, fnameBatch);
    }
  }

  /** What holds after the first `i` samples: the paths queued so far are the dispatched
      batches followed by the open batch, every dispatched batch is full, and (when the
      calculator answers every atoms object) each sample so far is accounted for once. */
  ghost predicate Progress<A(!new), E>(adslabs: seq<Adslab<A>>, i: int, batchSize: int, trajExists: string -> bool,
                                      stored: (string, string) -> Option<E>, calculate: (seq<A>, seq<string>) -> seq<E>,
                                      results: seq<Energy<E>>, adslabBatch: seq<A>, fnameBatch: seq<string>, dispatched: seq<seq<string>>)
  {
    && 0 <= i <= |adslabs|
    && |adslabBatch| == |fnameBatch|
    && Flatten(dispatched) + fnameBatch == Queued(adslabs[..i], trajExists, stored)
    && (batchSize > 0 ==> |fnameBatch| < batchSize && forall j :: 0 <= j < |dispatched| ==> |dispatched[j]| == batchSize)
    && (OneResultEach(calculate) && Named(adslabs) ==> Accounted(results, fnameBatch, adslabs[..i]))
  }

  /** One turn of the sample loop: the cache check for sample `i`, then the dispatch of the
      batch when it has reached `batch_size`. */
  method VisitSample<A(!new), E>(adslabs: seq<Adslab<A>>, i: int, batchSize: int, trajExists: string -> bool,
                                 stored: (string, string) -> Option<E>, calculate: (seq<A>, seq<string>) -> seq<E>,
                                 results: seq<Energy<E>>, adslabBatch: seq<A>, fnameBatch: seq<string>, dispatched: seq<seq<string>>)
    returns (failed: bool, results': seq<Energy<E>>, adslabBatch': seq<A>, fnameBatch': seq<string>, dispatched': seq<seq<string>>)
    requires Progress(adslabs, i, batchSize, trajExists, stored, calculate, results, adslabBatch, fnameBatch, dispatched)
    requires i < |adslabs|
    ensures failed ==> !(OneResultEach(calculate) && Named(adslabs))
    ensures !failed ==> Progress(adslabs, i + 1, batchSize, trajExists, stored, calculate, results', adslabBatch', fnameBatch', dispatched')
  {
    ghost var counted := OneResultEach(calculate) && Named(adslabs);
    results', adslabBatch', fnameBatch', dispatched' := results, adslabBatch, fnameBatch, dispatched;
    var a := adslabs[i];
    var fname := TrajName(a);
    QueuedStep(adslabs, i, trajExists, stored);
    var hit := LookUpCached(fname, trajExists, stored);
    if hit.Some? {
      if counted { AccountCached(results, fnameBatch, adslabs, i, hit.value.energy); }
      results' := results + [hit.value];
    } else {
      if counted { AccountQueued(results, fnameBatch, adslabs, i); }
      adslabBatch' := adslabBatch + [a.atoms];
      fnameBatch' := fnameBatch + [fname];
    }
    if |adslabBatch'| == batchSize {
      var unpacked := CalculateBatch(adslabBatch', fnameBatch', calculate);
      if unpacked.Err? {
        return true, results', adslabBatch', fnameBatch', dispatched';
      }
      if counted {
        AccountDispatched(results', unpacked.value, fnameBatch', adslabs[..i + 1]);
      }
      FlattenAppend(dispatched', fnameBatch');
      ChunkedStep(dispatched', fnameBatch', batchSize);
      results' := results' + unpacked.value;
      dispatched' := dispatched' + [fnameBatch'];
      adslabBatch' := [];
      fnameBatch' := [];
      assert Flatten(dispatched') + fnameBatch' == Flatten(dispatched');
    }
    failed := false;
  }

  /** `create_batches_and_calculate`: cached samples are answered from the cache, the others
      are queued and sent to the calculator in batches of `batch_size`, with one final
      remainder. `dispatched` lists the path batches handed to the calculator. */
  method CreateBatchesAndCalculate<A(!new), E>(adslabs: seq<Adslab<A>>, batchSize: int, trajExists: string -> bool,
                                         stored: (string, string) -> Option<E>, calculate: (seq<A>, seq<string>) -> seq<E>)
    returns (r: Result<seq<Energy<E>>, RewardError>, dispatched: seq<seq<string>>)
    ensures r.Err? ==> r.error == IndexError
    ensures r.Ok? ==> Flatten(dispatched) == Queued(adslabs, trajExists, stored)
    ensures r.Ok? && batchSize > 0 ==> Chunked(dispatched, batchSize)
    ensures OneResultEach(calculate) && Named(adslabs) ==>
              r.Ok? && multiset(ResultKeys(r.value)) == multiset(InputKeys(adslabs))
  {
    var results: seq<Energy<E>> := [];
    var adslabBatch: seq<A> := [];
    var fnameBatch: seq<string> := [];
    dispatched := [];
    var i := 0;
    while i < |adslabs|
      invariant Progress(adslabs, i, batchSize, trajExists, stored, calculate, results, adslabBatch, fnameBatch, dispatched)
    {
      var failed;
      failed, results, adslabBatch, fnameBatch, dispatched :=
        VisitSample(adslabs, i, batchSize, trajExists, stored, calculate, results, adslabBatch, fnameBatch, dispatched);
      if failed {
        return Err(IndexError), dispatched;
      }
      i := i + 1;
    }
    r, dispatched := FlushRemainder(adslabs, batchSize, trajExists, stored, calculate, results, adslabBatch, fnameBatch, dispatched);
  }

  /** After the loop: the last, partial batch goes to the calculator if it is not empty. */
  method FlushRemainder<A(!new), E>(adslabs: seq<Adslab<A>>, batchSize: int, trajExists: string -> bool,
                                    stored: (string, string) -> Option<E>, calculate: (seq<A>, seq<string>) -> seq<E>,
                                    results: seq<Energy<E>>, adslabBatch: seq<A>, fnameBatch: seq<string>, dispatched: seq<seq<string>>)
    returns (r: Result<seq<Energy<E>>, RewardError>, dispatched': seq<seq<string>>)
    requires Progress(adslabs, |adslabs|, batchSize, trajExists, stored, calculate, results, adslabBatch, fnameBatch, dispatched)
    ensures r.Err? ==> r.error == IndexError
    ensures r.Ok? ==> Flatten(dispatched') == Queued(adslabs, trajExists, stored)
    ensures r.Ok? && batchSize > 0 ==> Chunked(dispatched', batchSize)
    ensures OneResultEach(calculate) && Named(adslabs) ==>
              r.Ok? && multiset(ResultKeys(r.value)) == multiset(InputKeys(adslabs))
  {
    assert adslabs[..|adslabs|] == adslabs;
    dispatched' := dispatched;
    if |adslabBatch| > 0 {
      var unpacked := CalculateBatch(adslabBatch, fnameBatch, calculate);
      if unpacked.Err? {
        return Err(unpacked.error), dispatched';
      }
      if OneResultEach(calculate) && Named(adslabs) {
        AccountDispatched(results, unpacked.value, fnameBatch, adslabs);
      }
      FlattenAppend(dispatched, fnameBatch);
      RemainderStep(dispatched, fnameBatch, batchSize);
      dispatched' := dispatched + [fnameBatch];
      return Ok(results + unpacked.value), dispatched';
    }
    assert Flatten(dispatched) + fnameBatch == Flatten(dispatched);
    FullChunks(dispatched, batchSize);
    if OneResultEach(calculate) && Named(adslabs) {
      assert multiset(PathKeys(fnameBatch)) == multiset{};
    }
    return Ok(results), dispatched';
  }

  // ------------------------------------------------------------------ sample_adslabs

  /** `sample_adslabs(slab, ads, name, num_samples)`: `num_samples` samples, indexed from 0,
      all under `name`; `sample(i)` is the i-th random placement. */
  method SampleAdslabs<A>(name: string, numSamples: int, sample: int -> A) returns (adslabs: seq<Adslab<A>>)
    ensures |adslabs| == if numSamples > 0 then numSamples else 0
    ensures forall i :: 0 <= i < |adslabs| ==> adslabs[i] == Adslab(i, name, sample(i))
  {
    adslabs := [];
    var i := 0;
    while i < numSamples
      invariant 0 <= i <= (if numSamples > 0 then numSamples else 0) && |adslabs| == i
      invariant forall j :: 0 <= j < i ==> adslabs[j] == Adslab(j, name, sample(j))
    {
      adslabs := adslabs + [Adslab(i, name, sample(i))];
      i := i + 1;
    }
  }

  /** The samples of one name have pairwise distinct trajectory paths, so none overwrites
      another's cache entry. */
  lemma SampledTrajNamesDistinct<A>(adslabs: seq<Adslab<A>>, name: string)
    requires forall i :: 0 <= i < |adslabs| ==> adslabs[i].idx == i && adslabs[i].name == name
    ensures forall i, j :: 0 <= i < j < |adslabs| ==> TrajName(adslabs[i]) != TrajName(adslabs[j])
  {
    forall i, j | 0 <= i < j < |adslabs|
      ensures TrajName(adslabs[i]) != TrajName(adslabs[j])
    {
      TrajNamesDistinct(adslabs[i], adslabs[j]);
    }
  }
}
