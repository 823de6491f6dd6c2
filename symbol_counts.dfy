/** The element count both `reduce_metal_symbols` functions build: a dict from symbol to
    number of atoms, whose keys keep the order in which the symbols first appear. */
module SymbolCounts {

  /** The position of the first `x` in `s`. */
  function FirstIndex(s: seq<string>, x: string): (i: nat)
    requires x in s
    ensures i < |s| && s[i] == x
    ensures forall j :: 0 <= j < i ==> s[j] != x
  {
    if s[0] == x then 0 else 1 + FirstIndex(s[1..], x)
  }

  lemma FirstIndexInPrefix(s: seq<string>, n: nat, x: string)
    requires n <= |s| && x in s[..n]
    ensures FirstIndex(s, x) == FirstIndex(s[..n], x)
  {
    var i := FirstIndex(s[..n], x);
    assert s[i] == x;
    forall j | 0 <= j < i
      ensures s[j] != x
    {
      assert s[..n][j] == s[j];
    }
  }

  /** The distinct symbols of `s` in order of first appearance: the keys of the count dict. */
  function Distinct(s: seq<string>): (r: seq<string>)
    ensures forall x :: x in r <==> x in s
    ensures forall a, b :: 0 <= a < b < |r| ==> r[a] != r[b]
    ensures forall a, b :: 0 <= a < b < |r| ==> FirstIndex(s, r[a]) < FirstIndex(s, r[b])
  {
    if s == [] then []
    else
      var init := s[..|s| - 1];
      var last := s[|s| - 1];
      var f := Distinct(init);
      assert s == init + [last];
      assert forall x :: x in init ==> FirstIndex(s, x) == FirstIndex(init, x) by {
        forall x | x in init ensures FirstIndex(s, x) == FirstIndex(init, x) {
          FirstIndexInPrefix(s, |s| - 1, x);
        }
      }
      if last in f then f
      else
        assert FirstIndex(s, last) == |s| - 1;
        f + [last]
  }

  /** The count dict's contents: every symbol of `s` with its number of occurrences. */
  function Tally(s: seq<string>): (t: map<string, nat>)
    ensures forall x :: x in t <==> x in s
    ensures forall x :: x in t ==> t[x] == multiset(s)[x] && t[x] > 0
  {
    map x | x in multiset(s) :: multiset(s)[x]
  }

  lemma DistinctAppend(s: seq<string>, x: string)
    ensures Distinct(s + [x]) == if x in s then Distinct(s) else Distinct(s) + [x]
  {
    assert (s + [x])[..|s + [x]| - 1] == s;
  }

  lemma TallyAppend(s: seq<string>, x: string)
    ensures Tally(s + [x]) == Tally(s)[x := if x in s then Tally(s)[x] + 1 else 1]
  {
    assert multiset(s + [x]) == multiset(s) + multiset{x};
  }

  lemma CountStep(symbols: seq<string>, i: nat)
    requires i < |symbols|
    ensures var p, x := symbols[..i], symbols[i];
            && Distinct(symbols[..i + 1]) == (if x in Tally(p) then Distinct(p) else Distinct(p) + [x])
            && Tally(symbols[..i + 1]) == Tally(p)[x := if x in Tally(p) then Tally(p)[x] + 1 else 1]
  {
    assert symbols[..i + 1] == symbols[..i] + [symbols[i]];
    DistinctAppend(symbols[..i], symbols[i]);
    TallyAppend(symbols[..i], symbols[i]);
  }

  /** A sequence without repetitions holds each of its elements once. */
  lemma {:induction false} DistinctMultiset(r: seq<string>)
    requires forall a, b :: 0 <= a < b < |r| ==> r[a] != r[b]
    ensures forall x :: multiset(r)[x] == if x in r then 1 else 0
  {
    if r != [] {
      var init := r[..|r| - 1];
      DistinctMultiset(init);
      assert r == init + [r[|r| - 1]];
      assert r[|r| - 1] !in init;
    }
  }

  /** The keys depend only on the elements, up to order: two symbol lists with the same
      elements have key lists that are permutations of each other. */
  lemma DistinctSameElements(s: seq<string>, t: seq<string>)
    requires multiset(s) == multiset(t)
    ensures multiset(Distinct(s)) == multiset(Distinct(t))
  {
    DistinctMultiset(Distinct(s));
    DistinctMultiset(Distinct(t));
    forall x
      ensures multiset(Distinct(s))[x] == multiset(Distinct(t))[x]
    {
      assert x in s <==> x in multiset(s);
      assert x in t <==> x in multiset(t);
    }
  }

  /** The counting loop: one pass over the symbols, adding a key on first sight and
      incrementing its count afterwards. */
  method CountSymbols(symbols: seq<string>) returns (keys: seq<string>, counts: map<string, nat>)
    ensures keys == Distinct(symbols)
    ensures counts == Tally(symbols)
  {
    keys := [];
    counts := map[];
    var i := 0;
    while i < |symbols|
      invariant 0 <= i <= |symbols|
      invariant keys == Distinct(symbols[..i])
      invariant counts == Tally(symbols[..i])
    {
      var sym := symbols[i];
      CountStep(symbols, i);
      if sym in counts {
        counts := counts[sym := counts[sym] + 1];
      } else {
        counts := counts[sym := 1];
        keys := keys + [sym];
      }
      i := i + 1;
    }
    assert symbols[..i] == symbols;
  }
}
