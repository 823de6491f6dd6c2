/** The beam-search step engine of src/search/methods/tree_search/beam_search.py.

    A `BeamSearchTree` keeps six parallel lists of levels: the retained nodes, their rewards
    and their parents' indices, and the same triple for the successors that were generated
    but not retained. One step expands every node of the last level, pools the successors,
    ranks them by reward and appends one new level to each list.

    The policy, the reward function, the random shuffle of each node's actions and NumPy's
    `argsort` are parameters: the shuffle is a given permutation and `argsort` any function
    that returns an ascending-sorting permutation (ties in any order). */
module BeamSearch {
  import opened PyStr
  import opened Permutations

  /** `policy.get_actions(node)`: the actions for a node and a prior for each. */
  type Policy<!S> = S -> (seq<S -> S>, seq<real>)

  /** `[xs[i] for i in shuffle_idx]`. */
  function Shuffled<T>(xs: seq<T>, shuffle: seq<nat>): (r: seq<T>)
    requires forall t :: 0 <= t < |shuffle| ==> shuffle[t] < |xs|
    ensures |r| == |shuffle|
  {
    seq(|shuffle|, t requires 0 <= t < |shuffle| => xs[shuffle[t]])
  }

  /** What `expand_node` needs of one node: the policy gives as many actions as priors,
      `shuffle` is a shuffle of their positions and `argsort` sorts the shuffled priors. */
  predicate NodeReady<S>(policy: Policy<S>, argsort: seq<real> -> seq<nat>, node: S, shuffle: seq<nat>) {
    && |policy(node).0| == |policy(node).1|
    && IsPermutation(shuffle, |policy(node).1|)
    && IsArgSort(argsort(Shuffled(policy(node).1, shuffle)), Shuffled(policy(node).1, shuffle))
  }

  /** Where Python's `xs[-k:]` starts and `xs[:-k]` ends, for a list of length `n`.
      `k == 0` makes `xs[-0:]` the whole list and `xs[:-0]` empty. */
  function TailStart(n: nat, k: int): (c: nat)
    ensures c <= n
  {
    if k > 0 then (if k >= n then 0 else n - k) else (if -k >= n then n else -k)
  }

  lemma SliceAtTailStart<T>(xs: seq<T>, k: int)
    ensures Slice(xs, -k, |xs|) == xs[TailStart(|xs|, k)..]
    ensures Slice(xs, 0, -k) == xs[..TailStart(|xs|, k)]
  {
  }

  // ------------------------------------------------------------------ expand_node

  /** The successors the loop of `expand_node` builds from the positions in `window`:
      for each position in turn, the action there applied to `node` if its prior is positive. */
  function Applied<S>(node: S, actions: seq<S -> S>, priors: seq<real>, window: seq<nat>): (r: seq<S>)
    requires forall m :: 0 <= m < |window| ==> window[m] < |priors| && window[m] < |actions|
    ensures |r| <= |window|
    ensures (forall m :: 0 <= m < |window| ==> priors[window[m]] > 0.0) ==> |r| == |window|
    decreases |window|
  {
    if window == [] then []
    else
      var i := window[|window| - 1];
      Applied(node, actions, priors, window[..|window| - 1])
        + (if priors[i] > 0.0 then [actions[i](node)] else [])
  }

  /** One more position of the window: its action is applied when its prior is positive. */
  lemma AppliedStep<S>(node: S, actions: seq<S -> S>, priors: seq<real>, window: seq<nat>, k: nat)
    requires forall m :: 0 <= m < |window| ==> window[m] < |priors| && window[m] < |actions|
    requires k < |window|
    ensures Applied(node, actions, priors, window[..k + 1])
            == Applied(node, actions, priors, window[..k])
               + (if priors[window[k]] > 0.0 then [actions[window[k]](node)] else [])
  {
    assert window[..k + 1][..k] == window[..k];
  }

  /** The loop of `expand_node`: walk the window, applying each action whose prior is positive. */
  method ApplyWindow<S>(node: S, actions: seq<S -> S>, priors: seq<real>, window: seq<nat>) returns (newNodes: seq<S>)
    requires forall m :: 0 <= m < |window| ==> window[m] < |priors| && window[m] < |actions|
    ensures newNodes == Applied(node, actions, priors, window)
  {
    newNodes := [];
    var k := 0;
    while k < |window|
      invariant 0 <= k <= |window|
      invariant newNodes == Applied(node, actions, priors, window[..k])
    {
      var i := window[k];
      AppliedStep(node, actions, priors, window, k);
      if priors[i] > 0.0 {
        var a := actions[i];
        newNodes := newNodes + [a(node)];
      }
      k := k + 1;
    }
    assert window[..k] == window;
  }

  /** The top-`numGenerate` positions of the shuffled priors: `np.argsort(priors)[-num_generate:]`. */
  function Window<S>(policy: Policy<S>, argsort: seq<real> -> seq<nat>, numGenerate: int, node: S, shuffle: seq<nat>): (w: seq<nat>)
    requires NodeReady(policy, argsort, node, shuffle)
    ensures forall m :: 0 <= m < |w| ==> w[m] < |shuffle|
  {
    var order := argsort(Shuffled(policy(node).1, shuffle));
    SliceAtTailStart(order, numGenerate);
    Slice(order, -numGenerate, |order|)
  }

  /** The list `expand_node(node)` returns. */
  function Expansion<S>(policy: Policy<S>, argsort: seq<real> -> seq<nat>, numGenerate: int, node: S, shuffle: seq<nat>): (r: seq<S>)
    requires NodeReady(policy, argsort, node, shuffle)
    ensures |r| <= |Window(policy, argsort, numGenerate, node, shuffle)|
    ensures (forall k :: 0 <= k < |policy(node).1| ==> policy(node).1[k] > 0.0) ==>
              |r| == |Window(policy, argsort, numGenerate, node, shuffle)|
  {
    Applied(node, Shuffled(policy(node).0, shuffle), Shuffled(policy(node).1, shuffle),
            Window(policy, argsort, numGenerate, node, shuffle))
  }

  /** The original (unshuffled) indices of the actions applied from `window`, in order. */
  function Picked(priors: seq<real>, shuffle: seq<nat>, window: seq<nat>): (r: seq<nat>)
    requires forall t :: 0 <= t < |shuffle| ==> shuffle[t] < |priors|
    requires forall m :: 0 <= m < |window| ==> window[m] < |shuffle|
    ensures |r| <= |window|
    ensures forall k :: 0 <= k < |r| ==> r[k] < |priors| && priors[r[k]] > 0.0
    decreases |window|
  {
    if window == [] then []
    else
      var j := shuffle[window[|window| - 1]];
      Picked(priors, shuffle, window[..|window| - 1]) + (if priors[j] > 0.0 then [j] else [])
  }

  /** The original indices of the actions `expand_node(node)` applies. */
  function PickedFor<S>(policy: Policy<S>, argsort: seq<real> -> seq<nat>, numGenerate: int, node: S, shuffle: seq<nat>): seq<nat>
    requires NodeReady(policy, argsort, node, shuffle)
  {
    Picked(policy(node).1, shuffle, Window(policy, argsort, numGenerate, node, shuffle))
  }

  lemma {:induction false} AppliedIsPicked<S>(node: S, actions: seq<S -> S>, priors: seq<real>, shuffle: seq<nat>, window: seq<nat>)
    requires |actions| == |priors|
    requires forall t :: 0 <= t < |shuffle| ==> shuffle[t] < |priors|
    requires forall m :: 0 <= m < |window| ==> window[m] < |shuffle|
    ensures var p := Picked(priors, shuffle, window);
            Applied(node, Shuffled(actions, shuffle), Shuffled(priors, shuffle), window)
              == seq(|p|, k requires 0 <= k < |p| => actions[p[k]](node))
    decreases |window|
  {
    if window != [] {
      AppliedIsPicked(node, actions, priors, shuffle, window[..|window| - 1]);
    }
  }

  lemma {:induction false} PickedMembers(priors: seq<real>, shuffle: seq<nat>, window: seq<nat>, x: nat)
    requires forall t :: 0 <= t < |shuffle| ==> shuffle[t] < |priors|
    requires forall m :: 0 <= m < |window| ==> window[m] < |shuffle|
    ensures x in Picked(priors, shuffle, window)
            <==> x < |priors| && priors[x] > 0.0 && exists m :: 0 <= m < |window| && shuffle[window[m]] == x
    decreases |window|
  {
    if window != [] {
      var init, last := window[..|window| - 1], |window| - 1;
      var j := shuffle[window[last]];
      var p := Picked(priors, shuffle, window);
      PickedMembers(priors, shuffle, init, x);
      assert p == Picked(priors, shuffle, init) + (if priors[j] > 0.0 then [j] else []);
      assert x in p ==> exists m :: 0 <= m < |window| && shuffle[window[m]] == x by {
        if x in p {
          if x in Picked(priors, shuffle, init) {
            var m :| 0 <= m < |init| && shuffle[init[m]] == x;
            assert shuffle[window[m]] == x;
          } else {
            assert shuffle[window[last]] == x;
          }
        }
      }
      assert (x < |priors| && priors[x] > 0.0 && exists m :: 0 <= m < |window| && shuffle[window[m]] == x) ==> x in p by {
        if x < |priors| && priors[x] > 0.0 && (exists m :: 0 <= m < |window| && shuffle[window[m]] == x) {
          var m :| 0 <= m < |window| && shuffle[window[m]] == x;
          if m < |init| { assert shuffle[init[m]] == x; }
        }
      }
    }
  }

  /** Every applied action is applied with its own prior, which is positive: the shuffle
      permutes actions and priors with the same index list. */
  lemma ExpansionPairsActionWithPrior<S>(policy: Policy<S>, argsort: seq<real> -> seq<nat>, numGenerate: int, node: S, shuffle: seq<nat>)
    requires NodeReady(policy, argsort, node, shuffle)
    ensures var p := PickedFor(policy, argsort, numGenerate, node, shuffle);
            && Expansion(policy, argsort, numGenerate, node, shuffle)
                 == seq(|p|, k requires 0 <= k < |p| => policy(node).0[p[k]](node))
            && forall k :: 0 <= k < |p| ==> policy(node).1[p[k]] > 0.0
  {
    AppliedIsPicked(node, policy(node).0, policy(node).1, shuffle, Window(policy, argsort, numGenerate, node, shuffle));
  }

  /** With `num_generate > 0`, at most `num_generate` successors come back. */
  lemma ExpansionAtMostNumGenerate<S>(policy: Policy<S>, argsort: seq<real> -> seq<nat>, numGenerate: int, node: S, shuffle: seq<nat>)
    requires NodeReady(policy, argsort, node, shuffle)
    requires numGenerate > 0
    ensures |Expansion(policy, argsort, numGenerate, node, shuffle)| <= numGenerate
  {
    ExpansionPairsActionWithPrior(policy, argsort, numGenerate, node, shuffle);
  }

  /** The top-by-prior argument on plain sequences: from a window that is a suffix of an
      ascending ranking of the shuffled priors, an unpicked index has a prior no larger than
      any picked one. */
  lemma {:induction false} SuffixPicksTop(priors: seq<real>, shuffle: seq<nat>, order: seq<nat>, c: nat, k: nat, j: nat)
    requires IsPermutation(shuffle, |priors|)
    requires IsArgSort(order, Shuffled(priors, shuffle))
    requires c <= |order|
    requires k < |Picked(priors, shuffle, order[c..])| && j < |priors| && j !in Picked(priors, shuffle, order[c..])
    ensures priors[j] <= priors[Picked(priors, shuffle, order[c..])[k]]
  {
    var n := |priors|;
    var w := order[c..];
    var p := Picked(priors, shuffle, w);
    PickedMembers(priors, shuffle, w, p[k]);
    var m :| 0 <= m < |w| && shuffle[w[m]] == p[k];
    var t := PositionOf(shuffle, n, j);
    var u := PositionOf(order, n, t);
    if u >= c {
      assert shuffle[w[u - c]] == j;
      PickedMembers(priors, shuffle, w, j);
    } else {
      var sp := Shuffled(priors, shuffle);
      assert sp[order[u]] <= sp[order[c + m]];
    }
  }

  /** Top-`num_generate` by prior: every applied action's prior is at least the prior of
      every action that is not applied. */
  lemma ExpansionTopByPrior<S>(policy: Policy<S>, argsort: seq<real> -> seq<nat>, numGenerate: int, node: S, shuffle: seq<nat>, k: nat, j: nat)
    requires NodeReady(policy, argsort, node, shuffle)
    requires var p := PickedFor(policy, argsort, numGenerate, node, shuffle);
             k < |p| && j < |policy(node).1| && j !in p
    ensures var p := PickedFor(policy, argsort, numGenerate, node, shuffle);
            policy(node).1[j] <= policy(node).1[p[k]]
  {
    var priors := policy(node).1;
    var order := argsort(Shuffled(priors, shuffle));
    SliceAtTailStart(order, numGenerate);
    SuffixPicksTop(priors, shuffle, order, TailStart(|order|, numGenerate), k, j);
  }

  /** When `num_generate` is 0 or at least the number of actions, every action with a
      positive prior is applied. */
  lemma ExpansionTakesAllWhenFew<S>(policy: Policy<S>, argsort: seq<real> -> seq<nat>, numGenerate: int, node: S, shuffle: seq<nat>, j: nat)
    requires NodeReady(policy, argsort, node, shuffle)
    requires numGenerate == 0 || numGenerate >= |policy(node).1|
    requires j < |policy(node).1| && policy(node).1[j] > 0.0
    ensures j in PickedFor(policy, argsort, numGenerate, node, shuffle)
  {
    var priors := policy(node).1;
    var n := |priors|;
    var order := argsort(Shuffled(priors, shuffle));
    var w := Window(policy, argsort, numGenerate, node, shuffle);
    SliceAtTailStart(order, numGenerate);
    assert w == order;
    var t := PositionOf(shuffle, n, j);
    var u := PositionOf(order, n, t);
    assert shuffle[w[u]] == j;
    PickedMembers(priors, shuffle, w, j);
  }

  // ------------------------------------------------------------------ simulation_policy

  /** One pooled successor: the node, its reward and the index of its parent in the last level. */
  datatype Successor<S> = Successor(node: S, reward: real, parent: nat)

  /** The successors one node contributes: `rewards = [reward_fn(n) for n in next_nodes]`
      and `parent_idx += [i] * len(next_nodes)`. */
  function Successors<S>(next: seq<S>, rewardFn: S -> real, parent: nat): (r: seq<Successor<S>>)
    ensures |r| == |next|
  {
    seq(|next|, k requires 0 <= k < |next| => Successor(next[k], rewardFn(next[k]), parent))
  }

  /** All successors of a level, pooled node by node in the level's order. */
  function Pool<S>(policy: Policy<S>, argsort: seq<real> -> seq<nat>, numGenerate: int, rewardFn: S -> real,
                   level: seq<S>, shuffles: seq<seq<nat>>): (pool: seq<Successor<S>>)
    requires |shuffles| == |level|
    requires forall i :: 0 <= i < |level| ==> NodeReady(policy, argsort, level[i], shuffles[i])
    ensures forall m :: 0 <= m < |pool| ==> pool[m].parent < |level|
    decreases |level|
  {
    if level == [] then []
    else
      var i := |level| - 1;
      Pool(policy, argsort, numGenerate, rewardFn, level[..i], shuffles[..i])
        + Successors(Expansion(policy, argsort, numGenerate, level[i], shuffles[i]), rewardFn, i)
  }

  function RewardsOf<S>(pool: seq<Successor<S>>): (r: seq<real>)
    ensures |r| == |pool|
  {
    seq(|pool|, m requires 0 <= m < |pool| => pool[m].reward)
  }

  predicate IndicesIn(idx: seq<nat>, n: nat) {
    forall k :: 0 <= k < |idx| ==> idx[k] < n
  }

  function NodesAt<S>(pool: seq<Successor<S>>, idx: seq<nat>): seq<S>
    requires IndicesIn(idx, |pool|)
  {
    seq(|idx|, k requires 0 <= k < |idx| => pool[idx[k]].node)
  }

  function RewardsAt<S>(pool: seq<Successor<S>>, idx: seq<nat>): seq<real>
    requires IndicesIn(idx, |pool|)
  {
    seq(|idx|, k requires 0 <= k < |idx| => pool[idx[k]].reward)
  }

  function ParentsAt<S>(pool: seq<Successor<S>>, idx: seq<nat>): seq<int>
    requires IndicesIn(idx, |pool|)
  {
    seq(|idx|, k requires 0 <= k < |idx| => pool[idx[k]].parent as int)
  }

  /** The three lists `simulation_policy` pools hold the pool's nodes, rewards and parents. */
  ghost predicate Listed<S>(pool: seq<Successor<S>>, nodes: seq<S>, rewards: seq<real>, parents: seq<int>) {
    && |nodes| == |pool| && |rewards| == |pool| && |parents| == |pool|
    && forall m :: 0 <= m < |pool| ==>
         nodes[m] == pool[m].node && rewards[m] == pool[m].reward && parents[m] == pool[m].parent as int
  }

  /** Extending the three lists with one node's successors extends the pool with them. */
  lemma ListedAppend<S>(pool: seq<Successor<S>>, nodes: seq<S>, rewards: seq<real>, parents: seq<int>,
                        next: seq<S>, rewardFn: S -> real, i: nat)
    requires Listed(pool, nodes, rewards, parents)
    ensures Listed(pool + Successors(next, rewardFn, i), nodes + next,
                   rewards + seq(|next|, k requires 0 <= k < |next| => rewardFn(next[k])),
                   parents + seq(|next|, _ => i))
  {
  }

  /** `[xs[i] for i in idx]`. */
  function Select<T>(xs: seq<T>, idx: seq<nat>): (r: seq<T>)
    requires IndicesIn(idx, |xs|)
    ensures |r| == |idx|
  {
    seq(|idx|, k requires 0 <= k < |idx| => xs[idx[k]])
  }

  /** Selecting from the three pooled lists selects the same successors from the pool. */
  lemma SelectFromPool<S>(pool: seq<Successor<S>>, successorNodes: seq<S>, successorRewards: seq<real>,
                          parents: seq<int>, idx: seq<nat>)
    requires |successorNodes| == |pool| && |parents| == |pool| && successorRewards == RewardsOf(pool)
    requires forall m :: 0 <= m < |pool| ==> successorNodes[m] == pool[m].node && parents[m] == pool[m].parent as int
    requires IndicesIn(idx, |pool|)
    ensures Select(successorNodes, idx) == NodesAt(pool, idx)
    ensures Select(successorRewards, idx) == RewardsAt(pool, idx)
    ensures Select(parents, idx) == ParentsAt(pool, idx)
  {
  }

  /** `np.argsort(successor_rewards)[-num_keep:]`: the positions retained. */
  function Kept(order: seq<nat>, numKeep: int): seq<nat> {
    Slice(order, -numKeep, |order|)
  }

  /** `np.argsort(successor_rewards)[:-num_keep]`: the positions generated but not retained. */
  function Generated(order: seq<nat>, numKeep: int): seq<nat> {
    Slice(order, 0, -numKeep)
  }

  function Min(a: int, b: int): int { if a <= b then a else b }

  /** Kept and generated positions split the ranking in two: together they are the whole
      ranking, each pooled successor lands in exactly one of them, and for `num_keep > 0`
      exactly min(`num_keep`, pool size) are kept (`num_keep == 0` keeps everything). */
  lemma SelectionPartitions(rewards: seq<real>, order: seq<nat>, numKeep: int)
    requires IsArgSort(order, rewards)
    ensures Generated(order, numKeep) + Kept(order, numKeep) == order
    ensures IndicesIn(Kept(order, numKeep), |rewards|) && IndicesIn(Generated(order, numKeep), |rewards|)
    ensures forall i :: 0 <= i < |rewards| ==> (i in Kept(order, numKeep) <==> i !in Generated(order, numKeep))
    ensures numKeep > 0 ==> |Kept(order, numKeep)| == Min(numKeep, |rewards|)
    ensures numKeep == 0 ==> Kept(order, numKeep) == order
  {
    var c := TailStart(|order|, numKeep);
    SliceAtTailStart(order, numKeep);
    forall i | 0 <= i < |rewards|
      ensures i in Kept(order, numKeep) <==> i !in Generated(order, numKeep)
    {
      var u := PositionOf(order, |rewards|, i);
      if u < c {
        assert order[..c][u] == i;
      } else {
        assert order[c..][u - c] == i;
      }
    }
  }

  /** Every kept reward is at least every generated reward, and the kept rewards are listed
      in non-decreasing order. */
  lemma SelectionKeepsHighest(rewards: seq<real>, order: seq<nat>, numKeep: int)
    requires IsArgSort(order, rewards)
    ensures var kept, gen := Kept(order, numKeep), Generated(order, numKeep);
            && IndicesIn(kept, |rewards|) && IndicesIn(gen, |rewards|)
            && (forall a, b :: 0 <= a < |kept| && 0 <= b < |gen| ==> rewards[gen[b]] <= rewards[kept[a]])
            && (forall a, b :: 0 <= a < b < |kept| ==> rewards[kept[a]] <= rewards[kept[b]])
  {
    var c := TailStart(|order|, numKeep);
    SliceAtTailStart(order, numKeep);
    var kept, gen := Kept(order, numKeep), Generated(order, numKeep);
    forall a, b | 0 <= a < |kept| && 0 <= b < |gen| ensures rewards[gen[b]] <= rewards[kept[a]] {
      assert gen[b] == order[b] && kept[a] == order[c + a];
    }
    forall a, b | 0 <= a < b < |kept| ensures rewards[kept[a]] <= rewards[kept[b]] {
      assert kept[a] == order[c + a] && kept[b] == order[c + b];
    }
  }

  /** A level whose nodes all expand to nothing pools no successors. */
  lemma {:induction false} DeadEndsPoolNothing<S>(policy: Policy<S>, argsort: seq<real> -> seq<nat>, numGenerate: int,
                                                  rewardFn: S -> real, level: seq<S>, shuffles: seq<seq<nat>>)
    requires |shuffles| == |level|
    requires forall i :: 0 <= i < |level| ==> NodeReady(policy, argsort, level[i], shuffles[i])
    requires forall i :: 0 <= i < |level| ==> Expansion(policy, argsort, numGenerate, level[i], shuffles[i]) == []
    ensures Pool(policy, argsort, numGenerate, rewardFn, level, shuffles) == []
    decreases |level|
  {
    if level != [] {
      var i := |level| - 1;
      DeadEndsPoolNothing(policy, argsort, numGenerate, rewardFn, level[..i], shuffles[..i]);
    }
  }

  /** An empty pool ranks to an empty level: a dead end ends the search without failing. */
  lemma EmptyPoolKeepsNothing(order: seq<nat>, numKeep: int)
    requires IsArgSort(order, [])
    ensures Kept(order, numKeep) == [] && Generated(order, numKeep) == []
  {
  }

  /** What every level after the root satisfies, given the size of the level before it. */
  predicate LevelOk<S>(prevSize: nat, numKeep: int,
                       kept: seq<S>, keptRewards: seq<real>, keptParents: seq<int>,
                       gen: seq<S>, genRewards: seq<real>, genParents: seq<int>)
  {
    && |keptRewards| == |kept| && |keptParents| == |kept|
    && |genRewards| == |gen| && |genParents| == |gen|
    && (forall i :: 0 <= i < |keptParents| ==> 0 <= keptParents[i] < prevSize)
    && (forall i :: 0 <= i < |genParents| ==> 0 <= genParents[i] < prevSize)
    && (numKeep > 0 ==> |kept| <= numKeep)
    && (forall i, j :: 0 <= i < |keptRewards| && 0 <= j < |genRewards| ==> genRewards[j] <= keptRewards[i])
    && (forall i, j :: 0 <= i < j < |keptRewards| ==> keptRewards[i] <= keptRewards[j])
  }

  /** The selection of `simulation_policy()`: the pooled triples at the top `numKeep`
      positions of the rewards' argsort are kept, those at the other positions are generated. */
  method SelectLevel<S>(ghost pool: seq<Successor<S>>, successorNodes: seq<S>, successorRewards: seq<real>,
                        parents: seq<int>, argsort: seq<real> -> seq<nat>, numKeep: int, ghost prevSize: nat)
    returns (kept: seq<S>, keptRewards: seq<real>, keptParents: seq<int>,
             gen: seq<S>, genRewards: seq<real>, genParents: seq<int>)
    requires |successorNodes| == |pool| && |parents| == |pool| && successorRewards == RewardsOf(pool)
    requires forall m :: 0 <= m < |pool| ==> successorNodes[m] == pool[m].node && parents[m] == pool[m].parent as int
    requires forall m :: 0 <= m < |pool| ==> pool[m].parent < prevSize
    requires IsArgSorter(argsort)
    ensures var kept', gen' := Kept(argsort(RewardsOf(pool)), numKeep), Generated(argsort(RewardsOf(pool)), numKeep);
            && IndicesIn(kept', |pool|) && IndicesIn(gen', |pool|)
            && kept == NodesAt(pool, kept') && keptRewards == RewardsAt(pool, kept') && keptParents == ParentsAt(pool, kept')
            && gen == NodesAt(pool, gen') && genRewards == RewardsAt(pool, gen') && genParents == ParentsAt(pool, gen')
    ensures LevelOk(prevSize, numKeep, kept, keptRewards, keptParents, gen, genRewards, genParents)
  {
    var order := argsort(successorRewards);
    PoolLevelOk(pool, order, numKeep, prevSize);
    var selectedIdx := Slice(order, -numKeep, |order|);
    var generatedIdx := Slice(order, 0, -numKeep);
    SelectFromPool(pool, successorNodes, successorRewards, parents, selectedIdx);
    SelectFromPool(pool, successorNodes, successorRewards, parents, generatedIdx);
    kept := Select(successorNodes, selectedIdx);
    keptRewards := Select(successorRewards, selectedIdx);
    keptParents := Select(parents, selectedIdx);
    gen := Select(successorNodes, generatedIdx);
    genRewards := Select(successorRewards, generatedIdx);
    genParents := Select(parents, generatedIdx);
  }

  /** The tree invariant over the six level lists: one entry per level in each, the root
      level seeded with one node (reward 0, parent -1, nothing generated), and every later
      level consistent with the one before it. */
  ghost predicate TreeOk<S>(numKeep: int, nodes: seq<seq<S>>, nodeRewards: seq<seq<real>>, parentIdx: seq<seq<int>>,
                            genNodes: seq<seq<S>>, genRewards: seq<seq<real>>, genParents: seq<seq<int>>)
  {
    && |nodes| >= 1
    && |nodeRewards| == |nodes| && |parentIdx| == |nodes|
    && |genNodes| == |nodes| && |genRewards| == |nodes| && |genParents| == |nodes|
    && |nodes[0]| == 1 && nodeRewards[0] == [0.0] && parentIdx[0] == [-1]
    && genNodes[0] == [] && genRewards[0] == [] && genParents[0] == []
    && forall L :: 1 <= L < |nodes| ==>
         LevelOk(|nodes[L - 1]|, numKeep, nodes[L], nodeRewards[L], parentIdx[L],
                 genNodes[L], genRewards[L], genParents[L])
  }

  /** Appending a level consistent with the last one keeps the tree invariant. */
  lemma TreeOkAppend<S>(numKeep: int, nodes: seq<seq<S>>, nodeRewards: seq<seq<real>>, parentIdx: seq<seq<int>>,
                        genNodes: seq<seq<S>>, genRewards: seq<seq<real>>, genParents: seq<seq<int>>,
                        kept: seq<S>, keptRewards: seq<real>, keptParents: seq<int>,
                        gen: seq<S>, genR: seq<real>, genP: seq<int>)
    requires TreeOk(numKeep, nodes, nodeRewards, parentIdx, genNodes, genRewards, genParents)
    requires LevelOk(|nodes[|nodes| - 1]|, numKeep, kept, keptRewards, keptParents, gen, genR, genP)
    ensures TreeOk(numKeep, nodes + [kept], nodeRewards + [keptRewards], parentIdx + [keptParents],
                   genNodes + [gen], genRewards + [genR], genParents + [genP])
  {
    var nodes' := nodes + [kept];
    forall L | 1 <= L < |nodes'|
      ensures LevelOk(|nodes'[L - 1]|, numKeep, nodes'[L], (nodeRewards + [keptRewards])[L], (parentIdx + [keptParents])[L],
                      (genNodes + [gen])[L], (genRewards + [genR])[L], (genParents + [genP])[L])
    {
      if L < |nodes| {
        assert nodes'[L - 1] == nodes[L - 1];
      }
    }
  }

  /** The level made of the kept and the generated successors of a pool is consistent with
      the level the pool came from. */
  lemma PoolLevelOk<S>(pool: seq<Successor<S>>, order: seq<nat>, numKeep: int, prevSize: nat)
    requires forall m :: 0 <= m < |pool| ==> pool[m].parent < prevSize
    requires IsArgSort(order, RewardsOf(pool))
    ensures IndicesIn(Kept(order, numKeep), |pool|) && IndicesIn(Generated(order, numKeep), |pool|)
    ensures var kept, gen := Kept(order, numKeep), Generated(order, numKeep);
            LevelOk(prevSize, numKeep, NodesAt(pool, kept), RewardsAt(pool, kept), ParentsAt(pool, kept),
                    NodesAt(pool, gen), RewardsAt(pool, gen), ParentsAt(pool, gen))
  {
    var rewards := RewardsOf(pool);
    var kept, gen := Kept(order, numKeep), Generated(order, numKeep);
    assert IndicesIn(kept, |pool|) && IndicesIn(gen, |pool|) && (numKeep > 0 ==> |kept| <= numKeep) by {
      SelectionPartitions(rewards, order, numKeep);
    }
    SelectionKeepsHighest(rewards, order, numKeep);
    RankedAt(pool, kept, gen);
    ParentsIn(pool, kept, prevSize);
    ParentsIn(pool, gen, prevSize);
  }

  /** Reward order among pool positions carries over to the rewards read at them. */
  lemma RankedAt<S>(pool: seq<Successor<S>>, kept: seq<nat>, gen: seq<nat>)
    requires IndicesIn(kept, |pool|) && IndicesIn(gen, |pool|)
    requires var rewards := RewardsOf(pool);
             && (forall a, b :: 0 <= a < |kept| && 0 <= b < |gen| ==> rewards[gen[b]] <= rewards[kept[a]])
             && (forall a, b :: 0 <= a < b < |kept| ==> rewards[kept[a]] <= rewards[kept[b]])
    ensures var kr, gr := RewardsAt(pool, kept), RewardsAt(pool, gen);
            && (forall i, j :: 0 <= i < |kr| && 0 <= j < |gr| ==> gr[j] <= kr[i])
            && (forall i, j :: 0 <= i < j < |kr| ==> kr[i] <= kr[j])
  {
    var rewards := RewardsOf(pool);
    assert forall i :: 0 <= i < |kept| ==> RewardsAt(pool, kept)[i] == rewards[kept[i]];
    assert forall j :: 0 <= j < |gen| ==> RewardsAt(pool, gen)[j] == rewards[gen[j]];
  }

  /** Parents read at pool positions are parents of pooled successors. */
  lemma ParentsIn<S>(pool: seq<Successor<S>>, idx: seq<nat>, prevSize: nat)
    requires IndicesIn(idx, |pool|)
    requires forall m :: 0 <= m < |pool| ==> pool[m].parent < prevSize
    ensures forall i :: 0 <= i < |idx| ==> 0 <= ParentsAt(pool, idx)[i] < prevSize
  {
  }

  lemma PoolExtend<S>(policy: Policy<S>, argsort: seq<real> -> seq<nat>, numGenerate: int, rewardFn: S -> real,
                      level: seq<S>, shuffles: seq<seq<nat>>, i: nat)
    requires |shuffles| == |level| && i < |level|
    requires forall t :: 0 <= t < |level| ==> NodeReady(policy, argsort, level[t], shuffles[t])
    ensures Pool(policy, argsort, numGenerate, rewardFn, level[..i + 1], shuffles[..i + 1])
            == Pool(policy, argsort, numGenerate, rewardFn, level[..i], shuffles[..i])
               + Successors(Expansion(policy, argsort, numGenerate, level[i], shuffles[i]), rewardFn, i)
  {
    assert level[..i + 1][..i] == level[..i] && shuffles[..i + 1][..i] == shuffles[..i];
  }

  /** The record `get_processed_data` builds for saving (timestamps left out). */
  datatype TreeRecord<V> = TreeRecord(
    nodes: seq<seq<V>>, nodeRewards: seq<seq<real>>, parentIdx: seq<seq<int>>,
    generatedNodes: seq<seq<V>>, generatedNodeRewards: seq<seq<real>>, generatedParentIdx: seq<seq<int>>,
    numGenerate: int, numKeep: int)

  /** Every node of every level mapped through `f`, level for level. */
  function MapLevels<A, B>(levels: seq<seq<A>>, f: A -> B): (r: seq<seq<B>>)
    ensures |r| == |levels|
    ensures forall L :: 0 <= L < |levels| ==> |r[L]| == |levels[L]|
  {
    seq(|levels|, L requires 0 <= L < |levels| =>
      seq(|levels[L]|, i requires 0 <= i < |levels[L]| => f(levels[L][i])))
  }

  class BeamSearchTree<S> {
    const numGenerate: int
    const numKeep: int
    const policy: Policy<S>
    const rewardFn: S -> real
    var nodes: seq<seq<S>>
    var nodeRewards: seq<seq<real>>
    var parentIdx: seq<seq<int>>
    var generatedNodes: seq<seq<S>>
    var generatedNodeRewards: seq<seq<real>>
    var generatedParentIdx: seq<seq<int>>

    /** The tree's invariant, `TreeOk` of its six lists. */
    ghost predicate Valid()
      reads this
    {
      TreeOk(numKeep, nodes, nodeRewards, parentIdx, generatedNodes, generatedNodeRewards, generatedParentIdx)
    }

    /** `BeamSearchTree(data, policy, reward_fn, num_generate, num_keep)`. */
    constructor (data: S, policy: Policy<S>, rewardFn: S -> real, numGenerate: int, numKeep: int)
      ensures Valid()
      ensures this.policy == policy && this.rewardFn == rewardFn
      ensures this.numGenerate == numGenerate && this.numKeep == numKeep
      ensures nodes == [[data]] && nodeRewards == [[0.0]] && parentIdx == [[-1]]
      ensures generatedNodes == [[]] && generatedNodeRewards == [[]] && generatedParentIdx == [[]]
    {
      this.numGenerate := numGenerate;
      this.numKeep := numKeep;
      this.policy := policy;
      this.rewardFn := rewardFn;
      nodes := [[data]];
      parentIdx := [[-1]];
      nodeRewards := [[0.0]];
      generatedNodes := [[]];
      generatedNodeRewards := [[]];
      generatedParentIdx := [[]];
    }

    /** `expand_node(node)`: shuffle actions and priors jointly, take the top `num_generate`
        positions by prior, and apply those whose prior is positive. */
    method ExpandNode(node: S, shuffle: seq<nat>, argsort: seq<real> -> seq<nat>) returns (newNodes: seq<S>)
      requires NodeReady(policy, argsort, node, shuffle)
      ensures newNodes == Expansion(policy, argsort, numGenerate, node, shuffle)
    {
      var actions, priors := policy(node).0, policy(node).1;
      priors := Shuffled(priors, shuffle);
      actions := Shuffled(actions, shuffle);
      var order := argsort(priors);
      var actionIdxs := Slice(order, -numGenerate, |order|);
      assert actionIdxs == Window(policy, argsort, numGenerate, node, shuffle);
      newNodes := ApplyWindow(node, actions, priors, actionIdxs);
    }

    /** The first half of `simulation_policy()`: expand every node of `level` in order and
        pool the successors, their rewards and their parents' positions. */
    method PoolSuccessors(level: seq<S>, shuffles: seq<seq<nat>>, argsort: seq<real> -> seq<nat>)
      returns (successorNodes: seq<S>, successorRewards: seq<real>, parents: seq<int>)
      requires |shuffles| == |level|
      requires forall i :: 0 <= i < |level| ==> NodeReady(policy, argsort, level[i], shuffles[i])
      ensures var pool := Pool(policy, argsort, numGenerate, rewardFn, level, shuffles);
              && |successorNodes| == |pool| && |parents| == |pool|
              && successorRewards == RewardsOf(pool)
              && forall m :: 0 <= m < |pool| ==>
                   successorNodes[m] == pool[m].node && parents[m] == pool[m].parent as int
    {
      successorNodes, successorRewards, parents := [], [], [];
      ghost var pool: seq<Successor<S>> := [];
      var i := 0;
      while i < |level|
        invariant 0 <= i <= |level|
        invariant pool == Pool(policy, argsort, numGenerate, rewardFn, level[..i], shuffles[..i])
        invariant Listed(pool, successorNodes, successorRewards, parents)
      {
        var nextNodes := ExpandNode(level[i], shuffles[i], argsort);
        var rewards := seq(|nextNodes|, k requires 0 <= k < |nextNodes| => rewardFn(nextNodes[k]));
        ListedAppend(pool, successorNodes, successorRewards, parents, nextNodes, rewardFn, i);
        successorNodes := successorNodes + nextNodes;
        successorRewards := successorRewards + rewards;
        parents := parents + seq(|nextNodes|, _ => i);
        PoolExtend(policy, argsort, numGenerate, rewardFn, level, shuffles, i);
        pool := pool + Successors(nextNodes, rewardFn, i);
        i := i + 1;
      }
      assert level[..i] == level && shuffles[..i] == shuffles;
    }

    /** `simulation_policy()`: one beam-search step. Appends exactly one level to each of the
        six lists and leaves the earlier levels as they were; the new kept and generated
        levels are the top `num_keep` and the rest of the pooled successors by reward. */
    method SimulationPolicy(shuffles: seq<seq<nat>>, argsort: seq<real> -> seq<nat>)
      requires Valid()
      requires IsArgSorter(argsort)
      requires |shuffles| == |nodes[|nodes| - 1]|
      requires forall i :: 0 <= i < |shuffles| ==> NodeReady(policy, argsort, nodes[|nodes| - 1][i], shuffles[i])
      modifies this
      ensures Valid()
      ensures var pool := Pool(policy, argsort, numGenerate, rewardFn, old(nodes[|nodes| - 1]), shuffles);
              var order := argsort(RewardsOf(pool));
              var kept, gen := Kept(order, numKeep), Generated(order, numKeep);
              && IndicesIn(kept, |pool|) && IndicesIn(gen, |pool|)
              && nodes == old(nodes) + [NodesAt(pool, kept)]
              && nodeRewards == old(nodeRewards) + [RewardsAt(pool, kept)]
              && parentIdx == old(parentIdx) + [ParentsAt(pool, kept)]
              && generatedNodes == old(generatedNodes) + [NodesAt(pool, gen)]
              && generatedNodeRewards == old(generatedNodeRewards) + [RewardsAt(pool, gen)]
              && generatedParentIdx == old(generatedParentIdx) + [ParentsAt(pool, gen)]
    {
      var kept, keptRewards, keptParents, gen, genRewards, genParents := NextLevel(nodes[|nodes| - 1], shuffles, argsort);
      AppendLevel(kept, keptRewards, keptParents, gen, genRewards, genParents);
    }

    /** The first half of `simulation_policy()`: expand and pool the last level, then split the
        pool by reward into the kept and the generated triples. */
    method NextLevel(level: seq<S>, shuffles: seq<seq<nat>>, argsort: seq<real> -> seq<nat>)
      returns (kept: seq<S>, keptRewards: seq<real>, keptParents: seq<int>,
               gen: seq<S>, genRewards: seq<real>, genParents: seq<int>)
      requires IsArgSorter(argsort)
      requires |shuffles| == |level|
      requires forall i :: 0 <= i < |level| ==> NodeReady(policy, argsort, level[i], shuffles[i])
      ensures var pool := Pool(policy, argsort, numGenerate, rewardFn, level, shuffles);
              var kept', gen' := Kept(argsort(RewardsOf(pool)), numKeep), Generated(argsort(RewardsOf(pool)), numKeep);
              && IndicesIn(kept', |pool|) && IndicesIn(gen', |pool|)
              && kept == NodesAt(pool, kept') && keptRewards == RewardsAt(pool, kept') && keptParents == ParentsAt(pool, kept')
              && gen == NodesAt(pool, gen') && genRewards == RewardsAt(pool, gen') && genParents == ParentsAt(pool, gen')
      ensures LevelOk(|level|, numKeep, kept, keptRewards, keptParents, gen, genRewards, genParents)
    {
      var successorNodes, successorRewards, parents := PoolSuccessors(level, shuffles, argsort);
      ghost var pool := Pool(policy, argsort, numGenerate, rewardFn, level, shuffles);
      kept, keptRewards, keptParents, gen, genRewards, genParents :=
        SelectLevel(pool, successorNodes, successorRewards, parents, argsort, numKeep, |level|);
    }

    /** The second half of `simulation_policy()`: append the kept and the generated triples
        as the tree's new last level. */
    method AppendLevel(kept: seq<S>, keptRewards: seq<real>, keptParents: seq<int>,
                       gen: seq<S>, genRewards: seq<real>, genParents: seq<int>)
      requires Valid()
      requires LevelOk(|nodes[|nodes| - 1]|, numKeep, kept, keptRewards, keptParents, gen, genRewards, genParents)
      modifies this
      ensures Valid()
      ensures nodes == old(nodes) + [kept] && nodeRewards == old(nodeRewards) + [keptRewards]
      ensures parentIdx == old(parentIdx) + [keptParents]
      ensures generatedNodes == old(generatedNodes) + [gen]
      ensures generatedNodeRewards == old(generatedNodeRewards) + [genRewards]
      ensures generatedParentIdx == old(generatedParentIdx) + [genParents]
    {
      TreeOkAppend(numKeep, nodes, nodeRewards, parentIdx, generatedNodes, generatedNodeRewards, generatedParentIdx,
                   kept, keptRewards, keptParents, gen, genRewards, genParents);
      nodes := nodes + [kept];
      nodeRewards := nodeRewards + [keptRewards];
      parentIdx := parentIdx + [keptParents];
      generatedNodes := generatedNodes + [gen];
      generatedNodeRewards := generatedNodeRewards + [genRewards];
      generatedParentIdx := generatedParentIdx + [genParents];
    }

    /** `get_processed_data()`: rewards, parents and the configuration exported unchanged,
        every node mapped through `attrs` (Python's `vars(n)`) level for level. */
    function ProcessedData<V>(attrs: S -> V): (d: TreeRecord<V>)
      reads this
      ensures |d.nodes| == |nodes| && |d.generatedNodes| == |generatedNodes|
      ensures forall L :: 0 <= L < |nodes| ==> |d.nodes[L]| == |nodes[L]|
      ensures forall L :: 0 <= L < |generatedNodes| ==> |d.generatedNodes[L]| == |generatedNodes[L]|
      ensures forall L, i :: 0 <= L < |nodes| && 0 <= i < |nodes[L]| ==> d.nodes[L][i] == attrs(nodes[L][i])
      ensures forall L, i :: 0 <= L < |generatedNodes| && 0 <= i < |generatedNodes[L]| ==>
                d.generatedNodes[L][i] == attrs(generatedNodes[L][i])
      ensures d.nodeRewards == nodeRewards && d.parentIdx == parentIdx
      ensures d.generatedNodeRewards == generatedNodeRewards && d.generatedParentIdx == generatedParentIdx
      ensures d.numGenerate == numGenerate && d.numKeep == numKeep
    {
      TreeRecord(MapLevels(nodes, attrs), nodeRewards, parentIdx,
                 MapLevels(generatedNodes, attrs), generatedNodeRewards, generatedParentIdx,
                 numGenerate, numKeep)
    }

    /** Saving and restoring with an inverse of `attrs` gives back the tree's levels,
        rewards, parents and configuration. */
    lemma ProcessedDataRoundTrip<V>(attrs: S -> V, restore: V -> S)
      requires forall s :: restore(attrs(s)) == s
      ensures var d := ProcessedData(attrs);
              && MapLevels(d.nodes, restore) == nodes
              && MapLevels(d.generatedNodes, restore) == generatedNodes
              && d.nodeRewards == nodeRewards && d.parentIdx == parentIdx
              && d.generatedNodeRewards == generatedNodeRewards && d.generatedParentIdx == generatedParentIdx
              && d.numGenerate == numGenerate && d.numKeep == numKeep
    {
      var d := ProcessedData(attrs);
      forall L | 0 <= L < |nodes| ensures MapLevels(d.nodes, restore)[L] == nodes[L] {
        assert forall i :: 0 <= i < |nodes[L]| ==> MapLevels(d.nodes, restore)[L][i] == restore(attrs(nodes[L][i]));
      }
      forall L | 0 <= L < |generatedNodes| ensures MapLevels(d.generatedNodes, restore)[L] == generatedNodes[L] {
        assert forall i :: 0 <= i < |generatedNodes[L]| ==>
          MapLevels(d.generatedNodes, restore)[L][i] == restore(attrs(generatedNodes[L][i]));
      }
    }
  }
}
