/** The retry/penalty loop of src/search/reward/llm_reward.py.

    Each call of `s.query_adsorption_energy_list()` is an entry of `energies`: a value, or
    the error it raised (which escapes). `set_reward` is not defined on `QueryState`; the
    only method of that name is `CatalystDigitalTwin.set_reward`, which takes one argument.
    The model returns the arguments the call is made with. */
module LlmReward {
  import opened Wrappers
  import opened Query

  /** The arguments of one `s.set_reward(...)` call; `None` marks an argument not passed. */
  datatype StoredReward = StoredReward(value: real, primaryReward: Option<bool>, infoField: Option<string>)

  /** What one call of `llm_adsorption_energy_reward` returns, stores, and how many queries it makes. */
  datatype RewardOutcome = RewardOutcome(result: Result<real, QueryError>, stored: Option<StoredReward>, calls: nat)

  /** The hard-coded penalty. */
  const Penalty: real := -10.0

  /** The first query that ends the loop (an error or a value within the limit), or the
      number of queries if none does. */
  function StopIndex(energies: seq<Result<real, QueryError>>, limit: real): (k: nat)
    ensures k <= |energies|
    ensures forall j :: 0 <= j < k ==> energies[j].Ok? && energies[j].value > limit
    ensures k < |energies| ==> energies[k].Err? || energies[k].value <= limit
  {
    if energies == [] then 0
    else if energies[0].Err? || energies[0].value <= limit then 0
    else 1 + StopIndex(energies[1..], limit)
  }

  lemma StopIndexIs(energies: seq<Result<real, QueryError>>, limit: real, k: nat)
    requires k <= |energies|
    requires forall j :: 0 <= j < k ==> energies[j].Ok? && energies[j].value > limit
    requires k < |energies| ==> energies[k].Err? || energies[k].value <= limit
    ensures StopIndex(energies, limit) == k
  {
  }

  /** The queries the loop may make: `max_attempts` of them, none if it is not positive. */
  function Allowed(energies: seq<Result<real, QueryError>>, maxAttempts: int): seq<Result<real, QueryError>>
    requires maxAttempts <= |energies|
  {
    energies[..if maxAttempts > 0 then maxAttempts else 0]
  }

  /** `llm_adsorption_energy_reward(s, reward_limit, max_attempts, primary_reward)` as written. */
  function Reward(energies: seq<Result<real, QueryError>>, limit: real, maxAttempts: int, primary: bool): (o: RewardOutcome)
    requires maxAttempts <= |energies|
    ensures o.result.Ok? <==> o.stored.Some?
    ensures o.result.Ok? ==> o.stored.value.value == o.result.value
    ensures o.result.Err? ==> 0 < o.calls <= maxAttempts && energies[o.calls - 1] == Err(o.result.error)
  {
    var allowed := Allowed(energies, maxAttempts);
    var k := StopIndex(allowed, limit);
    if k < |allowed| && allowed[k].Err? then RewardOutcome(Err(allowed[k].error), None, k + 1)
    else
      var attempts := if k < |allowed| then k + 1 else |allowed|;
      var e := if attempts == 0 then limit + 1.0 else allowed[attempts - 1].value;
      if attempts == maxAttempts then RewardOutcome(Ok(Penalty), Some(StoredReward(Penalty, None, None)), attempts)
      else RewardOutcome(Ok(e), Some(StoredReward(e, if primary then None else Some(false), Some("llm-reward"))), attempts)
  }

  /** The loop of `llm_adsorption_energy_reward`. */
  method LlmAdsorptionEnergyReward(energies: seq<Result<real, QueryError>>, rewardLimit: real, maxAttempts: int,
                                   primaryReward: bool)
    returns (outcome: RewardOutcome)
    requires maxAttempts <= |energies|
    ensures outcome == Reward(energies, rewardLimit, maxAttempts, primaryReward)
  {
    ghost var allowed := Allowed(energies, maxAttempts);
    var e := rewardLimit + 1.0;
    var attempts := 0;
    while e > rewardLimit && attempts < maxAttempts
      invariant 0 <= attempts <= |allowed|
      invariant forall j :: 0 <= j < attempts ==> allowed[j].Ok?
      invariant forall j :: 0 <= j < attempts - 1 ==> allowed[j].value > rewardLimit
      invariant e == (if attempts == 0 then rewardLimit + 1.0 else allowed[attempts - 1].value)
      decreases maxAttempts - attempts
    {
      var q := energies[attempts];
      if q.Err? {
        StopIndexIs(allowed, rewardLimit, attempts);
        return RewardOutcome(Err(q.error), None, attempts + 1);
      }
      e := q.value;
      attempts := attempts + 1;
    }
    if attempts == |allowed| && e > rewardLimit {
      StopIndexIs(allowed, rewardLimit, attempts);
    } else {
      StopIndexIs(allowed, rewardLimit, attempts - 1);
    }

    if attempts == maxAttempts {
      return RewardOutcome(Ok(Penalty), Some(StoredReward(Penalty, None, None)), attempts);
    }
    if primaryReward {
      return RewardOutcome(Ok(e), Some(StoredReward(e, None, Some("llm-reward"))), attempts);
    } else {
      return RewardOutcome(Ok(e), Some(StoredReward(e, Some(primaryReward), Some("llm-reward"))), attempts);
    }
  }

  /** At most `max_attempts` queries are made, and every query before the last returned a
      value above the limit: the loop stops at the first value within the limit. */
  lemma RewardQueriesBounded(energies: seq<Result<real, QueryError>>, limit: real, maxAttempts: int, primary: bool)
    requires maxAttempts <= |energies|
    ensures var o := Reward(energies, limit, maxAttempts, primary);
            && (maxAttempts >= 0 ==> o.calls <= maxAttempts)
            && (maxAttempts < 0 ==> o.calls == 0)
            && forall j :: 0 <= j < o.calls - 1 ==> energies[j].Ok? && energies[j].value > limit
  {
  }

  /** A value within the limit at query `j`, after only over-limit values, ends the loop there. */
  lemma RewardStopsAtFirstWithinLimit(energies: seq<Result<real, QueryError>>, limit: real, maxAttempts: int,
                                      primary: bool, j: nat)
    requires maxAttempts <= |energies| && j < maxAttempts
    requires forall i :: 0 <= i < j ==> energies[i].Ok? && energies[i].value > limit
    requires energies[j].Ok? && energies[j].value <= limit
    ensures Reward(energies, limit, maxAttempts, primary).calls == j + 1
    ensures j + 1 < maxAttempts ==> Reward(energies, limit, maxAttempts, primary).result == Ok(energies[j].value)
  {
    StopIndexIs(Allowed(energies, maxAttempts), limit, j);
  }

  /** The penalty is stored exactly when no query failed and the number of queries reached
      `max_attempts`, whatever the last value was; it is the constant -10. */
  lemma RewardPenaltyIff(energies: seq<Result<real, QueryError>>, limit: real, maxAttempts: int, primary: bool)
    requires maxAttempts <= |energies|
    ensures var o := Reward(energies, limit, maxAttempts, primary);
            o.stored == Some(StoredReward(-10.0, None, None)) <==> o.result.Ok? && o.calls == maxAttempts
  {
  }

  /** With `max_attempts == 0` nothing is queried and the penalty is returned; with a negative
      `max_attempts` nothing is queried either, but `reward_limit + 1` is returned. */
  lemma RewardWithoutAttempts(energies: seq<Result<real, QueryError>>, limit: real, maxAttempts: int, primary: bool)
    requires maxAttempts <= 0 && maxAttempts <= |energies|
    ensures var o := Reward(energies, limit, maxAttempts, primary);
            && o.calls == 0
            && (maxAttempts == 0 ==> o.result == Ok(Penalty))
            && (maxAttempts < 0 ==> o.result == Ok(limit + 1.0))
  {
  }

  /** As written, a value within the limit on the last allowed query is still replaced by the
      penalty: the loop stops there, but the attempt count has reached `max_attempts`. */
  lemma RewardDiscardsSuccessOnLastAttempt(energies: seq<Result<real, QueryError>>, limit: real, maxAttempts: int,
                                           primary: bool, j: nat)
    requires maxAttempts <= |energies| && j + 1 == maxAttempts
    requires forall i :: 0 <= i < j ==> energies[i].Ok? && energies[i].value > limit
    requires energies[j].Ok? && energies[j].value <= limit
    ensures Reward(energies, limit, maxAttempts, primary).result == Ok(Penalty)
    ensures Reward(energies, limit, maxAttempts, primary).stored == Some(StoredReward(Penalty, None, None))
  {
    RewardStopsAtFirstWithinLimit(energies, limit, maxAttempts, primary, j);
    RewardPenaltyIff(energies, limit, maxAttempts, primary);
  }

  /** The smallest instance: with one attempt allowed, the reward is -10 whatever the model answers. */
  lemma RewardPenalisesSuccessOnLastAttempt()
    ensures Reward([Ok(0.5)], 10.0, 1, true).result == Ok(-10.0)
  {
    StopIndexIs([Ok(0.5)], 10.0, 0);
  }

  /** The evidently intended reward: the penalty only when no allowed query returned a value
      within the limit. */
  function CorrectedReward(energies: seq<Result<real, QueryError>>, limit: real, maxAttempts: int, primary: bool): (o: RewardOutcome)
    requires maxAttempts <= |energies|
    ensures o.result.Ok? <==> o.stored.Some?
    ensures o.result.Ok? ==> o.stored.value.value == o.result.value
    ensures o.result.Err? ==> 0 < o.calls <= maxAttempts && energies[o.calls - 1] == Err(o.result.error)
  {
    var allowed := Allowed(energies, maxAttempts);
    var k := StopIndex(allowed, limit);
    if k < |allowed| && allowed[k].Err? then RewardOutcome(Err(allowed[k].error), None, k + 1)
    else if k == |allowed| then RewardOutcome(Ok(Penalty), Some(StoredReward(Penalty, None, None)), k)
    else
      var e := allowed[k].value;
      RewardOutcome(Ok(e), Some(StoredReward(e, if primary then None else Some(false), Some("llm-reward"))), k + 1)
  }

  /** The corrected reward returns the first value within the limit whenever one comes before
      any error among the allowed queries, and the penalty exactly when none does. */
  lemma CorrectedRewardReturnsFirstWithinLimit(energies: seq<Result<real, QueryError>>, limit: real, maxAttempts: int,
                                               primary: bool)
    requires maxAttempts <= |energies|
    ensures var o := CorrectedReward(energies, limit, maxAttempts, primary);
            var allowed := Allowed(energies, maxAttempts);
            && (o.result.Ok? && o.result.value != Penalty ==> o.result.value <= limit)
            && (forall j :: 0 <= j < |allowed| && allowed[j].Ok? && allowed[j].value <= limit
                  && (forall i :: 0 <= i < j ==> allowed[i].Ok?)
                  ==> o.result.Ok? && o.result.value <= limit && o.calls <= j + 1)
            && (o.stored == Some(StoredReward(Penalty, None, None)) <==>
                  forall j :: 0 <= j < |allowed| ==> allowed[j].Ok? && allowed[j].value > limit)
  {
  }
}
