/** The query state and the prompt/answer strings of src/llm/query.py.

    The language model is not part of the model: each reply is a parameter, and an attempt of
    `query_adsorption_energy_list` is an abstract outcome (its float parsing and averaging
    are left out). Template substitution (`fstr`, which `eval`s the template) is the
    parameter `fill`. */
module Query {
  import opened Wrappers
  import opened PyStr

  datatype QueryError =
    | CandidateRelationMissing   // the ValueError of generate_expert_prompt
    | AttemptFailed(reason: string)

  // ------------------------------------------------------------------ parse_answer

  /** The text `parse_answer` splits: from after the first `[` that follows the first
      case-insensitive "final_answer", up to the next `]`. A missing marker makes the first
      search start at -1, that is, at the last character. */
  function AnswerBody(answer: string): string {
    var finalAnswerLocation := Find(Lower(answer), "final_answer", 0);
    var listLocation := Find(answer, "[", finalAnswerLocation);
    Slice(answer, listLocation + 1, Find(answer, "]", listLocation))
  }

  /** One item: quotes of both kinds removed, then surrounding white space. */
  function CleanItem(item: string): (r: string)
    ensures '\'' !in r && '"' !in r
    ensures r != [] ==> !IsSpace(r[0]) && !IsSpace(r[|r| - 1])
  {
    StripQuotesKept(Remove(Remove(item, '\''), '"'), '\'', '"');
    Strip(Remove(Remove(item, '\''), '"'))
  }

  /** `parse_answer(answer)`: the comma-separated items of the answer's list. */
  function ParseAnswer(answer: string): (r: seq<string>)
    ensures |r| == Occurrences(AnswerBody(answer), ',') + 1
    ensures forall i :: 0 <= i < |r| ==> ',' !in r[i] && '\'' !in r[i] && '"' !in r[i]
    ensures forall i :: 0 <= i < |r| ==> r[i] != [] ==> !IsSpace(r[i][0]) && !IsSpace(r[i][|r[i]| - 1])
  {
    var items := Split(AnswerBody(answer), ',');
    forall i | 0 <= i < |items| ensures ',' !in CleanItem(items[i]) {
      CleanItemKeepsOut(items[i], ',');
    }
    seq(|items|, i requires 0 <= i < |items| => CleanItem(items[i]))
  }

  lemma {:induction false} RemoveKeepsOut(s: string, c: char, x: char)
    requires x !in s
    ensures x !in Remove(s, c)
  {
  }

  lemma {:induction false} StripKeepsOut(s: string, x: char)
    requires x !in s
    ensures x !in Strip(s)
  {
    var l := StripLeftWith(s, IsSpace);
    StripLeftSuffix(s, IsSpace);
    assert forall y :: y in l ==> y in s;
    var r := StripRightWith(l, IsSpace);
    StripRightPrefix(l, IsSpace);
    assert forall y :: y in r ==> y in l;
  }

  lemma StripQuotesKept(s: string, a: char, b: char)
    requires a !in s && b !in s
    ensures a !in Strip(s) && b !in Strip(s)
  {
    StripKeepsOut(s, a);
    StripKeepsOut(s, b);
  }

  lemma CleanItemKeepsOut(item: string, x: char)
    requires x !in item
    ensures x !in CleanItem(item)
  {
    RemoveKeepsOut(item, '\'', x);
    RemoveKeepsOut(Remove(item, '\''), '"', x);
    StripKeepsOut(Remove(Remove(item, '\''), '"'), x);
  }

  /** When "final_answer" occurs at `f` (its first case-insensitive occurrence), the first `[`
      after it is at `b` and the first `]` after that at `e`, the items are those of
      `answer[b+1..e]`. */
  lemma ParseAnswerLocates(answer: string, f: nat, b: nat, e: nat)
    requires OccursAt(Lower(answer), "final_answer", f)
    requires forall k :: 0 <= k < f ==> !OccursAt(Lower(answer), "final_answer", k)
    requires f <= b < e < |answer| && answer[b] == '[' && answer[e] == ']'
    requires forall k :: f <= k < b ==> answer[k] != '['
    requires forall k :: b <= k < e ==> answer[k] != ']'
    ensures AnswerBody(answer) == answer[b + 1..e]
    ensures var items := Split(answer[b + 1..e], ',');
            ParseAnswer(answer) == seq(|items|, i requires 0 <= i < |items| => CleanItem(items[i]))
  {
    assert Find(Lower(answer), "final_answer", 0) == f by {
      FindIs(Lower(answer), "final_answer", 0, f);
    }
    assert Find(answer, "[", f) == b by {
      forall j | 0 <= j < |answer| ensures OccursAt(answer, "[", j) <==> answer[j] == '[' {
        OccursAtChar(answer, '[', j);
      }
      FindIs(answer, "[", f, b);
    }
    assert Find(answer, "]", b) == e by {
      forall j | 0 <= j < |answer| ensures OccursAt(answer, "]", j) <==> answer[j] == ']' {
        OccursAtChar(answer, ']', j);
      }
      FindIs(answer, "]", b, e);
    }
  }

  lemma OccursAtChar(s: string, c: char, j: nat)
    requires j < |s|
    ensures OccursAt(s, [c], j) <==> s[j] == c
  {
    if s[j] == c { assert s[j..j + 1] == [c]; }
  }

  /** `s.find(sub, start)` is `k` when `sub` occurs at `k` and nowhere between the start
      position and `k`. */
  lemma FindIs(s: string, sub: string, start: int, k: nat)
    requires FindStart(start, |s|) <= k && OccursAt(s, sub, k)
    requires forall j :: FindStart(start, |s|) <= j < k ==> !OccursAt(s, sub, j)
    ensures Find(s, sub, start) == k
  {
  }

  /** Without the "final_answer" marker, the search for `[` starts at the last character, so
      (unless the answer ends with `[`) the items are those of the answer minus its last
      character: the closing search also starts there and either finds `]` there or fails. */
  lemma ParseAnswerWithoutMarker(answer: string)
    requires |answer| >= 1 && answer[|answer| - 1] != '['
    requires forall k :: 0 <= k < |answer| ==> !OccursAt(Lower(answer), "final_answer", k)
    ensures AnswerBody(answer) == answer[..|answer| - 1]
  {
    var n := |answer|;
    assert Find(Lower(answer), "final_answer", 0) == -1;
    assert !OccursAt(answer, "[", n - 1);
    assert Find(answer, "[", -1) == -1;
    if answer[n - 1] == ']' {
      assert OccursAt(answer, "]", n - 1);
      FindIs(answer, "]", -1, n - 1);
    } else {
      assert !OccursAt(answer, "]", n - 1);
    }
  }

  /** The list prefix the round trip writes. */
  const Marker: string := "final_answer: ["

  lemma LowerMarker(s: string)
    requires |s| >= |Marker| && s[..|Marker|] == Marker
    ensures OccursAt(Lower(s), "final_answer", 0)
  {
    assert Lower(s)[..12] == "final_answer";
  }

  /** Round trip: a list of clean items written after "final_answer: [" and joined with
      commas is parsed back to the same items. */
  lemma ParseAnswerRoundTrip(items: seq<string>)
    requires |items| >= 1
    requires forall i :: 0 <= i < |items| ==>
               ',' !in items[i] && ']' !in items[i] && '\'' !in items[i] && '"' !in items[i]
    requires forall i :: 0 <= i < |items| ==> items[i] != [] ==> !IsSpace(items[i][0]) && !IsSpace(items[i][|items[i]| - 1])
    ensures ParseAnswer(Marker + Join(items, [',']) + "]") == items
  {
    var j := Join(items, [',']);
    JoinKeepsOut(items, ',', ']');
    MarkedBody(j);
    SplitJoin(items, ',');
    forall i | 0 <= i < |items| ensures CleanItem(items[i]) == items[i] {
      RemoveAbsent(items[i], '\'');
      RemoveAbsent(items[i], '"');
    }
  }

  /** The body of "final_answer: [" + j + "]" is `j` when `j` holds no `]`. */
  lemma MarkedBody(j: string)
    requires ']' !in j
    ensures AnswerBody(Marker + j + "]") == j
  {
    var answer := Marker + j + "]";
    var e := |answer| - 1;
    assert answer[..|Marker|] == Marker;
    LowerMarker(answer);
    forall k | 0 <= k < 14 ensures answer[k] != '[' {
      assert answer[k] == Marker[k];
    }
    forall k | 14 <= k < e ensures answer[k] != ']' {
      if k > 14 { assert answer[k] == j[k - 15]; }
    }
    ParseAnswerLocates(answer, 0, 14, e);
    assert answer[15..e] == j;
  }

  lemma {:induction false} RemoveAbsent(s: string, c: char)
    requires c !in s
    ensures Remove(s, c) == s
  {
    if s != [] {
      RemoveAbsent(s[1..], c);
    }
  }

  lemma {:induction false} JoinKeepsOut(items: seq<string>, sep: char, x: char)
    requires x != sep
    requires forall i :: 0 <= i < |items| ==> x !in items[i]
    ensures x !in Join(items, [sep])
  {
    if |items| > 1 {
      JoinKeepsOut(items[1..], sep, x);
    }
  }

  // ------------------------------------------------------------------ prompt statements

  /** The candidate-list statement of `generate_expert_prompt` and `generate_oc_prompt`. */
  function CandidateStatement(candidates: seq<string>, relation: Option<string>): (r: Result<string, QueryError>)
    ensures r.Err? ==> r.error == CandidateRelationMissing
    ensures |candidates| == 0 ==> r == Ok("")
    ensures r.Ok? && |candidates| != 0 ==>
              && relation.Some? && |r.value| > |relation.value|
              && r.value[..|relation.value|] == relation.value && r.value[|r.value| - 1] == ' '
  {
    if |candidates| != 0 && relation.Some? then Ok(relation.value + " " + Strip(Join(candidates, ", ")) + " ")
    else if |candidates| != 0 then Err(CandidateRelationMissing)
    else Ok("")
  }

  /** The include (or exclude) statement: `verb` is "Include" or "Exclude". */
  function PropertyStatement(verb: string, catalystLabel: string, properties: seq<string>): (r: string)
    ensures r == "" <==> |properties| == 0
  {
    if |properties| != 0 then
      verb + " candidate" + catalystLabel + " with the following properties: " + Join(properties, ", ") + ". "
    else ""
  }

  /** The statement fails exactly when candidates are given without a relation to them, and is
      empty exactly when no candidates are given. */
  lemma CandidateStatementCases(candidates: seq<string>, relation: Option<string>)
    ensures CandidateStatement(candidates, relation).Err? <==> |candidates| != 0 && relation.None?
    ensures CandidateStatement(candidates, relation) == Ok("") <==> |candidates| == 0
  {
  }

  /** An include/exclude statement is empty exactly when its list is empty; otherwise it opens
      with the verb and closes with ". ". */
  lemma PropertyStatementCases(verb: string, catalystLabel: string, properties: seq<string>)
    ensures var st := PropertyStatement(verb, catalystLabel, properties);
            && (st == "" <==> |properties| == 0)
            && (|properties| != 0 ==> st[..|verb|] == verb && st[|st| - 2..] == ". ")
  {
  }

  /** The named values `generate_expert_prompt` substitutes into its template. */
  datatype PromptValues = PromptValues(
    catalystLabel: string, candidateListStatement: string, includeStatement: string, excludeStatement: string)

  /** `generate_expert_prompt(...)`, with `fill` standing for `fstr`. */
  function ExpertPrompt(template: string, catalystLabel: string, candidates: seq<string>, relation: Option<string>,
                        includeList: seq<string>, excludeList: seq<string>,
                        fill: (string, PromptValues) -> string): (r: Result<string, QueryError>)
    ensures r.Err? ==> |candidates| != 0 && relation.None? && r.error == CandidateRelationMissing
  {
    var cs := CandidateStatement(candidates, relation);
    if cs.Err? then Err(cs.error)
    else
      Ok(fill(template, PromptValues(catalystLabel, cs.value,
                                     PropertyStatement("Include", catalystLabel, includeList),
                                     PropertyStatement("Exclude", catalystLabel, excludeList))))
  }

  /** `generate_expert_prompt` raises ValueError exactly when the candidate list is non-empty and
      no relation to it is given; otherwise the template receives the three statements. */
  lemma ExpertPromptCases(template: string, catalystLabel: string, candidates: seq<string>, relation: Option<string>,
                          includeList: seq<string>, excludeList: seq<string>, fill: (string, PromptValues) -> string)
    ensures var r := ExpertPrompt(template, catalystLabel, candidates, relation, includeList, excludeList, fill);
            && (r.Err? <==> |candidates| != 0 && relation.None?)
            && (r.Err? ==> r.error == CandidateRelationMissing)
            && (r.Ok? && |candidates| == 0 ==>
                  r.value == fill(template, PromptValues(catalystLabel, "",
                                     PropertyStatement("Include", catalystLabel, includeList),
                                     PropertyStatement("Exclude", catalystLabel, excludeList))))
  {
  }

  /** `generate_oc_prompt(...)`: the same statements inside a fixed sentence. */
  function OcPrompt(adsorbate: string, catalystLabel: string, numAnswers: int, candidates: seq<string>,
                    relation: Option<string>, includeList: seq<string>, excludeList: seq<string>): (r: Result<string, QueryError>)
    ensures r.Err? ==> |candidates| != 0 && relation.None? && r.error == CandidateRelationMissing
  {
    var cs := CandidateStatement(candidates, relation);
    if cs.Err? then Err(cs.error)
    else
      Ok("Generate a list of candidate" + catalystLabel + " " + cs.value + "for the adsorption of " + adsorbate + ". "
         + PropertyStatement("Include", catalystLabel, includeList)
         + PropertyStatement("Exclude", catalystLabel, excludeList)
         + "Let's think step-by-step and return a list of top " + IntToString(numAnswers)
         + " answers and their explanations as a list of pairs.")
  }

  /** The open-catalyst prompt fails exactly when the expert prompt does, and otherwise ends
      by asking for the top `num_answers` answers. */
  lemma OcPromptCases(adsorbate: string, catalystLabel: string, numAnswers: int, candidates: seq<string>,
                      relation: Option<string>, includeList: seq<string>, excludeList: seq<string>,
                      template: string, fill: (string, PromptValues) -> string)
    ensures var r := OcPrompt(adsorbate, catalystLabel, numAnswers, candidates, relation, includeList, excludeList);
            && (r.Err? <==> ExpertPrompt(template, catalystLabel, candidates, relation, includeList, excludeList, fill).Err?)
            && (r.Ok? ==> var tail := " answers and their explanations as a list of pairs.";
                          var count := IntToString(numAnswers);
                          && |r.value| >= |count| + |tail|
                          && r.value[|r.value| - |tail|..] == tail
                          && r.value[|r.value| - |tail| - |count|..|r.value| - |tail|] == count)
  {
  }

  // ------------------------------------------------------------------ QueryState

  /** `[1] * n`. */
  function Ones(n: nat): (r: seq<real>)
    ensures |r| == n && forall i :: 0 <= i < n ==> r[i] == 1.0
  {
    seq(n, _ => 1.0)
  }

  /** One attempt of `query_adsorption_energy_list`: either every adsorbate's reply parsed
      (yielding the aggregated value), or a failure after `sent` queries, followed by the
      reply `requery` to the `query()` of the except branch. */
  datatype Attempt =
    | Succeeded(value: real)
    | Failed(sent: nat, reason: string, requery: string)

  /** The number of queries the failed attempts cost: each sends its queries, then one more. */
  function FailedCost(attempts: seq<Attempt>): (c: nat)
    ensures forall k :: 0 <= k < |attempts| && attempts[k].Failed? ==> c >= attempts[k].sent + 1
  {
    if attempts == [] then 0
    else FailedCost(attempts[..|attempts| - 1])
         + (var a := attempts[|attempts| - 1]; if a.Failed? then a.sent + 1 else 0)
  }

  lemma FailedCostStep(attempts: seq<Attempt>, r: nat)
    requires r < |attempts|
    ensures FailedCost(attempts[..r + 1])
            == FailedCost(attempts[..r]) + (if attempts[r].Failed? then attempts[r].sent + 1 else 0)
  {
    assert attempts[..r + 1][..r] == attempts[..r];
  }

  /** The first successful attempt, or `|attempts|` if none succeeds. */
  function FirstSuccess(attempts: seq<Attempt>): (k: nat)
    ensures k <= |attempts|
    ensures k < |attempts| ==> attempts[k].Succeeded?
    ensures forall j :: 0 <= j < k ==> attempts[j].Failed?
  {
    if attempts == [] then 0
    else if attempts[0].Succeeded? then 0
    else 1 + FirstSuccess(attempts[1..])
  }

  class QueryState {
    const template: string
    const rewardTemplate: string
    const adsSymbols: seq<string>
    const adsPreferences: seq<real>
    const catalystLabel: string
    const numAnswers: int
    const prevCandidateList: seq<string>
    const relationToCandidateList: Option<string>
    const includeList: seq<string>
    const excludeList: seq<string>
    const predictionModel: string
    const rewardModel: string
    var answer: Option<string>
    var numQueries: int

    /** `QueryState(...)`: the fields are the arguments, except that missing preferences
        become one 1 per adsorbate. */
    constructor (template: string, rewardTemplate: string, adsSymbols: seq<string>, adsPreferences: Option<seq<real>>,
                 catalystLabel: string, numAnswers: int, prevCandidateList: seq<string>,
                 relationToCandidateList: Option<string>, includeList: seq<string>, excludeList: seq<string>,
                 answer: Option<string>, numQueries: int, predictionModel: string, rewardModel: string)
      ensures this.template == template && this.rewardTemplate == rewardTemplate
      ensures this.adsSymbols == adsSymbols
      ensures this.adsPreferences == (if adsPreferences.None? then Ones(|adsSymbols|) else adsPreferences.value)
      ensures this.catalystLabel == catalystLabel && this.numAnswers == numAnswers
      ensures this.prevCandidateList == prevCandidateList && this.relationToCandidateList == relationToCandidateList
      ensures this.includeList == includeList && this.excludeList == excludeList
      ensures this.answer == answer && this.numQueries == numQueries
      ensures this.predictionModel == predictionModel && this.rewardModel == rewardModel
    {
      this.template := template;
      this.rewardTemplate := rewardTemplate;
      this.adsSymbols := adsSymbols;
      if adsPreferences.None? {
        this.adsPreferences := Ones(|adsSymbols|);
      } else {
        this.adsPreferences := adsPreferences.value;
      }
      this.catalystLabel := catalystLabel;
      this.numAnswers := numAnswers;
      this.prevCandidateList := prevCandidateList;
      this.relationToCandidateList := relationToCandidateList;
      this.includeList := includeList;
      this.excludeList := excludeList;
      this.answer := answer;
      this.numQueries := numQueries;
      this.predictionModel := predictionModel;
      this.rewardModel := rewardModel;
    }

    /** `copy()`: everything carried over except `num_answers`, which is not passed on and so
        falls back to 3. */
    method Copy() returns (c: QueryState)
      ensures fresh(c)
      ensures c.template == template && c.rewardTemplate == rewardTemplate
      ensures c.adsSymbols == adsSymbols && c.adsPreferences == adsPreferences
      ensures c.catalystLabel == catalystLabel && c.numAnswers == 3
      ensures c.prevCandidateList == prevCandidateList && c.relationToCandidateList == relationToCandidateList
      ensures c.includeList == includeList && c.excludeList == excludeList
      ensures c.answer == answer && c.numQueries == numQueries
      ensures c.predictionModel == predictionModel && c.rewardModel == rewardModel
    {
      c := new QueryState(template, rewardTemplate, adsSymbols, Some(adsPreferences), catalystLabel, 3,
                          prevCandidateList, relationToCandidateList, includeList, excludeList,
                          answer, numQueries, predictionModel, rewardModel);
    }

    /** The `candidates` property: the parsed answer, or nothing before any answer. */
    function Candidates(): seq<string>
      reads this
    {
      if answer.None? then [] else ParseAnswer(answer.value)
    }

    /** There are candidates exactly when there is an answer: a parsed answer is never empty. */
    lemma CandidatesEmptyIff()
      ensures Candidates() == [] <==> answer.None?
    {
    }

    /** `return_next()`: the next state starts from this state's candidates, with no answer and
        no queries; preferences, label and answer count go back to their defaults. */
    method ReturnNext() returns (c: QueryState)
      ensures fresh(c)
      ensures c.template == template && c.rewardTemplate == rewardTemplate && c.adsSymbols == adsSymbols
      ensures c.adsPreferences == Ones(|adsSymbols|)
      ensures c.catalystLabel == " catalysts" && c.numAnswers == 3
      ensures c.prevCandidateList == Candidates() && c.relationToCandidateList == relationToCandidateList
      ensures c.includeList == includeList && c.excludeList == excludeList
      ensures c.answer == None && c.numQueries == 0
      ensures c.predictionModel == predictionModel && c.rewardModel == rewardModel
    {
      c := new QueryState(template, rewardTemplate, adsSymbols, None, " catalysts", 3,
                          Candidates(), relationToCandidateList, includeList, excludeList,
                          None, 0, predictionModel, rewardModel);
    }

    /** The `prompt` property. */
    function Prompt(fill: (string, PromptValues) -> string): Result<string, QueryError> {
      ExpertPrompt(template, catalystLabel, prevCandidateList, relationToCandidateList, includeList, excludeList, fill)
    }

    /** `send_query(prompt)`: the model's `reply` comes back and one more query is counted. */
    method SendQuery(reply: string) returns (r: string)
      modifies this
      ensures r == reply
      ensures numQueries == old(numQueries) + 1 && answer == old(answer)
    {
      r := reply;
      numQueries := numQueries + 1;
    }

    /** `query()`: build the prompt (which may raise) and store the model's reply as the answer. */
    method Query(fill: (string, PromptValues) -> string, reply: string) returns (err: Option<QueryError>)
      modifies this
      ensures Prompt(fill).Err? ==> err == Some(Prompt(fill).error) && answer == old(answer) && numQueries == old(numQueries)
      ensures Prompt(fill).Ok? ==> err == None && answer == Some(reply) && numQueries == old(numQueries) + 1
    {
      var prompt := Prompt(fill);
      if prompt.Err? {
        return Some(prompt.error);
      }
      var a := SendQuery(reply);
      answer := Some(a);
      return None;
    }

    /** The query loop of one attempt: one query per adsorbate, up to the point of failure. */
    method SendAttemptQueries(count: nat)
      modifies this
      ensures numQueries == old(numQueries) + count && answer == old(answer)
    {
      var j := 0;
      while j < count
        invariant 0 <= j <= count
        invariant numQueries == old(numQueries) + j && answer == old(answer)
      {
        var _ := SendQuery("");
        j := j + 1;
      }
    }

    /** `query_adsorption_energy_list()`: up to three attempts; after each failure `query()`
        is called again (and its own error, if any, escapes at once); the last failure is
        raised after the third. */
    method QueryAdsorptionEnergyList(fill: (string, PromptValues) -> string, attempts: seq<Attempt>)
      returns (r: Result<real, QueryError>)
      requires |attempts| == 3
      requires forall k :: 0 <= k < 3 && attempts[k].Failed? ==> attempts[k].sent <= |adsSymbols|
      modifies this
      ensures Prompt(fill).Ok? ==>
                var k := FirstSuccess(attempts);
                && (k < 3 ==> r == Ok(attempts[k].value)
                              && numQueries == old(numQueries) + FailedCost(attempts[..k]) + |adsSymbols|
                              && answer == (if k == 0 then old(answer) else Some(attempts[k - 1].requery)))
                && (k == 3 ==> r == Err(AttemptFailed(attempts[2].reason))
                               && numQueries == old(numQueries) + FailedCost(attempts)
                               && answer == Some(attempts[2].requery))
      ensures Prompt(fill).Err? ==>
                && (attempts[0].Succeeded? ==> r == Ok(attempts[0].value)
                                               && numQueries == old(numQueries) + |adsSymbols| && answer == old(answer))
                && (attempts[0].Failed? ==> r == Err(Prompt(fill).error)
                                            && numQueries == old(numQueries) + attempts[0].sent && answer == old(answer))
    {
      var retries := 0;
      var error := AttemptFailed("");
      while retries < 3
        invariant 0 <= retries <= 3
        invariant forall j :: 0 <= j < retries ==> attempts[j].Failed?
        invariant retries > 0 ==> Prompt(fill).Ok? && error == AttemptFailed(attempts[retries - 1].reason)
        invariant numQueries == old(numQueries) + FailedCost(attempts[..retries])
        invariant answer == (if retries == 0 then old(answer) else Some(attempts[retries - 1].requery))
      {
        var attempt := attempts[retries];
        FailedCostStep(attempts, retries);
        retries := retries + 1;
        if attempt.Succeeded? {
          SendAttemptQueries(|adsSymbols|);
          FirstSuccessAt(attempts, retries - 1);
          return Ok(attempt.value);
        }
        SendAttemptQueries(attempt.sent);
        error := AttemptFailed(attempt.reason);
        var err := Query(fill, attempt.requery);
        if err.Some? {
          return Err(err.value);
        }
      }
      assert attempts[..3] == attempts;
      FirstSuccessAt(attempts, 3);
      return Err(error);
    }
  }

  lemma FirstSuccessAt(attempts: seq<Attempt>, k: nat)
    requires k <= |attempts|
    requires forall j :: 0 <= j < k ==> attempts[j].Failed?
    requires k < |attempts| ==> attempts[k].Succeeded?
    ensures FirstSuccess(attempts) == k
  {
  }
}
