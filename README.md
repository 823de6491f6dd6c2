# ChemReasoner search and reward core in Dafny

ChemReasoner looks for catalysts by letting a language model propose candidates. A beam
search expands query states, and the candidates are scored by rewards. Some rewards come
from the language model itself. Others come from adsorption simulations run on generated
atomic structures. This project models the bookkeeping core of that system and proves what
it promises:

- **Beam search.** `BeamSearch` models the beam-search step engine as the class
  `BeamSearchTree`. It keeps six parallel level lists. The policy, the reward function, the
  random shuffle and `np.argsort` are parameters. The sort is any permutation that sorts
  ascending, so ties are arbitrary.
- **Query state.** `Query` models the query state (`QueryState`), the answer parser, the
  prompt statements and the three-attempt retry loop. `LlmReward` models the bounded
  retry/penalty loop of the language-model reward.
- **Digital twin.** `DigitalTwin` models the catalyst digital twin. It covers the staged
  status, the typed info merge, the copy-on-branch setters and the Miller–Bravais
  conversion.
- **Simulation rewards.** `SimulationReward` and `ReactionReward` model the simulation
  rewards:
  - formula reduction of element lists;
  - cache-aware batching of adsorbate+slab samples;
  - the `name/idx[-uuid]` trajectory naming and its inverse;
  - sample indexing and argmin path selection;
  - the structure-collection loop that blanks failed slab entries in place.
- **Structure helpers.** `AseInterface` models the alloy partition of `convert_alloy`, the
  length rule of `symbols_list_to_bulk`, the response parser of `llm_answer_to_symbols` and
  the adsorbate key resolution.
- **Tree cleaning.** `ProcessTrees` models the tree cleaning `_clean_json`/`_clean_list` on
  a JSON datatype.

Helper modules:

- `Wrappers`: `Option` for `None`, and `Result` for a raised exception.
- `PyStr`: Python `str.find`, slicing, `split`, `join`, `strip`, `lower` (ASCII letters
  only) and `sorted` on strings.
- `Paths`: `pathlib` join, parent and stem.
- `NumberTheory`: gcd.
- `SymbolCounts`: the counting loops.
- `Batching`: fixed-size chunks.
- `Permutations`: permutations and argsort.

How the model treats things it cannot see:

- **External inputs are parameters.** The network, the language model, the file system,
  random numbers, uuids and the simulation calculator are all parameters. An answer from
  the model is an input string or an abstract outcome sequence. A file that exists is a
  predicate. The calculator is a function from a batch to its results.
- **Errors are values.** A Python exception is an `Err` value of a `Result`, so every
  error path is part of a contract.
- **Integers and reals are unbounded.** Rewards are reals, not floats.

## Model

| member | source | states |
|---|---|---|
| BeamSearch.BeamSearchTree.constructor | src/search/methods/tree_search/beam_search.py:18-30 | the tree starts with exactly one level: nodes [[data]], rewards [[0]], parents [[-1]], the three generated lists [[]]; the parameters are stored as given; the level invariant holds |
| BeamSearch.Shuffled | src/search/methods/tree_search/beam_search.py:39-42 | reindexing by the shuffle list keeps one entry per shuffle position |
| BeamSearch.AppliedIsPicked | src/search/methods/tree_search/beam_search.py:39-50 | applying the shuffled actions to the window is applying, in window order, the original actions at the picked original indices, so every action stays paired with its own prior |
| BeamSearch.Picked | src/search/methods/tree_search/beam_search.py:46-50 | at most one pick per window slot, and every picked action has a positive prior |
| BeamSearch.PickedMembers | src/search/methods/tree_search/beam_search.py:44-50 | an action is picked if and only if its prior is positive and the window holds its shuffled position |
| BeamSearch.TailStart | src/search/methods/tree_search/beam_search.py:44 | the start of a Python tail slice `[-k:]` lies within the list |
| BeamSearch.SliceAtTailStart | src/search/methods/tree_search/beam_search.py:68-71 | `xs[-k:]` and `xs[:-k]` split the list at the same point for every k, including k = 0 (everything kept, nothing generated) and negative k; `expand_node` slices its window the same way at line 44 |
| BeamSearch.Window | src/search/methods/tree_search/beam_search.py:44 | the argsort window only indexes shuffled positions |
| BeamSearch.ExpansionPairsActionWithPrior | src/search/methods/tree_search/beam_search.py:39-51 | the expansion is the original actions at the picked indices applied to the node, each with a positive prior |
| BeamSearch.Expansion | src/search/methods/tree_search/beam_search.py:36-51 | expand_node returns at most one successor per position of the argsort window, and exactly one per position when every prior is positive |
| BeamSearch.ExpansionAtMostNumGenerate | src/search/methods/tree_search/beam_search.py:44-51 | for num_generate > 0 an expansion has at most num_generate successors |
| BeamSearch.SuffixPicksTop | src/search/methods/tree_search/beam_search.py:44-50 | the prior of every action not picked from an argsort suffix is at most the prior of every picked action |
| BeamSearch.ExpansionTopByPrior | src/search/methods/tree_search/beam_search.py:44 | every chosen action's prior is at least every unchosen action's prior |
| BeamSearch.ExpansionTakesAllWhenFew | src/search/methods/tree_search/beam_search.py:44-50 | when num_generate is 0 or at least the number of actions, every action with positive prior is applied |
| BeamSearch.BeamSearchTree.ExpandNode | src/search/methods/tree_search/beam_search.py:36-51 | the loop returns exactly the expansion specified for the node and shuffle |
| BeamSearch.ApplyWindow | src/search/methods/tree_search/beam_search.py:46-51 | the loop over the window builds exactly the specified successors, one for each position whose prior is positive |
| BeamSearch.Successors | src/search/methods/tree_search/beam_search.py:63-67 | one scored successor per expanded node |
| BeamSearch.Pool | src/search/methods/tree_search/beam_search.py:62-67 | every pooled successor's parent is a valid index into the last level |
| BeamSearch.PoolExtend | src/search/methods/tree_search/beam_search.py:62-67 | the pool over one more node is the old pool followed by that node's successors |
| BeamSearch.BeamSearchTree.PoolSuccessors | src/search/methods/tree_search/beam_search.py:59-67 | the accumulation loop yields parallel node, reward and parent lists that are the pool's nodes, rewards and parents |
| BeamSearch.RewardsOf | src/search/methods/tree_search/beam_search.py:64-66 | one reward per pooled successor |
| BeamSearch.Select | src/search/methods/tree_search/beam_search.py:73-79 | selecting by an index list yields one element per index |
| BeamSearch.SelectFromPool | src/search/methods/tree_search/beam_search.py:73-79 | selecting from the parallel lists is selecting nodes, rewards and parents from the pool |
| BeamSearch.SelectionPartitions | src/search/methods/tree_search/beam_search.py:68-71 | generated followed by kept is the whole argsort order; each pooled successor is in exactly one of them; for num_keep > 0 exactly min(num_keep, pool size) are kept, and num_keep = 0 keeps all |
| BeamSearch.SelectionKeepsHighest | src/search/methods/tree_search/beam_search.py:68-79 | every kept reward is at least every generated reward, and the kept rewards are non-decreasing |
| BeamSearch.DeadEndsPoolNothing | src/search/methods/tree_search/beam_search.py:62-67 | if no node of the last level expands, the pool is empty |
| BeamSearch.EmptyPoolKeepsNothing | src/search/methods/tree_search/beam_search.py:68-79 | an empty pool gives an empty kept and generated level, without failing |
| BeamSearch.PoolLevelOk | src/search/methods/tree_search/beam_search.py:62-79 | the appended kept and generated triples have equal lengths, and their parent indices are valid in the previous level |
| BeamSearch.TreeOkAppend | src/search/methods/tree_search/beam_search.py:81-87 | appending a well-formed level keeps the whole tree well formed |
| BeamSearch.BeamSearchTree.SimulationPolicy | src/search/methods/tree_search/beam_search.py:53-87 | one step appends exactly one level to each of the six lists: the kept and generated selections of the argsorted pool; earlier levels are unchanged; the tree invariant is kept |
| BeamSearch.BeamSearchTree.NextLevel | src/search/methods/tree_search/beam_search.py:57-79 | the pooled successors of the last level are split into the kept and the generated triples, which form a level consistent with the last one |
| BeamSearch.SelectLevel | src/search/methods/tree_search/beam_search.py:68-79 | the triples at the top num_keep argsort positions are kept and the others generated; kept rewards are ascending, at least every generated reward, and their parents point into the previous level |
| BeamSearch.BeamSearchTree.AppendLevel | src/search/methods/tree_search/beam_search.py:81-87 | a level consistent with the last one keeps the tree invariant, and each of the six lists gains exactly that level at its end |
| BeamSearch.MapLevels | src/search/methods/tree_search/beam_search.py:110-117 | mapping nodes keeps the number of levels and each level's length |
| BeamSearch.BeamSearchTree.ProcessedData | src/search/methods/tree_search/beam_search.py:106-127 | the export has one level per tree level of the same size, each node replaced by its attributes, and rewards, parents, num_generate and num_keep unchanged |
| BeamSearch.BeamSearchTree.ProcessedDataRoundTrip | src/search/methods/tree_search/beam_search.py:106-127 | the export holds rewards, parents, num_generate and num_keep unchanged, and restoring the exported node attributes gives back the node levels |
| Query.CleanItem | src/llm/query.py:312-313 | a cleaned item has no quote characters and no surrounding whitespace |
| Query.ParseAnswer | src/llm/query.py:307-313 | parse_answer yields (comma count + 1) items, none containing a comma or quote and none with surrounding whitespace, so it is never empty |
| Query.ParseAnswerLocates | src/llm/query.py:309-313 | the body is the text between the first `[` after the first case-insensitive "final_answer" and the next `]`, and the result is its comma-separated items, each cleaned |
| Query.ParseAnswerWithoutMarker | src/llm/query.py:309-311 | without "final_answer" the find start is -1, Python's last character, so the body is the answer without its last character |
| Query.ParseAnswerRoundTrip | src/llm/query.py:307-313 | parsing "final_answer: [" + items joined by commas + "]" gives back the items, if they are clean |
| Query.MarkedBody | src/llm/query.py:309-311 | the marked answer's body is the text between the marker's bracket and the closing bracket |
| Query.FindIs | src/llm/query.py:309-311 | `str.find` returns the first occurrence at or after the (clamped) start |
| Query.CleanItemKeepsOut | src/llm/query.py:312-313 | cleaning introduces no character that was not already present |
| Query.StripKeepsOut | src/llm/query.py:313 | strip introduces no character |
| Query.CandidateStatement | src/llm/query.py:219-228 | the only error is the missing relation; no candidates give the empty statement; otherwise the statement starts with the relation and ends with a space |
| Query.CandidateStatementCases | src/llm/query.py:219-228 | the candidate statement fails exactly when candidates are given without a relation, and is empty exactly when no candidates are given |
| Query.PropertyStatement | src/llm/query.py:229-245 | a property statement is empty if and only if its list is empty |
| Query.PropertyStatementCases | src/llm/query.py:229-245 | the include and exclude statements are empty if and only if their list is empty; otherwise they start with the verb and end with ". " |
| Query.ExpertPrompt | src/llm/query.py:209-252 | generate_expert_prompt raises ValueError only for candidates given without a relation |
| Query.ExpertPromptCases | src/llm/query.py:209-252 | generate_expert_prompt raises ValueError exactly when candidates are given without a relation; with no candidates it fills the template with an empty candidate statement and the two property statements |
| Query.OcPrompt | src/llm/query.py:261-304 | generate_oc_prompt raises ValueError only for candidates given without a relation |
| Query.OcPromptCases | src/llm/query.py:261-304 | generate_oc_prompt fails exactly when generate_expert_prompt does, and ends with the answer count and " answers and their explanations as a list of pairs." |
| Query.Ones | src/llm/query.py:44-45 | the default preferences are one 1 per adsorbate |
| Query.QueryState.constructor | src/llm/query.py:22-57 | every field is its argument, except that missing preferences become one 1 per adsorbate |
| Query.QueryState.Copy | src/llm/query.py:59-75 | the copy keeps every field, including answer and query count, except num_answers, which reverts to 3 |
| Query.QueryState.CandidatesEmptyIff | src/llm/query.py:110-115 | the candidates are empty exactly when there is no answer |
| Query.QueryState.ReturnNext | src/llm/query.py:77-91 | the next state takes the current candidates as its candidate list; it clears the answer, zeroes the query count and resets preferences, label and num_answers to their defaults |
| Query.QueryState.SendQuery | src/llm/query.py:157-163 | each sent query adds exactly one to the query count and returns the reply |
| Query.QueryState.Query | src/llm/query.py:106-108 | query stores the reply as the answer and counts one query, or leaves the state unchanged when the prompt raises |
| Query.QueryState.SendAttemptQueries | src/llm/query.py:124-136 | an attempt that sends n queries adds n to the count and keeps the answer |
| Query.FailedCost | src/llm/query.py:121-154 | a failed attempt costs at least its sent queries plus the re-query |
| Query.FirstSuccess | src/llm/query.py:121-150 | the index of the first successful attempt, with every earlier attempt failed |
| Query.FirstSuccessAt | src/llm/query.py:121-150 | the first success is the attempt after a run of failures |
| Query.QueryState.QueryAdsorptionEnergyList | src/llm/query.py:117-155 | at most three attempts; each failure is followed by query(); the first success's value is returned; after three failures the last error is raised; a prompt error escapes at once; the query count and answer are exact in every case |
| LlmReward.StopIndex | src/search/reward/llm_reward.py:18-22 | the loop continues past exactly the values above the limit and stops at the first error or value within the limit |
| LlmReward.StopIndexIs | src/search/reward/llm_reward.py:20-22 | the stop index is the first value within the limit |
| LlmReward.Reward | src/search/reward/llm_reward.py:8-33 | a value is returned exactly when one is stored, and the stored value is the returned one; an error is the error of the last query made, within max_attempts |
| LlmReward.LlmAdsorptionEnergyReward | src/search/reward/llm_reward.py:8-33 | the loop returns and stores what the reward function specifies, including the query count |
| LlmReward.RewardQueriesBounded | src/search/reward/llm_reward.py:18-22 | at most max_attempts queries are made, and every query before the last returned a value above the limit |
| LlmReward.RewardStopsAtFirstWithinLimit | src/search/reward/llm_reward.py:20-33 | the loop stops at the first value within the limit and returns it unless that was the last allowed attempt |
| LlmReward.RewardPenaltyIff | src/search/reward/llm_reward.py:24-26 | the literal -10 is stored exactly when the loop used all max_attempts attempts |
| LlmReward.RewardWithoutAttempts | src/search/reward/llm_reward.py:18-26 | with max_attempts = 0 no query is made and -10 is returned; a negative max_attempts returns reward_limit + 1 |
| LlmReward.RewardDiscardsSuccessOnLastAttempt | src/search/reward/llm_reward.py:18-26 | whenever the first value within the limit comes on the last allowed attempt, -10 is returned and stored instead of that value |
| LlmReward.RewardPenalisesSuccessOnLastAttempt | src/search/reward/llm_reward.py:24-26 | the smallest instance: one allowed attempt answered 0.5 under a limit of 10 still returns -10 |
| LlmReward.CorrectedReward | src/search/reward/llm_reward.py:8-33 | as for the reward as written: the stored value is the returned one, and an error is the error of the last query made |
| LlmReward.CorrectedRewardReturnsFirstWithinLimit | src/search/reward/llm_reward.py:18-33 | the corrected loop returns a value within the limit whenever one is allowed, and penalises exactly when every allowed attempt is above the limit |
| DigitalTwin.LastPresent | src/structure_creation/digital_twin.py:150-158 | the index of the last status present, with no later status present, or None when none is present |
| DigitalTwin.StatusOf | src/structure_creation/digital_twin.py:147-158 | a status, when there is one, is an available status present in the params; there is none only when no available status is present |
| DigitalTwin.StatusIsFurthestStage | src/structure_creation/digital_twin.py:147-158 | the status is the last available status whose key is in the params, or None when none is |
| DigitalTwin.CompletedIff | src/structure_creation/digital_twin.py:160-163 | completed holds if and only if "site_placement" is a params key |
| DigitalTwin.SettingStageAdvancesStatus | src/structure_creation/digital_twin.py:147-158 | setting a stage never leaves the status before that stage |
| DigitalTwin.UpdatedInfo | src/structure_creation/digital_twin.py:82-94 | the only error is TypeError, on a key already present; on success the key is present afterwards with the update's kind of entry and every other entry is unchanged |
| DigitalTwin.UpdatedInfoTypeErrorIff | src/structure_creation/digital_twin.py:82-90 | update_info raises TypeError exactly when the stored entry's kind differs from the update's |
| DigitalTwin.UpdatedInfoPresent | src/structure_creation/digital_twin.py:87-94 | a stored list is extended by the update, a stored dict is merged with it, and other keys are unchanged |
| DigitalTwin.UpdatedInfoAbsent | src/structure_creation/digital_twin.py:84-94 | on an absent key a list update is stored concatenated with itself and a dict update is stored as is |
| DigitalTwin.CatalystDigitalTwin.UpdateInfo | src/structure_creation/digital_twin.py:82-94 | the info becomes the merge, or TypeError is raised and the info is left as it was; params, objects, id, children, cancellation and reward are untouched |
| DigitalTwin.CatalystDigitalTwin.constructor | src/structure_creation/digital_twin.py:45-72 | arguments are stored; the id is a fresh uuid only when none is given (a given id is never stored) |
| DigitalTwin.CatalystDigitalTwin.Copy | src/structure_creation/digital_twin.py:96-106 | a copy has the same params and objects, info only if asked, a fresh id, no children, not canceled and no reward |
| DigitalTwin.Items | src/structure_creation/digital_twin.py:167-168 | a single value is wrapped into a one-element list (the same wrapping recurs at lines 182-183) |
| DigitalTwin.CatalystDigitalTwin.SetFirstAndBranch | src/structure_creation/digital_twin.py:165-193 | element 0 is written into the twin's params and objects; copy k branches from the old params with element k+1; nothing else changes |
| DigitalTwin.CatalystDigitalTwin.SetAnswers | src/structure_creation/digital_twin.py:165-178 | the first answer is set on the twin and each further answer on one fresh copy; the twin's info, children, cancellation and reward are untouched |
| DigitalTwin.CatalystDigitalTwin.SetSymbols | src/structure_creation/digital_twin.py:180-193 | as set_answers for symbol lists; IndexError is raised for an empty list and only then; children, cancellation and reward are untouched |
| DigitalTwin.CatalystDigitalTwin.SetBulk | src/structure_creation/digital_twin.py:228-243 | one fresh copy per material, holding its material id in params and the material in objects; the twin is unchanged |
| DigitalTwin.ConvertMillerBravaisToMiller | src/structure_creation/digital_twin.py:322-345 | the conversion succeeds exactly on four indices with i = -(h+k), fails otherwise with the assertion error, and its result maps back to the input |
| DigitalTwin.MillerBravaisRoundTrip | src/structure_creation/digital_twin.py:322-345 | the conversion succeeds with (h, k, l) exactly on the 4-tuple (h, k, -(h+k), l) |
| DigitalTwin.NormalizedMillerCases | src/structure_creation/digital_twin.py:258-259 | 3-tuples are kept; any other length converts exactly when it is a valid Miller–Bravais 4-tuple (the conversion is at lines 337-340) |
| DigitalTwin.FirstBadMiller | src/structure_creation/digital_twin.py:257-259 | the first index whose conversion fails, with every earlier one valid |
| DigitalTwin.CatalystDigitalTwin.SetMillers | src/structure_creation/digital_twin.py:247-272 | one copy per index triple, each with its normalised indices and its slabs; the first invalid tuple raises AssertionError, and a missing bulk raises KeyError |
| DigitalTwin.CatalystDigitalTwin.MillerBranch | src/structure_creation/digital_twin.py:257-271 | an index tuple that does not normalise yields AssertionError, a missing bulk yields KeyError, and otherwise the result is a fresh copy of this twin that differs only in its stored indices and slabs |
| DigitalTwin.CatalystDigitalTwin.SetSurfaces | src/structure_creation/digital_twin.py:278-291 | one fresh copy per slab, holding (shift, top) in params and the slab in objects |
| DigitalTwin.CatalystDigitalTwin.SetSitePlacements | src/structure_creation/digital_twin.py:303-319 | one completed copy per site, holding the site and the (surface, site) pair; without a surface it raises KeyError |
| DigitalTwin.CatalystDigitalTwin.ReturnRow | src/structure_creation/digital_twin.py:108-116 | return_row as written never returns a row, and an attribute error arises only on a completed twin |
| DigitalTwin.CatalystDigitalTwin.ReturnRowNeverSucceeds | src/structure_creation/digital_twin.py:108-116 | return_row always raises: ValueError when not completed, otherwise the missing `_parent_twin_id` |
| DigitalTwin.CatalystDigitalTwin.ReturnRowCorrected | src/structure_creation/digital_twin.py:108-116 | the corrected row exists exactly for a completed twin with an id, and carries that id and a None parent id |
| DigitalTwin.CatalystDigitalTwin.ReturnRowCorrectedContents | src/structure_creation/digital_twin.py:108-116 | the corrected row exists exactly for a completed twin with an id, and is the params plus "id" and "parent_twin_id" |
| SymbolCounts.CountSymbols | src/search/reward/simulation_reward.py:187-194 | the counting loop yields the distinct symbols in first-seen order and each symbol's multiplicity |
| SymbolCounts.Distinct | src/search/reward/reaction_reward.py:361-367 | the dict keys: each symbol once, in order of first appearance |
| SymbolCounts.Tally | src/search/reward/reaction_reward.py:361-367 | each present symbol maps to its multiplicity |
| SimulationReward.Values | src/search/reward/simulation_reward.py:195 | the counts of the keys, in key order |
| SimulationReward.SpellFormula | src/search/reward/simulation_reward.py:196-198 | the loop spells each sorted symbol followed by its count divided by the gcd |
| SimulationReward.MetalFormula | src/search/reward/simulation_reward.py:184-199 | the formula fails, with TypeError, exactly when there are no atoms |
| SimulationReward.ReduceMetalSymbols | src/search/reward/simulation_reward.py:184-199 | the loop computes the specified formula, and raises exactly for no atoms (reduce over an empty list) |
| SimulationReward.ScaleTally | src/search/reward/simulation_reward.py:188-194 | scaling multiplies every count and keeps the symbols |
| SimulationReward.SpellAgree | src/search/reward/simulation_reward.py:196-198 | equal reduced counts spell the same formula |
| SimulationReward.FormulaScaleInvariant | src/search/reward/simulation_reward.py:195-198 | multiplying every count by the same factor leaves the formula unchanged |
| SimulationReward.FormulaCountsCoprime | src/search/reward/simulation_reward.py:195-198 | the emitted counts have gcd 1 |
| SimulationReward.MetalFormulaOrderIndependent | src/search/reward/simulation_reward.py:184-199 | the formula depends only on the multiset of atoms, not on their order |
| SimulationReward.FormulaSameKeys | src/search/reward/simulation_reward.py:195-198 | the formula does not depend on the dict's key order |
| SimulationReward.TrajNameRoundTrip | src/search/reward/simulation_reward.py:158-159 | the stem and parent of the path `name/idx` (built at line 106) give back idx and name |
| SimulationReward.TrajNamesDistinct | src/search/reward/simulation_reward.py:106 | samples with the same name and different indices get different paths |
| SimulationReward.UnpackBatchResults | src/search/reward/simulation_reward.py:153-161 | one (stem, parent, result) per batch result; a result without a path is an IndexError |
| SimulationReward.UnpackedKeys | src/search/reward/simulation_reward.py:157-160 | the unpacked keys are the keys read from the batch paths |
| SimulationReward.LookUpCached | src/search/reward/simulation_reward.py:110-137 | an item is served from cache exactly when its trajectory exists and the stored energies contain it |
| SimulationReward.QueuedStep | src/search/reward/simulation_reward.py:110-137 | one more item queues its path exactly when it is not cached |
| SimulationReward.CalculateBatch | src/search/reward/simulation_reward.py:163-173 | with one result per atoms object (the calculator call at lines 140-141) the batch unpacks to exactly the batch paths' keys |
| SimulationReward.VisitSample | src/search/reward/simulation_reward.py:104-143 | one loop step keeps the batching invariant: full batches dispatched, queued paths in order, every input accounted for once |
| SimulationReward.FlushRemainder | src/search/reward/simulation_reward.py:145-151 | the final non-empty remainder is dispatched, completing the invariant |
| SimulationReward.CreateBatchesAndCalculate | src/search/reward/simulation_reward.py:99-151 | the dispatched batches concatenate to the uncached paths in input order; each has batch_size items except possibly a final non-empty remainder; with one result per atoms object, each input contributes exactly one result |
| SimulationReward.SampleAdslabs | src/search/reward/simulation_reward.py:175-182 | num_samples samples indexed 0..num_samples-1, all with the given name |
| SimulationReward.SampledTrajNamesDistinct | src/search/reward/simulation_reward.py:176-182 | the samples' trajectory paths (built at line 106) are pairwise distinct |
| Batching.ChunkedIsChunks | src/search/reward/simulation_reward.py:139-149 | batches of full size followed by one non-empty remainder are exactly the fixed-size chunking of the queued items |
| ReactionReward.ReduceCandidateSymbols | src/search/reward/reaction_reward.py:381-396 | an empty symbol list is an IndexError and every other list has a name |
| ReactionReward.CandidateOneSymbol | src/search/reward/reaction_reward.py:389-394 | one symbol gives itself |
| ReactionReward.CandidateTwoSymbols | src/search/reward/reaction_reward.py:391-392 | two symbols give their concatenation in order |
| ReactionReward.CandidateManySymbols | src/search/reward/reaction_reward.py:393-394 | three or more give the first symbol followed by the rest sorted |
| ReactionReward.CandidateTailOrderIndependent | src/search/reward/reaction_reward.py:393-394 | the name does not depend on the order of the symbols after the first |
| ReactionReward.MetalName | src/search/reward/reaction_reward.py:353-379 | no atoms give the empty name, and atoms of a single element are named by that element |
| ReactionReward.ReduceMetalSymbols | src/search/reward/reaction_reward.py:353-379 | the counting loop computes the specified name |
| ReactionReward.NameSymbolsArePermutation | src/search/reward/reaction_reward.py:369-378 | the name lists each distinct element exactly once |
| ReactionReward.TwoMetalsByCount | src/search/reward/reaction_reward.py:369-374 | with two elements the more numerous comes first, and on a tie the second-encountered comes first |
| ReactionReward.OtherwiseAlphabetical | src/search/reward/reaction_reward.py:375-376 | with any other number of elements they are in sorted order |
| ReactionReward.MetalNameOrderIndependent | src/search/reward/reaction_reward.py:353-379 | the name depends only on the multiset of atoms, unless two elements tie |
| ReactionReward.BatchNameRoundTrip | src/search/reward/reaction_reward.py:311-312 | the stem before the first "-" and the parent of `name/idx-uuid` (built at lines 184 and 199) give back idx and name |
| ReactionReward.UnpackBatchResults | src/search/reward/reaction_reward.py:307-315 | one (idx, name, result, validity) per batch result; a result without a path is an IndexError |
| ReactionReward.OutcomeKeys | src/search/reward/reaction_reward.py:314 | one key per outcome |
| ReactionReward.BatchKeys | src/search/reward/reaction_reward.py:311-312 | one key per batch path |
| ReactionReward.LookUpReused | src/search/reward/reaction_reward.py:188-209 | an item is reused exactly when its trajectory is found and a prediction exists, with that prediction and validity |
| ReactionReward.QueuedStep | src/search/reward/reaction_reward.py:188-212 | one more item queues its uuid path exactly when it is not reused |
| ReactionReward.CalculateBatch | src/search/reward/reaction_reward.py:318-330 | with one result per atoms object (the calculator call at lines 216-217) the batch unpacks to exactly the batch paths' keys |
| ReactionReward.VisitSample | src/search/reward/reaction_reward.py:183-219 | one loop step keeps the batching invariant |
| ReactionReward.FlushRemainder | src/search/reward/reaction_reward.py:221-227 | the final non-empty remainder is dispatched |
| ReactionReward.CreateBatchesAndCalculate | src/search/reward/reaction_reward.py:178-227 | batches are dispatched exactly when they reach batch_size, plus one final non-empty remainder, and concatenate to the non-reused paths; with one result per atoms object every input gives exactly one outcome with its own (idx, name) |
| ReactionReward.SampleAdslabsHeuristic | src/search/reward/reaction_reward.py:343-351 | the heuristic samples are indexed 0..len-1 in returned order with the given name and distinct paths |
| ReactionReward.ArgMin | src/search/reward/reaction_reward.py:298 | the first index of a minimal reward |
| ReactionReward.ArgMinUnique | src/search/reward/reaction_reward.py:298 | an index that is minimal and strictly below every earlier one is the argmin |
| ReactionReward.GetRewardForPaths | src/search/reward/reaction_reward.py:283-304 | the selection is the first path of minimal reward, with its index and reward; no paths is a ValueError |
| ReactionReward.CreateStructures | src/search/reward/reaction_reward.py:64-124 | the loop collects, or raises, what the specification does; an entry whose bulk generation fails is blanked in place and the others are untouched |
| ReactionReward.VisitSlab | src/search/reward/reaction_reward.py:79-122 | one slab entry adds its samples and mapping or raises as one iteration does, and only its own entry may be blanked |
| ReactionReward.SampleSlab | src/search/reward/reaction_reward.py:103-122 | each adsorbate is resolved in the table (KeyError for a starred symbol missing from it), sampled and appended, and each "{slab}_{ads}" name maps to `candidates_list[i]` when candidates are given (IndexError past its end); the first adsorbate decides which error a missing candidate raises |
| ReactionReward.Collect | src/search/reward/reaction_reward.py:79-122 | the loop raises only IndexError or KeyError, KeyError only when a starred adsorbate is missing from the table, and with every slab entry None nothing is collected |
| ReactionReward.CollectErrPersists | src/search/reward/reaction_reward.py:79-82 | an error in a prefix of the slab list is the error of the whole list |
| ReactionReward.ClearingPreservesCollect | src/search/reward/reaction_reward.py:92-97 | blanking the failed entries does not change what is collected |
| ReactionReward.CollectOk | src/search/reward/reaction_reward.py:79-122 | with non-empty symbol lists and enough candidates the loop fails exactly when some slab is reached while a starred adsorbate is missing from the table, and then with KeyError |
| ReactionReward.MissingAdsorbateRaisesKeyError | src/search/reward/reaction_reward.py:104-105 | a stored slab "Pt" with the adsorbate "*XYZ" absent from the table ends the loop with KeyError |
| ReactionReward.ResolveFailsIffMissingStarred | src/llm/ase_interface.py:280-284 | an adsorbate symbol fails to resolve exactly when it is starred and not a table key |
| ReactionReward.ClearedAddsNothingElse | src/search/reward/reaction_reward.py:92-97 | a blanked entry contributes what the failed entry contributed |
| ReactionReward.SamplesLabelled | src/search/reward/reaction_reward.py:106-111 | every sample's name is a key of the mapping |
| ReactionReward.CollectMapsEveryName | src/search/reward/reaction_reward.py:104-122 | with candidates given, every collected sample's name has a candidate |
| ReactionReward.CollectNoCandidates | src/search/reward/reaction_reward.py:110-121 | without candidates the mapping is empty |
| AseInterface.ConvertAlloy | src/llm/ase_interface.py:189-208 | the result has the same number of atoms; atom ind[i] gets the i//p-th symbol's number when i//p < the symbol count and keeps its number otherwise; 1 or 2 atoms raise ZeroDivisionError and an unknown symbol raises KeyError |
| AseInterface.DivBelow | src/llm/ase_interface.py:202-203 | i // p is below k exactly when i < p*k |
| AseInterface.ReassignedPositionsCounted | src/llm/ase_interface.py:201-206 | the positions i with i // p < k, exactly those ConvertAlloy gives a new number, number ReassignedCount(n, p, k) |
| AseInterface.ReassignedCountIsMin | src/llm/ase_interface.py:201-206 | the count of positions selected for reassignment is min(n, p*k) |
| AseInterface.OneSymbolReassignsAThird | src/llm/ase_interface.py:198-206 | with one symbol exactly n // 3 positions are selected for reassignment |
| AseInterface.BulkFor | src/llm/ase_interface.py:260-277 | a built bulk records the symbol list; an empty list is an IndexError and every other failure a StructureGenerationError |
| AseInterface.SymbolsListToBulk | src/llm/ase_interface.py:260-277 | the method builds what the specification builds |
| AseInterface.OnlyFirstSymbolUnlessAlloy | src/llm/ase_interface.py:268 | for 1 or 4+ symbols only the first symbol builds the atoms |
| AseInterface.AlloyFailsAtAStep | src/llm/ase_interface.py:269-275 | alloying fails exactly when one step of it fails |
| AseInterface.Elements | src/llm/ase_interface.py:247-249 | the set of the items |
| AseInterface.ScanLine | src/llm/ase_interface.py:244-252 | a response line keeps one slot per answer and can only fail with ValueError (too many ':' parts, or an unknown name) |
| AseInterface.Scanned | src/llm/ase_interface.py:242-252 | scanning all lines keeps one slot per answer and only fails with ValueError |
| AseInterface.ParseResponse | src/llm/ase_interface.py:242-252 | the loop returns exactly the specified parse, one slot per answer |
| AseInterface.ReadLine | src/llm/ase_interface.py:244-252 | one line fails exactly when its scan fails, and otherwise decodes the scanned slots |
| AseInterface.DecodeUpdate | src/llm/ase_interface.py:247-252 | filling slot i re-decodes only slot i |
| AseInterface.ScannedErrPersists | src/llm/ase_interface.py:243-246 | an error on an earlier line is the error of the whole response |
| AseInterface.OnlyFirstOccurrenceFilled | src/llm/ase_interface.py:246 | only the first occurrence of a repeated answer name is ever filled |
| AseInterface.ScannedFirstOccurrence | src/llm/ase_interface.py:246 | a filled slot is its name's first occurrence |
| AseInterface.LlmAnswerToSymbols | src/llm/ase_interface.py:211-257 | a single-string answer is wrapped and its one slot returned unwrapped; a list answer returns the slots; failures are ValueError |
| AseInterface.ParseSymbolsRoundTrip | src/llm/ase_interface.py:247-251 | "[a, b, ...]" parses to the set of the symbols, and "[None]" to None |
| AseInterface.ParseResponseRoundTrip | src/llm/ase_interface.py:224-252 | a response in the requested "name: [list]" format, one line per distinct answer, fills each answer's own slot with its symbols |
| AseInterface.Starless | src/llm/ase_interface.py:286-289 | the keys with "*" removed, position for position |
| AseInterface.AdsSymbolsToStructure | src/llm/ase_interface.py:280-302 | a name with "*" resolves exactly when it is a key, and otherwise raises KeyError; a starless name resolves to a key that matches after removing "*", recording the given name; otherwise a molecule is built |
| AseInterface.ResolvesToFirstMatch | src/llm/ase_interface.py:286-293 | a starless name resolves to the first matching key |
| AseInterface.StarlessNameRecoversKey | src/llm/ase_interface.py:282-293 | with unambiguous keys, both a key and its starless form resolve to that key |
| ProcessTrees.CleanItems | src/scripts/process_trees.py:19-30 | cleaning a list keeps its length and positions, cleaning each element |
| ProcessTrees.Retained | src/scripts/process_trees.py:36-44 | a key is retained exactly when it is not one of the six diagnostic keys |
| ProcessTrees.CleanedKeys | src/scripts/process_trees.py:33-53 | the cleaned dict's keys are the original keys, in order, minus the six diagnostic keys |
| ProcessTrees.CleanedValues | src/scripts/process_trees.py:45-52 | every retained key keeps its cleaned value |
| ProcessTrees.Delete | src/scripts/process_trees.py:44 | deleting a present key removes one entry |
| ProcessTrees.Assign | src/scripts/process_trees.py:46-52 | assigning a present key keeps the size, and an absent key is appended |
| ProcessTrees.DeleteAt | src/scripts/process_trees.py:44 | deleting a key removes exactly its own entry |
| ProcessTrees.AssignAt | src/scripts/process_trees.py:46-52 | assigning a key replaces exactly its own entry |
| ProcessTrees.CleanedKeysFrom | src/scripts/process_trees.py:33-53 | cleaning adds no key |
| ProcessTrees.CleanList | src/scripts/process_trees.py:19-30 | the loop over the copy returns the specified cleaning; the input is a value and is not changed |
| ProcessTrees.CleanJson | src/scripts/process_trees.py:33-53 | the loop over the copy returns the specified cleaning; the input is a value and is not changed |
| ProcessTrees.CleanStep | src/scripts/process_trees.py:35-52 | with the first entries cleaned and the rest untouched, deleting the next entry's dropped key, or overwriting its kept key with the cleaned value, leaves one more entry cleaned |
| ProcessTrees.DeepCleanIsTidy | src/scripts/process_trees.py:19-53 | corrected cleaning leaves no array and no diagnostic key at any depth |
| ProcessTrees.TidyIsFixed | src/scripts/process_trees.py:19-53 | cleaning a tidy tree leaves it unchanged, so scalars and retained structure are kept |
| ProcessTrees.DeepCleanIdempotent | src/scripts/process_trees.py:19-53 | cleaning twice gives the same result as cleaning once (corrected cleaning) |
| ProcessTrees.FlatCleansDeep | src/scripts/process_trees.py:22-23 | when no array contains an array or dict, the as-written cleaning (here and at lines 45-46) equals the corrected one |
| ProcessTrees.FlatCleanIdempotent | src/scripts/process_trees.py:19-53 | on such trees the as-written cleaning is tidy and idempotent |
| ProcessTrees.ShallowArrayCleaning | src/scripts/process_trees.py:22-23 | `list(v)` (here and at lines 45-46) is shallow: a nested array stays an array, so cleaning twice differs from cleaning once, and a dict inside an array keeps its "reward" key |
| PyStr.Find | src/llm/query.py:309-311 | `str.find` returns -1 or the first occurrence at or after the start, where a negative start counts from the end |
| PyStr.ClampIndex | src/llm/query.py:311 | slice bounds clamp as in Python, negative ones counting from the end |
| PyStr.Split | src/llm/query.py:312 | `split` on a character gives one more piece than occurrences, none containing the separator |
| PyStr.JoinSplit | src/llm/query.py:312 | joining the pieces of a split gives back the string |
| PyStr.SplitJoin | src/llm/ase_interface.py:245 | splitting a join of separator-free pieces gives back the pieces |
| PyStr.Strip | src/llm/query.py:313 | strip leaves no whitespace at either end |
| PyStr.StripChar | src/llm/ase_interface.py:248 | `strip(c)` leaves no c at either end |
| PyStr.Lower | src/llm/query.py:309 | lower keeps the length, maps the ASCII letters A–Z to a–z and leaves every other character as it is |
| PyStr.Remove | src/llm/query.py:312-313 | `replace(c, "")` removes every c and keeps every other character |
| PyStr.SortStringsSorted | src/search/reward/reaction_reward.py:376 | `sorted` on strings returns its input in ascending order |
| PyStr.SortedUnique | src/search/reward/reaction_reward.py:376 | two sorted orderings of the same strings are equal |
| PyStr.NatToStringInjective | src/search/reward/simulation_reward.py:106 | distinct indices print as distinct numerals |
| Paths.JoinedParts | src/search/reward/simulation_reward.py:159 | the parent of `name/child` (built at line 106) is name and its last part is child |
| Paths.StemOfJoined | src/search/reward/simulation_reward.py:158 | the stem of `name/child` (built at line 106) is child when child has no dot |

## Left out

- Query.OcPromptCases: only the end of the open-catalyst prompt (the answer count and the closing sentence) and its failure condition are stated; that it opens with "Generate a list of candidate" is not, because stating it made the proof too expensive.
- PyStr.Lower: only ASCII case mapping is modelled; Python's Unicode `str.lower` also lowers letters such as 'Ä' and can lengthen a string ('İ' becomes two characters), which the model's equal-length result does not allow. The marker it is used to find, "final_answer", is ASCII.
- Network and language-model clients are not modelled: `run_query`, `init_openai`, `run_embedding_test` and the Azure interface. Replies are inputs: a response string, or an abstract sequence of attempt outcomes.
- `QueryState.similarity` is not modelled: it is embeddings and float cosine similarity.
- `fstr` evaluates the template with `eval`. It is the opaque parameter `fill`, so the expert prompt is only specified through the statements passed to it.
- The float aggregation of `query_adsorption_energy_list` (mean of means raised to the preferences) is not modelled: each attempt's aggregated value is part of the attempt outcome.
- `generate_adsorption_energy_list_prompt` and its `reward_template` are not modelled. The template is never passed, and the prompt text only reaches the model, which is abstract.
- The structure builders from ase, pymatgen and ocdata are parameters: `create_bulk`, alloying, `generate_bulk_ads_pairs`, `combine_adsorbate_slab`, `build.molecule`, slab generation, and `get_slab`/`choose_slab`. The calculator's relaxation and energy calls are the `calculate` parameter.
- The atomic-number table of `convert_alloy` is a map parameter, and atoms are their atomic numbers.
- File-system effects are predicates and parameters: mkdir, glob, the `adsorption.json` reads, `get_prediction2` and `get_validity`. `uuid4` is a parameter. `pathlib` is modelled on plain `/`-joined strings without normalisation.
- `StructureReward.__call__`, `parse_adsorption_energies`, `get_reward_for_path` and `PathReward.__call__` are not modelled: they are float aggregation, and `get_reward_for_path` depends on module globals. `get_reward_for_paths` takes the per-path reward as a function.
- The GNN call and time counters of `create_structures_and_calculate`, and its final `create_batches_and_calculate` call, are not modelled: they are timing and a call proved separately.
- ReactionReward.Collect: the adsorbate lookup raises KeyError only for a starred symbol missing from the OC20 table. An unstarred name that is neither a starless table key nor a molecule ase knows is rejected inside `build.molecule`, which is not part of this model. Such a name resolves to a `Molecule` and is sampled.
- LlmReward.Reward: `set_reward` is not defined on `QueryState`. The only definition is `CatalystDigitalTwin.set_reward(self, reward)` at src/structure_creation/digital_twin.py:74, and it takes one argument. The call is recorded as its arguments, the `StoredReward` value, and is not linked to either class.
- ReactionReward.GetRewardForPaths: rewards are reals, so NaN (where `np.argmin` returns the first NaN) is not modelled.
- AseInterface.LlmAnswerToSymbols: a slot is the set of symbols; the order of `list(set)` in Python is unspecified and is not modelled.
- AseInterface.ConvertAlloy: the random shuffle is a given permutation, and the input `Atoms` object is a value, so "input not modified" holds by construction.
- BeamSearch.BeamSearchTree.SimulationPolicy: the node objects of Python lists are values, so aliasing between levels is not modelled; `np.argsort` is any sorting permutation, so ties are arbitrary.
- Query.QueryState.constructor: list arguments are values, so the copying that prevents aliasing holds by construction rather than being proved.
- ProcessTrees.CleanJson: a dict is a list of entries with distinct keys (required as `WellFormed`, which every Python dict satisfies); a numpy array is the `Array` case, whose elements are JSON values.
- DigitalTwin.CatalystDigitalTwin.SetMillers: `Slab.from_bulk_get_specific_millers` is the parameter `slabsFor`; deep copies are values.
- Timers, pickling and `get_time` of the beam search, the tree-save filter and file I/O of the tree processing script, `coherent_policy.py`, MCTS and the driver and analysis scripts are not modelled: they are I/O, timing or not part of this core.
- `get_bulks`, `get_site_placements`, `return_slab`, `return_adslab_config` and `force_equal_length_arrays` of the digital twin are not modelled: they are Materials Project and ocdata calls.

## Findings

| source | as written | input that shows it | evidently intended | confidence | as-written member | corrected member |
|---|---|---|---|---|---|---|
| src/search/reward/llm_reward.py:24-26 | the penalty test is `attempts == max_attempts`, so a value within the limit on the last allowed attempt is discarded | max_attempts = 1, first value 0.5 with reward_limit 10: returns -10 | penalise only when no allowed attempt came within the limit | not executed | LlmReward.RewardDiscardsSuccessOnLastAttempt | LlmReward.CorrectedRewardReturnsFirstWithinLimit |
| src/structure_creation/digital_twin.py:115 | `_parent_twin_id` is never assigned anywhere, so return_row raises AttributeError even on a completed twin | any completed twin | return the params with its id and parent id | not executed | DigitalTwin.CatalystDigitalTwin.ReturnRowNeverSucceeds | DigitalTwin.CatalystDigitalTwin.ReturnRowCorrectedContents |
| src/scripts/process_trees.py:22-23 | `list(v)` (here and at lines 45-46) converts only the outer level of an array, so nested arrays stay arrays and dicts inside arrays keep their diagnostic keys | a 2-D array [[1]], or an array holding {"reward": 0} | clean array elements recursively, so that no array and no diagnostic key survives and cleaning is idempotent | not executed | ProcessTrees.ShallowArrayCleaning | ProcessTrees.DeepCleanIdempotent |
