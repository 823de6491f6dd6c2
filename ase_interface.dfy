// The symbol-level part of the ase interface: how an alloy is made from a bulk by
// reassigning a third of its atoms per added element, when a symbol list gives an alloy,
// how the language model's symbol answer is parsed back into slots, and how an adsorbate
// name is resolved against the adsorbate table. Atoms objects are reduced to their
// atomic numbers; structure building itself is a parameter.

module AseInterface {
  import opened Wrappers
  import opened PyStr
  import opened SymbolCounts
  import opened NumberTheory

  /** The exceptions these functions raise, by Python class. */
  datatype AseError = ZeroDivisionError | KeyError | IndexError | ValueError | StructureGenerationError

  // ------------------------------------------------------------------ convert_alloy

  /** `random.shuffle(list(range(n)))`: each atom index once. */
  predicate IsShuffle(ind: seq<nat>, n: nat) {
    |ind| == n &&
    (forall i :: 0 <= i < n ==> ind[i] < n) &&
    (forall i, j :: 0 <= i < j < n ==> ind[i] != ind[j])
  }

  /** The `i`-th shuffled atom must be looked up in the atomic-number table, and is not there. */
  predicate MissingSymbol(other: seq<string>, p: nat, table: map<string, int>, i: nat) {
    p > 0 && i / p < |other| && other[i / p] !in table
  }

  /** The atomic number the `i`-th shuffled atom ends with: that of `other[i // p]` while
      that index exists, else its own. */
  function NewNumber(oldZ: seq<int>, other: seq<string>, ind: seq<nat>, table: map<string, int>, i: nat): int
    requires IsShuffle(ind, |oldZ|) && i < |oldZ| && |oldZ| / 3 > 0
    requires !MissingSymbol(other, |oldZ| / 3, table, i)
  {
    var p := |oldZ| / 3;
    if i / p < |other| then table[other[i / p]] else oldZ[ind[i]]
  }

  /** `convert_alloy(bulk, other_symbols)` on the atomic numbers `oldZ` of a copy of the bulk,
      with the shuffled order `ind` and ase's symbol table given. With p = n // 3, the
      shuffled atoms are taken p at a time, one group per added symbol. A bulk of one or two
      atoms makes p zero and the first `i // p` raise; an empty bulk comes back empty. */
  method ConvertAlloy(oldZ: seq<int>, other: seq<string>, ind: seq<nat>, table: map<string, int>)
    returns (r: Result<seq<int>, AseError>)
    requires IsShuffle(ind, |oldZ|)
    ensures r == Err(ZeroDivisionError) <==> 0 < |oldZ| < 3
    ensures r == Err(KeyError) <==>
              |oldZ| >= 3 && exists i :: 0 <= i < |oldZ| && MissingSymbol(other, |oldZ| / 3, table, i)
    ensures r.Err? ==> r.error == ZeroDivisionError || r.error == KeyError
    ensures r.Ok? ==> |r.value| == |oldZ|
    ensures r.Ok? ==> forall i :: 0 <= i < |oldZ| ==>
              !MissingSymbol(other, |oldZ| / 3, table, i) && r.value[ind[i]] == NewNumber(oldZ, other, ind, table, i)
  {
    var n := |oldZ|;
    var p := n / 3;
    var newZ := new int[n](_ => 0);
    for i := 0 to n
      invariant i > 0 ==> p > 0
      invariant forall j :: 0 <= j < i ==> !MissingSymbol(other, p, table, j)
      invariant forall j :: 0 <= j < i ==> newZ[ind[j]] == NewNumber(oldZ, other, ind, table, j)
    {
      if p == 0 {
        return Err(ZeroDivisionError);
      }
      var elem := i / p;
      if elem < |other| {
        if other[elem] !in table {
          assert MissingSymbol(other, p, table, i);
          return Err(KeyError);
        }
        newZ[ind[i]] := table[other[elem]];
      } else {
        newZ[ind[i]] := oldZ[ind[i]];
      }
    }
    return Ok(newZ[..]);
  }

  /** How many of the first `n` shuffled positions take a new element when `k` symbols are
      added with partition `p`. */
  function ReassignedCount(n: nat, p: nat, k: nat): nat
    requires p > 0
  {
    if n == 0 then 0 else ReassignedCount(n - 1, p, k) + (if (n - 1) / p < k then 1 else 0)
  }

  lemma DivBelow(i: nat, p: nat, k: nat)
    requires p > 0
    ensures i / p < k <==> i < p * k
  {
    var q, r := i / p, i % p;
    assert i == q * p + r;
    if q < k {
      MulBounds(k - q, p);
      assert p * k == q * p + (k - q) * p;
    } else {
      MulBounds(q - k, p);
      assert q * p == p * k + (q - k) * p;
    }
  }

  /** Adding `k` symbols reassigns min(n, p·k) atoms: the shuffled positions before p·k. */
  lemma {:induction false} ReassignedCountIsMin(n: nat, p: nat, k: nat)
    requires p > 0
    ensures ReassignedCount(n, p, k) == if n < p * k then n else p * k
  {
    if n > 0 {
      ReassignedCountIsMin(n - 1, p, k);
      DivBelow(n - 1, p, k);
    }
  }

  /** The shuffled positions `i < n` with `i // p < k`: by `ConvertAlloy`'s contract, exactly
      the positions whose atom takes the number of an added symbol. */
  function ReassignedPositions(n: nat, p: nat, k: nat): set<nat>
    requires p > 0
  {
    set i: nat | i < n && i / p < k
  }

  /** `ReassignedCount` counts those positions. */
  lemma {:induction false} ReassignedPositionsCounted(n: nat, p: nat, k: nat)
    requires p > 0
    ensures |ReassignedPositions(n, p, k)| == ReassignedCount(n, p, k)
  {
    if n > 0 {
      var prev := ReassignedPositions(n - 1, p, k);
      var last: set<nat> := if (n - 1) / p < k then {n - 1} else {};
      assert ReassignedPositions(n, p, k) == prev + last;
      assert prev !! last;
      ReassignedPositionsCounted(n - 1, p, k);
    }
  }

  /** With one added symbol exactly p = n // 3 atoms are reassigned; the rest keep their numbers. */
  lemma OneSymbolReassignsAThird(n: nat)
    requires n >= 3
    ensures ReassignedCount(n, n / 3, 1) == n / 3
  {
    ReassignedCountIsMin(n, n / 3, 1);
  }

  // ------------------------------------------------------------------ symbols_list_to_bulk

  /** A bulk and the `bulk_syms` entry of its info. */
  datatype Bulk<B> = Bulk(atoms: B, bulkSyms: seq<string>)

  /** Alloying each further symbol in turn; None when one of them raises. */
  function Alloyed<B>(bulk: B, syms: seq<string>, alloy: (B, string) -> Option<B>): Option<B>
    decreases |syms|
  {
    if syms == [] then Some(bulk)
    else
      match alloy(bulk, syms[0])
      case None => None
      case Some(b) => Alloyed(b, syms[1..], alloy)
  }

  /** Only lists of two or three symbols are made into an alloy. */
  predicate Alloys(syms: seq<string>) {
    1 < |syms| < 4
  }

  /** What `symbols_list_to_bulk` returns: the bulk of the first symbol, alloyed with the
      others when there are one or two of them. An empty list raises IndexError (the
      handler's own message indexes the empty list again). */
  function BulkFor<B>(syms: seq<string>, createBulk: string -> Option<B>, alloy: (B, string) -> Option<B>)
    : (r: Result<Bulk<B>, AseError>)
    ensures r.Ok? ==> r.value.bulkSyms == syms
    ensures r.Err? ==> r.error == if syms == [] then IndexError else StructureGenerationError
  {
    if syms == [] then Err(IndexError)
    else
      match createBulk(syms[0])
      case None => Err(StructureGenerationError)
      case Some(first) =>
        if !Alloys(syms) then Ok(Bulk(first, syms))
        else
          match Alloyed(first, syms[1..], alloy)
          case None => Err(StructureGenerationError)
          case Some(b) => Ok(Bulk(b, syms))
  }

  /** `symbols_list_to_bulk(symbols_list)`, with `create_bulk` and the alloying step given. */
  method SymbolsListToBulk<B>(syms: seq<string>, createBulk: string -> Option<B>, alloy: (B, string) -> Option<B>)
    returns (r: Result<Bulk<B>, AseError>)
    ensures r == BulkFor(syms, createBulk, alloy)
  {
    if syms == [] {
      return Err(IndexError);
    }
    var first := createBulk(syms[0]);
    if first.None? {
      return Err(StructureGenerationError);
    }
    var bulk := first.value;
    if 1 < |syms| < 4 {
      for i := 1 to |syms|
        invariant Alloyed(bulk, syms[i..], alloy) == Alloyed(first.value, syms[1..], alloy)
      {
        assert syms[i..][0] == syms[i] && syms[i..][1..] == syms[i + 1..];
        var next := alloy(bulk, syms[i]);
        if next.None? {
          return Err(StructureGenerationError);
        }
        bulk := next.value;
      }
    }
    return Ok(Bulk(bulk, syms));
  }

  /** Lists that are not alloyed give the bulk of their first symbol alone: four or more
      symbols build exactly what the first symbol alone builds. */
  lemma OnlyFirstSymbolUnlessAlloy<B>(syms: seq<string>, createBulk: string -> Option<B>, alloy: (B, string) -> Option<B>)
    requires syms != [] && !Alloys(syms)
    ensures BulkFor(syms, createBulk, alloy).Ok? <==> BulkFor([syms[0]], createBulk, alloy).Ok?
    ensures BulkFor(syms, createBulk, alloy).Ok? ==>
              BulkFor(syms, createBulk, alloy).value.atoms == BulkFor([syms[0]], createBulk, alloy).value.atoms
  {
  }

  /** A two- or three-symbol list fails exactly when the first bulk or one alloying step fails. */
  lemma {:induction false} AlloyFailsAtAStep<B>(bulk: B, syms: seq<string>, alloy: (B, string) -> Option<B>)
    ensures Alloyed(bulk, syms, alloy).None? <==>
              exists i :: 0 <= i < |syms| && AlloyedUpTo(bulk, syms, alloy, i).Some? &&
                          alloy(AlloyedUpTo(bulk, syms, alloy, i).value, syms[i]).None?
    decreases |syms|
  {
    if syms != [] {
      match alloy(bulk, syms[0])
      case None =>
        assert AlloyedUpTo(bulk, syms, alloy, 0) == Some(bulk);
      case Some(b) =>
        AlloyFailsAtAStep(b, syms[1..], alloy);
        forall i | 1 <= i <= |syms|
          ensures AlloyedUpTo(bulk, syms, alloy, i) == AlloyedUpTo(b, syms[1..], alloy, i - 1)
        {
          AlloyedUpToShift(bulk, syms, alloy, b, i);
        }
        if Alloyed(bulk, syms, alloy).None? {
          var j :| 0 <= j < |syms[1..]| && AlloyedUpTo(b, syms[1..], alloy, j).Some? &&
                   alloy(AlloyedUpTo(b, syms[1..], alloy, j).value, syms[1..][j]).None?;
          assert AlloyedUpTo(bulk, syms, alloy, j + 1) == AlloyedUpTo(b, syms[1..], alloy, j);
        } else {
          forall i | 0 <= i < |syms| && AlloyedUpTo(bulk, syms, alloy, i).Some?
            ensures alloy(AlloyedUpTo(bulk, syms, alloy, i).value, syms[i]).Some?
          {
            if i > 0 {
              assert AlloyedUpTo(bulk, syms, alloy, i) == AlloyedUpTo(b, syms[1..], alloy, i - 1);
              assert syms[1..][i - 1] == syms[i];
            }
          }
        }
    }
  }

  /** The bulk after alloying the first `i` symbols, None once one of them failed. */
  function AlloyedUpTo<B>(bulk: B, syms: seq<string>, alloy: (B, string) -> Option<B>, i: nat): Option<B>
    requires i <= |syms|
    decreases i
  {
    if i == 0 then Some(bulk)
    else
      match AlloyedUpTo(bulk, syms, alloy, i - 1)
      case None => None
      case Some(b) => alloy(b, syms[i - 1])
  }

  lemma {:induction false} AlloyedUpToShift<B>(bulk: B, syms: seq<string>, alloy: (B, string) -> Option<B>, b: B, i: nat)
    requires 1 <= i <= |syms| && alloy(bulk, syms[0]) == Some(b)
    ensures AlloyedUpTo(bulk, syms, alloy, i) == AlloyedUpTo(b, syms[1..], alloy, i - 1)
    decreases i
  {
    if i > 1 {
      AlloyedUpToShift(bulk, syms, alloy, b, i - 1);
      assert syms[1..][i - 2] == syms[i - 1];
    }
  }

  // ------------------------------------------------------------------ llm_answer_to_symbols

  /** The symbols of one answer line: the part after ':' stripped of whitespace and
      brackets, split at commas, each piece stripped, as a set (the source goes through a
      Python set, so the order of the returned list is unspecified); "[None]" gives None. */
  function ParseSymbols(syms: string): Option<set<string>> {
    var found := SymbolSet(Unwrap(syms));
    if found == {"None"} then None else Some(found)
  }

  /** `syms.strip().strip("[").strip("]")`: the text between the brackets. */
  function Unwrap(syms: string): string {
    StripChar(StripChar(Strip(syms), '['), ']')
  }

  /** `{s.strip() for s in inner.split(",")}`. */
  function SymbolSet(inner: string): set<string> {
    StripAll(Split(inner, ','))
  }

  /** `{s.strip() for s in pieces}`. */
  function StripAll(pieces: seq<string>): set<string> {
    if pieces == [] then {} else {Strip(pieces[0])} + StripAll(pieces[1..])
  }

  /** The distinct elements of a list, as `set(items)`. */
  function Elements(items: seq<string>): (r: set<string>)
    ensures forall x :: x in r <==> x in items
  {
    if items == [] then {} else {items[0]} + Elements(items[1..])
  }

  /** One line of the response: a line with ':' must split into exactly a catalyst and its
      symbols, the catalyst must be one of the answers, and the slot of its first occurrence
      is overwritten. Slots here hold the symbol text; turning it into symbols cannot fail,
      so `Decode` does that when the slots are read. */
  function ScanLine(answer: seq<string>, line: string, raw: seq<Option<string>>)
    : (r: Result<seq<Option<string>>, AseError>)
    requires |raw| == |answer|
    ensures r.Ok? ==> |r.value| == |answer|
    ensures r.Err? ==> r.error == ValueError
  {
    if ':' !in line then Ok(raw)
    else
      var parts := Split(line, ':');
      if |parts| != 2 then Err(ValueError)
      else if parts[0] !in answer then Err(ValueError)
      else Ok(raw[FirstIndex(answer, parts[0]) := Some(parts[1])])
  }

  /** The loop over the response's lines, one empty slot per answer to start with. */
  function Scanned(answer: seq<string>, lines: seq<string>): (r: Result<seq<Option<string>>, AseError>)
    ensures r.Ok? ==> |r.value| == |answer|
    ensures r.Err? ==> r.error == ValueError
  {
    if lines == [] then Ok(seq(|answer|, _ => None))
    else
      var prev := Scanned(answer, lines[..|lines| - 1]);
      if prev.Err? then prev else ScanLine(answer, lines[|lines| - 1], prev.value)
  }

  /** Every filled slot's symbol text turned into its symbols. */
  function Decode(raw: seq<Option<string>>): seq<Option<set<string>>> {
    seq(|raw|, i requires 0 <= i < |raw| => DecodeSlot(raw[i]))
  }

  /** One slot of `answer_list_parsed`: empty, or the symbols parsed from its text. */
  function DecodeSlot(slot: Option<string>): Option<set<string>> {
    if slot.None? then None else ParseSymbols(slot.value)
  }

  /** `answer_list_parsed` after the loop, or the ValueError a line raises. */
  function Parsed(answer: seq<string>, lines: seq<string>): (r: Result<seq<Option<set<string>>>, AseError>) {
    match Scanned(answer, lines)
    case Err(e) => Err(e)
    case Ok(raw) => Ok(Decode(raw))
  }

  /** The answer as given: one catalyst name or a list of them. */
  datatype Answer = One(name: string) | Many(names: seq<string>)

  /** The result: one slot for a single name, else one slot per name. */
  datatype Symbols = OneSlot(slot: Option<set<string>>) | Slots(slots: seq<Option<set<string>>>)

  function Names(answer: Answer): seq<string> {
    if answer.One? then [answer.name] else answer.names
  }

  /** `llm_answer_to_symbols(answer)` after `run_query` has returned `response`: a single name
      is wrapped in a list and its one slot returned on its own. */
  method LlmAnswerToSymbols(answer: Answer, response: string) returns (r: Result<Symbols, AseError>)
    ensures r.Err? <==> Parsed(Names(answer), Split(response, '\n')).Err?
    ensures r.Err? ==> r.error == ValueError
    ensures r.Ok? && answer.Many? ==> r.value == Slots(Parsed(answer.names, Split(response, '\n')).value)
    ensures r.Ok? && answer.One? ==> r.value == OneSlot(Parsed([answer.name], Split(response, '\n')).value[0])
  {
    var names := if answer.One? then [answer.name] else answer.names;
    var slots := ParseResponse(names, response);
    if slots.Err? {
      return Err(slots.error);
    }
    if answer.One? {
      return Ok(OneSlot(slots.value[0]));
    }
    return Ok(Slots(slots.value));
  }

  /** The loop over `answer_parsed.split("\n")` filling `answer_list_parsed`. */
  method ParseResponse(answer: seq<string>, response: string) returns (r: Result<seq<Option<set<string>>>, AseError>)
    ensures r == Parsed(answer, Split(response, '\n'))
    ensures r.Ok? ==> |r.value| == |answer|
  {
    var lines := Split(response, '\n');
    var slots: seq<Option<set<string>>> := seq(|answer|, _ => None);
    ghost var raw: seq<Option<string>> := seq(|answer|, _ => None);
    for i := 0 to |lines|
      invariant Scanned(answer, lines[..i]) == Ok(raw)
      invariant slots == Decode(raw)
    {
      assert lines[..i + 1][..i] == lines[..i];
      var next := ReadLine(answer, lines[i], raw, slots);
      if next.Err? {
        ScannedErrPersists(answer, lines, i + 1);
        return Err(ValueError);
      }
      raw := ScanLine(answer, lines[i], raw).value;
      slots := next.value;
    }
    assert lines[..|lines|] == lines;
    return Ok(slots);
  }

  /** One pass of that loop: the line's symbols go into the slot of its catalyst name. */
  method ReadLine(answer: seq<string>, line: string, ghost raw: seq<Option<string>>, slots: seq<Option<set<string>>>)
    returns (r: Result<seq<Option<set<string>>>, AseError>)
    requires |raw| == |answer| && slots == Decode(raw)
    ensures r.Err? <==> ScanLine(answer, line, raw).Err?
    ensures r.Err? ==> r.error == ValueError
    ensures r.Ok? ==> r.value == Decode(ScanLine(answer, line, raw).value)
  {
    if ':' !in line {
      return Ok(slots);
    }
    var parts := Split(line, ':');
    if |parts| != 2 {
      return Err(ValueError);
    }
    var cat := parts[0];
    if cat !in answer {
      return Err(ValueError);
    }
    var idx := FirstIndex(answer, cat);
    DecodeUpdate(raw, idx, parts[1]);
    return Ok(slots[idx := ParseSymbols(parts[1])]);
  }

  lemma DecodeUpdate(raw: seq<Option<string>>, i: nat, text: string)
    requires i < |raw|
    ensures Decode(raw[i := Some(text)]) == Decode(raw)[i := ParseSymbols(text)]
  {
    var a, b := Decode(raw[i := Some(text)]), Decode(raw)[i := ParseSymbols(text)];
    assert |a| == |b|;
    forall k | 0 <= k < |a|
      ensures a[k] == b[k]
    {
      if k != i {
        assert raw[i := Some(text)][k] == raw[k];
      }
    }
  }

  lemma {:induction false} ScannedErrPersists(answer: seq<string>, lines: seq<string>, n: nat)
    requires n <= |lines| && Scanned(answer, lines[..n]).Err?
    ensures Scanned(answer, lines).Err?
    decreases |lines|
  {
    if n < |lines| {
      assert lines[..|lines| - 1][..n] == lines[..n];
      ScannedErrPersists(answer, lines[..|lines| - 1], n);
    } else {
      assert lines[..n] == lines;
    }
  }

  /** Only the first occurrence of a repeated answer is ever filled: `answer.index(cat)`
      always names the first one. */
  lemma OnlyFirstOccurrenceFilled(answer: seq<string>, lines: seq<string>, k: nat)
    requires Parsed(answer, lines).Ok? && k < |answer|
    requires Parsed(answer, lines).value[k].Some?
    ensures FirstIndex(answer, answer[k]) == k
  {
    ScannedFirstOccurrence(answer, lines, k);
  }

  lemma {:induction false} ScannedFirstOccurrence(answer: seq<string>, lines: seq<string>, k: nat)
    requires Scanned(answer, lines).Ok? && k < |answer|
    requires Scanned(answer, lines).value[k].Some?
    ensures FirstIndex(answer, answer[k]) == k
    decreases |lines|
  {
    var prev := Scanned(answer, lines[..|lines| - 1]);
    var line := lines[|lines| - 1];
    if ':' in line && prev.value[k] != Scanned(answer, lines).value[k] {
      assert FirstIndex(answer, Split(line, ':')[0]) == k;
    } else {
      ScannedFirstOccurrence(answer, lines[..|lines| - 1], k);
    }
  }

  // The prompt asks for one line per catalyst, `{catalyst}: [list]`. A list written back in
  // that format, with clean symbols, parses to exactly its set of symbols.

  /** A character a symbol may hold: no whitespace, comma, bracket or ':'. */
  predicate CleanChar(c: char) {
    !IsSpace(c) && c != ',' && c != '[' && c != ']' && c != ':'
  }

  /** A symbol as the prompt expects it: nonempty and made of clean characters. */
  predicate CleanSymbol(s: string) {
    s != [] && forall i :: 0 <= i < |s| ==> CleanChar(s[i])
  }

  /** Clean symbols avoid every separator the format uses. */
  lemma CleanAvoids(items: seq<string>)
    requires forall i :: 0 <= i < |items| ==> CleanSymbol(items[i])
    ensures forall i :: 0 <= i < |items| ==>
              '[' !in items[i] && ']' !in items[i] && ',' !in items[i] && ':' !in items[i] && '\n' !in items[i]
  {
    forall i | 0 <= i < |items|
      ensures '[' !in items[i] && ']' !in items[i] && ',' !in items[i] && ':' !in items[i] && '\n' !in items[i]
    {
      forall k | 0 <= k < |items[i]|
        ensures CleanChar(items[i][k])
      {
      }
    }
  }

  lemma JoinNonempty(items: seq<string>, sep: string)
    requires |items| >= 1 && items[0] != []
    ensures Join(items, sep) != []
  {
    if |items| > 1 {
      assert Join(items, sep) == items[0] + sep + Join(items[1..], sep);
    }
  }

  /** A catalyst name that can head an answer line: no ':' and no line break. */
  predicate CleanName(s: string) {
    ':' !in s && '\n' !in s
  }

  /** `" [s1, s2, ...]"`, the symbol part of an answer line. */
  function FormatSymbols(items: seq<string>): string {
    " [" + Join(items, ", ") + "]"
  }

  function FormatLine(name: string, items: seq<string>): string {
    name + ":" + FormatSymbols(items)
  }

  /** What a slot written as `items` parses to. */
  function Expected(items: seq<string>): Option<set<string>> {
    var found := Elements(items);
    if found == {"None"} then None else Some(found)
  }

  lemma StripCharNoop(s: string, c: char)
    requires s == [] || (s[0] != c && s[|s| - 1] != c)
    ensures StripChar(s, c) == s
  {
    var f := x => x == c;
    assert StripLeftWith(s, f) == s;
    assert StripRightWith(s, f) == s;
  }

  lemma StripBlankNoop(s: string)
    requires s != [] && !IsSpace(s[0]) && !IsSpace(s[|s| - 1])
    ensures Strip(s) == s && Strip(" " + s) == s
  {
    assert StripLeftWith(s, IsSpace) == s;
    assert (" " + s)[1..] == s;
    assert StripLeftWith(" " + s, IsSpace) == s;
    assert StripRightWith(s, IsSpace) == s;
  }

  /** `" [j]".strip()` is `"[j]"`. */
  lemma StripFormatted(j: string)
    ensures Strip(" [" + j + "]") == "[" + j + "]"
  {
    var t := "[" + j + "]";
    assert " [" + j + "]" == " " + t;
    StripBlankNoop(t);
  }

  /** `"[j]".strip("[")` is `"j]"` and `"j]".strip("]")` is `"j"`, for a nonempty `j` with no
      brackets. */
  lemma StripBrackets(j: string)
    requires j != [] && '[' !in j && ']' !in j
    ensures StripChar("[" + j + "]", '[') == j + "]"
    ensures StripChar(j + "]", ']') == j
  {
    var f := x => x == '[';
    var t := j + "]";
    assert ("[" + t)[1..] == t;
    assert "[" + j + "]" == "[" + t;
    assert StripLeftWith("[" + t, f) == StripLeftWith(t, f) == t;
    StripCharNoop(t, '[');
    var g := x => x == ']';
    assert t[..|t| - 1] == j;
    assert StripRightWith(t, g) == StripRightWith(j, g) == j;
    assert StripLeftWith(j, g) == j;
    assert StripLeftWith(t, g) == t;
  }

  /** Characters outside the separator and the items never occur in the join. */
  lemma {:induction false} JoinAvoids(items: seq<string>, sep: string, c: char)
    requires c !in sep && forall i :: 0 <= i < |items| ==> c !in items[i]
    ensures c !in Join(items, sep)
  {
    if |items| > 1 {
      JoinAvoids(items[1..], sep, c);
    }
  }

  /** Splitting `", "`-joined items without commas at ',' gives the first item and the others
      with a leading blank. */
  lemma {:induction false} SplitCommaJoin(items: seq<string>)
    requires |items| >= 1 && forall i :: 0 <= i < |items| ==> ',' !in items[i]
    ensures |Split(Join(items, ", "), ',')| == |items|
    ensures Split(Join(items, ", "), ',')[0] == items[0]
    ensures forall i :: 1 <= i < |items| ==> Split(Join(items, ", "), ',')[i] == " " + items[i]
  {
    if |items| == 1 {
      SplitNoSep(items[0], ',');
    } else {
      var rest := Join(items[1..], ", ");
      SplitCommaJoin(items[1..]);
      var tail := Split(rest, ',');
      assert Join(items, ", ") == items[0] + [','] + (" " + rest);
      SplitPrefix(items[0], " " + rest, ',');
      assert (" " + rest)[1..] == rest;
      assert Split(" " + rest, ',') == [[' '] + tail[0]] + tail[1..];
    }
  }

  /** Stripping each piece that stands for an item gives exactly the set of items. */
  lemma {:induction false} StrippedSet(pieces: seq<string>, items: seq<string>)
    requires |pieces| == |items| && forall i :: 0 <= i < |items| ==> Strip(pieces[i]) == items[i]
    ensures StripAll(pieces) == Elements(items)
  {
    if pieces != [] {
      StrippedSet(pieces[1..], items[1..]);
    }
  }

  /** Stripping blanks and brackets from `" [s1, s2, ...]"` leaves `"s1, s2, ..."`. */
  lemma UnwrapSymbols(items: seq<string>)
    requires |items| >= 1 && forall i :: 0 <= i < |items| ==> CleanSymbol(items[i])
    ensures StripChar(StripChar(Strip(FormatSymbols(items)), '['), ']') == Join(items, ", ")
  {
    JoinedSymbolsAvoidBrackets(items);
    UnwrapJoined(Join(items, ", "));
  }

  /** Clean symbols joined by ", " give a nonempty text without brackets. */
  lemma JoinedSymbolsAvoidBrackets(items: seq<string>)
    requires |items| >= 1 && forall i :: 0 <= i < |items| ==> CleanSymbol(items[i])
    ensures Join(items, ", ") != [] && '[' !in Join(items, ", ") && ']' !in Join(items, ", ")
  {
    JoinNonempty(items, ", ");
    CleanAvoids(items);
    JoinAvoids(items, ", ", '[');
    JoinAvoids(items, ", ", ']');
  }

  /** Stripping blanks, then "[", then "]" from `" [j]"` leaves `j`. */
  lemma UnwrapJoined(j: string)
    requires j != [] && '[' !in j && ']' !in j
    ensures StripChar(StripChar(Strip(" [" + j + "]"), '['), ']') == j
  {
    StripFormatted(j);
    StripBrackets(j);
  }

  /** The comma-separated pieces, stripped, are the symbols themselves. */
  lemma StripPieces(items: seq<string>)
    requires |items| >= 1 && forall i :: 0 <= i < |items| ==> CleanSymbol(items[i])
    ensures |Split(Join(items, ", "), ',')| == |items|
    ensures forall i :: 0 <= i < |items| ==> Strip(Split(Join(items, ", "), ',')[i]) == items[i]
  {
    CleanAvoids(items);
    SplitCommaJoin(items);
    forall i | 0 <= i < |items|
      ensures Strip(Split(Join(items, ", "), ',')[i]) == items[i]
    {
      StripBlankNoop(items[i]);
    }
  }

  /** A symbol list in the prompt's format parses back to its set of symbols. */
  lemma ParseSymbolsRoundTrip(items: seq<string>)
    requires |items| >= 1 && forall i :: 0 <= i < |items| ==> CleanSymbol(items[i])
    ensures ParseSymbols(FormatSymbols(items)) == Expected(items)
  {
    UnwrapSymbols(items);
    StripPieces(items);
    StrippedSet(Split(Join(items, ", "), ','), items);
  }

  /** A nonempty list of clean symbols. */
  predicate CleanList(items: seq<string>) {
    |items| >= 1 && forall i :: 0 <= i < |items| ==> CleanSymbol(items[i])
  }

  /** The lines the prompt asks for, one per answer. */
  function FormatLines(answer: seq<string>, lists: seq<seq<string>>): (r: seq<string>)
    requires |lists| == |answer|
    ensures |r| == |answer| && forall k :: 0 <= k < |answer| ==> r[k] == FormatLine(answer[k], lists[k])
  {
    seq(|answer|, k requires 0 <= k < |answer| => FormatLine(answer[k], lists[k]))
  }

  /** The response the prompt asks for. */
  function FormatResponse(answer: seq<string>, lists: seq<seq<string>>): string
    requires |lists| == |answer|
  {
    Join(FormatLines(answer, lists), "\n")
  }

  /** What each slot should parse to. */
  function ExpectedAll(lists: seq<seq<string>>): (r: seq<Option<set<string>>>)
    ensures |r| == |lists| && forall k :: 0 <= k < |lists| ==> r[k] == Expected(lists[k])
  {
    seq(|lists|, k requires 0 <= k < |lists| => Expected(lists[k]))
  }

  /** A formatted line has no line break and one ':', after the catalyst name. */
  lemma LineSplits(name: string, items: seq<string>)
    requires CleanName(name)
    requires forall i :: 0 <= i < |items| ==> CleanSymbol(items[i])
    ensures '\n' !in FormatLine(name, items)
    ensures Split(FormatLine(name, items), ':') == [name, FormatSymbols(items)]
  {
    CleanAvoids(items);
    JoinAvoids(items, ", ", '\n');
    JoinAvoids(items, ", ", ':');
    var f := FormatSymbols(items);
    assert ':' !in f && '\n' !in f;
    assert FormatLine(name, items) == name + [':'] + f;
    SplitPrefix(name, f, ':');
    SplitNoSep(f, ':');
  }

  /** The formatted response splits back into its lines. */
  lemma ResponseLines(answer: seq<string>, lists: seq<seq<string>>)
    requires |answer| >= 1 && |lists| == |answer|
    requires forall k :: 0 <= k < |answer| ==> CleanName(answer[k]) && CleanList(lists[k])
    ensures Split(FormatResponse(answer, lists), '\n') == FormatLines(answer, lists)
    ensures forall k :: 0 <= k < |answer| ==>
              Split(FormatLines(answer, lists)[k], ':') == [answer[k], FormatSymbols(lists[k])] &&
              ParseSymbols(FormatSymbols(lists[k])) == Expected(lists[k])
  {
    var lines := FormatLines(answer, lists);
    forall k | 0 <= k < |lines|
      ensures '\n' !in lines[k]
      ensures Split(lines[k], ':') == [answer[k], FormatSymbols(lists[k])]
      ensures ParseSymbols(FormatSymbols(lists[k])) == Expected(lists[k])
    {
      LineSplits(answer[k], lists[k]);
      ParseSymbolsRoundTrip(lists[k]);
    }
    SplitJoin(lines, '\n');
  }

  /** A response in the requested format, for distinct clean names and nonempty clean symbol
      lists, parses to one slot per answer holding that answer's set of symbols (None for
      "[None]"). */
  lemma ParseResponseRoundTrip(answer: seq<string>, lists: seq<seq<string>>)
    requires |answer| >= 1 && |lists| == |answer|
    requires forall k :: 0 <= k < |answer| ==> CleanName(answer[k]) && CleanList(lists[k])
    requires forall k, l :: 0 <= k < l < |answer| ==> answer[k] != answer[l]
    ensures Parsed(answer, Split(FormatResponse(answer, lists), '\n')) == Ok(ExpectedAll(lists))
  {
    ResponseLines(answer, lists);
    var lines := FormatLines(answer, lists);
    var want := Formatted(lists);
    LinesFillOwnSlots(answer, lists);
    ScannedAll(answer, lines, want);
    DecodeFormatted(lists);
  }

  /** The symbol text of each requested line. */
  function Formatted(lists: seq<seq<string>>): (r: seq<Option<string>>)
    ensures |r| == |lists| && forall k :: 0 <= k < |lists| ==> r[k] == Some(FormatSymbols(lists[k]))
  {
    seq(|lists|, k requires 0 <= k < |lists| => Some(FormatSymbols(lists[k])))
  }

  /** Each requested line fills its own answer's slot with its symbol text. */
  lemma LinesFillOwnSlots(answer: seq<string>, lists: seq<seq<string>>)
    requires |answer| >= 1 && |lists| == |answer|
    requires forall k :: 0 <= k < |answer| ==> CleanName(answer[k]) && CleanList(lists[k])
    requires forall k, l :: 0 <= k < l < |answer| ==> answer[k] != answer[l]
    ensures forall k, raw :: 0 <= k < |answer| && |raw| == |answer| ==>
              ScanLine(answer, FormatLines(answer, lists)[k], raw) == Ok(raw[k := Formatted(lists)[k]])
  {
    ResponseLines(answer, lists);
    var lines := FormatLines(answer, lists);
    forall k, raw | 0 <= k < |answer| && |raw| == |answer|
      ensures ScanLine(answer, lines[k], raw) == Ok(raw[k := Formatted(lists)[k]])
    {
      ScanNamedLine(answer, k, FormatSymbols(lists[k]), lines[k], raw);
    }
  }

  /** The symbol texts of clean lists decode to their expected slots. */
  lemma DecodeFormatted(lists: seq<seq<string>>)
    requires forall k :: 0 <= k < |lists| ==> CleanList(lists[k])
    ensures Decode(Formatted(lists)) == ExpectedAll(lists)
  {
    var d := Decode(Formatted(lists));
    forall k | 0 <= k < |lists|
      ensures d[k] == ExpectedAll(lists)[k]
    {
      ParseSymbolsRoundTrip(lists[k]);
    }
  }

  /** A line naming answer `k` overwrites slot `k` with its symbol part. */
  lemma ScanNamedLine(answer: seq<string>, k: nat, syms: string, line: string, raw: seq<Option<string>>)
    requires k < |answer| && |raw| == |answer|
    requires forall i, l :: 0 <= i < l < |answer| ==> answer[i] != answer[l]
    requires Split(line, ':') == [answer[k], syms]
    ensures ScanLine(answer, line, raw) == Ok(raw[k := Some(syms)])
  {
    assert ':' in line by {
      if ':' !in line {
        SplitNoSep(line, ':');
      }
    }
    assert FirstIndex(answer, answer[k]) == k;
  }

  /** Lines that each fill their own slot leave exactly those values. */
  lemma ScannedAll(answer: seq<string>, lines: seq<string>, want: seq<Option<string>>)
    requires |lines| == |answer| && |want| == |answer|
    requires forall k, raw :: 0 <= k < |lines| && |raw| == |answer| ==>
               ScanLine(answer, lines[k], raw) == Ok(raw[k := want[k]])
    ensures Scanned(answer, lines) == Ok(want)
  {
    ScannedPrefix(answer, lines, want, |lines|);
    var v := Scanned(answer, lines[..|lines|]).value;
    assert |v| == |want|;
    assert v == want;
    assert lines[..|lines|] == lines;
  }

  /** After the first `n` lines, slot k holds line k's value for k < n and None after. */
  lemma {:induction false} ScannedPrefix(answer: seq<string>, lines: seq<string>, want: seq<Option<string>>, n: nat)
    requires |lines| == |answer| && |want| == |answer| && n <= |lines|
    requires forall k, raw :: 0 <= k < |lines| && |raw| == |answer| ==>
               ScanLine(answer, lines[k], raw) == Ok(raw[k := want[k]])
    ensures Scanned(answer, lines[..n]).Ok?
    ensures forall k :: 0 <= k < |answer| ==> Scanned(answer, lines[..n]).value[k] == if k < n then want[k] else None
    decreases n
  {
    if n > 0 {
      ScannedPrefix(answer, lines, want, n - 1);
      var prev := Scanned(answer, lines[..n - 1]).value;
      assert lines[..n][..n - 1] == lines[..n - 1];
      assert lines[..n][n - 1] == lines[n - 1];
      assert ScanLine(answer, lines[n - 1], prev) == Ok(prev[n - 1 := want[n - 1]]);
      assert Scanned(answer, lines[..n]) == Ok(prev[n - 1 := want[n - 1]]);
    }
  }

  // ------------------------------------------------------------------ ads_symbols_to_structure

  /** The adsorbate an adsorbate name resolves to: an entry of the adsorbate table (with the
      name as given when it was matched without its '*'s), or a molecule built from the name. */
  datatype Adsorbate = FromTable(key: string, given: Option<string>) | Molecule(name: string)

  /** The table's keys with every '*' removed, in table order. */
  function Starless(keys: seq<string>): (r: seq<string>)
    ensures |r| == |keys| && forall i :: 0 <= i < |keys| ==> r[i] == Remove(keys[i], '*')
  {
    seq(|keys|, i requires 0 <= i < |keys| => Remove(keys[i], '*'))
  }

  /** `ads_symbols_to_structure(syms)` against the adsorbate table's keys in order. A name
      with '*' must be a key (else KeyError); otherwise the first key that equals it once
      its '*'s are removed; otherwise `build.molecule`. */
  function AdsSymbolsToStructure(syms: string, keys: seq<string>): (r: Result<Adsorbate, AseError>)
    ensures '*' in syms ==> (r.Ok? <==> syms in keys)
    ensures '*' in syms && r.Ok? ==> r.value == FromTable(syms, None)
    ensures r.Err? ==> r.error == KeyError && '*' in syms
    ensures r.Ok? && r.value.FromTable? ==> r.value.key in keys
    ensures r.Ok? && r.value.Molecule? ==> r.value.name == syms && syms !in Starless(keys)
    ensures '*' !in syms && r.Ok? && r.value.FromTable? ==>
              r.value.given == Some(syms) && Remove(r.value.key, '*') == syms
  {
    if '*' in syms then
      if syms in keys then Ok(FromTable(syms, None)) else Err(KeyError)
    else if syms in Starless(keys) then
      var idx := FirstIndex(Starless(keys), syms);
      Ok(FromTable(keys[idx], Some(syms)))
    else Ok(Molecule(syms))
  }

  /** Reference characterisation: a starless name resolves to the first key that matches it
      without its '*'s. */
  lemma ResolvesToFirstMatch(syms: string, keys: seq<string>, i: nat)
    requires '*' !in syms && i < |keys| && Remove(keys[i], '*') == syms
    requires forall j :: 0 <= j < i ==> Remove(keys[j], '*') != syms
    ensures AdsSymbolsToStructure(syms, keys) == Ok(FromTable(keys[i], Some(syms)))
  {
    var s := Starless(keys);
    assert s[i] == syms;
    var idx := FirstIndex(s, syms);
    assert Remove(keys[idx], '*') == syms;
  }

  /** A table key resolves to itself, and, when no other key shares its starless form, the
      starless form resolves back to it. */
  lemma StarlessNameRecoversKey(keys: seq<string>, i: nat)
    requires i < |keys| && '*' in keys[i]
    requires forall j :: 0 <= j < |keys| && j != i ==> Remove(keys[j], '*') != Remove(keys[i], '*')
    ensures AdsSymbolsToStructure(keys[i], keys) == Ok(FromTable(keys[i], None))
    ensures AdsSymbolsToStructure(Remove(keys[i], '*'), keys) == Ok(FromTable(keys[i], Some(Remove(keys[i], '*'))))
  {
    ResolvesToFirstMatch(Remove(keys[i], '*'), keys, i);
  }
}
