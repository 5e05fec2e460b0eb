/** Spoken values against the sale record: packages/evaluation/evaluators/factual.py, lines 117-198, 233-365
    and 472-541. */
module FactualEvaluator {
  import opened Wrappers
  import opened Sorting
  import opened Rounding
  import opened SpeechMetrics
  import opened Evaluation

  datatype Segment = Segment(id: string, role: Role, start: int, end: int, text: string)

  /** An observed value in its printed form, and whether it was said after a correction marker. */
  datatype Candidate = Candidate(segment: Segment, value: string, isCorrection: bool)

  datatype Comparator = Text | Email | Identifier | Number | Date | Boolean

  datatype Comparison = Comparison(matched: bool, nearMiss: bool, similarity: real)

  datatype Speaker = Any | Only(role: Role)

  /** What a check version asks for. How text is searched, cut into values and compared is left abstract. */
  datatype Params = Params(
    comparator: Comparator, speaker: Speaker, mentions: Option<string -> bool>,
    asks: Option<string -> bool>, agentAnswers: bool, responseWindow: int, correctionWindow: int,
    nearMissOutcome: Option<Outcome>,
    extract: string -> seq<string>, lastMarker: string -> Option<nat>)

  predicate SegmentLe(a: Segment, b: Segment) { a.start < b.start || (a.start == b.start && a.end <= b.end) }

  // ---------------------------------------------------------------- answers to questions

  function AnswerRole(p: Params): Role { if p.agentAnswers then Agent else Customer }

  function AskRole(p: Params): Role { if p.agentAnswers then Customer else Agent }

  predicate Asks(s: Segment, asks: string -> bool, p: Params) { s.role == AskRole(p) && asks(s.text) }

  /** The reply to a question: the first turn of the answering side after it, if it starts in time. */
  ghost predicate IsReply(ordered: seq<Segment>, q: nat, a: nat, p: Params) {
    && q < a < |ordered| && ordered[a].role == AnswerRole(p)
    && ordered[a].start <= ordered[q].end + p.responseWindow
    && forall k :: q < k < a ==> ordered[k].role != AnswerRole(p)
  }

  ghost function Reply(ordered: seq<Segment>, q: nat, p: Params): Option<nat> {
    if a: nat :| IsReply(ordered, q, a, p) then Some(a) else None
  }

  /** The replies to the questions among the first n segments, in the order they were asked. */
  ghost function Answers(ordered: seq<Segment>, n: nat, asks: string -> bool, p: Params): seq<Segment>
    requires n <= |ordered|
  {
    if n == 0 then []
    else
      Answers(ordered, n - 1, asks, p)
      + if Asks(ordered[n - 1], asks, p) && Reply(ordered, n - 1, p).Some?
        then [ordered[Reply(ordered, n - 1, p).value]] else []
  }

  method FindReply(ordered: seq<Segment>, q: nat, p: Params) returns (reply: Option<nat>)
    requires q < |ordered| && SortedBy(SegmentLe, ordered)
    ensures reply == Reply(ordered, q, p)
  {
    for j := q + 1 to |ordered|
      invariant forall k :: q < k < j ==> ordered[k].role != AnswerRole(p)
    {
      if ordered[j].start > ordered[q].end + p.responseWindow {
        forall a: nat ensures !IsReply(ordered, q, a, p) {
          assert q < j < a < |ordered| ==> SegmentLe(ordered[j], ordered[a]);
        }
        return None;
      }
      if ordered[j].role == AnswerRole(p) {
        assert IsReply(ordered, q, j, p);
        return Some(j);
      }
    }
    assert forall a: nat :: !IsReply(ordered, q, a, p);
    return None;
  }

  method AnswersToQuestions(ordered: seq<Segment>, asks: string -> bool, p: Params) returns (answers: seq<Segment>)
    requires SortedBy(SegmentLe, ordered)
    ensures answers == Answers(ordered, |ordered|, asks, p)
  {
    answers := [];
    for q := 0 to |ordered|
      invariant answers == Answers(ordered, q, asks, p)
    {
      if ordered[q].role == AskRole(p) && asks(ordered[q].text) {
        var reply := FindReply(ordered, q, p);
        if reply.Some? {
          answers := answers + [ordered[reply.value]];
        }
      }
    }
  }

  ghost predicate RepliesSoFar(ordered: seq<Segment>, n: nat, s: Segment, p: Params) {
    exists q: nat, a: nat :: q < n && IsReply(ordered, q, a, p) && ordered[a] == s
  }

  lemma {:induction false} AnswersAreReplies(ordered: seq<Segment>, n: nat, asks: string -> bool, p: Params)
    requires n <= |ordered|
    ensures forall s :: s in Answers(ordered, n, asks, p) ==> RepliesSoFar(ordered, n, s, p)
  {
    if n > 0 {
      AnswersAreReplies(ordered, n - 1, asks, p);
      forall s | s in Answers(ordered, n, asks, p) ensures RepliesSoFar(ordered, n, s, p) {
        if s in Answers(ordered, n - 1, asks, p) {
          assert RepliesSoFar(ordered, n - 1, s, p);
        } else {
          assert IsReply(ordered, n - 1, Reply(ordered, n - 1, p).value, p);
        }
      }
    }
  }

  lemma LaterReply(ordered: seq<Segment>, n: nat, s: Segment, a: nat, p: Params)
    requires SortedBy(SegmentLe, ordered) && RepliesSoFar(ordered, n, s, p) && IsReply(ordered, n, a, p)
    ensures SegmentLe(s, ordered[a])
  {
    var q: nat, b: nat :| q < n && IsReply(ordered, q, b, p) && ordered[b] == s;
    assert b <= a;
  }

  /** Answers come back in transcript order, and only from the answering side. */
  lemma {:induction false} AnswersInOrder(ordered: seq<Segment>, n: nat, asks: string -> bool, p: Params)
    requires n <= |ordered| && SortedBy(SegmentLe, ordered)
    ensures SortedBy(SegmentLe, Answers(ordered, n, asks, p))
    ensures forall s :: s in Answers(ordered, n, asks, p) ==> s.role == AnswerRole(p) && s in ordered
  {
    if n > 0 {
      AnswersInOrder(ordered, n - 1, asks, p);
      AnswersAreReplies(ordered, n - 1, asks, p);
      var before := Answers(ordered, n - 1, asks, p);
      if Reply(ordered, n - 1, p).Some? {
        forall i | 0 <= i < |before| ensures SegmentLe(before[i], ordered[Reply(ordered, n - 1, p).value]) {
          assert before[i] in before;
          LaterReply(ordered, n - 1, before[i], Reply(ordered, n - 1, p).value, p);
        }
      }
    }
  }

  lemma SegmentOrder()
    ensures TotalPreorder(SegmentLe)
  {
  }

  /** The segments a check without a question listens to. */
  function InScope(p: Params): Segment -> bool {
    (s: Segment) => (p.speaker.Any? || s.role == p.speaker.role) && (p.mentions.Some? ==> p.mentions.value(s.text))
  }

  /** What a check listens to, in transcript order: the replies to its question, or the segments in scope. */
  ghost function Scoped(segments: seq<Segment>, p: Params): seq<Segment> {
    if p.asks.None? then Sort(SegmentLe, Filter(InScope(p), segments))
    else
      var ordered := Sort(SegmentLe, segments);
      Answers(ordered, |ordered|, p.asks.value, p)
  }

  method ScopeSegments(segments: seq<Segment>, p: Params)
    returns (scoped: seq<Segment>)
    ensures scoped == Scoped(segments, p)
  {
    SegmentOrder();
    SortSorts(SegmentLe, segments);
    var ordered := Sort(SegmentLe, segments);
    if p.asks.Some? {
      scoped := AnswersToQuestions(ordered, p.asks.value, p);
    } else {
      scoped := Filter(InScope(p), ordered);
      SortFilter(SegmentLe, InScope(p), segments);
    }
  }

  // ---------------------------------------------------------------- candidates

  function Clip(n: nat, text: string): nat { if n <= |text| then n else |text| }

  function Values(s: Segment, values: seq<string>, isCorrection: bool): seq<Candidate> {
    seq(|values|, i requires 0 <= i < |values| => Candidate(s, values[i], isCorrection))
  }

  /** A marker splits its segment: before it is what is retracted, from it on is the correction. */
  function CandidatesOf(s: Segment, p: Params): seq<Candidate> {
    match p.lastMarker(s.text)
    case None => Values(s, p.extract(s.text), false)
    case Some(at) =>
      var cut := Clip(at, s.text);
      Values(s, p.extract(s.text[..cut]), false) + Values(s, p.extract(s.text[cut..]), true)
  }

  function Candidates(segments: seq<Segment>, p: Params): seq<Candidate> {
    if segments == [] then []
    else Candidates(segments[..|segments| - 1], p) + CandidatesOf(segments[|segments| - 1], p)
  }

  method ExtractCandidates(segments: seq<Segment>, p: Params) returns (candidates: seq<Candidate>)
    ensures candidates == Candidates(segments, p)
  {
    candidates := [];
    for i := 0 to |segments|
      invariant candidates == Candidates(segments[..i], p)
    {
      assert segments[..i + 1][..i] == segments[..i];
      var marker := p.lastMarker(segments[i].text);
      if marker.None? {
        candidates := candidates + Values(segments[i], p.extract(segments[i].text), false);
      } else {
        var cut := Clip(marker.value, segments[i].text);
        ghost var was := candidates;
        candidates := candidates + Values(segments[i], p.extract(segments[i].text[..cut]), false);
        candidates := candidates + Values(segments[i], p.extract(segments[i].text[cut..]), true);
        assert candidates == was + CandidatesOf(segments[i], p);
      }
    }
    assert segments[..|segments|] == segments;
  }

  /** Where a statement, or a correction, was said: a segment without a marker corrects nothing. */
  ghost predicate SaidIn(c: Candidate, s: Segment, p: Params) {
    && c.segment == s
    && match p.lastMarker(s.text)
       case None => !c.isCorrection && c.value in p.extract(s.text)
       case Some(at) =>
         var cut := Clip(at, s.text);
         c.value in if c.isCorrection then p.extract(s.text[cut..]) else p.extract(s.text[..cut])
  }

  lemma SaidInSegment(c: Candidate, s: Segment, p: Params)
    ensures c in CandidatesOf(s, p) <==> SaidIn(c, s, p)
  {
    match p.lastMarker(s.text)
    case None => ValuesIn(c, s, p.extract(s.text), false);
    case Some(at) =>
      var cut := Clip(at, s.text);
      ValuesIn(c, s, p.extract(s.text[..cut]), false);
      ValuesIn(c, s, p.extract(s.text[cut..]), true);
  }

  lemma ValuesIn(c: Candidate, s: Segment, values: seq<string>, isCorrection: bool)
    ensures c in Values(s, values, isCorrection) <==> c.segment == s && c.isCorrection == isCorrection && c.value in values
  {
    var all := Values(s, values, isCorrection);
    if c.segment == s && c.isCorrection == isCorrection && c.value in values {
      var i :| 0 <= i < |values| && values[i] == c.value;
      assert all[i] == c;
    }
  }

  /** The candidates are exactly the values said in the scoped segments, each on its side of the marker. */
  lemma {:induction false} CandidatesExact(segments: seq<Segment>, p: Params, c: Candidate)
    ensures c in Candidates(segments, p) <==> exists s :: s in segments && SaidIn(c, s, p)
  {
    if segments != [] {
      var init, last := segments[..|segments| - 1], segments[|segments| - 1];
      assert segments == init + [last];
      CandidatesExact(init, p, c);
      SaidInSegment(c, last, p);
      assert last in segments;
    }
  }

  // ---------------------------------------------------------------- corrections

  predicate Corrects(c: Candidate) { c.isCorrection }

  /** The latest start of a correction; the source takes it only where there is one. */
  function LatestCorrection(candidates: seq<Candidate>): Option<int> {
    if candidates == [] then None else LaterOf(candidates[0], LatestCorrection(candidates[1..]))
  }

  function LaterOf(c: Candidate, rest: Option<int>): Option<int> {
    if !c.isCorrection || (rest.Some? && rest.value > c.segment.start) then rest else Some(c.segment.start)
  }

  ghost predicate IsLatest(t: Option<int>, candidates: seq<Candidate>) {
    && (t.None? <==> forall c :: c in candidates ==> !c.isCorrection)
    && (t.Some? ==> exists c :: c in candidates && c.isCorrection && c.segment.start == t.value)
    && (t.Some? ==> forall c :: c in candidates && c.isCorrection ==> c.segment.start <= t.value)
  }

  lemma {:induction false} LatestFacts(candidates: seq<Candidate>)
    ensures IsLatest(LatestCorrection(candidates), candidates)
  {
    if candidates != [] {
      LatestFacts(candidates[1..]);
      assert candidates == [candidates[0]] + candidates[1..];
    }
  }

  predicate SameBreath(c: Candidate, candidates: seq<Candidate>) {
    exists k :: 0 <= k < |candidates| && candidates[k].isCorrection && candidates[k].segment.id == c.segment.id
  }

  /** What a correction takes back. */
  predicate Retracted(c: Candidate, candidates: seq<Candidate>, p: Params) {
    && p.comparator != Text && !c.isCorrection
    && var latest := LatestCorrection(candidates);
       latest.Some? && (SameBreath(c, candidates) || 0 <= latest.value - c.segment.end <= p.correctionWindow)
  }

  function Stands(candidates: seq<Candidate>, p: Params): Candidate -> bool {
    (c: Candidate) => !Retracted(c, candidates, p)
  }

  function Falls(candidates: seq<Candidate>, p: Params): Candidate -> bool {
    (c: Candidate) => Retracted(c, candidates, p)
  }

  method ApplyCorrections(candidates: seq<Candidate>, p: Params)
    returns (considered: seq<Candidate>, superseded: seq<Candidate>)
    ensures considered == Filter(Stands(candidates, p), candidates)
    ensures superseded == Filter(Falls(candidates, p), candidates)
  {
    var corrections := Filter(Corrects, candidates);
    FilterIn(Corrects, candidates);
    if corrections == [] || p.comparator == Text {
      NothingRetracted(candidates, p);
      return candidates, [];
    }
    assert corrections[0] in corrections;
    LatestFacts(candidates);
    var latest := LatestCorrection(candidates).value;
    var ids := set c | c in corrections :: c.segment.id;
    considered, superseded := [], [];
    for i := 0 to |candidates|
      invariant considered == Filter(Stands(candidates, p), candidates[..i])
      invariant superseded == Filter(Falls(candidates, p), candidates[..i])
    {
      var c := candidates[i];
      IdsAreBreaths(candidates, corrections, c);
      OneMore(candidates, i, p);
      if !c.isCorrection && (c.segment.id in ids || 0 <= latest - c.segment.end <= p.correctionWindow) {
        superseded := superseded + [c];
      } else {
        considered := considered + [c];
      }
    }
    assert candidates[..|candidates|] == candidates;
    CorrectionsStand(candidates, p);
    if considered == [] { considered := corrections; }
  }

  lemma IdsAreBreaths(candidates: seq<Candidate>, corrections: seq<Candidate>, c: Candidate)
    requires forall x :: x in corrections <==> x in candidates && x.isCorrection
    ensures SameBreath(c, candidates) <==> exists x :: x in corrections && x.segment.id == c.segment.id
  {
    if x :| x in corrections && x.segment.id == c.segment.id {
      assert x in candidates;
    }
    if SameBreath(c, candidates) {
      var k :| 0 <= k < |candidates| && candidates[k].isCorrection && candidates[k].segment.id == c.segment.id;
      assert candidates[k] in corrections;
    }
  }

  lemma OneMore(candidates: seq<Candidate>, i: nat, p: Params)
    requires i < |candidates|
    ensures Filter(Stands(candidates, p), candidates[..i + 1])
         == Filter(Stands(candidates, p), candidates[..i])
          + if Retracted(candidates[i], candidates, p) then [] else [candidates[i]]
    ensures Filter(Falls(candidates, p), candidates[..i + 1])
         == Filter(Falls(candidates, p), candidates[..i])
          + if Retracted(candidates[i], candidates, p) then [candidates[i]] else []
  {
    assert candidates[..i + 1] == candidates[..i] + [candidates[i]];
    FilterAppend(Stands(candidates, p), candidates[..i], [candidates[i]]);
    FilterAppend(Falls(candidates, p), candidates[..i], [candidates[i]]);
  }

  lemma {:induction false} FilterEvery(keep: Candidate -> bool, s: seq<Candidate>)
    requires forall c :: c in s ==> keep(c)
    ensures Filter(keep, s) == s
  {
    if s != [] {
      assert s[0] in s && s == [s[0]] + s[1..];
      FilterEvery(keep, s[1..]);
    }
  }

  lemma {:induction false} FilterNothing(keep: Candidate -> bool, s: seq<Candidate>)
    requires forall c :: c in s ==> !keep(c)
    ensures Filter(keep, s) == []
  {
    FilterNone(keep, s);
  }

  lemma NothingRetracted(candidates: seq<Candidate>, p: Params)
    requires p.comparator == Text || forall c :: c in candidates ==> !c.isCorrection
    ensures Filter(Stands(candidates, p), candidates) == candidates
    ensures Filter(Falls(candidates, p), candidates) == []
  {
    LatestFacts(candidates);
    FilterEvery(Stands(candidates, p), candidates);
    FilterNothing(Falls(candidates, p), candidates);
  }

  /** A correction always stands, so something always stands once there is a candidate, and the source's
      fallback to the corrections alone is never taken. */
  lemma {:induction false} CorrectionsStand(candidates: seq<Candidate>, p: Params)
    ensures forall c :: c in candidates && c.isCorrection ==> c in Filter(Stands(candidates, p), candidates)
    ensures candidates != [] ==> Filter(Stands(candidates, p), candidates) != []
  {
    FilterIn(Stands(candidates, p), candidates);
    LatestFacts(candidates);
    if candidates != [] {
      if Retracted(candidates[0], candidates, p) {
        var c :| c in candidates && c.isCorrection;
        assert c in Filter(Stands(candidates, p), candidates);
      } else {
        assert candidates[0] in Filter(Stands(candidates, p), candidates);
      }
    }
  }

  /** Nothing said is lost or counted twice by the split. */
  lemma {:induction false} SplitConserves(keep: Candidate -> bool, drop: Candidate -> bool, s: seq<Candidate>)
    requires forall c :: keep(c) <==> !drop(c)
    ensures multiset(Filter(keep, s)) + multiset(Filter(drop, s)) == multiset(s)
  {
    if s != [] {
      SplitConserves(keep, drop, s[1..]);
      assert s == [s[0]] + s[1..];
    }
  }

  lemma CorrectionsConserve(candidates: seq<Candidate>, p: Params)
    ensures multiset(Filter(Stands(candidates, p), candidates)) + multiset(Filter(Falls(candidates, p), candidates))
         == multiset(candidates)
  {
    SplitConserves(Stands(candidates, p), Falls(candidates, p), candidates);
  }

  // ---------------------------------------------------------------- the finding

  /** The first value still standing that matches; if none does, the first of the most similar. */
  method Choose(considered: seq<Candidate>, compare: string -> Comparison) returns (chosen: Candidate)
    requires considered != []
    ensures chosen in considered
    ensures FirstMatch(chosen, considered, compare) || (NoMatch(considered, compare) && Closest(chosen, considered, compare))
  {
    for i := 0 to |considered|
      invariant forall k :: 0 <= k < i ==> !compare(considered[k].value).matched
    {
      if compare(considered[i].value).matched {
        assert IsFirstMatch(considered, i, compare);
        return considered[i];
      }
    }
    assert NoMatch(considered, compare);
    var best := 0;
    for i := 1 to |considered|
      invariant 0 <= best < i
      invariant IsFirstBest(considered[..i], best, compare)
    {
      if compare(considered[i].value).similarity > compare(considered[best].value).similarity { best := i; }
    }
    chosen := considered[best];
    assert considered[..|considered|] == considered;
  }

  predicate IsFirstMatch(s: seq<Candidate>, i: nat, compare: string -> Comparison) {
    i < |s| && compare(s[i].value).matched && forall k :: 0 <= k < i ==> !compare(s[k].value).matched
  }

  ghost predicate FirstMatch(chosen: Candidate, s: seq<Candidate>, compare: string -> Comparison) {
    exists i: nat :: IsFirstMatch(s, i, compare) && s[i] == chosen
  }

  predicate NoMatch(s: seq<Candidate>, compare: string -> Comparison) {
    forall c :: c in s ==> !compare(c.value).matched
  }

  predicate IsFirstBest(s: seq<Candidate>, best: nat, compare: string -> Comparison) {
    && best < |s|
    && (forall k :: 0 <= k < |s| ==> compare(s[k].value).similarity <= compare(s[best].value).similarity)
    && (forall k :: 0 <= k < best ==> compare(s[k].value).similarity < compare(s[best].value).similarity)
  }

  ghost predicate Closest(chosen: Candidate, s: seq<Candidate>, compare: string -> Comparison) {
    exists best: nat :: IsFirstBest(s, best, compare) && s[best] == chosen
  }

  function DefaultNearMiss(c: Comparator): Outcome { if c == Email || c == Identifier then Fail else Ambiguous }

  function Finding(check: ResolvedCheck, outcome: Outcome, confidence: Option<real>, score: Option<real>,
                   reasons: seq<string>): CheckResult
  {
    CheckResult(check.id, check.isCritical, outcome, confidence, score, reasons)
  }

  function MatchFinding(check: ResolvedCheck, agree: bool): CheckResult {
    if agree then Finding(check, Pass, Some(1.0), Some(100.0), ["FACTUAL_MATCH_VERIFIED"])
    else Finding(check, Pass, Some(0.75), Some(100.0), ["FACTUAL_MATCH_VERIFIED", "MULTIPLE_VALUES_STATED"])
  }

  function MismatchFinding(check: ResolvedCheck, comparison: Comparison, p: Params): CheckResult {
    if comparison.nearMiss then
      Finding(check, p.nearMissOutcome.GetOr(DefaultNearMiss(p.comparator)), Some(Round2(comparison.similarity)),
              Some(0.0), ["FACTUAL_NEAR_MISS_MISMATCH"])
    else Finding(check, Fail, Some(1.0), Some(0.0), ["FACTUAL_MISMATCH"])
  }

  /** The finding in every case: the record is unknown, nothing was said, something that stands matches, or the
      first of the most similar decides between a near miss and a failure. */
  ghost predicate Reports(check: ResolvedCheck, expectedKnown: bool, candidates: seq<Candidate>,
                          compare: string -> Comparison, p: Params, r: CheckResult)
  {
    if !expectedKnown then r == Finding(check, NotEvaluable, None, None, ["FACTUAL_EXPECTED_VALUE_UNRESOLVED"])
    else if candidates == [] then r == Finding(check, Fail, Some(1.0), Some(0.0), ["VALUE_NOT_DISCLOSED"])
    else if SomeStandingMatch(candidates, compare, p) then
      r == MatchFinding(check, p.comparator == Text || StandingAgree(candidates, p))
    else
      exists c :: Closest(c, Filter(Stands(candidates, p), candidates), compare)
               && r == MismatchFinding(check, compare(c.value), p)
  }

  /** A check passes exactly when a value that stands matches, or its version lets the nearest miss pass; a full
      score is given for a match only, and none at all when the record is unknown. */
  lemma PassesIff(check: ResolvedCheck, expectedKnown: bool, candidates: seq<Candidate>,
                  compare: string -> Comparison, p: Params, r: CheckResult)
    requires Reports(check, expectedKnown, candidates, compare, p, r)
    ensures r.outcome == Pass <==>
      expectedKnown && (SomeStandingMatch(candidates, compare, p)
                        || (p.nearMissOutcome == Some(Pass) && ClosestIsNear(candidates, compare, p)))
    ensures r.checkId == check.id && r.isCritical == check.isCritical
    ensures r.score == if !expectedKnown then None
                       else if SomeStandingMatch(candidates, compare, p) then Some(100.0) else Some(0.0)
  {
    if expectedKnown && candidates != [] && !SomeStandingMatch(candidates, compare, p) {
      var standing := Filter(Stands(candidates, p), candidates);
      var c :| Closest(c, standing, compare) && r == MismatchFinding(check, compare(c.value), p);
      forall d | Closest(d, standing, compare) ensures d == c {
        ClosestUnique(c, d, standing, compare);
      }
    }
  }

  lemma ClosestUnique(c: Candidate, d: Candidate, s: seq<Candidate>, compare: string -> Comparison)
    requires Closest(c, s, compare) && Closest(d, s, compare)
    ensures c == d
  {
    var i: nat :| IsFirstBest(s, i, compare) && s[i] == c;
    var j: nat :| IsFirstBest(s, j, compare) && s[j] == d;
    assert i == j;
  }

  method Judge(check: ResolvedCheck, expectedKnown: bool, candidates: seq<Candidate>,
               compare: string -> Comparison, p: Params)
    returns (r: CheckResult)
    ensures Reports(check, expectedKnown, candidates, compare, p, r)
  {
    if !expectedKnown {
      return Finding(check, NotEvaluable, None, None, ["FACTUAL_EXPECTED_VALUE_UNRESOLVED"]);
    }
    if candidates == [] {
      return Finding(check, Fail, Some(1.0), Some(0.0), ["VALUE_NOT_DISCLOSED"]);
    }
    CorrectionsStand(candidates, p);
    FilterIn(Stands(candidates, p), candidates);
    var considered, superseded := ApplyCorrections(candidates, p);
    var chosen := Choose(considered, compare);
    var comparison := compare(chosen.value);
    if comparison.matched {
      OneValue(considered, chosen);
      var count := if p.comparator == Text then 1 else |set c | c in considered :: c.value|;
      return MatchFinding(check, count == 1);
    }
    return MismatchFinding(check, comparison, p);
  }

  method Evaluate(check: ResolvedCheck, expectedKnown: bool, segments: seq<Segment>,
                  compare: string -> Comparison, p: Params)
    returns (r: CheckResult)
    ensures Reports(check, expectedKnown, Candidates(Scoped(segments, p), p), compare, p, r)
  {
    var scoped := ScopeSegments(segments, p);
    var candidates := ExtractCandidates(scoped, p);
    r := Judge(check, expectedKnown, candidates, compare, p);
  }

  /** In terms of the call: the full score is given exactly when some segment in scope says a value, on its side of
      a correction marker, that matches and is not taken back. */
  lemma FullScoreIff(check: ResolvedCheck, expectedKnown: bool, segments: seq<Segment>,
                     compare: string -> Comparison, p: Params, r: CheckResult)
    requires Reports(check, expectedKnown, Candidates(Scoped(segments, p), p), compare, p, r)
    ensures r.score == Some(100.0) <==>
      expectedKnown && exists s, c :: s in Scoped(segments, p) && SaidIn(c, s, p) && compare(c.value).matched
                                   && !Retracted(c, Candidates(Scoped(segments, p), p), p)
  {
    var candidates := Candidates(Scoped(segments, p), p);
    PassesIff(check, expectedKnown, candidates, compare, p, r);
    forall c ensures c in candidates <==> exists s :: s in Scoped(segments, p) && SaidIn(c, s, p) {
      CandidatesExact(Scoped(segments, p), p, c);
    }
  }

  /** Some value that was said, and not taken back, matches the record. */
  predicate SomeStandingMatch(candidates: seq<Candidate>, compare: string -> Comparison, p: Params) {
    exists c :: c in candidates && !Retracted(c, candidates, p) && compare(c.value).matched
  }

  /** Nothing standing matches, and the first of the most similar is a near miss. */
  ghost predicate ClosestIsNear(candidates: seq<Candidate>, compare: string -> Comparison, p: Params) {
    && !SomeStandingMatch(candidates, compare, p)
    && exists c :: Closest(c, Filter(Stands(candidates, p), candidates), compare) && compare(c.value).nearMiss
  }

  predicate StandingAgree(candidates: seq<Candidate>, p: Params) {
    forall a, b :: a in candidates && b in candidates && !Retracted(a, candidates, p) && !Retracted(b, candidates, p)
      ==> a.value == b.value
  }

  lemma OneValue(s: seq<Candidate>, chosen: Candidate)
    requires chosen in s
    ensures |set c | c in s :: c.value| == 1 <==> forall a, b :: a in s && b in s ==> a.value == b.value
  {
    var values := set c | c in s :: c.value;
    assert chosen.value in values;
    if |values| == 1 {
      assert |values - {chosen.value}| == 0;
      forall c | c in s ensures c.value == chosen.value {
        assert c.value in values;
        assert c.value !in values - {chosen.value};
      }
    }
    if forall a, b :: a in s && b in s ==> a.value == b.value {
      assert values == {chosen.value};
    }
  }
}
