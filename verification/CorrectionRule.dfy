/** What a correction is documented to take back, and when the code does that:
    packages/evaluation/evaluators/factual.py, lines 328-365. */
module CorrectionRule {
  import opened Wrappers
  import opened SpeechMetrics
  import opened FactualEvaluator

  predicate CorrectedIn(s: Segment, candidates: seq<Candidate>) {
    exists k :: 0 <= k < |candidates| && candidates[k].isCorrection && candidates[k].segment == s
  }

  predicate StatedIn(s: Segment, candidates: seq<Candidate>) {
    exists k :: 0 <= k < |candidates| && !candidates[k].isCorrection && candidates[k].segment == s
  }

  /** The next utterance holds a correction. */
  predicate Precedes(utterances: seq<Segment>, j: nat, candidates: seq<Candidate>)
    requires j < |utterances|
  {
    j + 1 < |utterances| && CorrectedIn(utterances[j + 1], candidates)
  }

  /** The rule as documented: a correction reaches back over its own utterance and over the one that precedes it,
      and no further. */
  predicate DocumentedRetracted(c: Candidate, candidates: seq<Candidate>, utterances: seq<Segment>, p: Params) {
    && p.comparator != Text && !c.isCorrection
    && (SameBreath(c, candidates)
        || exists j :: 0 <= j < |utterances| && utterances[j] == c.segment && Precedes(utterances, j, candidates))
  }

  /** The utterances may be the whole call or the segments in scope; an id names one of them. */
  predicate SpokenIn(candidates: seq<Candidate>, utterances: seq<Segment>) {
    && (forall i, j :: 0 <= i < j < |utterances| ==> utterances[i].id != utterances[j].id)
    && forall c :: c in candidates ==> c.segment in utterances
  }

  predicate RulesAgree(candidates: seq<Candidate>, utterances: seq<Segment>, p: Params) {
    forall c :: c in candidates ==> (Retracted(c, candidates, p) <==> DocumentedRetracted(c, candidates, utterances, p))
  }

  predicate EndsInWindow(s: Segment, start: int, p: Params) { 0 <= start - s.end <= p.correctionWindow }

  /** Of the utterances that state something and correct nothing, those that end within the window before the latest
      correction are those right before some correction. */
  predicate TimesFit(candidates: seq<Candidate>, utterances: seq<Segment>, p: Params) {
    var latest := LatestCorrection(candidates);
    forall j :: 0 <= j < |utterances| && StatedIn(utterances[j], candidates) && !CorrectedIn(utterances[j], candidates) ==>
      (latest.Some? && EndsInWindow(utterances[j], latest.value, p) <==> Precedes(utterances, j, candidates))
  }

  lemma BreathIsSegment(c: Candidate, candidates: seq<Candidate>, utterances: seq<Segment>)
    requires SpokenIn(candidates, utterances) && c in candidates
    ensures SameBreath(c, candidates) <==> CorrectedIn(c.segment, candidates)
  {
    if SameBreath(c, candidates) {
      var k :| 0 <= k < |candidates| && candidates[k].isCorrection && candidates[k].segment.id == c.segment.id;
      assert candidates[k] in candidates;
      var i :| 0 <= i < |utterances| && utterances[i] == candidates[k].segment;
      var j :| 0 <= j < |utterances| && utterances[j] == c.segment;
      assert i == j;
    }
  }

  /** Whether a statement's own utterance fits. */
  lemma AgreesAt(c: Candidate, j: nat, candidates: seq<Candidate>, utterances: seq<Segment>, p: Params)
    requires SpokenIn(candidates, utterances) && c in candidates && !c.isCorrection && p.comparator != Text
    requires j < |utterances| && utterances[j] == c.segment && !CorrectedIn(c.segment, candidates)
    ensures Retracted(c, candidates, p) <==>
      LatestCorrection(candidates).Some? && EndsInWindow(c.segment, LatestCorrection(candidates).value, p)
    ensures DocumentedRetracted(c, candidates, utterances, p) <==> Precedes(utterances, j, candidates)
  {
    BreathIsSegment(c, candidates, utterances);
    LatestFacts(candidates);
  }

  lemma AgreesInBreath(c: Candidate, candidates: seq<Candidate>, utterances: seq<Segment>, p: Params)
    requires SpokenIn(candidates, utterances) && c in candidates && CorrectedIn(c.segment, candidates)
    ensures Retracted(c, candidates, p) <==> DocumentedRetracted(c, candidates, utterances, p)
  {
    BreathIsSegment(c, candidates, utterances);
    LatestFacts(candidates);
    var k :| 0 <= k < |candidates| && candidates[k].isCorrection && candidates[k].segment == c.segment;
    assert candidates[k] in candidates;
  }

  /** Code and documentation retract the same statements exactly when the times fit. */
  lemma RulesAgreeIff(candidates: seq<Candidate>, utterances: seq<Segment>, p: Params)
    requires SpokenIn(candidates, utterances)
    ensures RulesAgree(candidates, utterances, p) <==> p.comparator == Text || TimesFit(candidates, utterances, p)
  {
    if p.comparator != Text {
      if TimesFit(candidates, utterances, p) {
        forall c | c in candidates
          ensures Retracted(c, candidates, p) <==> DocumentedRetracted(c, candidates, utterances, p)
        {
          if CorrectedIn(c.segment, candidates) {
            AgreesInBreath(c, candidates, utterances, p);
          } else if !c.isCorrection {
            var j :| 0 <= j < |utterances| && utterances[j] == c.segment;
            AgreesAt(c, j, candidates, utterances, p);
          }
        }
      }
      if RulesAgree(candidates, utterances, p) {
        AgreementFits(candidates, utterances, p);
      }
    }
  }

  lemma AgreementFits(candidates: seq<Candidate>, utterances: seq<Segment>, p: Params)
    requires SpokenIn(candidates, utterances) && p.comparator != Text && RulesAgree(candidates, utterances, p)
    ensures TimesFit(candidates, utterances, p)
  {
    var latest := LatestCorrection(candidates);
    forall j | 0 <= j < |utterances| && StatedIn(utterances[j], candidates) && !CorrectedIn(utterances[j], candidates)
      ensures latest.Some? && EndsInWindow(utterances[j], latest.value, p) <==> Precedes(utterances, j, candidates)
    {
      var k :| 0 <= k < |candidates| && !candidates[k].isCorrection && candidates[k].segment == utterances[j];
      assert candidates[k] in candidates;
      AgreesAt(candidates[k], j, candidates, utterances, p);
    }
  }

  /** With one correcting utterance this is a matter of start and end times alone: what was stated right before it
      ended within the window, and nothing stated elsewhere did. */
  lemma OneCorrectionAgreesIff(candidates: seq<Candidate>, utterances: seq<Segment>, m: nat, p: Params)
    requires SpokenIn(candidates, utterances) && p.comparator != Text && m < |utterances|
    requires forall j :: 0 <= j < |utterances| ==> (CorrectedIn(utterances[j], candidates) <==> j == m)
    ensures RulesAgree(candidates, utterances, p) <==>
      && (m > 0 && StatedIn(utterances[m - 1], candidates) ==> EndsInWindow(utterances[m - 1], utterances[m].start, p))
      && forall j :: 0 <= j < |utterances| && j != m && j != m - 1 && StatedIn(utterances[j], candidates) ==>
           !EndsInWindow(utterances[j], utterances[m].start, p)
  {
    RulesAgreeIff(candidates, utterances, p);
    LatestIs(candidates, utterances, m);
    assert forall j :: 0 <= j < |utterances| ==> (Precedes(utterances, j, candidates) <==> j == m - 1);
  }

  lemma LatestIs(candidates: seq<Candidate>, utterances: seq<Segment>, m: nat)
    requires SpokenIn(candidates, utterances) && m < |utterances|
    requires forall j :: 0 <= j < |utterances| ==> (CorrectedIn(utterances[j], candidates) <==> j == m)
    ensures LatestCorrection(candidates) == Some(utterances[m].start)
  {
    LatestFacts(candidates);
    assert CorrectedIn(utterances[m], candidates);
    var k :| 0 <= k < |candidates| && candidates[k].isCorrection && candidates[k].segment == utterances[m];
    assert candidates[k] in candidates;
    forall c | c in candidates && c.isCorrection ensures c.segment == utterances[m] {
      var i :| 0 <= i < |candidates| && candidates[i] == c;
      var j :| 0 <= j < |utterances| && utterances[j] == c.segment;
      assert CorrectedIn(utterances[j], candidates);
    }
  }

  // ---------------------------------------------------------------- where they differ

  function Said(id: string, start: int, end: int, isCorrection: bool): Candidate {
    Candidate(Segment(id, Agent, start, end, ""), id, isCorrection)
  }

  function SegmentsOf(candidates: seq<Candidate>): seq<Segment> {
    seq(|candidates|, i requires 0 <= i < |candidates| => candidates[i].segment)
  }

  /** Two statements within the window: the code takes back both, the documented rule the second only. */
  lemma OneTooManyRetracted(p: Params)
    requires p.comparator != Text && p.correctionWindow >= 2
    ensures
      var first, second, fixed := Said("a", 0, 8, false), Said("b", 8, 9, false), Said("c", 10, 12, true);
      var all := [first, second, fixed];
      && Retracted(first, all, p) && !DocumentedRetracted(first, all, SegmentsOf(all), p)
      && Retracted(second, all, p) && DocumentedRetracted(second, all, SegmentsOf(all), p)
  {
    var first, second, fixed := Said("a", 0, 8, false), Said("b", 8, 9, false), Said("c", 10, 12, true);
    var all := [first, second, fixed];
    OneCorrection(first, second, fixed, p);
  }

  /** A pause longer than the window, or an utterance that still runs when the correction starts: the statement right
      before the correction is not taken back at all. */
  lemma OneTooFewRetracted(p: Params, gap: int)
    requires p.comparator != Text && (gap > p.correctionWindow || gap < 0)
    ensures
      var first, second, fixed := Said("a", 0, 1, false), Said("b", 2, 4, false), Said("c", 4 + gap, 5 + gap, true);
      var all := [first, second, fixed];
      !Retracted(second, all, p) && DocumentedRetracted(second, all, SegmentsOf(all), p)
  {
    var first, second, fixed := Said("a", 0, 1, false), Said("b", 2, 4, false), Said("c", 4 + gap, 5 + gap, true);
    OneCorrection(first, second, fixed, p);
  }

  lemma OneCorrection(first: Candidate, second: Candidate, fixed: Candidate, p: Params)
    requires p.comparator != Text && !first.isCorrection && !second.isCorrection && fixed.isCorrection
    requires first.segment.id != second.segment.id && second.segment.id != fixed.segment.id
    requires first.segment.id != fixed.segment.id
    ensures
      var all := [first, second, fixed];
      && (Retracted(first, all, p) <==> EndsInWindow(first.segment, fixed.segment.start, p))
      && (Retracted(second, all, p) <==> EndsInWindow(second.segment, fixed.segment.start, p))
      && !DocumentedRetracted(first, all, SegmentsOf(all), p) && DocumentedRetracted(second, all, SegmentsOf(all), p)
  {
    var all, utterances := [first, second, fixed], SegmentsOf([first, second, fixed]);
    assert all[2] == fixed && all[1..] == [second, fixed] && [second, fixed][1..] == [fixed];
    assert LatestCorrection([fixed]) == Some(fixed.segment.start);
    assert LatestCorrection(all) == Some(fixed.segment.start);
    assert CorrectedIn(utterances[2], all) && !CorrectedIn(utterances[1], all);
    assert Precedes(utterances, 1, all);
  }

  // ---------------------------------------------------------------- later corrections

  /** Every correction of the second list starts no earlier than any of the first. */
  ghost predicate SaidLater(a: seq<Candidate>, b: seq<Candidate>) {
    forall x, y :: x in a && y in b && x.isCorrection && y.isCorrection ==> x.segment.start <= y.segment.start
  }

  lemma {:induction false} LatestOfBoth(a: seq<Candidate>, b: seq<Candidate>)
    requires SaidLater(a, b)
    ensures LatestCorrection(a + b) == if LatestCorrection(b).Some? then LatestCorrection(b) else LatestCorrection(a)
  {
    if a == [] {
      assert a + b == b;
    } else {
      assert (a + b)[1..] == a[1..] + b;
      assert forall x :: x in a[1..] ==> x in a;
      LatestOfBoth(a[1..], b);
      if a[0].isCorrection && LatestCorrection(b).Some? { FirstIsEarlier(a, b); }
    }
  }

  lemma {:induction false} FirstIsEarlier(a: seq<Candidate>, b: seq<Candidate>)
    requires SaidLater(a, b) && a != [] && a[0].isCorrection && LatestCorrection(b).Some?
    ensures a[0].segment.start <= LatestCorrection(b).value
  {
    LatestFacts(b);
    var y :| y in b && y.isCorrection && y.segment.start == LatestCorrection(b).value;
    assert a[0] in a;
  }

  lemma BreathLasts(c: Candidate, a: seq<Candidate>, b: seq<Candidate>)
    requires SameBreath(c, a)
    ensures SameBreath(c, a + b)
  {
    var k :| 0 <= k < |a| && a[k].isCorrection && a[k].segment.id == c.segment.id;
    assert (a + b)[k] == a[k];
  }

  lemma LatestIsLater(a: seq<Candidate>, b: seq<Candidate>)
    requires SaidLater(a, b) && LatestCorrection(a).Some? && LatestCorrection(b).Some?
    ensures LatestCorrection(a).value <= LatestCorrection(b).value
  {
    LatestFacts(a);
    LatestFacts(b);
  }

  /** A retracted statement stays retracted, as more is said, exactly when a correction shares its utterance or the
      latest correction still starts within the window after it; otherwise it stands again. */
  lemma StaysRetractedIff(candidates: seq<Candidate>, more: seq<Candidate>, c: Candidate, p: Params)
    requires Retracted(c, candidates, p) && SaidLater(candidates, more)
    ensures Retracted(c, candidates + more, p) <==>
      SameBreath(c, candidates + more) || LatestCorrection(more).None?
      || LatestCorrection(more).value - c.segment.end <= p.correctionWindow
  {
    LatestOfBoth(candidates, more);
    if SameBreath(c, candidates) {
      BreathLasts(c, candidates, more);
    } else if LatestCorrection(more).Some? {
      LatestIsLater(candidates, more);
    }
  }

  /** So a second correction can bring back a statement that the first had retracted. */
  lemma CorrectionReinstates(p: Params)
    requires p.comparator != Text && p.correctionWindow >= 0
    ensures
      var wrong, fixed := Said("a", 0, 10, false), Said("b", 10, 20, true);
      var later := Said("c", 11 + p.correctionWindow, 12 + p.correctionWindow, true);
      Retracted(wrong, [wrong, fixed], p) && !Retracted(wrong, [wrong, fixed] + [later], p)
  {
    var wrong, fixed := Said("a", 0, 10, false), Said("b", 10, 20, true);
    var later := Said("c", 11 + p.correctionWindow, 12 + p.correctionWindow, true);
    assert [wrong, fixed][1..] == [fixed] && LatestCorrection([fixed]) == Some(10);
    assert LatestCorrection([later]) == Some(later.segment.start);
    StaysRetractedIff([wrong, fixed], [later], wrong, p);
  }
}
