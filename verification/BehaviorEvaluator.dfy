/** Behaviour checks over shared measurements: packages/evaluation/evaluators/behavior.py, lines 82-180. */
module BehaviorEvaluator {
  import opened Wrappers
  import opened Sorting
  import opened Intervals
  import opened SpeechMetrics

  /** The check parameters these metrics read; an absent one takes its reader's own default. */
  datatype Params = Params(maxSilence: Option<int>, overlapTolerance: Option<int>, maxInterruptions: Option<int>)

  datatype Verdict = Pass | Fail

  /** What the engine measures once for all checks, and what a check would measure for itself. */
  const PERMISSIVE := Analyzer(1000, 1, 5000)

  function OwnAnalyzer(p: Params): Analyzer {
    Analyzer(p.maxSilence.GetOr(45000), p.overlapTolerance.GetOr(500), 5000)
  }

  function LongerThan(threshold: int): Interval -> bool { (g: Interval) => Duration(g) > threshold }

  function DeadAirOffences(gaps: seq<Interval>, p: Params): seq<Interval> {
    Filter(LongerThan(p.maxSilence.GetOr(45000)), gaps)
  }

  function AgentLabels(utts: seq<Utterance>): set<string> {
    set u | u in utts && u.role.Agent? :: u.turn.speaker
  }

  function ByAgent(labels: set<string>): Interruption -> bool { (c: Interruption) => c.speaker in labels }

  function AtLeastOverlap(minimum: int): Interruption -> bool { (c: Interruption) => c.overlap >= minimum }

  function Offends(labels: set<string>, tolerance: int): Interruption -> bool {
    (c: Interruption) => c.speaker in labels && c.overlap >= tolerance
  }

  function InterruptionOffences(utts: seq<Utterance>, found: seq<Interruption>, p: Params): seq<Interruption> {
    Filter(Offends(AgentLabels(utts), p.overlapTolerance.GetOr(300)), found)
  }

  function EvaluateDeadAir(m: Metrics, p: Params): Verdict {
    if DeadAirOffences(m.deadAir, p) == [] then Pass else Fail
  }

  function EvaluateInterruptions(utts: seq<Utterance>, m: Metrics, p: Params): Verdict {
    if |InterruptionOffences(utts, m.interruptions, p)| <= p.maxInterruptions.GetOr(3) then Pass else Fail
  }

  /** The dead-air check fails exactly when the call holds a maximal silence longer than allowed
      that the shared measurement (1000 ms and up) can see. */
  lemma DeadAirVerdictExact(utts: seq<Utterance>, m: Metrics, p: Params)
    requires m.deadAir == DeadAir(utts, PERMISSIVE.deadAirThreshold)
    ensures EvaluateDeadAir(m, p).Fail?
        <==> exists g: Interval :: MaximalSilence(utts, g) && Duration(g) >= 1000
                                && Duration(g) > p.maxSilence.GetOr(45000)
  {
    var offences := DeadAirOffences(m.deadAir, p);
    FilterIn(LongerThan(p.maxSilence.GetOr(45000)), m.deadAir);
    if offences != [] {
      assert offences[0] in offences;
      DeadAirExact(utts, 1000, offences[0]);
    }
    if g: Interval :| MaximalSilence(utts, g) && Duration(g) >= 1000 && Duration(g) > p.maxSilence.GetOr(45000) {
      DeadAirExact(utts, 1000, g);
      assert g in offences;
    }
  }

  /** One turn breaks into another: it is an agent's, and overlaps by at least the minimum. */
  function BreaksIn(labels: set<string>, minimum: int): (Turn, Turn) -> bool {
    (u: Turn, v: Turn) => Interrupts(u, v, minimum) && v.speaker in labels
  }

  function Into(p: (Turn, Turn) -> bool, u: Turn): Turn -> bool { (v: Turn) => p(u, v) }

  /** Every turn compared with every turn, in whatever order they come. */
  function CountPairs(us: seq<Turn>, vs: seq<Turn>, p: (Turn, Turn) -> bool): nat {
    if us == [] then 0 else CountPairs(us[..|us| - 1], vs, p) + |Filter(Into(p, us[|us| - 1]), vs)|
  }

  /** The interruption check fails exactly when, comparing all turns with all turns, agents break in more often than
      allowed, with an overlap of at least the tolerance and of the millisecond that can be seen at all. */
  lemma InterruptionVerdictExact(utts: seq<Utterance>, m: Metrics, p: Params)
    requires m.interruptions == Interruptions(utts, PERMISSIVE.interruptionMinimum)
    ensures EvaluateInterruptions(utts, m, p).Fail? <==>
      CountPairs(Turns(utts), Turns(utts), BreaksIn(AgentLabels(utts), Max(1, p.overlapTolerance.GetOr(300))))
      > p.maxInterruptions.GetOr(3)
  {
    var labels, tolerance := AgentLabels(utts), p.overlapTolerance.GetOr(300);
    var t := Turns(Ordered(utts));
    OrderedFacts(utts);
    SortPermutes(InterruptionLe, AllPairs(t, |t|, 1));
    FilterMultiset(Offends(labels, tolerance), Interruptions(utts, 1), AllPairs(t, |t|, 1));
    TurnsAscend(Ordered(utts));
    AllPairsCounted(t, |t|, labels, tolerance);
    assert t[..|t|] == t;
    SameTurns(Ordered(utts), utts);
    CountIgnoresOrder(t, Turns(utts), BreaksIn(labels, Max(1, tolerance)));
  }

  ghost predicate Ascend(t: seq<Turn>) { forall i, j :: 0 <= i < j < |t| ==> t[i].start <= t[j].start }

  lemma TurnsAscend(sorted: seq<Utterance>)
    requires SortedBy(UtteranceLe, sorted)
    ensures Ascend(Turns(sorted))
  {
    StartsAscend(sorted);
  }

  lemma {:induction false} NoneBefore(t: seq<Turn>, i: nat, labels: set<string>, minimum: int)
    requires i < |t| && Ascend(t)
    ensures Filter(Into(BreaksIn(labels, minimum), t[i]), t[..i + 1]) == []
  {
    FilterNone(Into(BreaksIn(labels, minimum), t[i]), t[..i + 1]);
  }

  lemma {:induction false} PairsCounted(t: seq<Turn>, i: nat, hi: nat, labels: set<string>, tolerance: int)
    requires i < hi <= |t| && Ascend(t)
    ensures |Filter(Offends(labels, tolerance), PairsOf(t, i, hi, 1))|
         == |Filter(Into(BreaksIn(labels, Max(1, tolerance)), t[i]), t[..hi])|
    decreases hi
  {
    if hi == i + 1 {
      NoneBefore(t, i, labels, Max(1, tolerance));
    } else {
      PairsCounted(t, i, hi - 1, labels, tolerance);
      OnePairCounted(t, i, hi, labels, tolerance);
    }
  }

  lemma {:induction false} OnePairCounted(t: seq<Turn>, i: nat, hi: nat, labels: set<string>, tolerance: int)
    requires i + 1 < hi <= |t|
    ensures
      var p, q := Into(BreaksIn(labels, Max(1, tolerance)), t[i]), Offends(labels, tolerance);
      && |Filter(q, PairsOf(t, i, hi, 1))| == |Filter(q, PairsOf(t, i, hi - 1, 1))| + (if p(t[hi - 1]) then 1 else 0)
      && |Filter(p, t[..hi])| == |Filter(p, t[..hi - 1])| + (if p(t[hi - 1]) then 1 else 0)
  {
    var p, q := Into(BreaksIn(labels, Max(1, tolerance)), t[i]), Offends(labels, tolerance);
    var last := t[hi - 1];
    FilterAppend(q, PairsOf(t, i, hi - 1, 1), if Interrupts(t[i], last, 1) then [Report(t[i], last)] else []);
    FilterCons(q, Report(t[i], last), []);
    assert t[..hi] == t[..hi - 1] + [last];
    FilterAppend(p, t[..hi - 1], [last]);
    FilterCons(p, last, []);
  }

  lemma {:induction false} AllPairsCounted(t: seq<Turn>, n: nat, labels: set<string>, tolerance: int)
    requires n <= |t| && Ascend(t)
    ensures |Filter(Offends(labels, tolerance), AllPairs(t, n, 1))|
         == CountPairs(t[..n], t, BreaksIn(labels, Max(1, tolerance)))
  {
    if n > 0 {
      AllPairsCounted(t, n - 1, labels, tolerance);
      AllPairsStep(t, n, 1);
      FilterAppend(Offends(labels, tolerance), AllPairs(t, n - 1, 1), PairsOf(t, n - 1, |t|, 1));
      PairsCounted(t, n - 1, |t|, labels, tolerance);
      assert t[..|t|] == t && t[..n][..n - 1] == t[..n - 1];
    }
  }

  lemma {:induction false} CountAppend(a: seq<Turn>, b: seq<Turn>, vs: seq<Turn>, p: (Turn, Turn) -> bool)
    ensures CountPairs(a + b, vs, p) == CountPairs(a, vs, p) + CountPairs(b, vs, p)
  {
    if b == [] {
      assert a + b == a;
    } else {
      assert (a + b)[..|a + b| - 1] == a + b[..|b| - 1];
      CountAppend(a, b[..|b| - 1], vs, p);
    }
  }

  lemma {:induction false} CountBetween(a: seq<Turn>, u: Turn, b: seq<Turn>, vs: seq<Turn>, p: (Turn, Turn) -> bool)
    ensures CountPairs(a + [u] + b, vs, p) == |Filter(Into(p, u), vs)| + CountPairs(a + b, vs, p)
  {
    CountAppend(a, b, vs, p);
    CountAppend(a + [u], b, vs, p);
    CountOneMore(a, u, vs, p);
  }

  lemma {:induction false} CountOneMore(s: seq<Turn>, u: Turn, vs: seq<Turn>, p: (Turn, Turn) -> bool)
    ensures CountPairs(s + [u], vs, p) == CountPairs(s, vs, p) + |Filter(Into(p, u), vs)|
  {
    assert (s + [u])[..|s|] == s;
  }

  lemma {:induction false} FirstIgnoresOrder(a: seq<Turn>, b: seq<Turn>, vs: seq<Turn>, p: (Turn, Turn) -> bool)
    requires multiset(a) == multiset(b)
    ensures CountPairs(a, vs, p) == CountPairs(b, vs, p)
  {
    if a == [] {
      assert |b| == |multiset(b)| == 0;
    } else {
      var j := RemoveHead(a, b);
      FirstIgnoresOrder(a[1..], b[..j] + b[j + 1..], vs, p);
      SplitAt(a, 0);
      CountBetween([], a[0], a[1..], vs, p);
      SplitAt(b, j);
      CountBetween(b[..j], b[j], b[j + 1..], vs, p);
    }
  }

  lemma SplitAt(s: seq<Turn>, j: nat)
    requires j < |s|
    ensures s == s[..j] + [s[j]] + s[j + 1..] && [] + s[1..] == s[1..] && s[..0] == []
  {
  }

  lemma {:induction false} SecondIgnoresOrder(us: seq<Turn>, a: seq<Turn>, b: seq<Turn>, p: (Turn, Turn) -> bool)
    requires multiset(a) == multiset(b)
    ensures CountPairs(us, a, p) == CountPairs(us, b, p)
  {
    if us != [] {
      SecondIgnoresOrder(us[..|us| - 1], a, b, p);
      FilterMultiset(Into(p, us[|us| - 1]), a, b);
    }
  }

  lemma {:induction false} CountIgnoresOrder(a: seq<Turn>, b: seq<Turn>, p: (Turn, Turn) -> bool)
    requires multiset(a) == multiset(b)
    ensures CountPairs(a, a, p) == CountPairs(b, b, p)
  {
    FirstIgnoresOrder(a, b, a, p);
    SecondIgnoresOrder(b, a, b, p);
  }

  ghost predicate SharedDeadAirAgrees(utts: seq<Utterance>, p: Params) {
    DeadAirOffences(DeadAir(utts, PERMISSIVE.deadAirThreshold), p)
    == DeadAirOffences(DeadAir(utts, OwnAnalyzer(p).deadAirThreshold), p)
  }

  ghost predicate SharedInterruptionsAgree(utts: seq<Utterance>, p: Params) {
    InterruptionOffences(utts, Interruptions(utts, PERMISSIVE.interruptionMinimum), p)
    == InterruptionOffences(utts, Interruptions(utts, OwnAnalyzer(p).interruptionMinimum), p)
  }

  /** Sharing one measurement is the same as each check measuring for itself, on every call,
      exactly when the check tolerates at least 999 ms of silence. */
  lemma DeadAirReuseExact(p: Params)
    ensures (forall utts :: SharedDeadAirAgrees(utts, p)) <==> p.maxSilence.GetOr(45000) >= 999
  {
    var t := p.maxSilence.GetOr(45000);
    if t >= 999 {
      forall utts ensures SharedDeadAirAgrees(utts, p) {
        FilterFilter(LongerThan(t), AtLeast(1000), LongerThan(t), Silences(utts));
        FilterFilter(LongerThan(t), AtLeast(t), LongerThan(t), Silences(utts));
      }
    } else {
      ShortSilenceMissed(t, p);
    }
  }

  lemma ShortSilenceMissed(t: int, p: Params)
    requires t == p.maxSilence.GetOr(45000) < 999
    ensures exists utts :: !SharedDeadAirAgrees(utts, p)
  {
    var d := if t < 0 then 1 else t + 1;
    var u, v := Utterance(Turn("A", 0, 1), Agent, 0), Utterance(Turn("A", 1 + d, 2 + d), Agent, 0);
    var utts := [u, v];
    var g: Interval := Span(1, 1 + d);
    assert MaximalSilence(utts, g) by {
      assert u in utts && v in utts;
      assert Spoken(utts, 0) && Spoken(utts, 1 + d);
    }
    DeadAirExact(utts, t, g);
    DeadAirExact(utts, 1000, g);
    FilterIn(LongerThan(t), DeadAir(utts, t));
    FilterIn(LongerThan(t), DeadAir(utts, 1000));
    assert g in DeadAirOffences(DeadAir(utts, t), p) && g !in DeadAirOffences(DeadAir(utts, 1000), p);
    assert !SharedDeadAirAgrees(utts, p);
  }

  /** The same for interruptions: exactly when the tolerance is set, and to at least 1 ms. Left
      unset, the reader's defaults (500 ms to measure, 300 ms to filter) disagree. */
  lemma InterruptionReuseExact(p: Params)
    ensures (forall utts :: SharedInterruptionsAgree(utts, p))
        <==> p.overlapTolerance.Some? && p.overlapTolerance.value >= 1
  {
    if p.overlapTolerance.Some? && p.overlapTolerance.value >= 1 {
      var t := p.overlapTolerance.value;
      forall utts ensures SharedInterruptionsAgree(utts, p) {
        RaiseMinimum(utts, 1, t);
        var labels := AgentLabels(utts);
        FilterFilter(ByAgent(labels), AtLeastOverlap(t), Offends(labels, t), Interruptions(utts, 1));
        FilterFilter(ByAgent(labels), AtLeastOverlap(t), Offends(labels, t), Interruptions(utts, t));
        RaiseMinimum(utts, t, t);
      }
    } else {
      var own := OwnAnalyzer(p).interruptionMinimum;
      InterruptionDiffers(p, own);
    }
  }

  lemma InterruptionDiffers(p: Params, own: int)
    requires own == p.overlapTolerance.GetOr(500)
    requires p.overlapTolerance.None? || p.overlapTolerance.value < 1
    ensures exists utts :: !SharedInterruptionsAgree(utts, p)
  {
    var end := if p.overlapTolerance.None? then 1000 else 600;
    var u, v := Utterance(Turn("C", 0, 1000), Customer, 0), Utterance(Turn("A", 600, end), Agent, 0);
    var utts := [u, v];
    var c := Report(u.turn, v.turn);
    assert u in utts && v in utts;
    assert v.turn.speaker in AgentLabels(utts);
    assert c.overlap == if p.overlapTolerance.None? then 400 else 0;
    ReportFound(utts, 1, u, v);
    ReportFound(utts, own, u, v);
    FilterIn(Offends(AgentLabels(utts), p.overlapTolerance.GetOr(300)), Interruptions(utts, 1));
    FilterIn(Offends(AgentLabels(utts), p.overlapTolerance.GetOr(300)), Interruptions(utts, own));
    assert c in InterruptionOffences(utts, Interruptions(utts, 1), p)
      <==> c !in InterruptionOffences(utts, Interruptions(utts, own), p);
    assert !SharedInterruptionsAgree(utts, p);
  }

  lemma ReportFound(utts: seq<Utterance>, minimum: int, u: Utterance, v: Utterance)
    requires utts == [u, v] && u.turn.start < v.turn.start < u.turn.end && u.turn.speaker != v.turn.speaker
    ensures Report(u.turn, v.turn) in Interruptions(utts, minimum) <==> Overlap(u.turn, v.turn) >= minimum
  {
    InterruptionsExact(utts, minimum, Report(u.turn, v.turn));
    assert u in utts && v in utts;
  }

  lemma {:induction false} PairsOfFilter(t: seq<Turn>, i: nat, hi: nat, low: int, high: int)
    requires i < hi <= |t| && low <= high
    ensures Filter(AtLeastOverlap(high), PairsOf(t, i, hi, low)) == PairsOf(t, i, hi, high)
    decreases hi
  {
    if hi > i + 1 {
      PairsOfFilter(t, i, hi - 1, low, high);
      var last := if Interrupts(t[i], t[hi - 1], low) then [Report(t[i], t[hi - 1])] else [];
      FilterAppend(AtLeastOverlap(high), PairsOf(t, i, hi - 1, low), last);
    }
  }

  lemma {:induction false} AllPairsFilter(t: seq<Turn>, n: nat, low: int, high: int)
    requires n <= |t| && low <= high
    ensures Filter(AtLeastOverlap(high), AllPairs(t, n, low)) == AllPairs(t, n, high)
  {
    if n > 0 {
      AllPairsFilter(t, n - 1, low, high);
      PairsOfFilter(t, n - 1, |t|, low, high);
      AllPairsStep(t, n, low);
      AllPairsStep(t, n, high);
      FilterBoth(AtLeastOverlap(high), AllPairs(t, n - 1, low), PairsOf(t, n - 1, |t|, low),
                 AllPairs(t, n - 1, high), PairsOf(t, n - 1, |t|, high));
    }
  }

  lemma {:induction false} AllPairsStep(t: seq<Turn>, n: nat, minimum: int)
    requires 0 < n <= |t|
    ensures AllPairs(t, n, minimum) == AllPairs(t, n - 1, minimum) + PairsOf(t, n - 1, |t|, minimum)
  {
  }

  lemma {:induction false} FilterBoth(p: Interruption -> bool, a: seq<Interruption>, b: seq<Interruption>,
                   c: seq<Interruption>, d: seq<Interruption>)
    requires Filter(p, a) == c && Filter(p, b) == d
    ensures Filter(p, a + b) == c + d
  {
    FilterAppend(p, a, b);
  }

  /** Filtering a permissive measurement is measuring strictly, element by element and in order. */
  lemma RaiseMinimum(utts: seq<Utterance>, low: int, high: int)
    requires low <= high
    ensures Filter(AtLeastOverlap(high), Interruptions(utts, low)) == Interruptions(utts, high)
  {
    var t := Turns(Ordered(utts));
    InterruptionOrder();
    SortFilter(InterruptionLe, AtLeastOverlap(high), AllPairs(t, |t|, low));
    AllPairsFilter(t, |t|, low, high);
  }
}
