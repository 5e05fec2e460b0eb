/** Talk time, dead air and interruptions: packages/domain/speech_metrics.py, lines 93-274. */
module SpeechMetrics {
  import opened Sorting
  import opened Intervals
  import opened Rounding

  datatype Role = Agent | Customer | Unknown
  datatype Turn = Turn(speaker: string, start: int, end: int)
  datatype Utterance = Utterance(turn: Turn, role: Role, words: nat)
  datatype Interruption = Interruption(speaker: string, interrupted: string, start: int, overlap: int)

  /** Percentages are kept in hundredths of a percent, the precision the source rounds to. */
  datatype Metrics = Metrics(
    coverageEnd: int, leadingUncovered: nat, trailingUncovered: nat, hasUncoveredAudio: bool,
    agentTalk: nat, customerTalk: nat, totalSpeech: nat,
    agentShare: int, customerShare: int, occupancy: int,
    agentPace: int, customerPace: int,  // tenths of a word per minute
    deadAir: seq<Interval>, interruptions: seq<Interruption>)

  datatype Analyzer = Analyzer(deadAirThreshold: int, interruptionMinimum: int, coverageTolerance: int)

  // ---------------------------------------------------------------- ordering

  predicate TurnLe(a: Turn, b: Turn) {
    a.start < b.start || (a.start == b.start
      && (a.end < b.end || (a.end == b.end && StringLe(a.speaker, b.speaker))))
  }

  predicate UtteranceLe(a: Utterance, b: Utterance) { TurnLe(a.turn, b.turn) }

  predicate InterruptionLe(a: Interruption, b: Interruption) {
    a.start < b.start || (a.start == b.start
      && (a.overlap < b.overlap || (a.overlap == b.overlap && StringLe(a.speaker, b.speaker))))
  }

  function Ordered(utts: seq<Utterance>): seq<Utterance> { Sort(UtteranceLe, utts) }

  function Turns(utts: seq<Utterance>): seq<Turn> { seq(|utts|, i requires 0 <= i < |utts| => utts[i].turn) }

  // ---------------------------------------------------------------- talk time

  /** Utterances of no positive length are skipped when talk time is measured. */
  function Spans(utts: seq<Utterance>, keep: Role -> bool): seq<Interval> {
    if utts == [] then []
    else
      var u := utts[|utts| - 1];
      Spans(utts[..|utts| - 1], keep)
      + (if u.turn.start < u.turn.end && keep(u.role) then [Span(u.turn.start, u.turn.end)] else [])
  }

  function Everyone(r: Role): bool { true }
  function IsAgent(r: Role): bool { r.Agent? }
  function IsCustomer(r: Role): bool { r.Customer? }
  function IsUnknown(r: Role): bool { r.Unknown? }

  function TalkTime(utts: seq<Utterance>, keep: Role -> bool): nat { TotalDuration(Spans(utts, keep)) }

  function Share(part: nat, whole: int): int {
    if whole > 0 then Round(part as real / whole as real * 10000.0) else 0
  }

  /** The words of the utterances that count towards talk time. */
  function WordsSpoken(utts: seq<Utterance>, keep: Role -> bool): nat {
    if utts == [] then 0
    else WordsIn(utts[|utts| - 1], keep) + WordsSpoken(utts[..|utts| - 1], keep)
  }

  function WordsIn(u: Utterance, keep: Role -> bool): nat {
    if u.turn.start < u.turn.end && keep(u.role) then u.words else 0
  }

  function Pace(words: nat, talk: nat): int {
    if talk > 0 then Round(words as real / (talk as real / 60000.0) * 10.0) else 0
  }

  // ---------------------------------------------------------------- silence

  function Gaps(merged: seq<Interval>): seq<Interval>
    requires Separated(merged)
  {
    if |merged| < 2 then []
    else seq(|merged| - 1, i requires 0 <= i < |merged| - 1 => Span(merged[i].end, merged[i + 1].start))
  }

  function Silences(utts: seq<Utterance>): seq<Interval> {
    UnionCorrect(Spans(utts, Everyone));
    Gaps(Union(Spans(utts, Everyone)))
  }

  function AtLeast(threshold: int): Interval -> bool { (iv: Interval) => Duration(iv) >= threshold }

  function DeadAir(utts: seq<Utterance>, threshold: int): seq<Interval> {
    Filter(AtLeast(threshold), Silences(utts))
  }

  // ---------------------------------------------------------------- interruptions

  function Overlap(first: Turn, second: Turn): int {
    (if first.end < second.end then first.end else second.end) - second.start
  }

  /** The pairs the scan reports: the second turn starts strictly inside the first. */
  predicate Interrupts(first: Turn, second: Turn, minimum: int) {
    && first.speaker != second.speaker
    && first.start < second.start < first.end
    && Overlap(first, second) >= minimum
  }

  function Report(first: Turn, second: Turn): Interruption {
    Interruption(second.speaker, first.speaker, second.start, Overlap(first, second))
  }

  /** All pairs (i, j) with i < j < hi, and all pairs with first component below n. */
  function PairsOf(t: seq<Turn>, i: nat, hi: nat, minimum: int): seq<Interruption>
    requires i < hi <= |t|
    decreases hi
  {
    if hi == i + 1 then []
    else
      PairsOf(t, i, hi - 1, minimum)
      + (if Interrupts(t[i], t[hi - 1], minimum) then [Report(t[i], t[hi - 1])] else [])
  }

  function AllPairs(t: seq<Turn>, n: nat, minimum: int): seq<Interruption>
    requires n <= |t|
  {
    if n == 0 then [] else AllPairs(t, n - 1, minimum) + PairsOf(t, n - 1, |t|, minimum)
  }

  function Interruptions(utts: seq<Utterance>, minimum: int): seq<Interruption> {
    var t := Turns(Ordered(utts));
    Sort(InterruptionLe, AllPairs(t, |t|, minimum))
  }

  // ---------------------------------------------------------------- the analysis

  method ScanFrom(sorted: seq<Utterance>, i: nat, minimum: int) returns (found: seq<Interruption>)
    requires i < |sorted| && SortedBy(UtteranceLe, sorted)
    ensures found == PairsOf(Turns(sorted), i, |sorted|, minimum)
  {
    found := [];
    ghost var t := Turns(sorted);
    var first := sorted[i].turn;
    for j := i + 1 to |sorted|
      invariant found == PairsOf(t, i, j, minimum)
    {
      var second := sorted[j].turn;
      if second.start >= first.end {
        LaterStarts(sorted, i, j);
        NothingBeyond(t, i, j, |sorted|, minimum);
        return;
      }
      assert PairsOf(t, i, j + 1, minimum) == found + if Interrupts(first, second, minimum) then [Report(first, second)] else [];
      if first.speaker != second.speaker && second.start > first.start {
        if Overlap(first, second) >= minimum {
          found := found + [Report(first, second)];
        }
      }
    }
  }

  lemma LaterStarts(sorted: seq<Utterance>, i: nat, j: nat)
    requires i < j < |sorted| && SortedBy(UtteranceLe, sorted) && sorted[j].turn.start >= sorted[i].turn.end
    ensures forall k :: j <= k < |sorted| ==> Turns(sorted)[k].start >= Turns(sorted)[i].end
  {
    StartsAscend(sorted);
  }

  method ScanInterruptions(sorted: seq<Utterance>, minimum: int) returns (found: seq<Interruption>)
    requires SortedBy(UtteranceLe, sorted)
    ensures found == Sort(InterruptionLe, AllPairs(Turns(sorted), |sorted|, minimum))
  {
    found := [];
    for i := 0 to |sorted|
      invariant found == AllPairs(Turns(sorted), i, minimum)
    {
      var more := ScanFrom(sorted, i, minimum);
      found := found + more;
    }
    found := Sort(InterruptionLe, found);
  }

  method FindDeadAir(merged: seq<Interval>, threshold: int) returns (gaps: seq<Interval>)
    requires Separated(merged)
    ensures gaps == Filter(AtLeast(threshold), Gaps(merged))
  {
    gaps := [];
    ghost var all := Gaps(merged);
    var i := 0;
    while i + 1 < |merged|
      invariant 0 <= i <= |all| && (merged != [] ==> i < |merged|)
      invariant gaps == Filter(AtLeast(threshold), all[..i])
    {
      var gap: Interval := Span(merged[i].end, merged[i + 1].start);
      assert all[..i + 1] == all[..i] + [gap];
      FilterAppend(AtLeast(threshold), all[..i], [gap]);
      if Duration(gap) >= threshold {
        gaps := gaps + [gap];
      }
      i := i + 1;
    }
    assert all[..i] == all;
  }

  /** The span of the call the transcript covers: first word, last word, and what lies outside. */
  ghost predicate CoverageOf(utts: seq<Utterance>, audio: nat, end: int, leading: int, trailing: int) {
    && (forall u :: u in utts ==> u.turn.end <= end && leading <= Max(0, u.turn.start))
    && (utts != [] ==> exists u :: u in utts && u.turn.end == end)
    && (utts != [] ==> exists u :: u in utts && Max(0, u.turn.start) == leading)
    && (utts == [] ==> end == 0 && leading == audio)
    && trailing == Max(0, audio - end)
  }

  method MeasureCoverage(ghost utts: seq<Utterance>, sorted: seq<Utterance>, audio: nat)
    returns (end: int, leading: nat, trailing: nat)
    requires sorted == Ordered(utts) && utts != []
    ensures CoverageOf(utts, audio, end, leading, trailing)
  {
    OrderedFacts(utts);
    end := sorted[0].turn.end;
    ghost var k := 0;
    for i := 1 to |sorted|
      invariant forall j :: 0 <= j < i ==> sorted[j].turn.end <= end
      invariant k < i && sorted[k].turn.end == end
    {
      if sorted[i].turn.end > end { k := i; }
      end := Max(end, sorted[i].turn.end);
    }
    leading := Max(0, sorted[0].turn.start);
    trailing := Max(0, audio - end);
    assert sorted[0] in utts && sorted[k] in utts;
    StartsAscend(sorted);
  }

  method CollectSpans(sorted: seq<Utterance>)
    returns (all: seq<Interval>, agent: seq<Interval>, customer: seq<Interval>)
    ensures all == Spans(sorted, Everyone)
    ensures agent == Spans(sorted, IsAgent)
    ensures customer == Spans(sorted, IsCustomer)
  {
    all, agent, customer := [], [], [];
    for i := 0 to |sorted|
      invariant all == Spans(sorted[..i], Everyone)
      invariant agent == Spans(sorted[..i], IsAgent)
      invariant customer == Spans(sorted[..i], IsCustomer)
    {
      assert sorted[..i + 1][..i] == sorted[..i];
      var u := sorted[i];
      if u.turn.start < u.turn.end {
        var iv: Interval := Span(u.turn.start, u.turn.end);
        all := all + [iv];
        match u.role {
          case Agent => agent := agent + [iv];
          case Customer => customer := customer + [iv];
          case Unknown =>
        }
      }
    }
    assert sorted[..|sorted|] == sorted;
  }

  method CountWords(sorted: seq<Utterance>) returns (agent: nat, customer: nat)
    ensures agent == WordsSpoken(sorted, IsAgent) && customer == WordsSpoken(sorted, IsCustomer)
  {
    agent, customer := 0, 0;
    for i := 0 to |sorted|
      invariant agent == WordsSpoken(sorted[..i], IsAgent) && customer == WordsSpoken(sorted[..i], IsCustomer)
    {
      assert sorted[..i + 1][..i] == sorted[..i];
      var u := sorted[i];
      if u.turn.start < u.turn.end {
        match u.role {
          case Agent => agent := agent + u.words;
          case Customer => customer := customer + u.words;
          case Unknown =>
        }
      }
    }
    assert sorted[..|sorted|] == sorted;
  }

  method Analyze(a: Analyzer, utterances: seq<Utterance>, audioDuration: nat) returns (m: Metrics)
    ensures m.agentTalk == TalkTime(utterances, IsAgent)
    ensures m.customerTalk == TalkTime(utterances, IsCustomer)
    ensures m.totalSpeech == TalkTime(utterances, Everyone)
    ensures m.agentShare == Share(m.agentTalk, m.totalSpeech)
    ensures m.customerShare == Share(m.customerTalk, m.totalSpeech)
    ensures m.occupancy == Share(m.totalSpeech, audioDuration)
    ensures m.agentPace == Pace(WordsSpoken(utterances, IsAgent), m.agentTalk)
    ensures m.customerPace == Pace(WordsSpoken(utterances, IsCustomer), m.customerTalk)
    ensures m.deadAir == DeadAir(utterances, a.deadAirThreshold)
    ensures m.interruptions == Interruptions(utterances, a.interruptionMinimum)
    ensures CoverageOf(utterances, audioDuration, m.coverageEnd, m.leadingUncovered, m.trailingUncovered)
    ensures m.hasUncoveredAudio
        <==> m.leadingUncovered > a.coverageTolerance || m.trailingUncovered > a.coverageTolerance
  {
    if utterances == [] {
      NothingMeasured(a.deadAirThreshold, a.interruptionMinimum);
      return Metrics(0, audioDuration, audioDuration, audioDuration > a.coverageTolerance,
                     0, 0, 0, 0, 0, Share(0, audioDuration), 0, 0, [], []);
    }
    var sorted := Ordered(utterances);
    OrderedFacts(utterances);
    var lastEnd, leading, trailing := MeasureCoverage(utterances, sorted, audioDuration);
    var all, agent, customer := CollectSpans(sorted);
    SortingKeepsTalk(utterances);
    WordsIgnoreOrder(sorted, utterances, IsAgent);
    WordsIgnoreOrder(sorted, utterances, IsCustomer);
    var agentWords, customerWords := CountWords(sorted);
    var agentTalk := TotalDurationMs(agent);
    var customerTalk := TotalDurationMs(customer);
    var totalSpeech := TotalDurationMs(all);
    var merged := UnionIntervals(all);
    var gaps := FindDeadAir(merged, a.deadAirThreshold);
    var interruptions := ScanInterruptions(sorted, a.interruptionMinimum);
    m := Metrics(lastEnd, leading, trailing,
                 leading > a.coverageTolerance || trailing > a.coverageTolerance,
                 agentTalk, customerTalk, totalSpeech,
                 Share(agentTalk, totalSpeech), Share(customerTalk, totalSpeech), Share(totalSpeech, audioDuration),
                 Pace(agentWords, agentTalk), Pace(customerWords, customerTalk),
                 gaps, interruptions);
  }

  // ---------------------------------------------------------------- proofs: the scans

  lemma TurnOrder()
    ensures TotalPreorder(TurnLe) && Antisymmetric(TurnLe) && TotalPreorder(UtteranceLe)
  {
    forall a, b ensures (TurnLe(a, b) || TurnLe(b, a)) && (TurnLe(a, b) && TurnLe(b, a) ==> a == b) {
      StringTotal(a.speaker, b.speaker);
    }
    forall a, b, c | TurnLe(a, b) && TurnLe(b, c) ensures TurnLe(a, c) {
      if a.start == b.start == c.start && a.end == b.end == c.end {
        StringTransitive(a.speaker, b.speaker, c.speaker);
      }
    }
    forall a: Utterance, b, c | UtteranceLe(a, b) && UtteranceLe(b, c) ensures UtteranceLe(a, c) {
      assert TurnLe(a.turn, c.turn);
    }
  }

  lemma InterruptionOrder()
    ensures TotalPreorder(InterruptionLe)
  {
    forall a, b ensures InterruptionLe(a, b) || InterruptionLe(b, a) {
      StringTotal(a.speaker, b.speaker);
    }
    forall a, b, c | InterruptionLe(a, b) && InterruptionLe(b, c) ensures InterruptionLe(a, c) {
      if a.start == b.start == c.start && a.overlap == b.overlap == c.overlap {
        StringTransitive(a.speaker, b.speaker, c.speaker);
      }
    }
  }

  lemma OrderedFacts(utts: seq<Utterance>)
    ensures SortedBy(UtteranceLe, Ordered(utts)) && multiset(Ordered(utts)) == multiset(utts)
    ensures |Ordered(utts)| == |utts|
    ensures forall u :: u in Ordered(utts) <==> u in utts
  {
    TurnOrder();
    SortSorts(UtteranceLe, utts);
  }

  lemma StartsAscend(sorted: seq<Utterance>)
    requires SortedBy(UtteranceLe, sorted)
    ensures forall i, j :: 0 <= i < j < |sorted| ==> sorted[i].turn.start <= sorted[j].turn.start
    ensures sorted != [] ==> forall u :: u in sorted ==> sorted[0].turn.start <= u.turn.start
  {
    forall i, j | 0 <= i < j < |sorted| ensures sorted[i].turn.start <= sorted[j].turn.start {
      assert UtteranceLe(sorted[i], sorted[j]);
    }
  }

  lemma NothingMeasured(threshold: int, minimum: int)
    ensures TalkTime([], IsAgent) == TalkTime([], IsCustomer) == TalkTime([], Everyone) == 0
    ensures Pace(WordsSpoken([], IsAgent), 0) == Pace(WordsSpoken([], IsCustomer), 0) == 0
    ensures DeadAir([], threshold) == [] && Interruptions([], minimum) == []
    ensures forall d: nat :: Share(0, d) == 0
  {
    assert Sort(ByStartEnd, []) == [];
    assert Turns(Ordered([])) == [];
    RoundInteger(0);
  }

  /** Why the early break loses nothing: later turns start even later. */
  lemma {:induction false} NothingBeyond(t: seq<Turn>, i: nat, j: nat, hi: nat, minimum: int)
    requires i < j <= hi <= |t|
    requires forall k :: j <= k < hi ==> t[k].start >= t[i].end
    ensures PairsOf(t, i, hi, minimum) == PairsOf(t, i, j, minimum)
    decreases hi
  {
    if j < hi {
      NothingBeyond(t, i, j, hi - 1, minimum);
      assert !Interrupts(t[i], t[hi - 1], minimum);
    }
  }

  lemma {:induction false} PairsOfMembers(t: seq<Turn>, i: nat, hi: nat, minimum: int)
    requires i < hi <= |t|
    ensures forall c ::
        c in PairsOf(t, i, hi, minimum) <==>
        exists j :: i < j < hi && Interrupts(t[i], t[j], minimum) && c == Report(t[i], t[j])
    decreases hi
  {
    if hi > i + 1 {
      PairsOfMembers(t, i, hi - 1, minimum);
    }
  }

  lemma {:induction false} AllPairsMembers(t: seq<Turn>, n: nat, minimum: int)
    requires n <= |t|
    ensures forall c ::
        c in AllPairs(t, n, minimum) <==>
        exists i, j :: 0 <= i < n && i < j < |t| && Interrupts(t[i], t[j], minimum) && c == Report(t[i], t[j])
  {
    if n > 0 {
      AllPairsMembers(t, n - 1, minimum);
      PairsOfMembers(t, n - 1, |t|, minimum);
    }
  }

  /** The fast scan reports exactly the interruptions found by comparing every utterance with
      every other, whatever order the utterances came in. */
  lemma InterruptionsExact(utts: seq<Utterance>, minimum: int, c: Interruption)
    ensures c in Interruptions(utts, minimum)
        <==> exists u, v :: u in utts && v in utts && Interrupts(u.turn, v.turn, minimum) && c == Report(u.turn, v.turn)
  {
    var s := Ordered(utts);
    var t := Turns(s);
    OrderedFacts(utts);
    InterruptionOrder();
    SortSorts(InterruptionLe, AllPairs(t, |t|, minimum));
    AllPairsMembers(t, |t|, minimum);
    if c in AllPairs(t, |t|, minimum) {
      var i, j :| 0 <= i < |t| && i < j < |t| && Interrupts(t[i], t[j], minimum) && c == Report(t[i], t[j]);
      assert s[i] in utts && s[j] in utts;
    }
    if u, v :| u in utts && v in utts && Interrupts(u.turn, v.turn, minimum) && c == Report(u.turn, v.turn) {
      var i, j := Positions(s, u, v);
      assert t[i] == u.turn && t[j] == v.turn;
    }
  }

  lemma Positions(s: seq<Utterance>, u: Utterance, v: Utterance) returns (i: nat, j: nat)
    requires SortedBy(UtteranceLe, s) && u in s && v in s && u.turn.start < v.turn.start
    ensures i < j < |s| && s[i] == u && s[j] == v
  {
    i :| 0 <= i < |s| && s[i] == u;
    j :| 0 <= j < |s| && s[j] == v;
    StartsAscend(s);
  }

  /** Dropping the "starts before the other ends" guard, as a plain all-pairs comparison would,
      changes nothing exactly when the minimum overlap is positive. */
  lemma BreakHarmlessIff(minimum: int)
    ensures minimum >= 1 <==>
        forall u: Turn, v: Turn ::
          Interrupts(u, v, minimum)
          <==> u.speaker != v.speaker && v.start > u.start && Overlap(u, v) >= minimum
  {
    if minimum < 1 {
      var u, v := Turn("A", 0, 5), Turn("B", 5, 6);
      assert Overlap(u, v) == 0 && !Interrupts(u, v, minimum);
    }
  }

  // ---------------------------------------------------------------- proofs: talk time

  lemma {:induction false} SpansMembers(utts: seq<Utterance>, keep: Role -> bool)
    ensures AllPositive(Spans(utts, keep))
    ensures forall iv ::
        iv in Spans(utts, keep) <==>
        exists u :: u in utts && u.turn.start < u.turn.end && keep(u.role) && iv == Span(u.turn.start, u.turn.end)
  {
    if utts != [] {
      var n := |utts| - 1;
      SpansMembers(utts[..n], keep);
      assert utts == utts[..n] + [utts[n]];
      forall u ensures u in utts <==> u in utts[..n] || u == utts[n] {}
    }
  }

  lemma SpansDependOnMembers(a: seq<Utterance>, b: seq<Utterance>, keep: Role -> bool)
    requires forall u :: u in a <==> u in b
    ensures TalkTime(a, keep) == TalkTime(b, keep)
    ensures Union(Spans(a, keep)) == Union(Spans(b, keep))
  {
    SpansMembers(a, keep);
    SpansMembers(b, keep);
    DurationMonotone(Spans(a, keep), Spans(b, keep));
    UnionIsCanonical(Spans(a, keep), Spans(b, keep));
  }

  lemma SortingKeepsTalk(utts: seq<Utterance>)
    ensures TalkTime(Ordered(utts), IsAgent) == TalkTime(utts, IsAgent)
    ensures TalkTime(Ordered(utts), IsCustomer) == TalkTime(utts, IsCustomer)
    ensures TalkTime(Ordered(utts), Everyone) == TalkTime(utts, Everyone)
    ensures Silences(Ordered(utts)) == Silences(utts)
  {
    OrderedFacts(utts);
    SpansDependOnMembers(Ordered(utts), utts, IsAgent);
    SpansDependOnMembers(Ordered(utts), utts, IsCustomer);
    SpansDependOnMembers(Ordered(utts), utts, Everyone);
  }

  lemma {:induction false} WordsAppend(a: seq<Utterance>, b: seq<Utterance>, keep: Role -> bool)
    ensures WordsSpoken(a + b, keep) == WordsSpoken(a, keep) + WordsSpoken(b, keep)
  {
    if b == [] {
      assert a + b == a;
    } else {
      assert (a + b)[..|a + b| - 1] == a + b[..|b| - 1];
      WordsAppend(a, b[..|b| - 1], keep);
    }
  }

  lemma {:induction false} WordsWithout(s: seq<Utterance>, j: nat, keep: Role -> bool)
    requires j < |s|
    ensures WordsSpoken(s, keep) == WordsIn(s[j], keep) + WordsSpoken(s[..j] + s[j + 1..], keep)
  {
    WordsAppend(s[..j], s[j + 1..], keep);
    WordsAppend(s[..j] + [s[j]], s[j + 1..], keep);
    assert s == s[..j] + [s[j]] + s[j + 1..];
    assert (s[..j] + [s[j]])[..j] == s[..j];
  }

  lemma {:induction false} WordsIgnoreOrder(a: seq<Utterance>, b: seq<Utterance>, keep: Role -> bool)
    requires multiset(a) == multiset(b)
    ensures WordsSpoken(a, keep) == WordsSpoken(b, keep)
  {
    if a == [] {
      assert |b| == |multiset(b)| == 0;
    } else {
      var j := RemoveHead(a, b);
      WordsIgnoreOrder(a[1..], b[..j] + b[j + 1..], keep);
      WordsWithout(a, 0, keep);
      WordsWithout(b, j, keep);
      assert a[..0] + a[1..] == a[1..];
    }
  }

  /** A role never talks longer than everyone together, and the three roles account for all of it. */
  lemma TalkTimeBounds(utts: seq<Utterance>)
    ensures TalkTime(utts, IsAgent) <= TalkTime(utts, Everyone)
    ensures TalkTime(utts, IsCustomer) <= TalkTime(utts, Everyone)
    ensures TalkTime(utts, Everyone)
         <= TalkTime(utts, IsAgent) + TalkTime(utts, IsCustomer) + TalkTime(utts, IsUnknown)
  {
    var e, a, c, o := Spans(utts, Everyone), Spans(utts, IsAgent), Spans(utts, IsCustomer), Spans(utts, IsUnknown);
    SpansMembers(utts, Everyone);
    SpansMembers(utts, IsAgent);
    SpansMembers(utts, IsCustomer);
    SpansMembers(utts, IsUnknown);
    DurationMonotone(a, e);
    DurationMonotone(c, e);
    forall iv | iv in e ensures iv in a + c + o {
      var u :| u in utts && u.turn.start < u.turn.end && iv == Span(u.turn.start, u.turn.end);
      assert IsAgent(u.role) || IsCustomer(u.role) || IsUnknown(u.role);
    }
    DurationMonotone(e, a + c + o);
    DurationInclusionExclusion(a + c, o);
    DurationInclusionExclusion(a, c);
  }

  lemma ShareBounded(part: nat, whole: nat)
    requires part <= whole
    ensures 0 <= Share(part, whole) <= 10000
  {
    if whole > 0 {
      var x := part as real / whole as real;
      assert 0.0 <= x <= 1.0;
      RoundInteger(0);
      RoundInteger(10000);
      RoundMonotone(0.0, x * 10000.0);
      RoundMonotone(x * 10000.0, 10000.0);
    }
  }

  /** No talk share ever passes 100%. */
  lemma SharesBounded(utts: seq<Utterance>)
    ensures 0 <= Share(TalkTime(utts, IsAgent), TalkTime(utts, Everyone)) <= 10000
    ensures 0 <= Share(TalkTime(utts, IsCustomer), TalkTime(utts, Everyone)) <= 10000
  {
    TalkTimeBounds(utts);
    ShareBounded(TalkTime(utts, IsAgent), TalkTime(utts, Everyone));
    ShareBounded(TalkTime(utts, IsCustomer), TalkTime(utts, Everyone));
  }

  // ---------------------------------------------------------------- proofs: silence

  lemma {:induction false} GapsFillTheHull(m: seq<Interval>)
    requires Separated(m) && m != []
    ensures Sum(m) + Sum(Gaps(m)) == m[|m| - 1].end - m[0].start
  {
    var n := |m| - 1;
    if n == 0 {
      assert m[..0] == [];
    } else {
      GapsFillTheHull(m[..n]);
      LastGap(m);
    }
  }

  lemma LastGap(m: seq<Interval>)
    requires Separated(m) && |m| >= 2
    ensures Sum(Gaps(m)) == Sum(Gaps(m[..|m| - 1])) + (m[|m| - 1].start - m[|m| - 2].end)
  {
    var n := |m| - 1;
    assert Gaps(m)[..n - 1] == Gaps(m[..n]);
  }

  /** Speech plus silence is the whole conversation, from the first word to the last. */
  lemma SpeechPlusSilence(utts: seq<Utterance>, first: Utterance, last: Utterance)
    requires first in utts && first.turn.start < first.turn.end
    requires last in utts && last.turn.start < last.turn.end
    requires forall u :: u in utts && u.turn.start < u.turn.end
                      ==> first.turn.start <= u.turn.start && u.turn.end <= last.turn.end
    ensures TalkTime(utts, Everyone) + Sum(Silences(utts)) == last.turn.end - first.turn.start
  {
    var s := Spans(utts, Everyone);
    SpansMembers(utts, Everyone);
    UnionCorrect(s);
    assert Everyone(first.role) && Everyone(last.role);
    HullOf(s, Union(s), Span(first.turn.start, first.turn.end), Span(last.turn.start, last.turn.end));
    GapsFillTheHull(Union(s));
  }

  lemma HullOf(s: seq<Interval>, m: seq<Interval>, first: Interval, last: Interval)
    requires Separated(m) && AllPositive(m) && AllPositive(s) && Covered(m) == Covered(s)
    requires first in s && last in s
    requires forall iv :: iv in s ==> first.start <= iv.start && iv.end <= last.end
    ensures m != [] && m[0].start == first.start && m[|m| - 1].end == last.end
  {
    forall t | t in Covered(s) ensures first.start <= t < last.end {}
    var i :| 0 <= i < |s| && s[i] == first;
    var j :| 0 <= j < |s| && s[j] == last;
    CoveredAt(s, i, first.start);
    CoveredAt(s, j, last.end - 1);
    assert m != [];
    CoveredAt(m, 0, m[0].start);
    CoveredAt(m, |m| - 1, m[|m| - 1].end - 1);
    forall t | t in Covered(m) ensures m[0].start <= t < m[|m| - 1].end {
      var k := IndexCovering(m, t);
      assert k == 0 || m[0].end < m[k].start;
      assert k == |m| - 1 || m[k].end < m[|m| - 1].start;
    }
  }

  ghost predicate Spoken(utts: seq<Utterance>, t: int) {
    exists u :: u in utts && u.turn.start <= t < u.turn.end
  }

  /** A maximal silence: speech right before it, speech right after it, and none inside. */
  ghost predicate MaximalSilence(utts: seq<Utterance>, g: Interval) {
    && g.start < g.end
    && Spoken(utts, g.start - 1) && Spoken(utts, g.end)
    && forall t :: g.start <= t < g.end ==> !Spoken(utts, t)
  }

  lemma SpokenIsCovered(utts: seq<Utterance>)
    ensures forall t :: Spoken(utts, t) <==> t in Covered(Spans(utts, Everyone))
  {
    SpansMembers(utts, Everyone);
    var s := Spans(utts, Everyone);
    forall t ensures Spoken(utts, t) <==> t in Covered(s) {
      if Spoken(utts, t) {
        var u :| u in utts && u.turn.start <= t < u.turn.end;
        var iv: Interval := Span(u.turn.start, u.turn.end);
        assert Everyone(u.role) && iv in s && t in Milliseconds(iv);
      }
    }
  }

  /** Dead air is reported for exactly the maximal silences of at least the threshold. */
  lemma DeadAirExact(utts: seq<Utterance>, threshold: int, g: Interval)
    ensures g in DeadAir(utts, threshold) <==> MaximalSilence(utts, g) && Duration(g) >= threshold
  {
    var s := Spans(utts, Everyone);
    SpansMembers(utts, Everyone);
    UnionCorrect(s);
    FilterIn(AtLeast(threshold), Gaps(Union(s)));
    SpokenIsCovered(utts);
    GapsAreMaximal(Union(s), g);
  }

  /** An uncovered stretch with covered time right before and right after it. */
  ghost predicate Between(covered: set<int>, g: Interval) {
    && g.start < g.end && g.start - 1 in covered && g.end in covered
    && forall t :: g.start <= t < g.end ==> t !in covered
  }

  lemma {:induction false} GapsAreMaximal(m: seq<Interval>, g: Interval)
    requires Separated(m) && AllPositive(m)
    ensures g in Gaps(m) <==> Between(Covered(m), g)
  {
    if g in Gaps(m) {
      var i := IndexOf(Gaps(m), g);
      GapAt(m, i);
    }
    if Between(Covered(m), g) {
      MaximalIsGap(m, g);
    }
  }

  lemma {:induction false} IndexOf(s: seq<Interval>, g: Interval) returns (i: nat)
    requires g in s
    ensures i < |s| && s[i] == g
  {
    i :| 0 <= i < |s| && s[i] == g;
  }

  lemma {:induction false} GapAt(m: seq<Interval>, i: nat)
    requires Separated(m) && AllPositive(m) && i < |Gaps(m)|
    ensures Between(Covered(m), Gaps(m)[i])
  {
    EdgesCovered(m, i);
    NothingWithin(m, i);
  }

  lemma {:induction false} EdgesCovered(m: seq<Interval>, i: nat)
    requires Separated(m) && AllPositive(m) && i + 1 < |m|
    ensures m[i].end < m[i + 1].start && m[i].end - 1 in Covered(m) && m[i + 1].start in Covered(m)
  {
    CoveredAt(m, i, m[i].end - 1);
    CoveredAt(m, i + 1, m[i + 1].start);
  }

  lemma {:induction false} NothingWithin(m: seq<Interval>, i: nat)
    requires Separated(m) && i + 1 < |m|
    ensures forall t :: m[i].end <= t < m[i + 1].start ==> t !in Covered(m)
  {
    forall t | m[i].end <= t < m[i + 1].start ensures t !in Covered(m) {
      NotInside(m, i, t);
    }
  }

  lemma MaximalIsGap(m: seq<Interval>, g: Interval)
    requires Separated(m) && AllPositive(m)
    requires Between(Covered(m), g)
    ensures g in Gaps(m)
  {
    var a := IndexCovering(m, g.start - 1);
    var b := IndexCovering(m, g.end);
    if m[a].end > g.start { CoveredAt(m, a, g.start); }
    if m[b].start < g.end { CoveredAt(m, b, g.end - 1); }
    assert m[a].end == g.start && m[b].start == g.end;
    assert a < b;
    if a + 1 < b {
      assert m[a].end < m[a + 1].start < m[a + 1].end < m[b].start;
      CoveredAt(m, a + 1, m[a + 1].start);
    }
    assert Gaps(m)[a] == g;
  }

  lemma NotInside(m: seq<Interval>, i: nat, t: int)
    requires Separated(m) && i + 1 < |m| && m[i].end <= t < m[i + 1].start
    ensures t !in Covered(m)
  {
    forall iv | iv in m ensures t !in Milliseconds(iv) {
      var k :| 0 <= k < |m| && m[k] == iv;
      assert k < i ==> m[k].end < m[i].start;
      assert k > i + 1 ==> m[i + 1].end < m[k].start;
    }
  }

  lemma IndexCovering(m: seq<Interval>, t: int) returns (i: nat)
    requires t in Covered(m)
    ensures i < |m| && m[i].start <= t < m[i].end
  {
    var iv :| iv in m && t in Milliseconds(iv);
    i :| 0 <= i < |m| && m[i] == iv;
  }

  // ---------------------------------------------------------------- proofs: input order

  lemma {:induction false} SameTurns(a: seq<Utterance>, b: seq<Utterance>)
    requires multiset(a) == multiset(b)
    ensures multiset(Turns(a)) == multiset(Turns(b))
  {
    if a == [] {
      assert |b| == |multiset(b)| == 0;
    } else {
      var j := RemoveHead(a, b);
      var rest := b[..j] + b[j + 1..];
      SameTurns(a[1..], rest);
      assert Turns(a) == [a[0].turn] + Turns(a[1..]);
      assert Turns(b) == Turns(b[..j]) + ([b[j].turn] + Turns(b[j + 1..]));
      assert Turns(rest) == Turns(b[..j]) + Turns(b[j + 1..]);
    }
  }

  /** Every figure is a function of the utterances as a collection: input order is irrelevant. */
  lemma MetricsIgnoreOrder(a: seq<Utterance>, b: seq<Utterance>, threshold: int, minimum: int, keep: Role -> bool)
    requires multiset(a) == multiset(b)
    ensures TalkTime(a, keep) == TalkTime(b, keep) && WordsSpoken(a, keep) == WordsSpoken(b, keep)
    ensures DeadAir(a, threshold) == DeadAir(b, threshold)
    ensures Interruptions(a, minimum) == Interruptions(b, minimum)
  {
    WordsIgnoreOrder(a, b, keep);
    forall u ensures u in a <==> u in b {
      assert u in a <==> u in multiset(a);
      assert u in b <==> u in multiset(b);
    }
    SpansDependOnMembers(a, b, keep);
    SpansDependOnMembers(a, b, Everyone);
    var s, t := Ordered(a), Ordered(b);
    OrderedFacts(a);
    OrderedFacts(b);
    SameTurns(s, t);
    TurnOrder();
    assert SortedBy(TurnLe, Turns(s)) by {
      assert forall i, j :: 0 <= i < j < |s| ==> UtteranceLe(s[i], s[j]);
    }
    assert SortedBy(TurnLe, Turns(t)) by {
      assert forall i, j :: 0 <= i < j < |t| ==> UtteranceLe(t[i], t[j]);
    }
    SortedUnique(TurnLe, Turns(s), Turns(t));
  }
}
