/** Pre-evaluation transcript checks: packages/application/services/transcript_validator.py. */
module TranscriptValidator {
  import opened Wrappers
  import opened Intervals
  import opened Rounding
  import opened SpeechMetrics

  datatype Segment = Segment(order: int, speaker: string, role: Role, start: int, end: int)
  datatype Transcript = Transcript(audioDuration: int, sourceArtifact: string, available: bool)
  datatype Recording = Recording(audioDuration: int, artifact: string)

  datatype Reason =
    | InvalidAudioDuration | LineageMismatch | NotAvailable | EmptySegments
    | InvalidOrder(order: int) | NegativeStart(order: int) | Inverted(order: int)
    | ExceedsDuration(order: int) | ExcessiveOverlap(order: int)
    | NoCustomerSpeech | NoAgentSpeech

  /** Ratios are in ten-thousandths, the precision the source rounds to. */
  datatype Integrity = Integrity(
    isValid: bool, reasons: seq<Reason>, agentRatio: int, customerRatio: int, unknownRatio: int,
    totalDuration: int, segmentCount: nat)
  {
    predicate HasActiveConversation() { agentRatio > 0 && customerRatio > 0 }
  }

  function RoleName(r: Role): string {
    match r
    case Agent => "AGENT"
    case Customer => "CUSTOMER"
    case Unknown => "UNKNOWN"
  }

  function Key(s: Segment): string { if s.speaker != "" then s.speaker else RoleName(s.role) }

  function AudioDuration(t: Transcript, r: Option<Recording>): int {
    if r.Some? && r.value.audioDuration > 0 then r.value.audioDuration
    else if t.audioDuration > 0 then t.audioDuration
    else 0
  }

  /** The latest end of a speaker's earlier segments, never below zero. */
  function LastEnd(segs: seq<Segment>, key: string): int {
    if segs == [] then 0
    else
      var before := LastEnd(segs[..|segs| - 1], key);
      if Key(segs[|segs| - 1]) == key then Max(before, segs[|segs| - 1].end) else before
  }

  function When(condition: bool, r: Reason): seq<Reason> { if condition then [r] else [] }

  function SegmentReasons(segs: seq<Segment>, i: nat, duration: int): seq<Reason>
    requires i < |segs|
  {
    var s := segs[i];
    When(s.order != (if i == 0 then 0 else segs[i - 1].order) + 1, InvalidOrder(s.order))
    + When(s.start < 0, NegativeStart(s.order))
    + When(s.end <= s.start, Inverted(s.order))
    + When(duration > 0 && s.end > duration, ExceedsDuration(s.order))
    + When(LastEnd(segs[..i], Key(s)) - s.start > 1000, ExcessiveOverlap(s.order))
  }

  function ReasonsUpTo(segs: seq<Segment>, n: nat, duration: int): seq<Reason>
    requires n <= |segs|
  {
    if n == 0 then [] else ReasonsUpTo(segs, n - 1, duration) + SegmentReasons(segs, n - 1, duration)
  }

  function HeaderReasons(t: Transcript, r: Option<Recording>): seq<Reason> {
    When(AudioDuration(t, r) <= 0, InvalidAudioDuration)
    + When(r.Some? && t.sourceArtifact != r.value.artifact, LineageMismatch)
    + When(!t.available, NotAvailable)
  }

  predicate Timed(s: Segment) { s.end > s.start && s.start >= 0 }

  function RoleSpans(segs: seq<Segment>, role: Role): seq<Interval> {
    if segs == [] then []
    else
      var s := segs[|segs| - 1];
      RoleSpans(segs[..|segs| - 1], role)
      + (if Timed(s) && s.role == role then [Span(s.start, s.end)] else [])
  }

  function Active(segs: seq<Segment>, role: Role): nat { TotalDuration(RoleSpans(segs, role)) }

  function Ratio(part: nat, duration: int): int {
    Round(part as real / Max(duration, 1) as real * 10000.0)
  }

  function AllReasons(t: Transcript, segs: seq<Segment>, r: Option<Recording>): seq<Reason> {
    HeaderReasons(t, r)
    + if segs == [] then [EmptySegments]
      else
        ReasonsUpTo(segs, |segs|, AudioDuration(t, r))
        + When(Active(segs, Customer) == 0, NoCustomerSpeech)
        + When(Active(segs, Agent) == 0, NoAgentSpeech)
  }

  method InspectSegment(segs: seq<Segment>, i: nat, duration: int, prevOrder: int, lastEnd: int)
    returns (found: seq<Reason>)
    requires i < |segs| && prevOrder == (if i == 0 then 0 else segs[i - 1].order)
    requires lastEnd == LastEnd(segs[..i], Key(segs[i]))
    ensures found == SegmentReasons(segs, i, duration)
  {
    var s := segs[i];
    found := When(s.order != prevOrder + 1, InvalidOrder(s.order));
    found := found + When(s.start < 0, NegativeStart(s.order));
    found := found + When(s.end <= s.start, Inverted(s.order));
    found := found + When(duration > 0 && s.end > duration, ExceedsDuration(s.order));
    found := found + When(s.start < lastEnd && lastEnd - s.start > 1000, ExcessiveOverlap(s.order));
  }

  method AddSpan(segs: seq<Segment>, i: nat, agent: seq<Interval>, customer: seq<Interval>, unknown: seq<Interval>)
    returns (agent': seq<Interval>, customer': seq<Interval>, unknown': seq<Interval>)
    requires i < |segs| && AreSpans(segs[..i], agent, customer, unknown)
    ensures AreSpans(segs[..i + 1], agent', customer', unknown')
  {
    var s := segs[i];
    SpansStep(segs[..i], s);
    assert segs[..i + 1] == segs[..i] + [s];
    agent', customer', unknown' := agent, customer, unknown;
    if s.end > s.start && s.start >= 0 {
      var iv: Interval := Span(s.start, s.end);
      match s.role {
        case Agent => agent' := agent + [iv];
        case Customer => customer' := customer + [iv];
        case Unknown => unknown' := unknown + [iv];
      }
    }
  }

  ghost predicate AreSpans(segs: seq<Segment>, agent: seq<Interval>, customer: seq<Interval>, unknown: seq<Interval>) {
    agent == RoleSpans(segs, Agent) && customer == RoleSpans(segs, Customer) && unknown == RoleSpans(segs, Unknown)
  }

  method ScanSegments(segs: seq<Segment>, duration: int)
    returns (reasons: seq<Reason>, agent: seq<Interval>, customer: seq<Interval>, unknown: seq<Interval>)
    ensures reasons == ReasonsUpTo(segs, |segs|, duration)
    ensures agent == RoleSpans(segs, Agent)
    ensures customer == RoleSpans(segs, Customer)
    ensures unknown == RoleSpans(segs, Unknown)
  {
    reasons, agent, customer, unknown := [], [], [], [];
    var prevOrder := 0;
    var lastEnds: map<string, int> := map[];
    for i := 0 to |segs|
      invariant prevOrder == if i == 0 then 0 else segs[i - 1].order
      invariant reasons == ReasonsUpTo(segs, i, duration)
      invariant AreSpans(segs[..i], agent, customer, unknown)
      invariant Tracks(lastEnds, segs[..i])
    {
      var found;
      found, lastEnds := FollowSpeaker(segs, i, duration, prevOrder, lastEnds);
      reasons := reasons + found;
      prevOrder := segs[i].order;
      agent, customer, unknown := AddSpan(segs, i, agent, customer, unknown);
    }
    assert segs[..|segs|] == segs;
  }

  method FollowSpeaker(segs: seq<Segment>, i: nat, duration: int, prevOrder: int, lastEnds: map<string, int>)
    returns (found: seq<Reason>, lastEnds': map<string, int>)
    requires i < |segs| && prevOrder == (if i == 0 then 0 else segs[i - 1].order) && Tracks(lastEnds, segs[..i])
    ensures found == SegmentReasons(segs, i, duration) && Tracks(lastEnds', segs[..i + 1])
  {
    var s := segs[i];
    var lastEnd := Recall(lastEnds, Key(s));
    assert lastEnd == LastEnd(segs[..i], Key(s));
    found := InspectSegment(segs, i, duration, prevOrder, lastEnd);
    TrackOne(lastEnds, segs[..i], s);
    assert segs[..i + 1] == segs[..i] + [s];
    lastEnds' := lastEnds[Key(s) := Max(lastEnd, s.end)];
  }

  function Recall(lastEnds: map<string, int>, key: string): int {
    if key in lastEnds then lastEnds[key] else 0
  }

  ghost predicate Tracks(lastEnds: map<string, int>, seen: seq<Segment>) {
    forall k: string :: Recall(lastEnds, k) == LastEnd(seen, k)
  }

  lemma TrackOne(lastEnds: map<string, int>, seen: seq<Segment>, s: Segment)
    requires Tracks(lastEnds, seen)
    ensures Tracks(lastEnds[Key(s) := Max(Recall(lastEnds, Key(s)), s.end)], seen + [s])
  {
    assert (seen + [s])[..|seen|] == seen;
    var after := lastEnds[Key(s) := Max(Recall(lastEnds, Key(s)), s.end)];
    forall k: string ensures Recall(after, k) == LastEnd(seen + [s], k) {
      assert Recall(lastEnds, k) == LastEnd(seen, k);
    }
  }

  lemma SpansStep(seen: seq<Segment>, s: Segment)
    ensures forall role ::
      RoleSpans(seen + [s], role)
      == RoleSpans(seen, role) + if Timed(s) && s.role == role then [Span(s.start, s.end)] else []
  {
    assert (seen + [s])[..|seen|] == seen;
  }

  method InspectHeader(t: Transcript, r: Option<Recording>) returns (duration: int, reasons: seq<Reason>)
    ensures duration == AudioDuration(t, r) && reasons == HeaderReasons(t, r)
  {
    duration := 0;
    if r.Some? && r.value.audioDuration > 0 {
      duration := r.value.audioDuration;
    } else if t.audioDuration > 0 {
      duration := t.audioDuration;
    }
    reasons := [];
    if duration <= 0 { reasons := reasons + [InvalidAudioDuration]; }
    if r.Some? {
      if t.sourceArtifact != r.value.artifact { reasons := reasons + [LineageMismatch]; }
    }
    if !t.available { reasons := reasons + [NotAvailable]; }
  }

  /** The ratios of a result are those of the active times to the audio. */
  predicate Measures(result: Integrity, t: Transcript, segs: seq<Segment>, r: Option<Recording>) {
    && result.agentRatio == Ratio(Active(segs, Agent), AudioDuration(t, r))
    && result.customerRatio == Ratio(Active(segs, Customer), AudioDuration(t, r))
    && result.unknownRatio == Ratio(Active(segs, Unknown), AudioDuration(t, r))
  }

  method Validate(t: Transcript, segs: seq<Segment>, r: Option<Recording>) returns (result: Integrity)
    ensures result.reasons == AllReasons(t, segs, r)
    ensures result.isValid <==> Acceptable(t, segs, r)
    ensures result.totalDuration == AudioDuration(t, r) && result.segmentCount == |segs|
    ensures Measures(result, t, segs, r)
  {
    AcceptedIffNoReasons(t, segs, r);
    var duration, reasons := InspectHeader(t, r);
    if segs == [] {
      NothingActive(duration);
      reasons := reasons + [EmptySegments];
      return Integrity(false, reasons, 0, 0, 0, duration, 0);
    }
    var found, agent, customer, unknown := ScanSegments(segs, duration);
    var agentActive := TotalDurationMs(agent);
    var customerActive := TotalDurationMs(customer);
    var unknownActive := TotalDurationMs(unknown);
    reasons := reasons + found;
    if customerActive == 0 { reasons := reasons + [NoCustomerSpeech]; }
    if agentActive == 0 { reasons := reasons + [NoAgentSpeech]; }
    Reassociate(HeaderReasons(t, r), found,
                When(customerActive == 0, NoCustomerSpeech), When(agentActive == 0, NoAgentSpeech));
    result := Integrity(reasons == [], reasons,
                        Ratio(agentActive, duration), Ratio(customerActive, duration), Ratio(unknownActive, duration),
                        duration, |segs|);
  }

  // ---------------------------------------------------------------- the declarative reading

  ghost predicate WellTimed(segs: seq<Segment>, duration: int) {
    forall i :: 0 <= i < |segs| ==>
      && segs[i].order == i + 1
      && 0 <= segs[i].start < segs[i].end <= duration
  }

  ghost predicate NoLongSelfOverlap(segs: seq<Segment>) {
    forall i, j :: 0 <= i < j < |segs| && Key(segs[i]) == Key(segs[j]) ==> segs[i].end - segs[j].start <= 1000
  }

  /** What the one-pass scan is meant to accept, stated over all segments and all pairs at once. */
  ghost predicate Acceptable(t: Transcript, segs: seq<Segment>, r: Option<Recording>) {
    && AudioDuration(t, r) > 0
    && (r.Some? ==> t.sourceArtifact == r.value.artifact)
    && t.available
    && WellTimed(segs, AudioDuration(t, r))
    && NoLongSelfOverlap(segs)
    && (exists i :: 0 <= i < |segs| && segs[i].role == Agent)
    && (exists i :: 0 <= i < |segs| && segs[i].role == Customer)
  }

  // ---------------------------------------------------------------- proofs

  lemma NothingActive(duration: int)
    ensures forall role :: Active([], role) == 0
    ensures Ratio(0, duration) == 0
  {
    assert Covered([]) == {};
    DurationIsCardinality([]);
    RoundInteger(0);
  }

  lemma Reassociate(a: seq<Reason>, b: seq<Reason>, c: seq<Reason>, d: seq<Reason>)
    ensures a + b + c + d == a + (b + c + d)
  {
  }

  lemma {:induction false} LastEndIsMaximum(segs: seq<Segment>, key: string)
    ensures LastEnd(segs, key) >= 0
    ensures forall i :: 0 <= i < |segs| && Key(segs[i]) == key ==> segs[i].end <= LastEnd(segs, key)
    ensures LastEnd(segs, key) == 0
         || exists i :: 0 <= i < |segs| && Key(segs[i]) == key && segs[i].end == LastEnd(segs, key)
  {
    if segs != [] {
      var n := |segs| - 1;
      LastEndIsMaximum(segs[..n], key);
      if LastEnd(segs[..n], key) != 0 {
        var i :| 0 <= i < n && Key(segs[..n][i]) == key && segs[..n][i].end == LastEnd(segs[..n], key);
        assert Key(segs[i]) == key && segs[i].end == LastEnd(segs[..n], key);
      }
    }
  }

  ghost predicate GoodPrefix(segs: seq<Segment>, n: nat, duration: int)
    requires n <= |segs|
  {
    WellTimed(segs[..n], duration) && NoLongSelfOverlap(segs[..n])
  }

  ghost predicate Extends(segs: seq<Segment>, n: nat, duration: int)
    requires 0 < n <= |segs|
  {
    var s := segs[n - 1];
    && s.order == n && 0 <= s.start < s.end <= duration
    && forall i :: 0 <= i < n - 1 && Key(segs[i]) == Key(s) ==> segs[i].end - s.start <= 1000
  }

  /** One more segment keeps a good prefix good exactly when it is itself in order, in time, and
      clear of its speaker's earlier segments. */
  lemma ExtendPrefix(segs: seq<Segment>, n: nat, duration: int)
    requires 0 < n <= |segs|
    ensures GoodPrefix(segs, n, duration) <==> GoodPrefix(segs, n - 1, duration) && Extends(segs, n, duration)
  {
    var p, q := segs[..n - 1], segs[..n];
    assert forall i :: 0 <= i < n - 1 ==> p[i] == q[i];
    assert q[n - 1] == segs[n - 1];
    if WellTimed(q, duration) && NoLongSelfOverlap(q) {
      forall i | 0 <= i < n - 1 && Key(segs[i]) == Key(segs[n - 1])
        ensures segs[i].end - segs[n - 1].start <= 1000
      {
        assert q[i].end - q[n - 1].start <= 1000;
      }
    }
  }

  lemma {:induction false} ReasonsEmptyIff(segs: seq<Segment>, n: nat, duration: int)
    requires n <= |segs| && duration > 0
    ensures ReasonsUpTo(segs, n, duration) == [] <==> GoodPrefix(segs, n, duration)
  {
    if n > 0 {
      ReasonsEmptyIff(segs, n - 1, duration);
      BothEmpty(ReasonsUpTo(segs, n - 1, duration), SegmentReasons(segs, n - 1, duration));
      ExtendPrefix(segs, n, duration);
      if GoodPrefix(segs, n - 1, duration) {
        assert n > 1 ==> segs[..n - 1][n - 2].order == n - 1;
        SegmentReasonsEmptyIff(segs, n, duration);
      }
    }
  }

  lemma BothEmpty(a: seq<Reason>, b: seq<Reason>)
    ensures a + b == [] <==> a == [] && b == []
  {
  }

  lemma SegmentReasonsEmptyIff(segs: seq<Segment>, n: nat, duration: int)
    requires 0 < n <= |segs| && duration > 0
    requires n > 1 ==> segs[n - 2].order == n - 1
    ensures SegmentReasons(segs, n - 1, duration) == [] <==> Extends(segs, n, duration)
  {
    var p := segs[..n - 1];
    var s := segs[n - 1];
    LastEndIsMaximum(p, Key(s));
    if LastEnd(p, Key(s)) != 0 {
      var i :| 0 <= i < |p| && Key(p[i]) == Key(s) && p[i].end == LastEnd(p, Key(s));
      assert Key(segs[i]) == Key(s);
    }
    forall i | 0 <= i < n - 1 && Key(segs[i]) == Key(s) ensures segs[i].end <= LastEnd(p, Key(s)) {
      assert p[i] == segs[i];
    }
  }

  lemma {:induction false} RoleSpansMembers(segs: seq<Segment>, role: Role)
    ensures AllPositive(RoleSpans(segs, role))
    ensures forall iv :: iv in RoleSpans(segs, role) <==>
        exists i :: 0 <= i < |segs| && Timed(segs[i]) && segs[i].role == role && iv == Span(segs[i].start, segs[i].end)
  {
    if segs != [] {
      var n := |segs| - 1;
      RoleSpansMembers(segs[..n], role);
      forall iv ensures iv in RoleSpans(segs, role) <==>
        exists i :: 0 <= i < |segs| && Timed(segs[i]) && segs[i].role == role && iv == Span(segs[i].start, segs[i].end)
      {
        if iv in RoleSpans(segs[..n], role) {
          var i :| 0 <= i < n && Timed(segs[..n][i]) && segs[..n][i].role == role
                 && iv == Span(segs[..n][i].start, segs[..n][i].end);
          assert Timed(segs[i]);
        }
        if i :| 0 <= i < |segs| && Timed(segs[i]) && segs[i].role == role && iv == Span(segs[i].start, segs[i].end) {
          assert i < n ==> Timed(segs[..n][i]);
        }
      }
    }
  }

  lemma ActiveIffHeard(segs: seq<Segment>, role: Role)
    ensures Active(segs, role) > 0 <==> exists i :: 0 <= i < |segs| && Timed(segs[i]) && segs[i].role == role
  {
    var s := RoleSpans(segs, role);
    RoleSpansMembers(segs, role);
    DurationIsCardinality(s);
    if i :| 0 <= i < |segs| && Timed(segs[i]) && segs[i].role == role {
      var iv: Interval := Span(segs[i].start, segs[i].end);
      assert iv in s;
      var k :| 0 <= k < |s| && s[k] == iv;
      CoveredAt(s, k, iv.start);
    }
    if s != [] {
      assert s[0] in s;
    } else {
      assert Covered(s) == {};
    }
  }

  lemma AcceptedIffNoReasons(t: Transcript, segs: seq<Segment>, r: Option<Recording>)
    ensures AllReasons(t, segs, r) == [] <==> Acceptable(t, segs, r)
  {
    var duration := AudioDuration(t, r);
    if duration > 0 && segs != [] {
      ReasonsEmptyIff(segs, |segs|, duration);
      assert segs[..|segs|] == segs;
      ActiveIffHeard(segs, Agent);
      ActiveIffHeard(segs, Customer);
      if WellTimed(segs, duration) {
        assert forall i :: 0 <= i < |segs| ==> Timed(segs[i]);
      }
    }
  }

  lemma CoveredWithin(s: seq<Interval>, whole: Interval)
    requires forall iv :: iv in s ==> whole.start <= iv.start && iv.end <= whole.end
    ensures Covered(s) <= Milliseconds(whole)
  {
  }

  /** An accepted transcript never credits a role with more time than the recording lasts. */
  lemma AcceptedActiveBounded(t: Transcript, segs: seq<Segment>, r: Option<Recording>, role: Role)
    requires Acceptable(t, segs, r)
    ensures Active(segs, role) <= AudioDuration(t, r)
    ensures 0 <= Ratio(Active(segs, role), AudioDuration(t, r)) <= 10000
  {
    SpansWithin(segs, role, AudioDuration(t, r));
    WithinSpan(RoleSpans(segs, role), Span(0, AudioDuration(t, r)));
    RatioBounded(Active(segs, role), AudioDuration(t, r));
  }

  lemma RatioBounded(part: nat, duration: nat)
    requires part <= duration && duration > 0
    ensures 0 <= Ratio(part, duration) <= 10000
  {
    ShareBounded(part, duration);
  }

  lemma {:induction false} SpansWithin(segs: seq<Segment>, role: Role, duration: int)
    requires WellTimed(segs, duration)
    ensures forall iv :: iv in RoleSpans(segs, role) ==> 0 <= iv.start && iv.end <= duration
  {
    RoleSpansMembers(segs, role);
  }

  lemma {:induction false} WithinSpan(s: seq<Interval>, whole: Interval)
    requires forall iv :: iv in s ==> whole.start <= iv.start && iv.end <= whole.end
    ensures TotalDuration(s) <= Duration(whole)
  {
    DurationIsCardinality(s);
    CoveredWithin(s, whole);
    SubsetSize(Covered(s), Milliseconds(whole));
    MillisecondsSize(whole);
  }

  /** Acceptance does not imply an "active conversation": ratios are rounded, so the property also
      needs each party to fill more than one part in 20000 of the recording. */
  lemma ActiveConversationIff(t: Transcript, segs: seq<Segment>, r: Option<Recording>, result: Integrity)
    requires Acceptable(t, segs, r) && Measures(result, t, segs, r)
    ensures result.HasActiveConversation()
        <==> 20000 * Active(segs, Agent) > AudioDuration(t, r) && 20000 * Active(segs, Customer) > AudioDuration(t, r)
  {
    RatioPositiveIff(Active(segs, Agent), AudioDuration(t, r));
    RatioPositiveIff(Active(segs, Customer), AudioDuration(t, r));
  }

  /** Such a transcript: a hundred seconds of audio in which each party is heard for a millisecond. */
  const QUIET_CALL := Transcript(100000, "audio", true)
  const QUIET_SEGMENTS := [Segment(1, "A", Agent, 0, 1), Segment(2, "C", Customer, 1, 2)]

  lemma AcceptedWithoutConversation(result: Integrity)
    requires Measures(result, QUIET_CALL, QUIET_SEGMENTS, None)
    ensures Acceptable(QUIET_CALL, QUIET_SEGMENTS, None) && !result.HasActiveConversation()
  {
    QuietCallIsAcceptable();
    OneSpan(QUIET_SEGMENTS, Agent, Span(0, 1));
    RatioPositiveIff(Active(QUIET_SEGMENTS, Agent), 100000);
  }

  lemma QuietCallIsAcceptable()
    ensures Acceptable(QUIET_CALL, QUIET_SEGMENTS, None)
  {
    assert QUIET_SEGMENTS[0].role == Agent && QUIET_SEGMENTS[1].role == Customer;
    assert Key(QUIET_SEGMENTS[0]) == "A" && Key(QUIET_SEGMENTS[1]) == "C";
  }

  lemma OneSpan(segs: seq<Segment>, role: Role, iv: Interval)
    requires forall i :: 0 <= i < |segs| && Timed(segs[i]) && segs[i].role == role ==> iv == Span(segs[i].start, segs[i].end)
    ensures Active(segs, role) <= Duration(iv)
  {
    RoleSpansMembers(segs, role);
    WithinSpan(RoleSpans(segs, role), iv);
  }

  lemma RatioPositiveIff(part: nat, d: nat)
    requires d > 0
    ensures Ratio(part, d) > 0 <==> 20000 * part > d
  {
    var x := part as real * 10000.0 / d as real;
    assert part as real / d as real * 10000.0 == x;
    QuotientExceeds(part as real * 10000.0, d as real, 0.5);
    assert part as real * 10000.0 > 0.5 * d as real <==> (20000 * part) as real > d as real;
  }

  lemma QuotientExceeds(a: real, b: real, c: real)
    requires b > 0.0
    ensures a / b > c <==> a > c * b
  {
    var q := a / b;
    assert q * b == a;
    if q > c {
      Scale(q, c, b);
    } else if q < c {
      Scale(c, q, b);
    }
  }

  lemma Scale(x: real, y: real, b: real)
    requires x > y && b > 0.0
    ensures x * b > y * b
  {
    assert (x - y) * b > 0.0;
  }
}
