/** Human review after the gate: packages/application/services/human_review_service.py, and the
    transition table of packages/domain/state.py, lines 53-93, which the service never consults. */
module HumanReview {
  import opened Wrappers
  import opened Evaluation

  datatype Action = OverrideToPass | ConfirmHold | CancelSale

  datatype Disposition = Approved | OnHold | CancelRequested

  datatype Gate = Gate(saleId: string, status: GateStatus)

  datatype Review = Review(gateId: string, reviewer: string, action: Action)

  /** The audit record and the outbox event carry the same account of the change. */
  datatype Change = Change(gateId: string, action: Action, previous: GateStatus, next: GateStatus, disposition: Disposition)

  datatype ReviewError = GateNotFound | SaleNotFound | AlreadyPassed

  function NewStatus(a: Action): GateStatus { if a == OverrideToPass then Passed else Held }

  function DispositionOf(a: Action): Disposition {
    match a
    case OverrideToPass => Approved
    case ConfirmHold => OnHold
    case CancelSale => CancelRequested
  }

  /** The reference relation; staying put is always allowed. */
  predicate Legal(current: GateStatus, target: GateStatus) {
    current == target ||
    match current
    case Pending => target in {Passed, Held, ReviewRequired, Cancelled}
    case Held => target in {Passed, Cancelled, ReviewRequired}
    case ReviewRequired => target in {Passed, Held, Cancelled}
    case Passed => false
    case Cancelled => false
  }

  class ReviewDesk {
    var gates: map<string, Gate>
    var tenants: map<string, string>  // sale -> retailer
    var reviews: seq<Review>
    var audits: seq<Change>
    var outbox: seq<Change>

    constructor (gates: map<string, Gate>, tenants: map<string, string>)
      ensures this.gates == gates && this.tenants == tenants && reviews == [] && audits == [] && outbox == []
    {
      this.gates, this.tenants := gates, tenants;
      reviews, audits, outbox := [], [], [];
    }

    function Refusal(gateId: string, tenant: Option<string>): Option<ReviewError>
      reads this
    {
      if gateId !in gates then Some(GateNotFound)
      else if gates[gateId].saleId !in tenants then Some(SaleNotFound)
      else if tenant.Some? && tenant.value != "" && tenants[gates[gateId].saleId] != tenant.value then Some(GateNotFound)
      else if gates[gateId].status == Passed then Some(AlreadyPassed)
      else None
    }

    method ProcessReview(gateId: string, reviewer: string, action: Action, tenant: Option<string>)
      returns (r: Result<Change, ReviewError>)
      modifies this
      ensures tenants == old(tenants)
      ensures old(Refusal(gateId, tenant)).Some? ==>
          && r == Err(old(Refusal(gateId, tenant)).value)
          && gates == old(gates) && reviews == old(reviews) && audits == old(audits) && outbox == old(outbox)
      ensures old(Refusal(gateId, tenant)).None? ==>
          && r == Ok(Change(gateId, action, old(gates)[gateId].status, NewStatus(action), DispositionOf(action)))
          && gates == old(gates)[gateId := Gate(old(gates)[gateId].saleId, NewStatus(action))]
          && reviews == old(reviews) + [Review(gateId, reviewer, action)]
          && audits == old(audits) + [r.value] && outbox == old(outbox) + [r.value]
      ensures old(Refusal(gateId, tenant)) in {None, Some(AlreadyPassed)} ==>
          var g := Reviewed(Start(old(gates)[gateId].status), gateId, action);
          && gateId in gates && gates[gateId].status == g.status
          && |reviews| == |old(reviews)| + |g.accepted|
          && audits == old(audits) + g.audits && outbox == old(outbox) + g.outbox
    {
      if gateId !in gates { return Err(GateNotFound); }
      var gate := gates[gateId];
      if gate.saleId !in tenants { return Err(SaleNotFound); }
      if tenant.Some? && tenant.value != "" && tenants[gate.saleId] != tenant.value { return Err(GateNotFound); }
      if gate.status == Passed { return Err(AlreadyPassed); }
      var next, disposition;
      match action {
        case OverrideToPass => next, disposition := Passed, Approved;
        case ConfirmHold => next, disposition := Held, OnHold;
        case CancelSale => next, disposition := Held, CancelRequested;
      }
      reviews := reviews + [Review(gateId, reviewer, action)];
      gates := gates[gateId := gate.(status := next)];
      var change := Change(gateId, action, gate.status, next, disposition);
      audits := audits + [change];
      outbox := outbox + [change];
      return Ok(change);
    }
  }

  // ---------------------------------------------------------------- any sequence of reviews

  /** One gate's record: its status and the actions accepted so far, with their audit and outbox. */
  datatype Record = Record(status: GateStatus, accepted: seq<Action>, audits: seq<Change>, outbox: seq<Change>)

  /** A review of a gate its reviewer may see: the abstraction of ProcessReview on that gate. */
  function Reviewed(g: Record, id: string, a: Action): Record {
    if g.status == Passed then g
    else
      var change := Change(id, a, g.status, NewStatus(a), DispositionOf(a));
      Record(NewStatus(a), g.accepted + [a], g.audits + [change], g.outbox + [change])
  }

  function Start(status: GateStatus): Record { Record(status, [], [], []) }

  function After(status: GateStatus, id: string, actions: seq<Action>): Record {
    if actions == [] then Start(status)
    else Reviewed(After(status, id, actions[..|actions| - 1]), id, actions[|actions| - 1])
  }

  /** Every status change along the way is one the transition table allows. */
  ghost predicate AllLegal(status: GateStatus, id: string, actions: seq<Action>) {
    forall n :: 0 <= n < |actions| ==>
      Legal(After(status, id, actions[..n]).status, After(status, id, actions[..n + 1]).status)
  }

  lemma {:induction false} StaysOnBoard(status: GateStatus, id: string, actions: seq<Action>)
    ensures After(status, id, actions).status in {status, Passed, Held}
    ensures After(status, id, actions).status == status || actions != []
  {
    if actions != [] {
      StaysOnBoard(status, id, actions[..|actions| - 1]);
    }
  }

  /** The service enforces the table it never reads, exactly as long as reviewing starts from a gate
      that is not CANCELLED; no sequence of reviews can then make it so. */
  lemma ReviewsLegalIff(status: GateStatus, id: string)
    ensures (forall actions :: AllLegal(status, id, actions)) <==> status != Cancelled
    ensures status != Cancelled ==> forall actions :: After(status, id, actions).status != Cancelled
  {
    if status == Cancelled {
      var actions := [ConfirmHold];
      assert actions[..0] == [] && actions[..1] == actions;
      assert After(status, id, actions[..0]).status == Cancelled;
      assert After(status, id, actions[..1]).status == Held;
      assert !AllLegal(status, id, actions);
    } else {
      forall actions ensures AllLegal(status, id, actions) && After(status, id, actions).status != Cancelled {
        StaysOnBoard(status, id, actions);
        forall n | 0 <= n < |actions|
          ensures Legal(After(status, id, actions[..n]).status, After(status, id, actions[..n + 1]).status)
        {
          StaysOnBoard(status, id, actions[..n]);
          assert actions[..n + 1][..n] == actions[..n];
        }
      }
    }
  }

  /** PASSED is final; a gate that was not passed to begin with is passed exactly when its last
      accepted review is an override, and that override is the only one. */
  lemma {:induction false} PassedIffOverridden(status: GateStatus, id: string, actions: seq<Action>)
    ensures
      var g := After(status, id, actions);
      && (status == Passed ==> g == Start(status))
      && (status != Passed ==>
            (g.status == Passed <==> g.accepted != [] && g.accepted[|g.accepted| - 1] == OverrideToPass))
      && (forall i :: 0 <= i < |g.accepted| - 1 ==> g.accepted[i] != OverrideToPass)
  {
    if actions != [] {
      PassedIffOverridden(status, id, actions[..|actions| - 1]);
    }
  }

  /** Once passed, no further review changes anything at all. */
  lemma {:induction false} PassedAbsorbs(status: GateStatus, id: string, actions: seq<Action>, more: seq<Action>)
    requires After(status, id, actions).status == Passed
    ensures After(status, id, actions + more) == After(status, id, actions)
  {
    if more == [] {
      assert actions + more == actions;
    } else {
      PassedAbsorbs(status, id, actions, more[..|more| - 1]);
      assert (actions + more)[..|actions + more| - 1] == actions + more[..|more| - 1];
    }
  }

  /** The i-th audit record describes the i-th accepted review and starts where the last one ended. */
  ghost predicate Describes(g: Record, status: GateStatus, i: nat)
    requires i < |g.accepted| && |g.audits| == |g.accepted|
  {
    && g.audits[i].action == g.accepted[i] && g.audits[i].next == NewStatus(g.accepted[i])
    && g.audits[i].previous == (if i == 0 then status else g.audits[i - 1].next)
  }

  /** Reviews, audit records and outbox events grow in lockstep, each describing its review and
      chaining from the status the one before it left. */
  lemma {:induction false} RecordsInLockstep(status: GateStatus, id: string, actions: seq<Action>)
    ensures
      var g := After(status, id, actions);
      && |g.accepted| == |g.audits| && g.audits == g.outbox
      && (forall i :: 0 <= i < |g.accepted| ==> Describes(g, status, i))
      && g.status == (if g.audits == [] then status else g.audits[|g.audits| - 1].next)
  {
    if actions != [] {
      RecordsInLockstep(status, id, actions[..|actions| - 1]);
      var before, after := After(status, id, actions[..|actions| - 1]), After(status, id, actions);
      forall i | 0 <= i < |after.accepted| ensures Describes(after, status, i) {
        if i < |before.accepted| {
          assert Describes(before, status, i);
          assert after.audits[i] == before.audits[i];
          assert i > 0 ==> after.audits[i - 1] == before.audits[i - 1];
        }
      }
    }
  }
}
