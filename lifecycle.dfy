/** The order status machine and the access rules of the order controller:
    the transition table of status updates, the cancellation checks and the
    owner-or-administrator rule for reading an order. */
module Lifecycle {
  import opened Domain

  /** The only role with elevated rights. */
  predicate IsAdmin(role: string)
  {
    role == "admin"
  }

  /** The transition table: the statuses a status update may move to. */
  function Successors(s: Status): seq<Status>
  {
    match s
    case Pending => [Confirmed, Cancelled]
    case Confirmed => [Processing, Cancelled]
    case Processing => [Shipping, Cancelled]
    case Shipping => [Delivered]
    case Delivered => []
    case Cancelled => []
  }

  /** Position along the lifecycle; `cancelled` sits after everything. */
  function Rank(s: Status): nat
  {
    match s
    case Pending => 0
    case Confirmed => 1
    case Processing => 2
    case Shipping => 3
    case Delivered => 4
    case Cancelled => 5
  }

  /** The status a status update moves to, or None when it is refused with 400:
      the current status is terminal, or the requested string is not one of
      the listed next statuses. */
  function Transition(current: Status, requested: string): (r: Option<Status>)
    ensures r.Some? <==> !Terminal(current) && exists t :: t in Successors(current) && StatusName(t) == requested
    ensures r.Some? ==> r.value in Successors(current) && StatusName(r.value) == requested
    ensures r.Some? ==> Rank(r.value) > Rank(current)
  {
    if Terminal(current) then None
    else
      match ParseStatus(requested)
      case None => None
      case Some(t) => if t in Successors(current) then Some(t) else None
  }

  /** The table edge by edge: exactly these seven moves are accepted, and no
      status moves to itself. */
  lemma TransitionEdges(a: Status, b: Status)
    ensures Transition(a, StatusName(b)) == Some(b) <==>
      (a == Pending && b == Confirmed) || (a == Pending && b == Cancelled) ||
      (a == Confirmed && b == Processing) || (a == Confirmed && b == Cancelled) ||
      (a == Processing && b == Shipping) || (a == Processing && b == Cancelled) ||
      (a == Shipping && b == Delivered)
    ensures Transition(a, StatusName(a)).None?
  {
  }

  /** What one handler call may do to an order's status: leave it, make a
      move the table allows (a status update), or cancel an order that is not
      yet delivered or cancelled (a cancellation, which also reaches
      `shipping` orders when an administrator asks). */
  predicate Step(a: Status, b: Status)
  {
    b == a || Transition(a, StatusName(b)) == Some(b) || (!Terminal(a) && b == Cancelled)
  }

  /** Statuses only move forward: along any history of handler calls an order
      never returns to a status it has left, and a delivered or cancelled
      order never changes again. */
  lemma {:induction false} TraceMovesForward(trace: seq<Status>)
    requires forall i :: 0 < i < |trace| ==> Step(trace[i - 1], trace[i])
    decreases |trace|
    ensures forall i, j :: 0 <= i <= j < |trace| ==> Rank(trace[i]) <= Rank(trace[j])
    ensures forall i, j :: 0 <= i <= j < |trace| && trace[j] != trace[i] ==> Rank(trace[i]) < Rank(trace[j])
    ensures forall i, j :: 0 <= i <= j < |trace| && Terminal(trace[i]) ==> trace[j] == trace[i]
  {
    if |trace| > 1 {
      var n := |trace| - 1;
      var front := trace[..n];
      TraceMovesForward(front);
      forall i | 0 <= i < n
        ensures Rank(trace[i]) <= Rank(trace[n])
        ensures trace[n] != trace[i] ==> Rank(trace[i]) < Rank(trace[n])
        ensures Terminal(trace[i]) ==> trace[n] == trace[i]
      {
        assert front[i] == trace[i] && front[n - 1] == trace[n - 1];
        assert Step(trace[n - 1], trace[n]);
      }
    }
  }

  /** The response code of a cancellation of an existing order `o` by
      `requester` with `role`: 400 when terminal, 403 when a non-administrator
      is not the owner or the order is past `pending`, else 200. */
  function CancelCode(o: Order, requester: Id, role: string): (code: int)
    ensures code == 200 || code == 400 || code == 403
    ensures code == 400 <==> Terminal(o.status)
    ensures code == 200 <==>
      !Terminal(o.status) && (IsAdmin(role) || (o.userId == requester && o.status == Pending))
  {
    if Terminal(o.status) then 400
    else if !IsAdmin(role) && o.userId != requester then 403
    else if !IsAdmin(role) && o.status != Pending then 403
    else 200
  }

  /** A cancellation an owner may make is one the transition table allows;
      an administrator may also cancel a `shipping` order, which the table
      does not allow a status update to do. */
  lemma CancelAgainstTable(o: Order, requester: Id, role: string)
    ensures CancelCode(o, requester, role) == 200 && !IsAdmin(role) ==>
      Transition(o.status, "cancelled") == Some(Cancelled)
    ensures o.status == Shipping && IsAdmin(role) ==>
      CancelCode(o, requester, role) == 200 && Transition(o.status, "cancelled").None?
  {
  }

  /** The response code of reading one order: 404 when it does not exist, 200
      for an administrator, 500 when the owner reference does not resolve to
      a user (the handler dereferences it), 200 for the owner, 403 otherwise. */
  function ReadCode(order: Option<Order>, ownerResolved: bool, requester: Id, role: string): (code: int)
    ensures code == 404 <==> order.None?
    ensures code == 200 <==>
      order.Some? && (IsAdmin(role) || (ownerResolved && order.value.userId == requester))
    ensures code == 403 <==>
      order.Some? && !IsAdmin(role) && ownerResolved && order.value.userId != requester
    ensures code == 500 <==> order.Some? && !IsAdmin(role) && !ownerResolved
  {
    if order.None? then 404
    else if IsAdmin(role) then 200
    else if !ownerResolved then 500
    else if order.value.userId != requester then 403
    else 200
  }
}
