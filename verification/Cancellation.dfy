/**
 Cancelling orders: CancelOrder (internal/order/service.go) over GetByID and UpdateStatus
 (internal/order/repository_pg.go), with any number of cancellations interleaving.
 Restoring stock is the dispatch of one batch of jobs, one job per line of the order.
 */
module Cancellation {
  import opened Basics
  import opened Orders

  datatype Error = OrderNotFound | NotOwned | CannotBeCancelled | StatementFailed

  /** What a select of item rows brought; `broken` is whether the connection broke before the last row. */
  datatype Fetched = Fetched(lines: seq<OrderItem>, broken: bool)

  datatype Phase =
    | Looking                                  // about to select the order row
    | Fetching(owner: UserId, status: Status)  // has the row; about to select its items
    | Updating(items: Fetched)                 // passed the guards; about to update the status
    | Restoring(items: Fetched)                // updated; about to dispatch the restore jobs
    | Done
    | Refused(error: Error)

  datatype Call = Call(order: nat, user: UserId, phase: Phase)

  datatype Batch = Batch(call: nat, order: nat, items: Fetched)

  /** The orders table (order IDs are positions), the calls, and the batches of restore jobs dispatched so far. */
  datatype State = State(orders: seq<Order>, calls: seq<Call>, batches: seq<Batch>)

  /**
   Place stores a new order, as PENDING.  Ship is another caller of UpdateStatus, with SHIPPED; like
   every UpdateStatus it does not look at the status it overwrites.  Next runs the next statement of
   call c.  A select of items brings `rows`, in whatever order.
   */
  datatype Action =
    | Place(placed: Order)
    | Ship(shipped: nat)
    | Arrive(order: nat, user: UserId)
    | Next(c: nat, ok: bool, rows: Fetched)

  predicate Cancellable(status: Status) {
    status != Shipped && status != Cancelled
  }

  function AfterRow(s: State, call: Call, ok: bool): Phase {
    if !ok then Refused(StatementFailed)
    else if call.order >= |s.orders| then Refused(OrderNotFound)
    else Fetching(s.orders[call.order].user, s.orders[call.order].status)
  }

  function AfterItems(call: Call, ok: bool, rows: Fetched): Phase
    requires call.phase.Fetching?
  {
    if !ok then Refused(StatementFailed)
    else if call.phase.owner != call.user then Refused(NotOwned)
    else if !Cancellable(call.phase.status) then Refused(CannotBeCancelled)
    else Updating(rows)
  }

  function Moved(s: State, call: Call, ok: bool, rows: Fetched): Phase {
    match call.phase
    case Looking => AfterRow(s, call, ok)
    case Fetching(_, _) => AfterItems(call, ok, rows)
    case Updating(items) => if ok then Restoring(items) else Refused(StatementFailed)
    case Restoring(_) => Done
    case Done => Done
    case Refused(e) => Refused(e)
  }

  /** The lines are those of the order; some are missing exactly when the stream of rows broke, which nobody is told. */
  predicate Of(items: Fetched, order: Order) {
    && multiset(items.lines) <= multiset(order.items)
    && (items.broken <==> multiset(items.lines) != multiset(order.items))
  }

  /** A select of the items of an order brings lines of that order. */
  predicate Answers(s: State, call: Call, rows: Fetched) {
    call.phase.Fetching? && call.order < |s.orders| ==> Of(rows, s.orders[call.order])
  }

  /** UPDATE orders SET status WHERE id. */
  function WithStatus(orders: seq<Order>, o: nat, status: Status): seq<Order> {
    if o < |orders| then orders[o := orders[o].(status := status)] else orders
  }

  function Statement(s: State, c: nat, ok: bool, rows: Fetched): State
    requires c < |s.calls|
  {
    var call := s.calls[c];
    State(
      if call.phase.Updating? && ok then WithStatus(s.orders, call.order, Cancelled) else s.orders,
      s.calls[c := Call(call.order, call.user, Moved(s, call, ok, rows))],
      if call.phase.Restoring? then s.batches + [Batch(c, call.order, call.phase.items)] else s.batches)
  }

  function Step(s: State, a: Action): State {
    match a
    case Place(order) => State(s.orders + [order.(status := Pending)], s.calls, s.batches)
    case Ship(o) => State(WithStatus(s.orders, o, Shipped), s.calls, s.batches)
    case Arrive(o, user) => State(s.orders, s.calls + [Call(o, user, Looking)], s.batches)
    case Next(c, ok, rows) =>
      if c < |s.calls| && Answers(s, s.calls[c], rows) then Statement(s, c, ok, rows) else s
  }

  function Exec(s: State, run: seq<Action>): State {
    if run == [] then s else Step(Exec(s, run[..|run| - 1]), run[|run| - 1])
  }

  function Empty(): State {
    State([], [], [])
  }

  lemma ExecAppend(s: State, run: seq<Action>, a: Action)
    ensures Exec(s, run + [a]) == Step(Exec(s, run), a)
  {
    assert (run + [a])[..|run|] == run;
  }

  lemma {:induction false} ExecFirst(s: State, a: Action, run: seq<Action>)
    ensures Exec(s, [a] + run) == Exec(Step(s, a), run)
  {
    if run == [] {
      ExecAppend(s, [], a);
      assert [a] + run == [] + [a];
    } else {
      var front, last := run[..|run| - 1], run[|run| - 1];
      ExecFirst(s, a, front);
      ExecAppend(s, [a] + front, last);
      assert [a] + run == [a] + front + [last];
    }
  }

  // ---------- what every step keeps ----------

  predicate Owned(s: State, call: Call) {
    call.order < |s.orders| && s.orders[call.order].user == call.user
  }

  /** The order is there and can no longer be cancelled by a call that reads it now. */
  predicate Closed(s: State, o: nat) {
    o < |s.orders| && !Cancellable(s.orders[o].status)
  }

  predicate CallOk(s: State, call: Call) {
    match call.phase
    case Fetching(owner, status) =>
      && call.order < |s.orders| && owner == s.orders[call.order].user
      && (!Cancellable(status) ==> Closed(s, call.order))
    case Updating(items) => Owned(s, call) && Of(items, s.orders[call.order])
    case Restoring(items) => Owned(s, call) && Of(items, s.orders[call.order]) && Closed(s, call.order)
    case _ => true
  }

  predicate BatchOk(s: State, b: Batch) {
    && b.call < |s.calls| && s.calls[b.call].phase.Done? && s.calls[b.call].order == b.order
    && Owned(s, s.calls[b.call]) && Of(b.items, s.orders[b.order]) && Closed(s, b.order)
  }

  /** What the phases of the calls say, and where the batches come from. */
  predicate Inv(s: State) {
    && (forall c :: 0 <= c < |s.calls| ==> CallOk(s, s.calls[c]))
    && (forall b :: 0 <= b < |s.batches| ==> BatchOk(s, s.batches[b]))
    && (forall a, b :: 0 <= a < b < |s.batches| ==> s.batches[a].call != s.batches[b].call)
  }

  /** Owners and items of an order never change, its status is only set to CANCELLED or SHIPPED. */
  lemma StepKeepsOrders(s: State, a: Action, o: nat)
    requires o < |s.orders|
    ensures var s' := Step(s, a);
            && o < |s'.orders| && s'.orders[o] == s.orders[o].(status := s'.orders[o].status)
            && (s'.orders[o].status == s.orders[o].status || s'.orders[o].status == Cancelled
                || (s'.orders[o].status == Shipped && a == Ship(o)))
  {
  }

  /** A call that does not move still agrees with the orders. */
  lemma OrdersKeepCallOk(s: State, a: Action, call: Call)
    requires CallOk(s, call)
    ensures CallOk(Step(s, a), call)
  {
    if call.order < |s.orders| {
      StepKeepsOrders(s, a, call.order);
      hide Step;
    }
  }

  lemma MovedCallOk(s: State, c: nat, ok: bool, rows: Fetched)
    requires c < |s.calls| && CallOk(s, s.calls[c]) && Answers(s, s.calls[c], rows)
    ensures CallOk(Statement(s, c, ok, rows), Statement(s, c, ok, rows).calls[c])
  {
  }

  /** Which calls a step moves. */
  lemma StepMoves(s: State, a: Action, c: nat)
    requires c < |Step(s, a).calls|
    ensures c < |s.calls| ==>
              if a.Next? && a.c == c && Answers(s, s.calls[c], a.rows) then Step(s, a) == Statement(s, c, a.ok, a.rows)
              else Step(s, a).calls[c] == s.calls[c]
    ensures c >= |s.calls| ==> a.Arrive? && Step(s, a).calls[c] == Call(a.order, a.user, Looking)
  {
  }

  lemma StepKeepsCall(s: State, a: Action, c: nat)
    requires Inv(s) && c < |Step(s, a).calls|
    ensures CallOk(Step(s, a), Step(s, a).calls[c])
  {
    StepMoves(s, a, c);
    if c < |s.calls| {
      OrdersKeepCallOk(s, a, s.calls[c]);
      if a.Next? && a.c == c && Answers(s, s.calls[c], a.rows) {
        MovedCallOk(s, c, a.ok, a.rows);
      }
    }
  }

  /** A batch stays what it is; a new one comes from a call that has just ended. */
  lemma StepKeepsBatch(s: State, a: Action, b: nat)
    requires Inv(s) && b < |Step(s, a).batches|
    ensures BatchOk(Step(s, a), Step(s, a).batches[b])
    ensures b < |s.batches| ==> Step(s, a).batches[b] == s.batches[b]
    ensures b >= |s.batches| ==> b == |s.batches| && a.Next? && a.c < |s.calls| && s.calls[a.c].phase.Restoring?
                                 && Step(s, a).batches[b].call == a.c
  {
    if b < |s.batches| {
      var x := s.batches[b];
      assert BatchOk(s, x);
      StepKeepsOrders(s, a, x.order);
      StepMoves(s, a, x.call);
    } else {
      assert CallOk(s, s.calls[a.c]);
    }
  }

  lemma StepKeepsInv(s: State, a: Action)
    requires Inv(s)
    ensures Inv(Step(s, a))
  {
    var s' := Step(s, a);
    forall c: nat | c < |s'.calls| ensures CallOk(s', s'.calls[c]) {
      StepKeepsCall(s, a, c);
    }
    forall b: nat | b < |s'.batches| ensures BatchOk(s', s'.batches[b]) {
      StepKeepsBatch(s, a, b);
    }
    hide Step, CallOk;
    forall d: nat, b: nat | d < b < |s'.batches| ensures s'.batches[d].call != s'.batches[b].call {
      StepKeepsBatch(s, a, d);
      StepKeepsBatch(s, a, b);
      assert BatchOk(s, s.batches[d]);
    }
  }

  lemma {:induction false} RunKeepsInv(s: State, run: seq<Action>)
    requires Inv(s)
    ensures Inv(Exec(s, run))
  {
    if run != [] {
      RunKeepsInv(s, run[..|run| - 1]);
      StepKeepsInv(Exec(s, run[..|run| - 1]), run[|run| - 1]);
    }
  }

  // ---------- statuses over whole runs ----------

  /** Once an order is cancelled or shipped, it is one or the other for good, with the same owner and items. */
  lemma {:induction false} ClosedIsAbsorbing(s: State, run: seq<Action>, o: nat)
    requires Closed(s, o)
    ensures var s' := Exec(s, run);
            Closed(s', o) && s'.orders[o] == s.orders[o].(status := s'.orders[o].status)
  {
    if run != [] {
      ClosedIsAbsorbing(s, run[..|run| - 1], o);
      StepKeepsOrders(Exec(s, run[..|run| - 1]), run[|run| - 1], o);
    }
  }

  /** A cancelled order stays as it is, in every run in which nobody ships it. */
  lemma {:induction false} CancelledIsAbsorbing(s: State, run: seq<Action>, o: nat)
    requires o < |s.orders| && s.orders[o].status == Cancelled && Ship(o) !in run
    ensures o < |Exec(s, run).orders| && Exec(s, run).orders[o] == s.orders[o]
  {
    if run != [] {
      CancelledIsAbsorbing(s, run[..|run| - 1], o);
      StepKeepsOrders(Exec(s, run[..|run| - 1]), run[|run| - 1], o);
      assert run[|run| - 1] in run;
    }
  }

  /** The call has passed the guards, or is about to, on the strength of what it has read, and has not yet cancelled. */
  predicate AboutToCancel(call: Call, o: nat) {
    && call.order == o
    && (call.phase.Updating?
        || (call.phase.Fetching? && call.phase.owner == call.user && Cancellable(call.phase.status)))
  }

  predicate IsShipped(s: State, o: nat) {
    o < |s.orders| && s.orders[o].status == Shipped
  }

  predicate NobodyAboutToCancel(s: State, o: nat) {
    forall c :: 0 <= c < |s.calls| ==> !AboutToCancel(s.calls[c], o)
  }

  lemma StepKeepsShipped(s: State, a: Action, o: nat)
    requires IsShipped(s, o) && NobodyAboutToCancel(s, o)
    ensures IsShipped(Step(s, a), o) && NobodyAboutToCancel(Step(s, a), o)
  {
    var s' := Step(s, a);
    assert IsShipped(s', o) by {
      if a.Next? && a.c < |s.calls| {
        assert !AboutToCancel(s.calls[a.c], o);
      }
    }
    forall c: nat | c < |s'.calls| ensures !AboutToCancel(s'.calls[c], o) {
      StepMoves(s, a, c);
      assert c < |s.calls| ==> !AboutToCancel(s.calls[c], o);
    }
  }

  lemma {:induction false} RunKeepsShipped(s: State, run: seq<Action>, o: nat)
    requires IsShipped(s, o) && NobodyAboutToCancel(s, o)
    ensures IsShipped(Exec(s, run), o) && NobodyAboutToCancel(Exec(s, run), o)
  {
    if run != [] {
      RunKeepsShipped(s, run[..|run| - 1], o);
      StepKeepsShipped(Exec(s, run[..|run| - 1]), run[|run| - 1], o);
    }
  }

  /** A call that is about to cancel does so within two statements. */
  lemma AboutToCancelCancels(s: State, c: nat, o: nat) returns (run: seq<Action>)
    requires o < |s.orders| && c < |s.calls| && AboutToCancel(s.calls[c], o)
    ensures o < |Exec(s, run).orders| && Exec(s, run).orders[o].status == Cancelled
  {
    var next := Next(c, true, Fetched(s.orders[o].items, false));
    var s1 := Step(s, next);
    ExecAppend(s, [], next);
    assert [] + [next] == [next];
    if s.calls[c].phase.Updating? {
      run := [next];
    } else {
      assert s1.orders == s.orders && s1.calls[c].phase.Updating? && s1.calls[c].order == o;
      assert Step(s1, next).orders == WithStatus(s.orders, o, Cancelled);
      ExecAppend(s, [next], next);
      run := [next] + [next];
    }
  }

  /**
   CancelOrder checks the status it has read, but its UPDATE does not.  So a shipped order stays shipped
   in every continuation if and only if no call on it has read it as cancellable, for its owner, and
   not yet updated it.
   */
  lemma ShippedStaysExactlyWhen(s: State, o: nat)
    requires IsShipped(s, o)
    ensures (forall run :: IsShipped(Exec(s, run), o)) <==> NobodyAboutToCancel(s, o)
  {
    if NobodyAboutToCancel(s, o) {
      forall run ensures IsShipped(Exec(s, run), o) {
        RunKeepsShipped(s, run, o);
      }
    } else {
      var c :| 0 <= c < |s.calls| && AboutToCancel(s.calls[c], o);
      var run := AboutToCancelCancels(s, c, o);
      assert !IsShipped(Exec(s, run), o);
    }
  }

  /** A shipment that is overtaken: the order ends up cancelled, and its stock is restored. */
  lemma ShipmentIsOvertaken(s: State, c: nat, rows: Fetched)
    requires Inv(s) && c < |s.calls| && s.calls[c].phase.Updating?
    ensures var o := s.calls[c].order;
            var s1 := Step(s, Ship(o));
            var s3 := Step(Step(s1, Next(c, true, rows)), Next(c, true, rows));
            && IsShipped(s1, o) && o < |s3.orders| && s3.orders[o].status == Cancelled
            && s3.batches == s.batches + [Batch(c, o, s.calls[c].phase.items)]
  {
    assert CallOk(s, s.calls[c]);
  }

  lemma {:induction false} NobodyElseShips(run: seq<Action>, o: nat)
    requires Ship(o) !in run
    ensures !IsShipped(Exec(Empty(), run), o)
  {
    if run != [] {
      var front := run[..|run| - 1];
      NobodyElseShips(front, o);
      assert run[|run| - 1] in run;
      if o < |Exec(Empty(), front).orders| {
        StepKeepsOrders(Exec(Empty(), front), run[|run| - 1], o);
      }
    }
  }

  // ---------- who is refused ----------

  /** A refused call is refused for a reason, and a call that is done has cancelled its user's order. */
  predicate AnswerOk(s: State, call: Call) {
    && (call.phase == Refused(NotOwned) ==> call.order < |s.orders| && s.orders[call.order].user != call.user)
    && (call.phase == Refused(CannotBeCancelled) ==> Owned(s, call) && Closed(s, call.order))
    && (call.phase == Done ==> Owned(s, call) && Closed(s, call.order))
  }

  lemma StepKeepsAnswer(s: State, a: Action, c: nat)
    requires Inv(s) && c < |Step(s, a).calls| && (c < |s.calls| ==> AnswerOk(s, s.calls[c]))
    ensures AnswerOk(Step(s, a), Step(s, a).calls[c])
  {
    StepMoves(s, a, c);
    if c < |s.calls| {
      assert CallOk(s, s.calls[c]);
      if s.calls[c].order < |s.orders| {
        StepKeepsOrders(s, a, s.calls[c].order);
      }
    }
  }

  lemma {:induction false} AnswersStayOk(run: seq<Action>, c: nat)
    requires c < |Exec(Empty(), run).calls|
    ensures AnswerOk(Exec(Empty(), run), Exec(Empty(), run).calls[c])
  {
    var front := run[..|run| - 1];
    RunKeepsInv(Empty(), front);
    if c < |Exec(Empty(), front).calls| {
      AnswersStayOk(front, c);
    }
    StepKeepsAnswer(Exec(Empty(), front), run[|run| - 1], c);
  }

  /**
   In every run: a call is refused as not the owner's only if the order is another user's, and as too late only if the
   order is its user's and cancelled or shipped; and a call that is done has found its user's order and closed it.
   */
  lemma AnswersAreDeserved(run: seq<Action>, c: nat)
    requires c < |Exec(Empty(), run).calls|
    ensures var s := Exec(Empty(), run);
            var call := s.calls[c];
            && (call.phase == Refused(NotOwned) ==> call.order < |s.orders| && s.orders[call.order].user != call.user)
            && (call.phase == Refused(CannotBeCancelled) || call.phase == Done ==>
                  && call.order < |s.orders| && s.orders[call.order].user == call.user
                  && s.orders[call.order].status in {Shipped, Cancelled})
  {
    AnswersStayOk(run, c);
  }

  // ---------- what is restored ----------

  /**
   In every run, each call restores at most once, and only its own user's order, which it has cancelled; if
   nobody ships the order, it is cancelled still.  The batch consists of lines of that order, and of all
   of them exactly when the stream of its rows did not break.
   */
  lemma BatchesAreTheOrders(run: seq<Action>, a: nat, b: nat)
    requires var s := Exec(Empty(), run); a < |s.batches| && b < |s.batches|
    ensures var s := Exec(Empty(), run);
            var x := s.batches[a];
            && x.call < |s.calls| && x.order < |s.orders|
            && s.calls[x.call].user == s.orders[x.order].user
            && !Cancellable(s.orders[x.order].status)
            && (Ship(x.order) !in run ==> s.orders[x.order].status == Cancelled)
            && multiset(x.items.lines) <= multiset(s.orders[x.order].items)
            && (multiset(x.items.lines) == multiset(s.orders[x.order].items) <==> !x.items.broken)
            && (x.call == s.batches[b].call ==> a == b)
  {
    var s := Exec(Empty(), run);
    RunKeepsInv(Empty(), run);
    assert BatchOk(s, s.batches[a]);
    if Ship(s.batches[a].order) !in run {
      NobodyElseShips(run, s.batches[a].order);
    }
  }

  /** The call has read the order while it could be cancelled, and has not yet dispatched its batch. */
  predicate Racing(call: Call, o: nat) {
    AboutToCancel(call, o) || (call.order == o && call.phase.Restoring?)
  }

  function RacingCalls(calls: seq<Call>, o: nat): nat {
    if calls == [] then 0
    else RacingCalls(calls[..|calls| - 1], o) + if Racing(calls[|calls| - 1], o) then 1 else 0
  }

  function BatchesOf(batches: seq<Batch>, o: nat): nat {
    if batches == [] then 0
    else BatchesOf(batches[..|batches| - 1], o) + if batches[|batches| - 1].order == o then 1 else 0
  }

  /** Batches dispatched, and batches that calls under way may still dispatch. */
  function Restores(s: State, o: nat): nat {
    BatchesOf(s.batches, o) + RacingCalls(s.calls, o)
  }

  lemma {:induction false} RacingUpdate(calls: seq<Call>, c: nat, call: Call, o: nat)
    requires c < |calls|
    ensures RacingCalls(calls[c := call], o) ==
            RacingCalls(calls, o) - (if Racing(calls[c], o) then 1 else 0) + if Racing(call, o) then 1 else 0
  {
    hide Racing;
    var n := |calls| - 1;
    if c < n {
      assert calls[c := call][..n] == calls[..n][c := call];
      RacingUpdate(calls[..n], c, call, o);
    } else {
      assert calls[c := call][..n] == calls[..n];
    }
  }

  lemma RacingAppend(calls: seq<Call>, call: Call, o: nat)
    ensures RacingCalls(calls + [call], o) == RacingCalls(calls, o) + if Racing(call, o) then 1 else 0
  {
    assert (calls + [call])[..|calls|] == calls;
  }

  lemma BatchesAppend(batches: seq<Batch>, b: Batch, o: nat)
    ensures BatchesOf(batches + [b], o) == BatchesOf(batches, o) + if b.order == o then 1 else 0
  {
    assert (batches + [b])[..|batches|] == batches;
  }

  /** How a statement of call c changes the number of restores. */
  lemma StatementRestores(s: State, c: nat, ok: bool, rows: Fetched, o: nat)
    requires c < |s.calls| && Closed(s, o)
    ensures var s' := Statement(s, c, ok, rows);
            && Restores(s', o) <= Restores(s, o)
            && (ok && CallOk(s, s.calls[c]) ==> Restores(s', o) == Restores(s, o))
  {
    var call, s' := s.calls[c], Statement(s, c, ok, rows);
    var now := Call(call.order, call.user, Moved(s, call, ok, rows));
    assert s'.calls == s.calls[c := now];
    RacingUpdate(s.calls, c, now, o);
    if call.phase.Restoring? {
      BatchesAppend(s.batches, Batch(c, call.order, call.phase.items), o);
    }
    hide RacingCalls, BatchesOf;
  }

  lemma StepRestores(s: State, a: Action, o: nat)
    requires Closed(s, o)
    ensures Restores(Step(s, a), o) <= Restores(s, o)
  {
    match a
    case Arrive(order, user) =>
      hide RacingCalls, BatchesOf;
      RacingAppend(s.calls, Call(order, user, Looking), o);
    case Next(c, ok, rows) =>
      hide RacingCalls, BatchesOf, Statement;
      if c < |s.calls| { StatementRestores(s, c, ok, rows, o); }
    case Place(_) =>
      hide RacingCalls, BatchesOf;
    case Ship(_) =>
      hide RacingCalls, BatchesOf;
  }

  /**
   Once an order can no longer be cancelled, only the calls that read it earlier can still restore it: from then
   on there are at most as many further batches as such calls.
   */
  lemma {:induction false} RestoresAreBounded(s: State, run: seq<Action>, o: nat)
    requires Closed(s, o)
    ensures Restores(Exec(s, run), o) <= Restores(s, o)
    ensures BatchesOf(Exec(s, run).batches, o) <= Restores(s, o)
  {
    if run != [] {
      RestoresAreBounded(s, run[..|run| - 1], o);
      ClosedIsAbsorbing(s, run[..|run| - 1], o);
      StepRestores(Exec(s, run[..|run| - 1]), run[|run| - 1], o);
    }
  }

  /** The statements that a racing call has still to run. */
  function Left(call: Call, o: nat): nat {
    if !Racing(call, o) then 0 else if call.phase.Fetching? then 3 else if call.phase.Updating? then 2 else 1
  }

  function AllLeft(calls: seq<Call>, o: nat): nat {
    if calls == [] then 0 else AllLeft(calls[..|calls| - 1], o) + Left(calls[|calls| - 1], o)
  }

  lemma {:induction false} LeftUpdate(calls: seq<Call>, c: nat, call: Call, o: nat)
    requires c < |calls|
    ensures AllLeft(calls[c := call], o) == AllLeft(calls, o) - Left(calls[c], o) + Left(call, o)
  {
    hide Left;
    var n := |calls| - 1;
    if c < n {
      assert calls[c := call][..n] == calls[..n][c := call];
      LeftUpdate(calls[..n], c, call, o);
    } else {
      assert calls[c := call][..n] == calls[..n];
    }
  }

  lemma {:induction false} SomeCallRaces(calls: seq<Call>, o: nat) returns (c: nat)
    requires RacingCalls(calls, o) > 0
    ensures c < |calls| && Racing(calls[c], o)
  {
    c := |calls| - 1;
    if !Racing(calls[c], o) {
      c := SomeCallRaces(calls[..|calls| - 1], o);
    }
  }

  /** One more statement of a racing call, answered in full. */
  lemma RacingCallMoves(s: State, c: nat, o: nat)
    requires Inv(s) && Closed(s, o) && c < |s.calls| && Racing(s.calls[c], o)
    ensures var s' := Step(s, Next(c, true, Fetched(s.orders[o].items, false)));
            Inv(s') && Closed(s', o) && Restores(s', o) == Restores(s, o) && AllLeft(s'.calls, o) < AllLeft(s.calls, o)
  {
    var rows := Fetched(s.orders[o].items, false);
    var call := s.calls[c];
    assert CallOk(s, call);
    assert Step(s, Next(c, true, rows)) == Statement(s, c, true, rows);
    hide AllLeft, Inv, Restores, Step, RacingCalls, BatchesOf;
    StepKeepsInv(s, Next(c, true, rows));
    StepKeepsOrders(s, Next(c, true, rows), o);
    StatementRestores(s, c, true, rows, o);
    LeftUpdate(s.calls, c, Call(call.order, call.user, Moved(s, call, true, rows)), o);
  }

  /** All those batches can come: the bound is attained from every such state. */
  lemma {:induction false} RestoresAreAttained(s: State, o: nat) returns (run: seq<Action>)
    requires Inv(s) && Closed(s, o)
    ensures BatchesOf(Exec(s, run).batches, o) == Restores(s, o)
    decreases AllLeft(s.calls, o)
  {
    if RacingCalls(s.calls, o) == 0 {
      run := [];
    } else {
      var c := SomeCallRaces(s.calls, o);
      var next := Next(c, true, Fetched(s.orders[o].items, false));
      RacingCallMoves(s, c, o);
      var rest := RestoresAreAttained(Step(s, next), o);
      ExecFirst(s, next, rest);
      run := [next] + rest;
    }
  }

  /**
   The stock of a closed order is restored at most once in every continuation if and only if the batches
   dispatched so far and the calls that have read it in time are not more than one together.
   */
  lemma RestoredOnceExactlyWhen(s: State, o: nat)
    requires Inv(s) && Closed(s, o)
    ensures (forall run :: BatchesOf(Exec(s, run).batches, o) <= 1) <==> Restores(s, o) <= 1
  {
    if Restores(s, o) <= 1 {
      forall run ensures BatchesOf(Exec(s, run).batches, o) <= 1 {
        RestoresAreBounded(s, run, o);
      }
    } else {
      var run := RestoresAreAttained(s, o);
      assert BatchesOf(Exec(s, run).batches, o) > 1;
    }
  }

  lemma {:induction false} NoBatchMeansZero(batches: seq<Batch>, o: nat)
    requires forall b :: 0 <= b < |batches| ==> batches[b].order != o
    ensures BatchesOf(batches, o) == 0
  {
    if batches != [] {
      NoBatchMeansZero(batches[..|batches| - 1], o);
    }
  }

  lemma NoBatchWhileCancellable(s: State, o: nat)
    requires Inv(s) && o < |s.orders| && Cancellable(s.orders[o].status)
    ensures BatchesOf(s.batches, o) == 0
  {
    forall b | 0 <= b < |s.batches| ensures s.batches[b].order != o {
      assert BatchOk(s, s.batches[b]);
    }
    NoBatchMeansZero(s.batches, o);
  }

  /**
   An order that can be cancelled, or that is not cancelled although nobody ships it, has never been
   restored.
   */
  lemma NoRestoreBeforeCancellation(run: seq<Action>, o: nat)
    requires var s := Exec(Empty(), run);
             && o < |s.orders|
             && (Cancellable(s.orders[o].status) || (Ship(o) !in run && s.orders[o].status != Cancelled))
    ensures BatchesOf(Exec(Empty(), run).batches, o) == 0
  {
    RunKeepsInv(Empty(), run);
    if Ship(o) !in run {
      NobodyElseShips(run, o);
    }
    NoBatchWhileCancellable(Exec(Empty(), run), o);
  }

  /** The step that ends an order's time as cancellable is its first cancellation, or its shipment. */
  lemma ClosingStepRestoresNothing(s: State, a: Action, o: nat)
    requires Inv(s) && o < |s.orders| && Cancellable(s.orders[o].status) && Closed(Step(s, a), o)
    ensures Step(s, a).batches == s.batches && RacingCalls(Step(s, a).calls, o) == RacingCalls(s.calls, o)
  {
    if a.Next? {
      var call := s.calls[a.c];
      assert call.phase.Updating? && call.order == o && a.ok;
      assert Step(s, a).calls == s.calls[a.c := Call(call.order, call.user, Restoring(call.phase.items))];
      RacingUpdate(s.calls, a.c, Call(call.order, call.user, Restoring(call.phase.items)), o);
    }
  }

  /**
   Over a whole run: the batches of an order number at most the owner's calls that had read it, and were
   under way, at its first cancellation (or shipment), and that many can come.
   */
  lemma RestoresOfAWholeRun(before: seq<Action>, a: Action, o: nat)
    requires var s := Exec(Empty(), before);
             o < |s.orders| && Cancellable(s.orders[o].status) && Closed(Step(s, a), o)
    ensures var s := Exec(Empty(), before);
            && (forall rest :: BatchesOf(Exec(Step(s, a), rest).batches, o) <= RacingCalls(s.calls, o))
            && (exists rest :: BatchesOf(Exec(Step(s, a), rest).batches, o) == RacingCalls(s.calls, o))
  {
    var s := Exec(Empty(), before);
    RunKeepsInv(Empty(), before);
    NoBatchWhileCancellable(s, o);
    ClosingStepRestoresNothing(s, a, o);
    StepKeepsInv(s, a);
    hide Step, Exec, Inv;
    forall rest ensures BatchesOf(Exec(Step(s, a), rest).batches, o) <= RacingCalls(s.calls, o) {
      RestoresAreBounded(Step(s, a), rest, o);
    }
    var rest := RestoresAreAttained(Step(s, a), o);
  }

  // ---------- one after the other, and two at once ----------

  /** A call of `user` for order o that runs from start to end with every statement answered. */
  function Alone(s: State, o: nat, user: UserId): State {
    var c := |s.calls|;
    var rows := Fetched(if o < |s.orders| then s.orders[o].items else [], false);
    var s1 := Step(s, Arrive(o, user));
    var s2 := Step(s1, Next(c, true, rows));
    var s3 := Step(s2, Next(c, true, rows));
    var s4 := Step(s3, Next(c, true, rows));
    Step(s4, Next(c, true, rows))
  }

  function Serially(s: State, o: nat, users: seq<UserId>): State {
    if users == [] then s else Alone(Serially(s, o, users[..|users| - 1]), o, users[|users| - 1])
  }

  lemma AloneCancelsOnce(s: State, o: nat, user: UserId)
    requires o < |s.orders|
    ensures var s' := Alone(s, o, user);
            var restores := user == s.orders[o].user && Cancellable(s.orders[o].status);
            && s'.orders == (if restores then s.orders[o := s.orders[o].(status := Cancelled)] else s.orders)
            && s'.batches ==
               s.batches + if restores then [Batch(|s.calls|, o, Fetched(s.orders[o].items, false))] else []
  {
    var c := |s.calls|;
    var rows := Fetched(s.orders[o].items, false);
    var s1 := Step(s, Arrive(o, user));
    var s2 := Step(s1, Next(c, true, rows));
    assert s2.calls[c] == Call(o, user, Fetching(s.orders[o].user, s.orders[o].status));
    var s3 := Step(s2, Next(c, true, rows));
    assert s3.orders == s.orders && s3.batches == s.batches;
  }

  /**
   Cancellations one after the other: whoever asks, however often, a cancellable order is restored
   exactly once, with exactly its lines, if its owner is among them, and otherwise not at all.
   */
  lemma {:induction false} SerialCancelsRestoreOnce(s: State, o: nat, users: seq<UserId>)
    requires o < |s.orders| && Cancellable(s.orders[o].status)
    ensures var s' := Serially(s, o, users);
            && o < |s'.orders| && s'.orders[o].user == s.orders[o].user && s'.orders[o].items == s.orders[o].items
            && (s.orders[o].user in users ==>
                  && s'.orders[o].status == Cancelled
                  && |s'.batches| == |s.batches| + 1
                  && s'.batches[|s.batches|].order == o && s'.batches[|s.batches|].items.lines == s.orders[o].items)
            && (s.orders[o].user !in users ==> s'.orders == s.orders && s'.batches == s.batches)
  {
    hide Step, Alone;
    if users != [] {
      var front := users[..|users| - 1];
      SerialCancelsRestoreOnce(s, o, front);
      AloneCancelsOnce(Serially(s, o, front), o, users[|users| - 1]);
      assert users == front + [users[|users| - 1]];
    }
  }

  /** Calls 0 and 1 each run their next statement. */
  function BothNext(s: State, rows: Fetched): State {
    Step(Step(s, Next(0, true, rows)), Next(1, true, rows))
  }

  /** Two calls in the same phase, one after the other. */
  lemma BothMove(orders: seq<Order>, was: Call, now: Call, after: seq<Order>, rows: Fetched,
                 batches: seq<Batch>, more: seq<Batch>)
    requires var s := State(orders, [was, was], batches);
             var s1 := Step(s, Next(0, true, rows));
             && s1 == State(after, [now, was], s1.batches)
             && Step(s1, Next(1, true, rows)) == State(after, [now, now], more)
    ensures BothNext(State(orders, [was, was], batches), rows) == State(after, [now, now], more)
  {
  }

  /** Two clients that both read the order before either updates it restore its stock twice. */
  lemma DoubleRestoreIsReachable(order: Order)
    requires order.status == Pending
    ensures var rows := Fetched(order.items, false);
            var s0 := Step(Empty(), Place(order));
            var s1 := Step(Step(s0, Arrive(0, order.user)), Arrive(0, order.user));
            var end := BothNext(BothNext(BothNext(BothNext(s1, rows), rows), rows), rows);
            end.batches == [Batch(0, 0, rows), Batch(1, 0, rows)]
  {
    var rows := Fetched(order.items, false);
    var s0 := Step(Empty(), Place(order));
    assert s0 == State([order], [], []);
    var l := Call(0, order.user, Looking);
    var f := Call(0, order.user, Fetching(order.user, Pending));
    var u := Call(0, order.user, Updating(rows));
    var r := Call(0, order.user, Restoring(rows));
    var cancelled := order.(status := Cancelled);
    assert Step(Step(s0, Arrive(0, order.user)), Arrive(0, order.user)) == State([order], [l, l], []);
    BothMove([order], l, f, [order], rows, [], []);
    BothMove([order], f, u, [order], rows, [], []);
    BothMove([order], u, r, [cancelled], rows, [], []);
    BothMove([cancelled], r, r.(phase := Done), [cancelled], rows, [], [Batch(0, 0, rows), Batch(1, 0, rows)]);
  }

  /** An order is cancelled but not wholly restored when the stream of its items breaks: here, none of it is. */
  lemma BrokenStreamRestoresLess(order: Order)
    requires order.status == Pending && order.items != []
    ensures var none := Fetched([], true);
            var s1 := Step(Step(Empty(), Place(order)), Arrive(0, order.user));
            var s3 := Step(Step(s1, Next(0, true, none)), Next(0, true, none));
            var s := Step(Step(s3, Next(0, true, none)), Next(0, true, none));
            && s.orders == [order.(status := Cancelled)] && s.calls == [Call(0, order.user, Done)]
            && s.batches == [Batch(0, 0, none)]
  {
    var none, user := Fetched([], true), order.user;
    var s1 := Step(Step(Empty(), Place(order)), Arrive(0, user));
    assert s1 == State([order], [Call(0, user, Looking)], []);
    var s2 := Step(s1, Next(0, true, none));
    assert s2 == State([order], [Call(0, user, Fetching(user, Pending))], []);
    var s3 := Step(s2, Next(0, true, none));
    assert s3 == State([order], [Call(0, user, Updating(none))], []);
    var s4 := Step(s3, Next(0, true, none));
    assert s4 == State([order.(status := Cancelled)], [Call(0, user, Restoring(none))], []);
  }
}
