/**
 CancelOrder and the repository calls it makes, statement by statement, with other calls running in
 between (internal/order/service.go, internal/order/repository_pg.go).  The method is proved to be the
 steps of one call of module Cancellation.
 */
module CancellationService {
  import opened Basics
  import opened Orders
  import opened Cancellation

  /** What surrounds one statement: what the other calls do just before it, and whether it is answered. */
  datatype Turn = Turn(others: seq<Action>, ok: bool)

  predicate ByOthers(run: seq<Action>, me: nat) {
    forall a :: a in run && a.Next? ==> a.c != me
  }

  /** One statement of call `me`, after what the others do before it; a select of items returns `rows`. */
  function After(s: State, me: nat, turn: Turn, rows: Fetched): State {
    Step(Exec(s, turn.others), Next(me, turn.ok, rows))
  }

  lemma {:induction false} OthersKeepMyCall(s: State, run: seq<Action>, me: nat)
    requires me < |s.calls| && ByOthers(run, me)
    ensures |s.calls| <= |Exec(s, run).calls| && Exec(s, run).calls[me] == s.calls[me]
    ensures |s.orders| <= |Exec(s, run).orders|
  {
    if run != [] {
      OthersKeepMyCall(s, run[..|run| - 1], me);
    }
  }

  lemma PrefixIsOf(lines: seq<OrderItem>, order: Order)
    requires lines <= order.items
    ensures Of(Fetched(lines, |lines| < |order.items|), order)
  {
    assert order.items == lines + order.items[|lines|..];
    assert multiset(order.items) == multiset(lines) + multiset(order.items[|lines|..]);
  }

  class OrderService {
    var orders: seq<Order>
    var calls: seq<Call>
    var batches: seq<Batch>

    function View(): State
      reads this
    {
      State(orders, calls, batches)
    }

    method Yield(others: seq<Action>)
      modifies this
      ensures View() == Exec(old(View()), others)
    {
      var s := Exec(View(), others);
      orders, calls, batches := s.orders, s.calls, s.batches;
    }

    /** Select of the order row: the first statement of call `me`. */
    method SelectOrder(me: nat, turn: Turn) returns (r: Result<Order, Error>)
      requires me < |calls| && calls[me].phase.Looking? && ByOthers(turn.others, me)
      modifies this
      ensures forall rows :: View() == After(old(View()), me, turn, rows)
      ensures me < |calls|
      ensures calls[me] == old(calls[me]).(phase := match r
                                                    case Err(e) => Refused(e)
                                                    case Ok(order) => Fetching(order.user, order.status))
      ensures r.Ok? ==> calls[me].order < |orders|
      ensures orders == Exec(old(View()), turn.others).orders
      ensures var o := old(calls[me]).order;
              r == if !turn.ok then Err(StatementFailed)
                   else if o >= |orders| then Err(OrderNotFound)
                   else Ok(orders[o].(items := []))
    {
      var mine := calls[me];
      OthersKeepMyCall(View(), turn.others, me);
      Yield(turn.others);
      if !turn.ok {
        r := Err(StatementFailed);
        calls := calls[me := mine.(phase := Refused(StatementFailed))];
      } else if mine.order >= |orders| {
        r := Err(OrderNotFound);
        calls := calls[me := mine.(phase := Refused(OrderNotFound))];
      } else {
        r := Ok(orders[mine.order].(items := []));
        calls := calls[me := mine.(phase := Fetching(orders[mine.order].user, orders[mine.order].status))];
      }
    }

    /**
     Select of the item rows, scanned in a loop, and the guards of CancelOrder on what was read: the second
     statement.  `arrived` rows arrive before the connection breaks, which ends the loop like the last row does.
     */
    method SelectItems(me: nat, turn: Turn, arrived: nat) returns (error: Option<Error>, items: Fetched)
      requires me < |calls| && calls[me].phase.Fetching? && calls[me].order < |orders| && ByOthers(turn.others, me)
      modifies this
      ensures View() == After(old(View()), me, turn, items)
      ensures me < |calls| && calls[me] == old(calls[me]).(phase := match error
                                                                     case Some(e) => Refused(e)
                                                                     case None => Updating(items))
      ensures calls[me].order < |orders|
      ensures var all := orders[calls[me].order].items;
              items == if arrived < |all| then Fetched(all[..arrived], true) else Fetched(all, false)
      ensures var call := old(calls[me]);
              error == if !turn.ok then Some(StatementFailed)
                       else if call.phase.owner != call.user then Some(NotOwned)
                       else if call.phase.status in {Shipped, Cancelled} then Some(CannotBeCancelled)
                       else None
    {
      var mine := calls[me];
      OthersKeepMyCall(View(), turn.others, me);
      Yield(turn.others);
      var rows := orders[mine.order].items;
      var lines: seq<OrderItem> := [];
      while |lines| < |rows| && |lines| < arrived
        invariant lines <= rows && |lines| <= arrived
      {
        lines := lines + [rows[|lines|]];
      }
      items := Fetched(lines, |lines| < |rows|);
      PrefixIsOf(lines, orders[mine.order]);
      if !turn.ok {
        error := Some(StatementFailed);
      } else if mine.phase.owner != mine.user {
        error := Some(NotOwned);
      } else if mine.phase.status == Shipped || mine.phase.status == Cancelled {
        error := Some(CannotBeCancelled);
      } else {
        error := None;
      }
      calls := calls[me := mine.(phase := if error.Some? then Refused(error.value) else Updating(items))];
    }

    /** UpdateStatus to CANCELLED: the third statement. */
    method UpdateStatus(me: nat, turn: Turn) returns (ok: bool)
      requires me < |calls| && calls[me].phase.Updating? && ByOthers(turn.others, me)
      modifies this
      ensures forall rows :: View() == After(old(View()), me, turn, rows)
      ensures me < |calls| && calls[me] == old(calls[me]).(phase := if ok then Restoring(old(calls[me]).phase.items)
                                                                     else Refused(StatementFailed))
      ensures ok == turn.ok
    {
      var mine := calls[me];
      OthersKeepMyCall(View(), turn.others, me);
      Yield(turn.others);
      ok := turn.ok;
      if ok && mine.order < |orders| {
        orders := orders[mine.order := orders[mine.order].(status := Cancelled)];
      }
      calls := calls[me := mine.(phase := if ok then Restoring(mine.phase.items) else Refused(StatementFailed))];
    }

    /** The dispatch loop: one restore job per line. */
    method DispatchRestores(me: nat, turn: Turn)
      requires me < |calls| && calls[me].phase.Restoring? && ByOthers(turn.others, me)
      modifies this
      ensures forall rows :: View() == After(old(View()), me, turn, rows)
      ensures me < |calls| && calls[me] == old(calls[me]).(phase := Done)
    {
      var mine := calls[me];
      OthersKeepMyCall(View(), turn.others, me);
      Yield(turn.others);
      var jobs: seq<OrderItem> := [];
      for i := 0 to |mine.phase.items.lines|
        invariant jobs == mine.phase.items.lines[..i]
      {
        jobs := jobs + [mine.phase.items.lines[i]];
      }
      assert jobs == mine.phase.items.lines;
      batches := batches + [Batch(me, mine.order, Fetched(jobs, mine.phase.items.broken))];
      calls := calls[me := mine.(phase := Done)];
    }

    /**
     Whatever the others do around its statements, the call is the statements of one call of module
     Cancellation, up to the one that refuses it or to the end.  It answers from the row that its first
     statement read: the error says which guard or statement stopped it, and otherwise the order is that
     row, cancelled, with the lines that arrived.
     */
    method CancelOrder(orderID: nat, userID: UserId, row: Turn, fetch: Turn, arrived: nat, update: Turn, dispatch: Turn)
      returns (r: Result<Order, Error>, n: nat, rows: Fetched)
      requires ByOthers(row.others, |calls|) && ByOthers(fetch.others, |calls|)
      requires ByOthers(update.others, |calls|) && ByOthers(dispatch.others, |calls|)
      modifies this
      ensures var me := |old(calls)|;
              var s1 := After(Step(old(View()), Arrive(orderID, userID)), me, row, rows);
              var s2 := After(s1, me, fetch, rows);
              var s3 := After(s2, me, update, rows);
              match n {
                case 1 => View() == s1
                case 2 => View() == s2
                case 3 => View() == s3
                case _ => View() == After(s3, me, dispatch, rows)
              }
      ensures |old(calls)| < |calls|
      ensures calls[|old(calls)|] == Call(orderID, userID, if r.Err? then Refused(r.error) else Done)
      ensures var read := Exec(Step(old(View()), Arrive(orderID, userID)), row.others).orders;
              r == if !row.ok then Err(StatementFailed)
                   else if orderID >= |read| then Err(OrderNotFound)
                   else if !fetch.ok then Err(StatementFailed)
                   else if read[orderID].user != userID then Err(NotOwned)
                   else if read[orderID].status in {Shipped, Cancelled} then Err(CannotBeCancelled)
                   else if !update.ok then Err(StatementFailed)
                   else Ok(read[orderID].(status := Cancelled, items := rows.lines))
      ensures n == if !row.ok || r == Err(OrderNotFound) then 1
                   else if !fetch.ok || r in {Err(NotOwned), Err(CannotBeCancelled)} then 2
                   else if !update.ok then 3 else 4
    {
      var me := |calls|;
      calls := calls + [Call(orderID, userID, Looking)];
      assert View() == Step(old(View()), Arrive(orderID, userID));
      hide Step, After, ByOthers;

      var found := SelectOrder(me, row);
      if found.Err? {
        return Err(found.error), 1, Fetched([], false);
      }
      var order := found.value;
      var error;
      error, rows := SelectItems(me, fetch, arrived);
      if error.Some? {
        return Err(error.value), 2, rows;
      }
      var ok := UpdateStatus(me, update);
      if !ok {
        return Err(StatementFailed), 3, rows;
      }
      DispatchRestores(me, dispatch);
      r, n := Ok(order.(status := Cancelled, items := rows.lines)), 4;
    }
  }
}
