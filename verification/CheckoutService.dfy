/**
 CreateOrderFromCart and the repository calls it makes, statement by statement, with other requests
 running in between (internal/order/service.go, internal/inventory/repository_pg.go,
 internal/order/repository_pg.go).  The method is proved to be a run of module Checkout.
 */
module CheckoutService {
  import opened Basics
  import opened Inventory
  import opened Orders
  import opened Checkout
  import opened CheckoutTheorems
  import Cart
  import Coupons

  /** What surrounds one statement: what everybody else does just before it, and whether the store answers it. */
  datatype Turn = Turn(others: seq<Action>, ok: bool)

  type Schedule = seq<Turn>

  /** The turn of the k-th statement; past the end of the schedule nobody interferes. */
  function TurnOf(schedule: Schedule, k: nat): Turn {
    if k < |schedule| then schedule[k] else Turn([], true)
  }

  predicate ForRequest(schedule: Schedule, me: nat) {
    forall k :: 0 <= k < |schedule| ==> ByOthers(schedule[k].others, me)
  }

  /** The world after statements `from` up to `to` of request `me`. */
  function Served(w: World, me: nat, schedule: Schedule, from: nat, to: nat): World
    requires from <= to
  {
    if from == to then w
    else
      var turn := TurnOf(schedule, to - 1);
      Step(Exec(Served(w, me, schedule, from, to - 1), turn.others), Next(me, turn.ok))
  }

  lemma {:induction false} ServedConcat(w: World, me: nat, schedule: Schedule, from: nat, mid: nat, to: nat)
    requires from <= mid <= to
    ensures Served(Served(w, me, schedule, from, mid), me, schedule, mid, to) == Served(w, me, schedule, from, to)
  {
    if mid < to {
      ServedConcat(w, me, schedule, from, mid, to - 1);
    }
  }

  /** Being served is a run of the world, so whatever holds of every run holds of the methods below. */
  lemma {:induction false} ServedIsARun(w: World, me: nat, schedule: Schedule, from: nat, to: nat)
    returns (run: seq<Action>)
    requires from <= to
    ensures Served(w, me, schedule, from, to) == Exec(w, run)
  {
    if from == to {
      run := [];
    } else {
      var turn := TurnOf(schedule, to - 1);
      run := ServedIsARun(w, me, schedule, from, to - 1);
      ExecConcat(w, run, turn.others);
      run := run + turn.others;
      assert (run + [Next(me, turn.ok)])[..|run|] == run;
      run := run + [Next(me, turn.ok)];
    }
  }

  lemma ServedKeepsInv(w: World, a: Action, me: nat, schedule: Schedule, to: nat)
    ensures Inv(w) ==> Inv(Served(Step(w, a), me, schedule, 0, to))
  {
    if Inv(w) {
      StepKeepsInv(w, a);
      var run := ServedIsARun(Step(w, a), me, schedule, 0, to);
      RunKeepsInv(Step(w, a), run);
    }
  }

  lemma ServedNothing(w: World, me: nat, schedule: Schedule)
    ensures Served(w, me, schedule, 0, 0) == w
  {
  }

  lemma IsOrderOf(r: Request, order: Order)
    requires order == Order(r.user, Discounted(r.total, r.discount), Pending, OrderItems(r.lines))
    ensures order == OrderOf(r)
  {
  }

  lemma SameOrder(r: Request)
    ensures OrderOf(r.(phase := Persisting)) == OrderOf(r)
  {
  }

  /** The stores of one deployment, and the requests in flight. */
  class Store {
    var inventory: Table
    var carts: Carts
    var orders: map<nat, Order>
    var requests: seq<Request>
    var supplied: map<ProductId, int>
    var commits: seq<Commit>

    function View(): World
      reads this
    {
      World(inventory, carts, orders, requests, supplied, commits)
    }

    method Yield(others: seq<Action>)
      modifies this
      ensures View() == Exec(old(View()), others)
    {
      var w := Exec(View(), others);
      inventory, carts, orders, requests, supplied, commits :=
        w.inventory, w.carts, w.orders, w.requests, w.supplied, w.commits;
    }

    // ---------- the repositories ----------

    method GetByProductID(p: ProductId, ok: bool) returns (r: Result<Row, StockError>)
      ensures r == if !ok then Err(StatementFailed) else if p in inventory then Ok(inventory[p]) else Err(NotFound)
    {
      if !ok {
        return Err(StatementFailed);
      }
      if p !in inventory {
        return Err(NotFound);
      }
      r := Ok(inventory[p]);
    }

    method SetStock(p: ProductId, q: int) returns (ok: bool)
      modifies this
      ensures ok <==> q >= 0
      ensures View() == Step(old(View()), Action.SetStock(p, q))
      ensures !ok ==> inventory == old(inventory)
      ensures ok && p in old(inventory) ==>
                inventory == old(inventory)[p := Row(q, old(inventory)[p].reserved, old(inventory)[p].version + 1)]
      ensures ok && p !in old(inventory) ==> inventory == old(inventory)[p := Row(q, 0, 1)]
    {
      ok := q >= 0;
      if ok {
        supplied := supplied[p := (if p in supplied then supplied[p] else 0)
                                  + q - (if p in inventory then inventory[p].quantity else 0)];
        inventory := inventory[p := if p in inventory then Row(q, inventory[p].reserved, inventory[p].version + 1)
                                    else Row(q, 0, 1)];
      }
    }

    /** The conditional UPDATE of request `me`, and how many rows it changed. */
    method UpdateRow(me: nat, p: ProductId, q: int, v: int, ok: bool) returns (rows: Result<nat, StockError>)
      modifies this`inventory, this`commits
      ensures var t := old(inventory);
              var matches := p in t && t[p].version == v && t[p].quantity - t[p].reserved >= q;
              && matches == Matches(t, p, q, v) && (matches ==> (Violates(t, p, q) <==> t[p].quantity - q < 0))
              && (rows == Err(StatementFailed) <==> !ok || (matches && t[p].quantity - q < 0))
              && (rows == Ok(0) <==> ok && !matches)
              && (rows == Ok(1) <==> ok && matches && t[p].quantity - q >= 0)
              && (rows == Ok(1) ==> inventory == t[p := Row(t[p].quantity - q, t[p].reserved, t[p].version + 1)])
              && (rows != Ok(1) ==> inventory == t)
      ensures commits == (if rows == Ok(1) then old(commits) + [Commit(me, p, q, v)] else old(commits))
    {
      if !ok {
        return Err(StatementFailed);
      }
      if p in inventory && inventory[p].version == v && inventory[p].quantity - inventory[p].reserved >= q {
        if inventory[p].quantity - q < 0 {
          return Err(StatementFailed);
        }
        inventory := inventory[p := Row(inventory[p].quantity - q, inventory[p].reserved, inventory[p].version + 1)];
        commits := commits + [Commit(me, p, q, v)];
        return Ok(1);
      }
      rows := Ok(0);
    }

    /** The error is what the second read of a reservation says of a row that was not changed. */
    predicate SaysWhy(error: StockError, p: ProductId, q: int, answered: bool)
      reads this`inventory
    {
      && (error == StatementFailed <==> !answered)
      && (error == NotFound <==> answered && p !in inventory)
      && (error == Insufficient <==> answered && p in inventory && inventory[p].quantity - inventory[p].reserved < q)
      && (error == LockConflict <==> answered && p in inventory && inventory[p].quantity - inventory[p].reserved >= q)
    }

    /** The second read of a reservation whose UPDATE matched no row: statement n of the request. */
    method DiagnoseRefusal(me: nat, p: ProductId, q: int, v: int, schedule: Schedule, n: nat)
      returns (error: StockError)
      requires me < |requests| && requests[me].Working() && requests[me].phase == Diagnosing(v)
      requires requests[me].Item().productId == p && requests[me].Item().quantity == q
      requires ForRequest(schedule, me)
      modifies this
      ensures View() == Served(old(View()), me, schedule, n, n + 1)
      ensures me < |requests| && requests[me] == old(requests[me]).(phase := Failed(NoStock(error)))
      ensures SaysWhy(error, p, q, TurnOf(schedule, n).ok)
    {
      var mine, turn := requests[me], TurnOf(schedule, n);
      ghost var w0 := View();
      OthersKeepMyRequest(View(), turn.others, me);
      Yield(turn.others);
      assert View() == Exec(Served(w0, me, schedule, n, n), turn.others);
      var existing := GetByProductID(p, turn.ok);
      if existing.Err? {
        error := existing.error;
      } else if existing.value.Available() < q {
        error := Insufficient;
      } else if existing.value.version != v {
        error := LockConflict;
      } else {
        error := LockConflict;
      }
      requests := requests[me := mine.(phase := Failed(NoStock(error)))];
    }

    /**
     The reservation of the line that request `me` is at, with the version its read found; the request's
     statements n and, if needed, n + 1.
     */
    method ReserveStockWithOptimisticLock(me: nat, p: ProductId, q: int, v: int, schedule: Schedule, n: nat)
      returns (error: Option<StockError>, next: nat)
      requires me < |requests| && requests[me].Working() && requests[me].phase.Reserving?
      requires requests[me].Item().productId == p && requests[me].Item().quantity == q
      requires requests[me].phase.row.version == v
      requires ForRequest(schedule, me)
      modifies this
      ensures n < next <= n + 2 && View() == Served(old(View()), me, schedule, n, next)
      ensures me < |requests|
      ensures requests[me] == match error
                              case None => Handled(old(requests[me]), true)
                              case Some(e) => old(requests[me]).(phase := Failed(NoStock(e)))
      ensures error.Some? && next == n + 1 ==> error.value == StatementFailed
      ensures error.Some? && next == n + 2 ==> SaysWhy(error.value, p, q, TurnOf(schedule, n + 1).ok)
      ensures next == n + 2 ==> error.Some? && TurnOf(schedule, n).ok
      ensures !TurnOf(schedule, n).ok ==> error == Some(StatementFailed)
    {
      ghost var w0 := View();
      var mine := requests[me];
      OthersKeepMyRequest(View(), TurnOf(schedule, n).others, me);
      Yield(TurnOf(schedule, n).others);
      ghost var w1 := View();
      var rows := UpdateRow(me, p, q, v, TurnOf(schedule, n).ok);
      next := n + 1;
      assert w1 == Exec(Served(w0, me, schedule, n, n), TurnOf(schedule, n).others);
      if rows.Err? {
        requests := requests[me := mine.(phase := Failed(NoStock(rows.error)))];
        error := Some(rows.error);
        assert View() == Step(w1, Next(me, TurnOf(schedule, n).ok));
        return;
      }
      if rows.value == 1 {
        requests := requests[me := Handled(mine, true)];
        error := None;
        assert View() == Step(w1, Next(me, TurnOf(schedule, n).ok));
        return;
      }
      requests := requests[me := mine.(phase := Diagnosing(v))];
      assert View() == Step(w1, Next(me, TurnOf(schedule, n).ok));

      var e := DiagnoseRefusal(me, p, q, v, schedule, next);
      error := Some(e);
      next := n + 2;
    }

    /**
     PostgresOrderRepository.Create: the rows are staged in a transaction, which commits all of them.  `failing` is
     the first of its statements that fails, if any: 0 is the begin, 1 the row of the order, 2 + i that of
     item i, and after those the commit.
     */
    method CreateOrder(id: nat, order: Order, failing: Option<nat>) returns (ok: bool)
      modifies this`orders
      ensures ok <==> failing.None? || failing.value > |order.items| + 2
      ensures orders == if ok then old(orders)[id := order] else old(orders)
    {
      if failing == Some(0) || failing == Some(1) {
        return false;
      }
      var staged := order.(items := []);
      for i := 0 to |order.items|
        invariant staged == order.(items := order.items[..i])
        invariant failing.None? || failing.value >= 2 + i
      {
        if failing == Some(2 + i) {
          return false;
        }
        staged := staged.(items := staged.items + [order.items[i]]);
      }
      assert order.items[..|order.items|] == order.items;
      if failing == Some(2 + |order.items|) {
        return false;
      }
      orders := orders[id := staged];
      ok := true;
    }

    // ---------- the service ----------

    /** The first statement for a line: read its stock row, if it has one. */
    method ProbeStock(me: nat, item: CartItem, schedule: Schedule, n: nat) returns (inv: Result<Row, StockError>)
      requires me < |requests| && requests[me].Working() && requests[me].phase == Reading && requests[me].Item() == item
      requires ForRequest(schedule, me)
      modifies this
      ensures View() == Served(old(View()), me, schedule, n, n + 1)
      ensures me < |requests|
      ensures requests[me] == match inv
                              case Err(_) => Handled(old(requests[me]), false)
                              case Ok(row) =>
                                if row.quantity - row.reserved < item.quantity
                                then old(requests[me]).(phase := Failed(NoStock(Insufficient)))
                                else old(requests[me]).(phase := Reserving(row))
      ensures inv == if !TurnOf(schedule, n).ok then Err(StatementFailed)
                     else if item.productId in inventory then Ok(inventory[item.productId]) else Err(NotFound)
    {
      var mine, turn := requests[me], TurnOf(schedule, n);
      ghost var w0 := View();
      OthersKeepMyRequest(View(), turn.others, me);
      Yield(turn.others);
      assert View() == Exec(Served(w0, me, schedule, n, n), turn.others);
      inv := GetByProductID(item.productId, turn.ok);
      if inv.Err? {
        requests := requests[me := Handled(mine, false)];
      } else if inv.value.Available() < item.quantity {
        requests := requests[me := mine.(phase := Failed(NoStock(Insufficient)))];
      } else {
        requests := requests[me := mine.(phase := Reserving(inv.value))];
      }
    }

    /** The loop body of CreateOrderFromCart: probe the stock of one line and, when there is a row, reserve it. */
    method ReserveLine(me: nat, item: CartItem, schedule: Schedule, n: nat)
      returns (error: Option<StockError>, held: bool, next: nat)
      requires me < |requests| && requests[me].Working() && requests[me].phase == Reading && requests[me].Item() == item
      requires ForRequest(schedule, me)
      modifies this
      ensures n < next && View() == Served(old(View()), me, schedule, n, next)
      ensures me < |requests|
      ensures requests[me] == match error
                              case None => Handled(old(requests[me]), held)
                              case Some(e) => old(requests[me]).(phase := Failed(NoStock(e)))
    {
      hide Step, Statement, Moved;
      ghost var w0 := View();
      var inv := ProbeStock(me, item, schedule, n);
      if inv.Err? {
        return None, false, n + 1;
      }
      if inv.value.Available() < item.quantity {
        return Some(Insufficient), false, n + 1;
      }
      var row := inv.value;
      error, next := ReserveStockWithOptimisticLock(me, item.productId, item.quantity, row.version, schedule, n + 1);
      ServedConcat(w0, me, schedule, n, n + 1, next);
      held := true;
    }

    /** The loop of CreateOrderFromCart over the cart lines, which also builds the order items and the total. */
    method ReserveLines(me: nat, schedule: Schedule)
      returns (error: Option<StockError>, orderItems: seq<OrderItem>, totalAmount: real, n: nat)
      requires me < |requests| && requests[me].Working() && requests[me].phase == Reading
      requires requests[me].lines == [] && requests[me].total == 0.0
      requires ForRequest(schedule, me)
      modifies this
      ensures View() == Served(old(View()), me, schedule, 0, n)
      ensures me < |requests|
      ensures var mine, was := requests[me], old(requests[me]);
              && mine == Request(was.user, was.discount, was.cart, mine.lines, mine.total, mine.phase)
              && match error
                 case Some(e) => mine.phase == Failed(NoStock(e))
                 case None =>
                   mine.phase == Persisting && orderItems == OrderItems(mine.lines) && totalAmount == mine.total
    {
      hide Step, Statement, Moved;
      ghost var w0 := View();
      var user, discount, cart := requests[me].user, requests[me].discount, requests[me].cart;
      orderItems, totalAmount, n := [], 0.0, 0;
      for i := 0 to |cart|
        invariant View() == Served(w0, me, schedule, 0, n)
        invariant me < |requests| && |requests[me].lines| == i
        invariant requests[me] == Request(user, discount, cart, requests[me].lines, totalAmount,
                                          if i == |cart| then Persisting else Reading)
        invariant orderItems == OrderItems(requests[me].lines)
      {
        var item, mid := cart[i], n;
        ghost var before := requests[me];
        var held;
        error, held, n := ReserveLine(me, item, schedule, mid);
        ServedConcat(w0, me, schedule, 0, mid, n);
        if error.Some? {
          return;
        }
        totalAmount := totalAmount + item.unitPrice * item.quantity as real;
        orderItems := orderItems + [OrderItem(item.productId, item.quantity, item.unitPrice)];
        assert OrderItems(before.lines + [Line(item, held)]) ==
               OrderItems(before.lines) + [OrderItem(item.productId, item.quantity, item.unitPrice)];
      }
      error := None;
    }

    /** What is due never leaves the range between nothing and the total, so the clamp never acts. */
    method ApplyCoupon(total: real, couponDiscount: real) returns (totalAmount: real)
      ensures totalAmount == Discounted(total, couponDiscount)
      ensures total >= 0.0 ==>
                && 0.0 <= totalAmount <= total
                && totalAmount ==
                   if 0.0 < couponDiscount < 100.0 then Coupons.ApplyDiscount(couponDiscount, total) else total
    {
      totalAmount := total;
      if couponDiscount > 0.0 && couponDiscount < 100.0 {
        var discount := totalAmount * (couponDiscount / 100.0);
        DiscountedInside(total, couponDiscount, discount);
        totalAmount := totalAmount - discount;
        if totalAmount < 0.0 {
          totalAmount := 0.0;
        }
      }
      if total >= 0.0 {
        DiscountStaysInRange(total, couponDiscount);
      }
    }

    /** The end of CreateOrderFromCart: persist the order, then clear the cart, whose failure is ignored. */
    method PersistAndClear(me: nat, order: Order, schedule: Schedule, n: nat) returns (ok: bool, next: nat)
      requires me < |requests| && requests[me].phase == Persisting && order == OrderOf(requests[me])
      requires ForRequest(schedule, me)
      modifies this
      ensures ok == TurnOf(schedule, n).ok && next == if ok then n + 2 else n + 1
      ensures View() == Served(old(View()), me, schedule, n, next)
      ensures me < |requests|
      ensures requests[me] == old(requests[me]).(phase := if ok then Placed else Failed(NotPersisted))
    {
      var mine, turn := requests[me], TurnOf(schedule, n);
      ghost var w0 := View();
      OthersKeepMyRequest(View(), turn.others, me);
      Yield(turn.others);
      assert View() == Exec(Served(w0, me, schedule, n, n), turn.others);
      next := n + 1;
      var failing: Option<nat> := None;
      if !turn.ok {
        var k: nat := *;
        if k > |order.items| + 2 {
          k := 0;
        }
        failing := Some(k);
      }
      ok := CreateOrder(me, order, failing);
      requests := requests[me := mine.(phase := if ok then Clearing else Failed(NotPersisted))];
      assert View() == Served(w0, me, schedule, n, next);
      if ok {
        var last := TurnOf(schedule, next);
        OthersKeepMyRequest(View(), last.others, me);
        Yield(last.others);
        if last.ok {
          carts := carts - {mine.user};
        }
        requests := requests[me := mine.(phase := Placed)];
        next := next + 1;
      }
    }

    /** The first statement of a checkout: a failed read, and no cart, count as an empty cart. */
    method ReadCart(user: UserId, couponDiscount: real, cartOk: bool) returns (cart: seq<CartItem>)
      modifies this`requests
      ensures View() == Step(old(View()), Arrive(user, couponDiscount, cartOk))
      ensures cart == if cartOk && user in carts then carts[user] else []
      ensures requests == old(requests) +
                          [Request(user, couponDiscount, cart, [], 0.0,
                                   if cart == [] then Failed(EmptyCart) else Reading)]
    {
      cart := if cartOk && user in carts then carts[user] else [];
      var phase := if cart == [] then Failed(EmptyCart) else Reading;
      requests := requests + [Request(user, couponDiscount, cart, [], 0.0, phase)];
    }

    /**
     Checkout.  Whatever the others do between its statements, and whichever statements fail, the call
     is exactly the statements of one request of module Checkout, and it returns what that request came to.
     */
    method CreateOrderFromCart(user: UserId, couponDiscount: real, cartOk: bool, schedule: Schedule)
      returns (r: Result<Order, Error>, n: nat)
      requires ForRequest(schedule, |requests|)
      modifies this
      ensures View() == Served(Step(old(View()), Arrive(user, couponDiscount, cartOk)), |old(requests)|, schedule, 0, n)
      ensures |old(requests)| < |requests|
      ensures var mine := requests[|old(requests)|];
              && mine.user == user && mine.discount == couponDiscount
              && mine.cart == (if cartOk then Cart.Stored(old(carts), user) else [])
              && match r
                 case Ok(order) => mine.phase == Placed && order == OrderOf(mine)
                 case Err(e) => mine.phase == Failed(e)
      ensures r == Err(EmptyCart) <==> !cartOk || Cart.Stored(old(carts), user) == []
      ensures r == Err(NotPersisted) ==> n >= 1 && !TurnOf(schedule, n - 1).ok
      ensures r.Ok? ==> n >= 2 && TurnOf(schedule, n - 2).ok
      ensures old(Inv(View())) ==> Inv(View())
      ensures old(Inv(View())) && r.Ok? ==>
                CarriesTheCart(r.value, user, couponDiscount, Cart.Stored(old(carts), user))
    {
      hide Step, Exec, Inv, OrderOf, CarriesTheCart, Served;
      ghost var w0 := View();
      ghost var start := Step(w0, Arrive(user, couponDiscount, cartOk));
      var me := |requests|;
      var cart := ReadCart(user, couponDiscount, cartOk);
      if cart == [] {
        ServedNothing(start, me, schedule);
        ServedKeepsInv(w0, Arrive(user, couponDiscount, cartOk), me, schedule, 0);
        return Err(EmptyCart), 0;
      }

      var error, orderItems, totalAmount, mid := ReserveLines(me, schedule);
      n := mid;
      if error.Some? {
        ServedKeepsInv(w0, Arrive(user, couponDiscount, cartOk), me, schedule, n);
        return Err(NoStock(error.value)), n;
      }
      totalAmount := ApplyCoupon(totalAmount, couponDiscount);
      var order := Order(user, totalAmount, Pending, orderItems);
      assert order == OrderOf(requests[me]) by { IsOrderOf(requests[me], order); }
      var ok;
      ok, n := PersistAndClear(me, order, schedule, mid);
      ServedConcat(start, me, schedule, 0, mid, n);
      ServedKeepsInv(w0, Arrive(user, couponDiscount, cartOk), me, schedule, n);
      r := if ok then Ok(order) else Err(NotPersisted);
      if ok {
        SameOrder(requests[me]);
        if Inv(View()) {
          OrderOfACart(View(), me);
        }
      }
    }
  }
}
