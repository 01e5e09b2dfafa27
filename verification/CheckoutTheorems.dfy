/**
 What concurrent checkout guarantees over every interleaving, and what it does not: the reservations
 commit one by one (internal/inventory/repository_pg.go), outside any transaction around the order.
 */
module CheckoutTheorems {
  import opened Basics
  import opened Inventory
  import opened Orders
  import opened Checkout
  import Cart
  import Coupons

  // ---------- conservation: no overselling ----------

  lemma {:induction false} RunConserves(w: World, run: seq<Action>, p: ProductId)
    requires Supplied(w, p) == Balance(w, p)
    ensures Supplied(Exec(w, run), p) == Balance(Exec(w, run), p)
  {
    if run != [] {
      RunConserves(w, run[..|run| - 1], p);
      StepConserves(Exec(w, run[..|run| - 1]), run[|run| - 1], p);
    }
  }

  lemma {:induction false} HeldIsNonNegative(w: World, requests: seq<Request>, p: ProductId, o: Outcome)
    requires RequestsOk(w) && requests <= w.requests
    ensures Held(requests, p, o) >= 0
  {
    if requests != [] {
      HeldIsNonNegative(w, requests[..|requests| - 1], p, o);
      var r := requests[|requests| - 1];
      assert r == w.requests[|requests| - 1];
      HeldLinesNonNegative(r, r.lines, p);
    }
  }

  lemma {:induction false} HeldLinesNonNegative(r: Request, lines: seq<Line>, p: ProductId)
    requires FollowsCart(r) && lines <= r.lines
    ensures HeldLines(lines, p) >= 0
  {
    if lines != [] {
      HeldLinesNonNegative(r, lines[..|lines| - 1], p);
      assert lines[|lines| - 1].item == r.cart[|lines| - 1];
    }
  }

  /**
   In every run, of any number of requests: what was supplied of a product is what its row still has
   plus what running, ordered and aborted checkouts have reserved.  No part is negative, so the
   orders never contain more reserved stock than was supplied.
   */
  lemma NothingIsOversold(run: seq<Action>, p: ProductId)
    ensures var w := Exec(Empty(), run);
            && Supplied(w, p) == Quantity(w, p)
               + Held(w.requests, p, Running) + Held(w.requests, p, Ordered) + Held(w.requests, p, Aborted)
            && (p in w.inventory ==> 0 == w.inventory[p].reserved <= w.inventory[p].quantity)
            && Held(w.requests, p, Running) >= 0 && Held(w.requests, p, Aborted) >= 0
            && 0 <= Held(w.requests, p, Ordered) <= Supplied(w, p)
  {
    RunConserves(Empty(), run, p);
    RunKeepsInv(Empty(), run);
    var w := Exec(Empty(), run);
    HeldIsNonNegative(w, w.requests, p, Running);
    HeldIsNonNegative(w, w.requests, p, Ordered);
    HeldIsNonNegative(w, w.requests, p, Aborted);
  }

  // ---------- the two ledgers agree ----------

  /** The quantities request i took of product p, in commit order. */
  function TakenBy(commits: seq<Commit>, i: nat, p: ProductId): seq<int> {
    if commits == [] then []
    else
      var c := commits[|commits| - 1];
      var before := TakenBy(commits[..|commits| - 1], i, p);
      if c.request == i && c.product == p then before + [c.quantity] else before
  }

  ghost predicate LedgersAgree(w: World) {
    && (forall k :: 0 <= k < |w.commits| ==> w.commits[k].request < |w.requests|)
    && (forall i: nat, p :: i < |w.requests| ==> HeldLines(w.requests[i].lines, p) == Sum(TakenBy(w.commits, i, p)))
  }

  lemma {:induction false} NobodyTookYet(commits: seq<Commit>, i: nat, p: ProductId)
    requires forall k :: 0 <= k < |commits| ==> commits[k].request < i
    ensures TakenBy(commits, i, p) == []
  {
    if commits != [] {
      NobodyTookYet(commits[..|commits| - 1], i, p);
    }
  }

  lemma TakenByAppend(commits: seq<Commit>, c: Commit, i: nat, p: ProductId)
    ensures Sum(TakenBy(commits + [c], i, p)) ==
            Sum(TakenBy(commits, i, p)) + if c.request == i && c.product == p then c.quantity else 0
  {
    assert (commits + [c])[..|commits|] == commits;
    SumAppend(TakenBy(commits, i, p), c.quantity);
  }

  lemma StatementCommits(w: World, i: nat, ok: bool)
    requires i < |w.requests|
    ensures var r := w.requests[i];
            Step(w, Next(i, ok)).commits ==
            if Reserves(w.inventory, r, ok)
            then w.commits + [Commit(i, r.Item().productId, r.Item().quantity, r.phase.row.version)]
            else w.commits
  {
    hide Moved;
  }

  /** A statement adds the same quantity to the lines of its request and to the commits in its name. */
  lemma StatementKeepsLedgers(w: World, i: nat, ok: bool, j: nat, p: ProductId)
    requires i < |w.requests| && j < |w.requests|
    requires HeldLines(w.requests[j].lines, p) == Sum(TakenBy(w.commits, j, p))
    ensures var w' := Step(w, Next(i, ok));
            HeldLines(w'.requests[j].lines, p) == Sum(TakenBy(w'.commits, j, p))
  {
    hide Step, Moved, HeldLines, TakenBy, Quantity;
    var r := w.requests[i];
    StatementTakes(w, i, ok, p);
    StatementCommits(w, i, ok);
    MovedHolds(w, r, ok, p);
    if Reserves(w.inventory, r, ok) {
      TakenByAppend(w.commits, Commit(i, r.Item().productId, r.Item().quantity, r.phase.row.version), j, p);
    }
  }

  /** Every line marked as reserved is backed by a committed reservation of the same request, and conversely. */
  lemma StepKeepsLedgersAgreeing(w: World, a: Action)
    requires LedgersAgree(w)
    ensures LedgersAgree(Step(w, a))
  {
    var w' := Step(w, a);
    forall i: nat, p | i < |w'.requests| ensures HeldLines(w'.requests[i].lines, p) == Sum(TakenBy(w'.commits, i, p)) {
      if a.Next? && a.i < |w.requests| {
        StatementKeepsLedgers(w, a.i, a.ok, i, p);
      } else if a.Arrive? && i == |w.requests| {
        NobodyTookYet(w.commits, i, p);
      }
    }
  }

  lemma {:induction false} LedgersAlwaysAgree(run: seq<Action>)
    ensures LedgersAgree(Exec(Empty(), run))
  {
    if run != [] {
      LedgersAlwaysAgree(run[..|run| - 1]);
      StepKeepsLedgersAgreeing(Exec(Empty(), run[..|run| - 1]), run[|run| - 1]);
    }
  }

  // ---------- who wins the race for a version ----------

  /** The step commits a write of the product's row. */
  predicate Writes(w: World, a: Action, p: ProductId) {
    match a
    case SetStock(q, n) => q == p && n >= 0
    case Next(i, ok) =>
      i < |w.requests| && Reserves(w.inventory, w.requests[i], ok) && w.requests[i].Item().productId == p
    case _ => false
  }

  function WritesDuring(w: World, run: seq<Action>, p: ProductId): nat {
    if run == [] then 0
    else
      var front := run[..|run| - 1];
      WritesDuring(w, front, p) + if Writes(Exec(w, front), run[|run| - 1], p) then 1 else 0
  }

  /** The version counts the committed writes of its row; without one the row is as it was. */
  lemma {:induction false} VersionCountsWrites(w: World, run: seq<Action>, p: ProductId)
    requires p in w.inventory
    ensures var t := Exec(w, run).inventory;
            && p in t
            && t[p].version == w.inventory[p].version + WritesDuring(w, run, p)
            && (WritesDuring(w, run, p) == 0 ==> t[p] == w.inventory[p])
  {
    if run != [] {
      VersionCountsWrites(w, run[..|run| - 1], p);
    }
  }

  predicate ByOthers(run: seq<Action>, i: nat) {
    forall a :: a in run && a.Next? ==> a.i != i
  }

  lemma {:induction false} OthersKeepMyRequest(w: World, run: seq<Action>, i: nat)
    requires i < |w.requests| && ByOthers(run, i)
    ensures |w.requests| <= |Exec(w, run).requests| && Exec(w, run).requests[i] == w.requests[i]
  {
    if run != [] {
      OthersKeepMyRequest(w, run[..|run| - 1], i);
    }
  }

  /** Request i has read a row with enough stock in w, and then others have run. */
  predicate ReadThenOthers(w: World, i: nat, run: seq<Action>) {
    && Inv(w) && i < |w.requests| && w.requests[i].phase.Reading? && w.requests[i].Working()
    && Step(w, Next(i, true)).requests[i].phase.Reserving? && ByOthers(run, i)
  }

  /** Its UPDATE takes the stock if and only if nobody committed a write of that row in between. */
  lemma ReservationLosesExactlyToAnotherWrite(w: World, i: nat, run: seq<Action>)
    requires ReadThenOthers(w, i, run)
    ensures var p := w.requests[i].Item().productId;
            var w1 := Step(w, Next(i, true));
            Writes(Exec(w1, run), Next(i, true), p) <==> WritesDuring(w1, run, p) == 0
  {
    var p := w.requests[i].Item().productId;
    var w1 := Step(w, Next(i, true));
    assert w1.requests[i].Working() && w1.requests[i].Item().productId == p && w1.inventory == w.inventory;
    OthersKeepMyRequest(w1, run, i);
    VersionCountsWrites(w1, run, p);
    StepKeepsInv(w, Next(i, true));
    RunKeepsInv(w1, run);
  }

  lemma LoserDiagnoses(w: World, i: nat)
    requires i < |w.requests| && w.requests[i].phase.Reserving? && w.requests[i].Working()
    requires var p := w.requests[i].Item().productId;
             p in w.inventory && w.requests[i].phase.row.version < w.inventory[p].version
    ensures var w' := Step(w, Next(i, true));
            && |w'.requests| == |w.requests| && w'.inventory == w.inventory
            && w'.requests[i] == w.requests[i].(phase := Diagnosing(w.requests[i].phase.row.version))
  {
  }

  lemma DiagnosisStep(w: World, i: nat, ok: bool)
    requires i < |w.requests| && w.requests[i].phase.Diagnosing? && w.requests[i].Working()
    requires w.requests[i].Item().productId in w.inventory
    ensures var w', item := Step(w, Next(i, ok)), w.requests[i].Item();
            var row := w.inventory[item.productId];
            && |w'.requests| == |w.requests|
            && (!ok ==> w'.requests[i].phase == Failed(NoStock(StatementFailed)))
            && (ok && row.quantity - row.reserved < item.quantity ==>
                  w'.requests[i].phase == Failed(NoStock(Insufficient)))
            && (ok && row.quantity - row.reserved >= item.quantity ==>
                  w'.requests[i].phase == Failed(NoStock(LockConflict)))
  {
  }

  /**
   When it loses, the second read, however much later, finds the row there with another version: the
   last fall-through of the diagnosis is never the reason.
   */
  lemma LosersFindAnotherVersion(w: World, i: nat, run: seq<Action>, later: seq<Action>)
    requires ReadThenOthers(w, i, run) && ByOthers(later, i)
    requires WritesDuring(Step(w, Next(i, true)), run, w.requests[i].Item().productId) > 0
    ensures var p := w.requests[i].Item().productId;
            var w3 := Step(Exec(Step(w, Next(i, true)), run), Next(i, true));
            var w4 := Exec(w3, later);
            && i < |w3.requests| && w3.requests[i].phase.Diagnosing?
            && i < |w4.requests| && w4.requests[i] == w3.requests[i]
            && p in w4.inventory && w4.inventory[p].version != w3.requests[i].phase.version
  {
    var p := w.requests[i].Item().productId;
    var w1 := Step(w, Next(i, true));
    assert w1.requests[i].Working() && w1.requests[i].Item().productId == p && w1.inventory == w.inventory;
    assert p in w1.inventory && w1.requests[i].phase.row == w1.inventory[p];
    hide Step, Exec, Inv, WritesDuring;
    OthersKeepMyRequest(w1, run, i);
    VersionCountsWrites(w1, run, p);
    LoserDiagnoses(Exec(w1, run), i);
    var w3 := Step(Exec(w1, run), Next(i, true));
    OthersKeepMyRequest(w3, later, i);
    VersionCountsWrites(w3, later, p);
  }

  /**
   What a reservation that lost reports, from what its second read finds, however much later: a conflict if and only
   if the row then has enough for the line, too little stock if it has not, and never that there is no row.
   Unless the read is not answered.
   */
  lemma LosersAreToldWhy(w: World, i: nat, run: seq<Action>, later: seq<Action>, ok: bool)
    requires ReadThenOthers(w, i, run) && ByOthers(later, i)
    requires WritesDuring(Step(w, Next(i, true)), run, w.requests[i].Item().productId) > 0
    ensures var item := w.requests[i].Item();
            var w4 := Exec(Step(Exec(Step(w, Next(i, true)), run), Next(i, true)), later);
            var w5 := Step(w4, Next(i, ok));
            && item.productId in w4.inventory && i < |w5.requests|
            && var row := w4.inventory[item.productId];
            && w5.requests[i].phase.Failed? && w5.requests[i].phase.error.NoStock?
            && var reason := w5.requests[i].phase.error.reason;
            && (reason == StatementFailed <==> !ok)
            && (reason == LockConflict <==> ok && row.quantity - row.reserved >= item.quantity)
            && (reason == Insufficient <==> ok && row.quantity - row.reserved < item.quantity)
  {
    var item := w.requests[i].Item();
    var w1 := Step(w, Next(i, true));
    assert w1.requests[i] == w.requests[i].(phase := w1.requests[i].phase) && w1.inventory == w.inventory;
    assert item.productId in w1.inventory && w1.requests[i].phase.row == w1.inventory[item.productId];
    hide Step, Exec, Inv, WritesDuring;
    OthersKeepMyRequest(w1, run, i);
    VersionCountsWrites(w1, run, item.productId);
    LoserDiagnoses(Exec(w1, run), i);
    var w3 := Step(Exec(w1, run), Next(i, true));
    OthersKeepMyRequest(w3, later, i);
    VersionCountsWrites(w3, later, item.productId);
    DiagnosisStep(Exec(w3, later), i, ok);
  }

  /** At most one of the reservations that read the same version of a row ever commits. */
  lemma OneWinnerPerVersion(run: seq<Action>, j: nat, k: nat)
    ensures var commits := Exec(Empty(), run).commits;
            && j < |commits| && k < |commits|
            && commits[j].product == commits[k].product && commits[j].version == commits[k].version
            ==> j == k
  {
    RunKeepsInv(Empty(), run);
  }

  // ---------- serializability of reservations ----------

  /** The quantities the given commits took of a product, in order. */
  function Quantities(commits: seq<Commit>, p: ProductId): seq<int> {
    if commits == [] then []
    else
      var c := commits[|commits| - 1];
      var before := Quantities(commits[..|commits| - 1], p);
      if c.product == p then before + [c.quantity] else before
  }

  predicate NoRestock(run: seq<Action>) {
    forall a :: a in run ==> !a.SetStock?
  }

  lemma {:induction false} ReplayedAppend(row: Row, qs: seq<int>, q: int)
    requires Replayed(row, qs).Some?
    ensures var r := Replayed(row, qs).value;
            Replayed(row, qs + [q]) ==
            if r.Available() < q then None else Some(LessBy(r, q))
    decreases qs
  {
    if qs == [] {
      assert (qs + [q])[1..] == [];
    } else {
      assert (qs + [q])[1..] == qs[1..] + [q];
      ReplayedAppend(LessBy(row, qs[0]), qs[1..], q);
    }
  }

  /** Without a restock, the rows change only by the reservation that the step commits. */
  lemma StepCommitsOneReservation(w: World, a: Action, p: ProductId)
    requires p in w.inventory && !a.SetStock?
    ensures var w' := Step(w, a);
            && p in w'.inventory && w.commits <= w'.commits
            && (w'.commits == w.commits ==> w'.inventory[p] == w.inventory[p])
            && (w'.commits != w.commits ==>
                  && |w'.commits| == |w.commits| + 1
                  && var c := w'.commits[|w.commits|];
                  && (c.product == p ==> c.quantity <= w.inventory[p].Available())
                  && w'.inventory[p] ==
                     if c.product == p then LessBy(w.inventory[p], c.quantity)
                     else w.inventory[p])
  {
  }

  lemma {:induction false} CommitsReplay(w: World, run: seq<Action>, p: ProductId)
    requires p in w.inventory && NoRestock(run)
    ensures var w' := Exec(w, run);
            && p in w'.inventory && w.commits <= w'.commits
            && Replayed(w.inventory[p], Quantities(w'.commits[|w.commits|..], p)) == Some(w'.inventory[p])
  {
    if run != [] {
      var front := run[..|run| - 1];
      CommitsReplay(w, front, p);
      var m, n := Exec(w, front), |w.commits|;
      assert run[|run| - 1] in run;
      StepCommitsOneReservation(m, run[|run| - 1], p);
      ReplayedGrows(w, m, Exec(w, run), p);
    }
  }

  lemma ReplayedGrows(w: World, m: World, w': World, p: ProductId)
    requires p in w.inventory && p in m.inventory && p in w'.inventory && w.commits <= m.commits <= w'.commits
    requires Replayed(w.inventory[p], Quantities(m.commits[|w.commits|..], p)) == Some(m.inventory[p])
    requires m.commits == w'.commits ==> w'.inventory[p] == m.inventory[p]
    requires m.commits != w'.commits ==>
               && |w'.commits| == |m.commits| + 1
               && var c := w'.commits[|m.commits|];
               && (c.product == p ==> c.quantity <= m.inventory[p].Available())
               && w'.inventory[p] ==
                  if c.product == p then LessBy(m.inventory[p], c.quantity)
                  else m.inventory[p]
    ensures Replayed(w.inventory[p], Quantities(w'.commits[|w.commits|..], p)) == Some(w'.inventory[p])
  {
    var before, after := m.commits[|w.commits|..], w'.commits[|w.commits|..];
    if m.commits == w'.commits {
      assert before == after;
    } else {
      var c := w'.commits[|m.commits|];
      assert after == before + [c];
      assert after[..|before|] == before;
      ReplayedAppend(w.inventory[p], Quantities(before, p), c.quantity);
    }
  }

  lemma {:induction false} QuantitiesArePositive(commits: seq<Commit>, p: ProductId)
    requires forall k :: 0 <= k < |commits| ==> commits[k].quantity >= 1
    ensures forall k :: 0 <= k < |Quantities(commits, p)| ==> Quantities(commits, p)[k] >= 1
  {
    if commits != [] {
      QuantitiesArePositive(commits[..|commits| - 1], p);
    }
  }

  /**
   While nobody restocks, the reservations of a product that committed in a concurrent run all
   succeed when run alone one after the other, in commit order or in any other order, and leave
   the same quantity and version.
   */
  lemma ReservationsAreSerializable(w: World, run: seq<Action>, p: ProductId)
    requires Inv(w) && p in w.inventory && NoRestock(run)
    ensures var w' := Exec(w, run);
            && p in w'.inventory && w.commits <= w'.commits
            && var taken := Quantities(w'.commits[|w.commits|..], p);
            && Replayed(w.inventory[p], taken) == Some(w'.inventory[p])
            && (forall order :: multiset(order) == multiset(taken) ==>
                  Replayed(w.inventory[p], order) == Some(w'.inventory[p]))
  {
    CommitsReplay(w, run, p);
    RunKeepsInv(w, run);
    var commits := Exec(w, run).commits[|w.commits|..];
    QuantitiesArePositive(commits, p);
    forall order | multiset(order) == multiset(Quantities(commits, p))
      ensures Replayed(w.inventory[p], order) == Some(Exec(w, run).inventory[p])
    {
      ReplayedPermutation(w.inventory[p], Quantities(commits, p), order);
    }
  }

  // ---------- orders and their totals ----------

  lemma {:induction false} AmountIsNonNegative(items: seq<CartItem>)
    requires forall k :: 0 <= k < |items| ==> items[k].quantity >= 1 && items[k].unitPrice >= 0.0
    ensures Cart.Amount(items) >= 0.0
  {
    if items != [] {
      var last := items[|items| - 1];
      AmountIsNonNegative(items[..|items| - 1]);
      assert last.unitPrice * last.quantity as real >= 0.0;
    }
  }

  lemma DiscountedInside(total: real, percent: real, discount: real)
    requires 0.0 < percent < 100.0 && discount == total * (percent / 100.0)
    ensures Discounted(total, percent) == if total - discount < 0.0 then 0.0 else total - discount
  {
  }

  lemma DiscountStaysInRange(total: real, percent: real)
    requires total >= 0.0
    ensures 0.0 <= Discounted(total, percent) <= total
    ensures Discounted(total, percent) == if 0.0 < percent < 100.0 then Coupons.ApplyDiscount(percent, total) else total
  {
    if 0.0 < percent < 100.0 {
      assert 0.0 < percent / 100.0 < 1.0;
      assert 0.0 <= total * (percent / 100.0) <= total;
    }
  }

  /**
   The order is the user's, PENDING, with one item per line of the cart, and its total is that of the cart, less the
   percentage if it lies strictly between 0 and 100.
   */
  predicate CarriesTheCart(order: Order, user: UserId, discount: real, cart: seq<CartItem>) {
    var amount := Cart.Amount(cart);
    && order.user == user && order.status == Pending && |order.items| == |cart| > 0
    && (forall k :: 0 <= k < |cart| ==>
          order.items[k] == OrderItem(cart[k].productId, cart[k].quantity, cart[k].unitPrice))
    && 0.0 <= order.total <= amount
    && order.total == if 0.0 < discount < 100.0 then amount - amount * (discount / 100.0) else amount
  }

  /** The order of a request that has handled its whole cart. */
  lemma OrderOfACart(w: World, i: nat)
    requires Inv(w) && i < |w.requests| && OutcomeOf(w.requests[i].phase) == Ordered
    ensures var r := w.requests[i];
            CarriesTheCart(OrderOf(r), r.user, r.discount, r.cart)
  {
    var r := w.requests[i];
    assert FollowsCart(r);
    assert r.cart[..|r.lines|] == r.cart;
    AmountIsNonNegative(r.cart);
    DiscountStaysInRange(r.total, r.discount);
    hide Inv;
  }

  /**
   Every order in the table, in every run, has one line per line of the cart it was made from, and its
   total is the cart's total, discounted as the coupon says when the percentage lies strictly between
   0 and 100.  The total lies between zero and the cart's total, so the clamp at zero never acts.
   */
  lemma OrdersCarryTheirCart(run: seq<Action>, i: nat)
    requires i in Exec(Empty(), run).orders
    ensures var w := Exec(Empty(), run);
            var order := w.orders[i];
            && i < |w.requests|
            && var r := w.requests[i];
            && order.user == r.user && order.status == Pending && |order.items| == |r.cart| > 0
            && (forall k :: 0 <= k < |r.cart| ==>
                  order.items[k] == OrderItem(r.cart[k].productId, r.cart[k].quantity, r.cart[k].unitPrice))
            && order.total == (if 0.0 < r.discount < 100.0 then Coupons.ApplyDiscount(r.discount, Cart.Amount(r.cart))
                               else Cart.Amount(r.cart))
            && 0.0 <= order.total <= Cart.Amount(r.cart)
  {
    RunKeepsInv(Empty(), run);
    var r := Exec(Empty(), run).requests[i];
    assert r.cart[..|r.lines|] == r.cart;
    AmountIsNonNegative(r.cart);
    DiscountStaysInRange(r.total, r.discount);
  }

  // ---------- a failed checkout keeps what it reserved ----------

  lemma {:induction false} ExecConcat(w: World, run: seq<Action>, more: seq<Action>)
    ensures Exec(w, run + more) == Exec(Exec(w, run), more)
  {
    if more == [] {
      assert run + more == run;
    } else {
      assert (run + more)[..|run + more| - 1] == run + more[..|more| - 1];
      ExecConcat(w, run, more[..|more| - 1]);
    }
  }

  lemma ExecFirst(w: World, a: Action, more: seq<Action>)
    ensures Exec(w, [a] + more) == Exec(Step(w, a), more)
  {
    ExecConcat(w, [a], more);
    assert [a][..0] == [];
  }

  predicate Fits(t: Table, item: CartItem) {
    item.productId in t ==> item.quantity <= t[item.productId].Available()
  }

  predicate AllFit(t: Table, items: seq<CartItem>) {
    items != [] ==> Fits(t, items[0]) && AllFit(t, items[1..])
  }

  /** The first line that has a stock row does not fit. */
  predicate FirstTrackedFails(t: Table, items: seq<CartItem>) {
    items != [] && if items[0].productId in t then !Fits(t, items[0]) else FirstTrackedFails(t, items[1..])
  }

  /** The statements of request i for the lines `items`, up to the first that does not fit. */
  function LoneSteps(t: Table, items: seq<CartItem>, i: nat): seq<Action> {
    if items == [] then []
    else if items[0].productId !in t then [Next(i, true)] + LoneSteps(t, items[1..], i)
    else if Fits(t, items[0]) then [Next(i, true)] + ([Next(i, true)] + LoneSteps(t, items[1..], i))
    else [Next(i, true)]
  }

  /** The request is about to read the stock of the first of `items`, whose rows are as in `t`. */
  predicate AboutToRead(w: World, i: nat, t: Table, items: seq<CartItem>) {
    && i < |w.requests|
    && |w.requests[i].lines| <= |w.requests[i].cart|
    && w.requests[i].cart[|w.requests[i].lines|..] == items
    && w.requests[i].phase == (if items == [] then Persisting else Reading)
    && Sound(w.inventory) && Cart.WellFormed(items)
    && (forall p :: p in Cart.Contents(items) ==> (p in t <==> p in w.inventory))
    && (forall p :: p in Cart.Contents(items) && p in t ==> t[p] == w.inventory[p])
  }

  /** The world with another request i. */
  function With(w: World, i: nat, r: Request): World
    requires i < |w.requests|
  {
    World(w.inventory, w.carts, w.orders, w.requests[i := r], w.supplied, w.commits)
  }

  /** The read of the next line, in every table. */
  lemma ReadStep(w: World, i: nat, ok: bool)
    requires i < |w.requests| && w.requests[i].phase.Reading? && w.requests[i].Working()
    ensures Step(w, Next(i, ok)) == With(w, i, AfterRead(w.inventory, w.requests[i], ok))
  {
  }

  /** The UPDATE of a request that takes its stock, in every table. */
  lemma ReservationStep(w: World, i: nat)
    requires i < |w.requests| && w.requests[i].Working() && Reserves(w.inventory, w.requests[i], true)
    ensures var r := w.requests[i];
            Step(w, Next(i, true)) ==
            World(Taken(w.inventory, r.Item().productId, r.Item().quantity), w.carts, w.orders,
                  w.requests[i := Handled(r, true)], w.supplied,
                  w.commits + [Commit(i, r.Item().productId, r.Item().quantity, r.phase.row.version)])
  {
  }

  /** The first of `items` is the line the request is at. */
  lemma AboutToReadFirst(w: World, i: nat, t: Table, items: seq<CartItem>)
    requires AboutToRead(w, i, t, items) && items != []
    ensures var r, p := w.requests[i], items[0].productId;
            && r.Working() && r.phase.Reading? && r.Item() == items[0]
            && (p in t <==> p in w.inventory) && (p in t ==> t[p] == w.inventory[p] && t[p].reserved == 0)
  {
    assert w.requests[i].Item() == items[0];
    assert items[0].productId in Cart.Contents(items);
  }

  /** With its first line handled, and its stock taken or not there, the request is about to read the second. */
  lemma AboutToReadNext(w: World, i: nat, t: Table, items: seq<CartItem>, held: bool, w': World)
    requires AboutToRead(w, i, t, items) && items != [] && w.requests[i].Working()
    requires w'.requests == w.requests[i := Handled(w.requests[i], held)] && Sound(w'.inventory)
    requires forall p :: p != items[0].productId ==> (p in w'.inventory <==> p in w.inventory)
    requires forall p :: p != items[0].productId && p in w.inventory ==> w'.inventory[p] == w.inventory[p]
    ensures AboutToRead(w', i, t, items[1..])
  {
    var r := w.requests[i];
    assert r.cart[|r.lines| + 1..] == items[1..];
    assert Cart.WellFormed(items[1..]) && items[0].productId !in Cart.Contents(items[1..]);
    hide Cart.WellFormed;
  }

  /** One line alone: its one or two statements bring the request to the next line. */
  lemma LoneLine(w: World, i: nat, t: Table, items: seq<CartItem>)
    requires AboutToRead(w, i, t, items) && items != [] && Fits(t, items[0])
    ensures var p := items[0].productId;
            var w1 := Step(w, Next(i, true));
            var w' := if p in t then Step(w1, Next(i, true)) else w1;
            && AboutToRead(w', i, t, items[1..])
            && w'.inventory == if p in t then Taken(w.inventory, p, items[0].quantity) else w.inventory
  {
    var r, p := w.requests[i], items[0].productId;
    assert Sound(w.inventory);
    AboutToReadFirst(w, i, t, items);
    hide Step, AboutToRead, Handled;
    ReadStep(w, i, true);
    var w1 := Step(w, Next(i, true));
    if p in t {
      assert w1 == With(w, i, r.(phase := Reserving(t[p])));
      ReservationStep(w1, i);
      var w2 := Step(w1, Next(i, true));
      HandledAfterReserving(r, t[p]);
      assert w2.requests == w.requests[i := Handled(r, true)];
      AboutToReadNext(w, i, t, items, true, w2);
    } else {
      AboutToReadNext(w, i, t, items, false, w1);
    }
  }

  lemma HandledAfterReserving(r: Request, row: Row)
    requires r.Working()
    ensures r.(phase := Reserving(row)).Working() && Handled(r.(phase := Reserving(row)), true) == Handled(r, true)
  {
  }

  /**
   What becomes of a request alone, from w to w': it goes through exactly when every line fits, no version goes
   back, and if it fails the stock is as it was exactly when the first tracked line did not fit.
   */
  predicate LoneEnds(w: World, w': World, i: nat, t: Table, items: seq<CartItem>) {
    && i < |w'.requests|
    && w'.requests[i].phase == (if AllFit(t, items) then Persisting else Failed(NoStock(Insufficient)))
    && (forall p :: p in w.inventory ==> p in w'.inventory && w.inventory[p].version <= w'.inventory[p].version)
    && (!AllFit(t, items) ==> (w'.inventory == w.inventory <==> FirstTrackedFails(t, items)))
  }

  lemma LoneLineFails(w: World, i: nat, t: Table, items: seq<CartItem>)
    requires AboutToRead(w, i, t, items) && items != [] && !Fits(t, items[0])
    ensures LoneEnds(w, Step(w, Next(i, true)), i, t, items)
  {
    AboutToReadFirst(w, i, t, items);
    ReadStep(w, i, true);
    hide Step, AboutToRead;
  }

  /** A line that fits, before what becomes of the others. */
  lemma LoneLineFits(w: World, w1: World, w': World, i: nat, t: Table, items: seq<CartItem>)
    requires items != [] && Fits(t, items[0]) && LoneEnds(w1, w', i, t, items[1..])
    requires var p := items[0].productId;
             && (p in t ==> p in w.inventory)
             && w1.inventory == if p in t then Taken(w.inventory, p, items[0].quantity) else w.inventory
    ensures LoneEnds(w, w', i, t, items)
  {
    hide Fits;
    var p := items[0].productId;
    if p in t {
      assert w.inventory[p].version < w1.inventory[p].version <= w'.inventory[p].version;
      forall q | q in w.inventory
        ensures q in w'.inventory && w.inventory[q].version <= w'.inventory[q].version
      {
        assert q in w1.inventory && w.inventory[q].version <= w1.inventory[q].version;
      }
    }
  }

  lemma {:induction false} LoneRun(w: World, i: nat, t: Table, items: seq<CartItem>)
    requires AboutToRead(w, i, t, items)
    ensures LoneEnds(w, Exec(w, LoneSteps(t, items, i)), i, t, items)
    decreases items
  {
    if items == [] {
    } else if Fits(t, items[0]) {
      hide Step, Exec, AboutToRead, Fits, LoneEnds;
      var next, rest := Next(i, true), LoneSteps(t, items[1..], i);
      var w1 := Step(w, next);
      AboutToReadFirst(w, i, t, items);
      LoneLine(w, i, t, items);
      if items[0].productId in t {
        var w2 := Step(w1, next);
        LoneRun(w2, i, t, items[1..]);
        ExecFirst(w1, next, rest);
        ExecFirst(w, next, [next] + rest);
        LoneLineFits(w, w2, Exec(w2, rest), i, t, items);
      } else {
        LoneRun(w1, i, t, items[1..]);
        ExecFirst(w, next, rest);
        LoneLineFits(w, w1, Exec(w1, rest), i, t, items);
      }
    } else {
      LoneLineFails(w, i, t, items);
      ExecAppend(w, [], Next(i, true));
      assert [] + [Next(i, true)] == [Next(i, true)];
      hide Step, AboutToRead, Fits, LoneEnds;
    }
  }

  /**
   Checkout is not all or nothing.  Even a checkout that runs alone with every statement answered
   fails without touching the stock if and only if the first line with a stock row is the one
   that does not fit; it does not fail if and only if every line fits.
   */
  lemma AllOrNothingExactlyWhen(w: World, user: UserId, discount: real)
    requires Inv(w) && Cart.Stored(w.carts, user) != []
    ensures var items := Cart.Stored(w.carts, user);
            var i := |w.requests|;
            var end := Exec(w, [Arrive(user, discount, true)] + LoneSteps(w.inventory, items, i));
            && i < |end.requests|
            && (end.requests[i].phase.Failed? || end.requests[i].phase.Persisting?)
            && (end.requests[i].phase.Persisting? <==> AllFit(w.inventory, items))
            && ((end.requests[i].phase.Failed? ==> end.inventory == w.inventory) <==>
                AllFit(w.inventory, items) || FirstTrackedFails(w.inventory, items))
  {
    var items := Cart.Stored(w.carts, user);
    ExecFirst(w, Arrive(user, discount, true), LoneSteps(w.inventory, items, |w.requests|));
    assert AboutToRead(Step(w, Arrive(user, discount, true)), |w.requests|, w.inventory, items);
    assert Step(w, Arrive(user, discount, true)).inventory == w.inventory;
    hide Step, Exec, AboutToRead, Inv, LoneSteps;
    LoneRun(Step(w, Arrive(user, discount, true)), |w.requests|, w.inventory, items);
  }

  /** A failed request stays as it is. */
  lemma AbortedStep(w: World, a: Action, p: ProductId)
    requires Inv(w)
    ensures Held(w.requests, p, Aborted) <= Held(Step(w, a).requests, p, Aborted)
  {
    if a.Next? && a.i < |w.requests| {
      var moved := Moved(w, w.requests[a.i], a.ok);
      HeldUpdate(w.requests, a.i, moved, p, Aborted);
      MovedFollowsCart(w, w.requests[a.i], a.ok);
      HeldLinesNonNegative(moved, moved.lines, p);
    } else if a.Arrive? {
      var r := Arrived(w.carts, a.user, a.discount, a.ok);
      assert (w.requests + [r])[..|w.requests|] == w.requests;
    }
  }

  /** Stock held by aborted checkouts never comes back. */
  lemma {:induction false} AbortedStockIsNeverReturned(w: World, run: seq<Action>, p: ProductId)
    requires Inv(w)
    ensures Held(w.requests, p, Aborted) <= Held(Exec(w, run).requests, p, Aborted)
  {
    if run != [] {
      AbortedStockIsNeverReturned(w, run[..|run| - 1], p);
      RunKeepsInv(w, run[..|run| - 1]);
      AbortedStep(Exec(w, run[..|run| - 1]), run[|run| - 1], p);
    }
  }

  function TwoLineCart(p: ProductId, q: ProductId): seq<CartItem> {
    [Cart.CartItem(p, "first", 1.0, 1), Cart.CartItem(q, "second", 1.0, 1)]
  }

  /** Two products on sale, one of them out of stock, and a cart with one unit of each. */
  function Shelf(user: UserId, p: ProductId, q: ProductId): World {
    World(map[p := Row(1, 0, 1), q := Row(0, 0, 1)], map[user := TwoLineCart(p, q)], map[], [], map[p := 1, q := 0], [])
  }

  lemma ShelfIsReachable(user: UserId, p: ProductId, q: ProductId)
    requires p != q
    ensures Exec(Empty(), [SetStock(p, 1), SetStock(q, 0), SaveCart(user, TwoLineCart(p, q))]) == Shelf(user, p, q)
  {
    var run := [SetStock(p, 1), SetStock(q, 0), SaveCart(user, TwoLineCart(p, q))];
    var items := TwoLineCart(p, q);
    assert items[1..] == [items[1]] && items[1..][1..] == [];
    assert Exec(Empty(), run[..1]) == Step(Empty(), run[0]) by { assert run[..1][..0] == []; }
    assert Exec(Empty(), run[..2]) == Step(Exec(Empty(), run[..1]), run[1]) by { assert run[..2][..1] == run[..1]; }
    assert Cart.Contents([items[1]]) == map[q := 1];
    assert Exec(Empty(), run) == Step(Exec(Empty(), run[..2]), run[2]);
    assert Exec(Empty(), run[..1]) == World(map[p := Row(1, 0, 1)], map[], map[], [], map[p := 1], []);
    assert Exec(Empty(), run[..2]) == Shelf(user, p, q).(carts := map[]);
    assert Cart.WellFormed(items);
    assert Exec(Empty(), run).carts == map[user := items];
  }

  function ShelfRequest(user: UserId, p: ProductId, q: ProductId): Request {
    Request(user, 0.0, TwoLineCart(p, q), [], 0.0, Reading)
  }

  /** The request of that cart has read the row of the first line. */
  lemma FirstLineIsRead(user: UserId, p: ProductId, q: ProductId)
    requires p != q
    ensures Exec(Shelf(user, p, q), [Arrive(user, 0.0, true), Next(0, true)]) ==
            Shelf(user, p, q).(requests := [FirstLineRequest(user, p, q)])
  {
    var run := [Arrive(user, 0.0, true), Next(0, true)];
    var w0, r := Shelf(user, p, q), ShelfRequest(user, p, q);
    assert Exec(w0, run[..1]) == w0.(requests := [r]) by { assert run[..1][..0] == []; }
  }

  /** The request of that cart, about to reserve its first line, and then done with it. */
  function FirstLineRequest(user: UserId, p: ProductId, q: ProductId): Request {
    ShelfRequest(user, p, q).(phase := Reserving(Row(1, 0, 1)))
  }

  function FirstLineDone(user: UserId, p: ProductId, q: ProductId): Request {
    ShelfRequest(user, p, q).(lines := [Line(TwoLineCart(p, q)[0], true)], total := 1.0)
  }

  lemma FirstLineIsHandled(user: UserId, p: ProductId, q: ProductId)
    ensures var r := FirstLineRequest(user, p, q);
            && r.Working() && r.Item().productId == p && r.Item().quantity == 1
            && Handled(r, true) == FirstLineDone(user, p, q)
  {
    assert FirstLineRequest(user, p, q).lines + [Line(TwoLineCart(p, q)[0], true)] == FirstLineDone(user, p, q).lines;
  }

  lemma FirstLineFits(user: UserId, p: ProductId, q: ProductId)
    requires p != q
    ensures Reserves(Shelf(user, p, q).inventory, FirstLineRequest(user, p, q), true)
  {
    FirstLineIsHandled(user, p, q);
  }

  lemma FirstLineIsReserved(user: UserId, p: ProductId, q: ProductId)
    requires p != q
    ensures var w := Step(Shelf(user, p, q).(requests := [FirstLineRequest(user, p, q)]), Next(0, true));
            && w.requests == [FirstLineDone(user, p, q)]
            && w.orders == map[] && Supplied(w, p) == 1 && Quantity(w, p) == 0
            && q in w.inventory && w.inventory[q] == Row(0, 0, 1)
  {
    hide Step, Handled, Reserves, FirstLineRequest, FirstLineDone;
    FirstLineIsHandled(user, p, q);
    FirstLineFits(user, p, q);
    ReservationStep(Shelf(user, p, q).(requests := [FirstLineRequest(user, p, q)]), 0);
  }

  /** The request once the second line has turned out not to fit. */
  function StrandedRequest(user: UserId, p: ProductId, q: ProductId): Request {
    Request(user, 0.0, TwoLineCart(p, q), [Line(TwoLineCart(p, q)[0], true)], 1.0, Failed(NoStock(Insufficient)))
  }

  lemma SecondLineFails(w: World, user: UserId, p: ProductId, q: ProductId)
    requires w.requests == [FirstLineDone(user, p, q)]
    requires q in w.inventory && w.inventory[q] == Row(0, 0, 1)
    ensures Step(w, Next(0, true)) == w.(requests := [StrandedRequest(user, p, q)])
  {
    assert w.requests[0].Item() == TwoLineCart(p, q)[1];
  }

  lemma StrandedHolds(user: UserId, p: ProductId, q: ProductId)
    ensures Held([StrandedRequest(user, p, q)], p, Aborted) == 1
  {
    var r := StrandedRequest(user, p, q);
    assert HeldLines(r.lines, p) == 1 by { assert r.lines[..0] == []; }
    assert Held([r], p, Aborted) == HeldBy(r, p, Aborted) by { assert [r][..0] == []; }
  }

  /** A concrete leak: the second line is out of stock, and the unit of the first stays reserved for no order. */
  lemma LeakIsReachable(user: UserId, p: ProductId, q: ProductId)
    requires p != q
    ensures var run := [Arrive(user, 0.0, true), Next(0, true)] + [Next(0, true)] + [Next(0, true)];
            var w := Exec(Shelf(user, p, q), run);
            && |w.requests| == 1 && w.requests[0].phase == Failed(NoStock(Insufficient)) && w.orders == map[]
            && Supplied(w, p) == 1 && Quantity(w, p) == 0 && Held(w.requests, p, Aborted) == 1
  {
    hide Step, Exec, Shelf, Held;
    var w0, run := Shelf(user, p, q), [Arrive(user, 0.0, true), Next(0, true)];
    FirstLineIsRead(user, p, q);
    ExecAppend(w0, run, Next(0, true));
    FirstLineIsReserved(user, p, q);
    ExecAppend(w0, run + [Next(0, true)], Next(0, true));
    SecondLineFails(Exec(w0, run + [Next(0, true)]), user, p, q);
    StrandedHolds(user, p, q);
  }

  lemma ExecAppend(w: World, run: seq<Action>, a: Action)
    ensures Exec(w, run + [a]) == Step(Exec(w, run), a)
  {
    assert (run + [a])[..|run|] == run;
  }
}
