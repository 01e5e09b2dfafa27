/**
 Checkouts of one user that overlap (internal/order/service.go): each reads the cart when it arrives and clears
 whatever is stored when it ends, so a cart can be ordered twice, and lines added in between are lost.
 */
module CheckoutOverlaps {
  import opened Basics
  import opened Inventory
  import opened Orders
  import opened Checkout
  import opened CheckoutTheorems
  import Cart

  /** The user and the cart that a request has read stay what they are. */
  lemma {:induction false} RequestKeepsItsCart(w: World, run: seq<Action>, i: nat)
    requires i < |w.requests|
    ensures var w' := Exec(w, run);
            && |w.requests| <= |w'.requests|
            && w'.requests[i].cart == w.requests[i].cart && w'.requests[i].user == w.requests[i].user
  {
    if run != [] {
      RequestKeepsItsCart(w, run[..|run| - 1], i);
    }
  }

  /** The order has one item per line of the cart. */
  predicate OrdersTheCart(order: Order, cart: seq<CartItem>) {
    && |order.items| == |cart|
    && forall k :: 0 <= k < |cart| ==>
         order.items[k] == OrderItem(cart[k].productId, cart[k].quantity, cart[k].unitPrice)
  }

  /** The stock reads of the next n lines of request i, which fail: the lines are ordered without a reservation. */
  function Skips(i: nat, n: nat): seq<Action> {
    if n == 0 then [] else [Next(i, false)] + Skips(i, n - 1)
  }

  /** Once its reads have failed, the request is about to persist its order; nothing else has changed. */
  lemma {:induction false} SkipAll(w: World, i: nat)
    requires i < |w.requests| && w.requests[i].phase.Reading? && w.requests[i].Working()
    ensures var r := w.requests[i];
            var w' := Exec(w, Skips(i, |r.cart| - |r.lines|));
            && i < |w'.requests| && w' == With(w, i, w'.requests[i]) && w'.requests[i].phase == Persisting
            && w'.requests[i].cart == r.cart && w'.requests[i].user == r.user
    decreases |w.requests[i].cart| - |w.requests[i].lines|
  {
    hide Step;
    var r := w.requests[i];
    var n := |r.cart| - |r.lines|;
    ReadStep(w, i, false);
    ExecFirst(w, Next(i, false), Skips(i, n - 1));
    var w1 := With(w, i, Handled(r, false));
    if n > 1 {
      SkipAll(w1, i);
    } else {
      assert Skips(i, 0) == [] && Exec(w1, []) == w1;
    }
  }

  /** The statements of request i up to its order, with failing stock reads. */
  function ToOrder(i: nat, n: nat): seq<Action> {
    Skips(i, n) + [Next(i, true)]
  }

  /** From w to w', request i has placed an order of its cart, and nothing else has happened. */
  predicate HasOrdered(w: World, w': World, i: nat) {
    && i < |w.requests| && i in w'.orders && |w'.requests| == |w.requests|
    && OrdersTheCart(w'.orders[i], w.requests[i].cart)
    && w'.orders == w.orders[i := w'.orders[i]] && w'.carts == w.carts
    && w'.requests == w.requests[i := w'.requests[i]]
    && w'.requests[i].phase == Clearing && w'.requests[i].user == w.requests[i].user
  }

  lemma Persists(w: World, i: nat)
    requires Inv(w) && i < |w.requests| && w.requests[i].phase == Persisting
    ensures HasOrdered(w, Step(w, Next(i, true)), i)
  {
    assert FollowsCart(w.requests[i]);
  }

  lemma LinesAreOfTheCart(w: World, i: nat)
    requires Inv(w) && i < |w.requests|
    ensures |w.requests[i].lines| <= |w.requests[i].cart|
  {
    assert FollowsCart(w.requests[i]);
  }

  lemma EndsInAnOrder(w: World, i: nat)
    requires Inv(w) && i < |w.requests| && w.requests[i].phase.Reading?
    ensures var r := w.requests[i];
            var w' := Exec(w, ToOrder(i, |r.cart| - |r.lines|));
            Inv(w') && HasOrdered(w, w', i)
  {
    var r := w.requests[i];
    var n := |r.cart| - |r.lines|;
    assert FollowsCart(r);
    hide Step, Exec, Inv, Handled;
    SkipAll(w, i);
    RunKeepsInv(w, Skips(i, n));
    Persists(Exec(w, Skips(i, n)), i);
    ExecAppend(w, Skips(i, n), Next(i, true));
    RunKeepsInv(w, ToOrder(i, n));
  }

  lemma {:induction false} EmptyCartStaysRefused(w: World, run: seq<Action>, i: nat)
    requires i < |w.requests| && w.requests[i].phase == Failed(EmptyCart)
    ensures i < |Exec(w, run).requests| && Exec(w, run).requests[i].phase == Failed(EmptyCart)
  {
    if run != [] {
      EmptyCartStaysRefused(w, run[..|run| - 1], i);
    }
  }

  predicate Ordered(w: World, i: nat) {
    i in w.orders
  }

  lemma NeverOrdered(w: World, run: seq<Action>, i: nat)
    requires Inv(w) && i < |w.requests| && w.requests[i].phase == Failed(EmptyCart)
    ensures !Ordered(Exec(w, run), i)
  {
    EmptyCartStaysRefused(w, run, i);
    RunKeepsInv(w, run);
    assert OrdersOk(Exec(w, run));
  }

  lemma ArrivalReads(w: World, user: UserId, discount: real)
    requires Inv(w)
    ensures var i, w1, cart := |w.requests|, Step(w, Arrive(user, discount, true)), Cart.Stored(w.carts, user);
            && Inv(w1) && |w1.requests| == i + 1
            && w1.orders == w.orders && w1.carts == w.carts && w1.inventory == w.inventory
            && w1.requests[i].phase == (if cart == [] then Failed(EmptyCart) else Reading)
            && w1.requests[i] == Request(user, discount, cart, [], 0.0, w1.requests[i].phase)
            && forall j :: 0 <= j < i ==> w1.requests[j] == w.requests[j]
  {
    StepKeepsInv(w, Arrive(user, discount, true));
    hide Inv;
  }

  /** A checkout that arrives now can end in an order if and only if the user has a cart stored now. */
  lemma ArrivalOrdersExactlyWhenCartIsStored(w: World, user: UserId, discount: real)
    requires Inv(w)
    ensures (exists run :: Ordered(Exec(Step(w, Arrive(user, discount, true)), run), |w.requests|))
            <==> Cart.Stored(w.carts, user) != []
  {
    hide Step, Exec, Inv, ToOrder;
    var i, w1 := |w.requests|, Step(w, Arrive(user, discount, true));
    ArrivalReads(w, user, discount);
    if Cart.Stored(w.carts, user) == [] {
      forall run ensures !Ordered(Exec(w1, run), i) {
        NeverOrdered(w1, run, i);
      }
    } else {
      var n := |Cart.Stored(w.carts, user)|;
      EndsInAnOrder(w1, i);
      assert Ordered(Exec(w1, ToOrder(i, n)), i);
    }
  }

  /** Two requests of the user arrive before either has ordered. */
  function Overlap(w: World, user: UserId): World {
    Step(Step(w, Arrive(user, 0.0, true)), Arrive(user, 0.0, true))
  }

  lemma OverlapReadsTwice(w: World, user: UserId)
    requires Inv(w) && Cart.Stored(w.carts, user) != []
    ensures var i, w2, cart := |w.requests|, Overlap(w, user), Cart.Stored(w.carts, user);
            && Inv(w2) && |w2.requests| == i + 2 && w2.inventory == w.inventory
            && w2.requests[i] == w2.requests[i + 1] == Request(user, 0.0, cart, [], 0.0, Reading)
  {
    hide Step, Inv;
    ArrivalReads(w, user, 0.0);
    ArrivalReads(Step(w, Arrive(user, 0.0, true)), user, 0.0);
  }

  /** Two requests that have read carts of n lines order them one after the other. */
  lemma BothOrder(w: World, i: nat, n: nat)
    requires Inv(w) && i + 1 < |w.requests|
    requires w.requests[i].phase.Reading? && |w.requests[i].cart| - |w.requests[i].lines| == n
    requires w.requests[i + 1].phase.Reading? && |w.requests[i + 1].cart| - |w.requests[i + 1].lines| == n
    ensures var w' := Exec(Exec(w, ToOrder(i, n)), ToOrder(i + 1, n));
            && i in w'.orders && OrdersTheCart(w'.orders[i], w.requests[i].cart)
            && i + 1 in w'.orders && OrdersTheCart(w'.orders[i + 1], w.requests[i + 1].cart)
  {
    hide Step, Exec, Inv, ToOrder, OrdersTheCart;
    EndsInAnOrder(w, i);
    var w1 := Exec(w, ToOrder(i, n));
    assert w1.requests[i + 1] == w.requests[i + 1];
    EndsInAnOrder(w1, i + 1);
  }

  /** From every state in which the user has a cart: two overlapping checkouts both order it. */
  lemma OverlappingCheckoutsOrderTheCartTwice(w: World, user: UserId) returns (run: seq<Action>)
    requires Inv(w) && Cart.Stored(w.carts, user) != []
    ensures var w', i, cart := Exec(Overlap(w, user), run), |w.requests|, Cart.Stored(w.carts, user);
            && i in w'.orders && OrdersTheCart(w'.orders[i], cart)
            && i + 1 in w'.orders && OrdersTheCart(w'.orders[i + 1], cart)
  {
    var i, n, w2 := |w.requests|, |Cart.Stored(w.carts, user)|, Overlap(w, user);
    OverlapReadsTwice(w, user);
    hide *;
    BothOrder(w2, i, n);
    run := ToOrder(i, n) + ToOrder(i + 1, n);
    ExecConcat(w2, ToOrder(i, n), ToOrder(i + 1, n));
  }

  // ---------- answered reads: stock decides ----------

  /** Every line that has a stock row fits twice. */
  predicate AllFitTwice(t: Table, items: seq<CartItem>) {
    forall k :: 0 <= k < |items| && items[k].productId in t ==>
      2 * items[k].quantity <= t[items[k].productId].Available()
  }

  lemma {:induction false} AllFitMeans(t: Table, items: seq<CartItem>)
    ensures AllFit(t, items) <==> forall k :: 0 <= k < |items| ==> Fits(t, items[k])
  {
    if items != [] {
      AllFitMeans(t, items[1..]);
      hide Fits;
      assert forall k :: 0 < k < |items| ==> items[k] == items[1..][k - 1];
      assert forall k :: 0 <= k < |items| - 1 ==> items[1..][k] == items[k + 1];
    }
  }

  /** The stock rows once the lines `items` have been reserved. */
  predicate ReservedOnce(t: Table, items: seq<CartItem>, t': Table) {
    && t.Keys == t'.Keys
    && (forall p :: p in t && p !in Cart.Contents(items) ==> t'[p] == t[p])
    && (forall p :: p in t && p in Cart.Contents(items) ==> t'[p] == LessBy(t[p], Cart.Contents(items)[p]))
  }

  /** After one more line. */
  lemma ReservedOneMore(t: Table, items: seq<CartItem>, t1: Table, t': Table)
    requires items != [] && Cart.WellFormed(items)
    requires var p := items[0].productId; t1 == if p in t then Taken(t, p, items[0].quantity) else t
    requires ReservedOnce(t1, items[1..], t')
    ensures ReservedOnce(t, items, t')
  {
    assert items[0].productId !in Cart.Contents(items[1..]);
  }

  /** What a request that runs alone, and fits, leaves of the stock. */
  lemma {:induction false} LoneRunReserves(w: World, i: nat, t: Table, items: seq<CartItem>)
    requires AboutToRead(w, i, t, items) && AllFit(t, items)
    ensures ReservedOnce(w.inventory, items, Exec(w, LoneSteps(t, items, i)).inventory)
    decreases items
  {
    if items != [] {
      assert Cart.WellFormed(items);
      hide Step, Exec, AboutToRead, Fits, ReservedOnce;
      var next, rest := Next(i, true), LoneSteps(t, items[1..], i);
      var w1 := Step(w, next);
      AboutToReadFirst(w, i, t, items);
      LoneLine(w, i, t, items);
      if items[0].productId in t {
        var w2 := Step(w1, next);
        LoneRunReserves(w2, i, t, items[1..]);
        ExecFirst(w1, next, rest);
        ExecFirst(w, next, [next] + rest);
        ReservedOneMore(w.inventory, items, w2.inventory, Exec(w2, rest).inventory);
      } else {
        LoneRunReserves(w1, i, t, items[1..]);
        ExecFirst(w, next, rest);
        ReservedOneMore(w.inventory, items, w1.inventory, Exec(w1, rest).inventory);
      }
    }
  }

  /** Lines that fitted fit again exactly when each of them fits twice. */
  lemma FitAgainExactlyWhenTwice(t: Table, items: seq<CartItem>, t': Table)
    requires Cart.WellFormed(items) && ReservedOnce(t, items, t')
    ensures AllFit(t', items) <==> AllFitTwice(t, items)
  {
    AllFitMeans(t', items);
    Cart.WellFormedMeans(items);
    hide AllFit, Cart.WellFormed, Cart.Contents;
    forall k | 0 <= k < |items|
      ensures Fits(t', items[k]) <==>
              (items[k].productId in t ==> 2 * items[k].quantity <= t[items[k].productId].Available())
    {
      assert items[k].productId in Cart.Contents(items);
    }
  }

  lemma FitTwiceFitOnce(t: Table, items: seq<CartItem>)
    requires Cart.WellFormed(items) && AllFitTwice(t, items)
    ensures AllFit(t, items)
  {
    AllFitMeans(t, items);
    Cart.WellFormedMeans(items);
  }

  /** The statements of request i alone, all answered, up to its order. */
  function LoneCheckout(t: Table, items: seq<CartItem>, i: nat): seq<Action> {
    LoneSteps(t, items, i) + [Next(i, true)]
  }

  lemma {:induction false} LoneStepsAreItsOwn(t: Table, items: seq<CartItem>, i: nat, j: nat)
    requires i != j
    ensures ByOthers(LoneSteps(t, items, i), j)
  {
    if items != [] {
      LoneStepsAreItsOwn(t, items[1..], i, j);
    }
  }

  /** A request that has failed, or is about to persist, does not touch the stock. */
  lemma LastStep(w: World, i: nat)
    requires i < |w.requests| && (w.requests[i].phase == Persisting || w.requests[i].phase.Failed?)
    ensures var w' := Step(w, Next(i, true));
            && w'.inventory == w.inventory
            && (w.requests[i].phase.Failed? ==> |w'.requests| == |w.requests| && w'.requests[i] == w.requests[i])
  {
  }

  lemma StartsAlone(w: World, i: nat)
    requires Inv(w) && i < |w.requests| && w.requests[i].phase == Reading && w.requests[i].lines == []
    requires w.requests[i].cart != [] && Cart.WellFormed(w.requests[i].cart)
    ensures AboutToRead(w, i, w.inventory, w.requests[i].cart)
  {
    assert w.requests[i].cart[0..] == w.requests[i].cart;
    hide Cart.WellFormed;
  }

  /** Alone, with every statement answered, a request orders the cart it has read if and only if every line fits. */
  lemma LoneCheckoutOrders(w: World, i: nat)
    requires Inv(w) && i < |w.requests| && w.requests[i].phase == Reading && w.requests[i].lines == []
    requires w.requests[i].cart != [] && Cart.WellFormed(w.requests[i].cart)
    ensures var cart := w.requests[i].cart;
            var w' := Exec(w, LoneCheckout(w.inventory, cart, i));
            && Inv(w') && i < |w'.requests| && (i in w'.orders <==> AllFit(w.inventory, cart))
            && (i in w'.orders ==>
                  OrdersTheCart(w'.orders[i], cart) && ReservedOnce(w.inventory, cart, w'.inventory))
  {
    hide Step, Exec, Inv, LoneSteps, AboutToRead, AllFit, OrdersTheCart, ReservedOnce, Cart.WellFormed;
    var t, cart := w.inventory, w.requests[i].cart;
    var steps := LoneSteps(t, cart, i);
    var w1 := Exec(w, steps);
    StartsAlone(w, i);
    LoneRun(w, i, t, cart);
    RequestKeepsItsCart(w, steps, i);
    RunKeepsInv(w, steps);
    ExecAppend(w, steps, Next(i, true));
    RunKeepsInv(w, LoneCheckout(t, cart, i));
    LastStep(w1, i);
    if AllFit(t, cart) {
      LoneRunReserves(w, i, t, cart);
      Persists(w1, i);
    } else {
      FailedHasNoOrder(Step(w1, Next(i, true)), i);
    }
  }

  lemma FailedHasNoOrder(w: World, i: nat)
    requires Inv(w) && i < |w.requests| && w.requests[i].phase.Failed?
    ensures i !in w.orders
  {
    assert OrdersOk(w);
  }

  /** Two requests of the user have arrived; the first goes on alone to its end, and then the second. */
  function OneAfterTheOther(w: World, user: UserId): World {
    var i, cart, w2 := |w.requests|, Cart.Stored(w.carts, user), Overlap(w, user);
    var w3 := Exec(w2, LoneCheckout(w2.inventory, cart, i));
    Exec(w3, LoneCheckout(w3.inventory, cart, i + 1))
  }

  /**
   Two overlapping checkouts that go on one after the other, with every statement answered, both order the cart
   if and only if every line that has a stock row fits twice.
   */
  lemma BothOrderExactlyWhenAllFitTwice(w: World, user: UserId)
    requires Inv(w) && Cart.Stored(w.carts, user) != []
    ensures var w', i, cart := OneAfterTheOther(w, user), |w.requests|, Cart.Stored(w.carts, user);
            && (i in w'.orders && i + 1 in w'.orders <==> AllFitTwice(w.inventory, cart))
            && (i in w'.orders ==> OrdersTheCart(w'.orders[i], cart))
            && (i + 1 in w'.orders ==> OrdersTheCart(w'.orders[i + 1], cart))
  {
    var i, cart, w2 := |w.requests|, Cart.Stored(w.carts, user), Overlap(w, user);
    assert Cart.WellFormed(cart) by { assert CartsOk(w); }
    OverlapReadsTwice(w, user);
    hide Step, Exec, Inv, Overlap, LoneSteps, AllFit, OrdersTheCart, ReservedOnce, Cart.WellFormed, AllFitTwice;
    var first := LoneCheckout(w2.inventory, cart, i);
    var w3 := Exec(w2, first);
    LoneCheckoutOrders(w2, i);
    LoneCheckoutIsItsOwn(w2.inventory, cart, i, i + 1);
    OthersKeepMyRequest(w2, first, i + 1);
    var second := LoneCheckout(w3.inventory, cart, i + 1);
    LoneCheckoutOrders(w3, i + 1);
    LoneCheckoutIsItsOwn(w3.inventory, cart, i + 1, i);
    OtherRunKeepsOrder(w3, second, i);
    if AllFit(w.inventory, cart) {
      FitAgainExactlyWhenTwice(w.inventory, cart, w3.inventory);
    } else if AllFitTwice(w.inventory, cart) {
      FitTwiceFitOnce(w.inventory, cart);
    }
  }

  lemma LoneCheckoutIsItsOwn(t: Table, items: seq<CartItem>, i: nat, j: nat)
    requires i != j
    ensures ByOthers(LoneCheckout(t, items, i), j)
  {
    LoneStepsAreItsOwn(t, items, i, j);
  }

  /** What others do neither makes nor changes the order of a request. */
  lemma {:induction false} OtherRunKeepsOrder(w: World, run: seq<Action>, i: nat)
    requires ByOthers(run, i)
    ensures i in Exec(w, run).orders <==> i in w.orders
    ensures i in w.orders ==> Exec(w, run).orders[i] == w.orders[i]
  {
    if run != [] {
      OtherRunKeepsOrder(w, run[..|run| - 1], i);
      assert run[|run| - 1] in run;
    }
  }

  // ---------- what the clear drops ----------

  lemma ClearStep(w: World, i: nat)
    requires i < |w.requests| && w.requests[i].phase == Clearing
    ensures var w' := Step(w, Next(i, true));
            w'.carts == w.carts - {w.requests[i].user} && w'.orders == w.orders
  {
  }

  predicate NoSaves(run: seq<Action>, user: UserId) {
    forall a :: a in run && a.SaveCart? ==> a.user != user
  }

  /** A statement keeps the stored cart of the user, or clears it. */
  lemma StepKeepsOrClears(w: World, a: Action, user: UserId)
    requires a.SaveCart? ==> a.user != user
    ensures var now := Cart.Stored(Step(w, a).carts, user);
            now == Cart.Stored(w.carts, user) || now == []
  {
  }

  lemma {:induction false} RunKeepsOrClears(w: World, run: seq<Action>, user: UserId)
    requires NoSaves(run, user)
    ensures var now := Cart.Stored(Exec(w, run).carts, user);
            now == Cart.Stored(w.carts, user) || now == []
  {
    if run != [] {
      RunKeepsOrClears(w, run[..|run| - 1], user);
      assert run[|run| - 1] in run;
      StepKeepsOrClears(Exec(w, run[..|run| - 1]), run[|run| - 1], user);
    }
  }

  /** What is stored for the user of request i is nothing, or the cart that the request has read. */
  predicate StoredIsItsOwn(w: World, i: nat)
    requires i < |w.requests|
  {
    var stored := Cart.Stored(w.carts, w.requests[i].user);
    stored == [] || stored == w.requests[i].cart
  }

  /** If request i is about to clear the cart, the clear drops nothing but what the request has ordered. */
  predicate DropsOnlyItsOwn(w: World, i: nat) {
    i < |w.requests| && w.requests[i].phase == Clearing ==> StoredIsItsOwn(w, i)
  }

  /**
   From a request that is reading stock, in every continuation in which nobody saves the user's cart: its clear
   drops only what it orders, if and only if nothing else is stored already.
   */
  lemma ClearDropsOnlyItsOwnExactlyWhen(w: World, i: nat)
    requires Inv(w) && i < |w.requests| && w.requests[i].phase == Reading
    ensures (forall run :: NoSaves(run, w.requests[i].user) ==> DropsOnlyItsOwn(Exec(w, run), i))
            <==> StoredIsItsOwn(w, i)
  {
    hide Step, Exec, Inv, ToOrder;
    var user := w.requests[i].user;
    LinesAreOfTheCart(w, i);
    if StoredIsItsOwn(w, i) {
      forall run | NoSaves(run, user) ensures DropsOnlyItsOwn(Exec(w, run), i) {
        RunKeepsOrClears(w, run, user);
        RequestKeepsItsCart(w, run, i);
      }
    } else {
      var run := ToOrder(i, |w.requests[i].cart| - |w.requests[i].lines|);
      EndsInAnOrder(w, i);
      RequestKeepsItsCart(w, run, i);
      ToOrderSavesNothing(i, |w.requests[i].cart| - |w.requests[i].lines|, user);
      assert !DropsOnlyItsOwn(Exec(w, run), i);
    }
  }

  lemma {:induction false} SkipsSaveNothing(i: nat, n: nat, user: UserId)
    ensures NoSaves(Skips(i, n), user)
  {
    if n > 0 {
      SkipsSaveNothing(i, n - 1, user);
    }
  }

  lemma ToOrderSavesNothing(i: nat, n: nat, user: UserId)
    ensures NoSaves(ToOrder(i, n), user)
  {
    SkipsSaveNothing(i, n, user);
  }

  /** A checkout drops only what it orders, as long as nobody saves the user's cart while it runs. */
  lemma UndisturbedCheckoutDropsOnlyItsOwn(w: World, user: UserId, discount: real, run: seq<Action>)
    requires Inv(w) && NoSaves(run, user)
    ensures DropsOnlyItsOwn(Exec(Step(w, Arrive(user, discount, true)), run), |w.requests|)
  {
    hide Step, Exec, Inv;
    var i, w1 := |w.requests|, Step(w, Arrive(user, discount, true));
    ArrivalReads(w, user, discount);
    RunKeepsOrClears(w1, run, user);
    RequestKeepsItsCart(w1, run, i);
  }

  /**
   In every run in which request i gets to its clear after the user's last save, of `more`: what is stored then is
   `more`, or nothing if another checkout of the user has cleared it, and whatever it is, the clear drops it, while
   the order of the request is of the cart that it read.
   */
  lemma ClearDropsTheLastSave(w: World, i: nat, before: seq<Action>, more: seq<CartItem>, after: seq<Action>)
    requires Inv(w) && i < |w.requests| && Cart.WellFormed(more) && NoSaves(after, w.requests[i].user)
    requires var w' := Exec(Step(Exec(w, before), SaveCart(w.requests[i].user, more)), after);
             i < |w'.requests| && w'.requests[i].phase == Clearing
    ensures var user := w.requests[i].user;
            var w' := Exec(Step(Exec(w, before), SaveCart(user, more)), after);
            var cleared := Step(w', Next(i, true));
            && (Cart.Stored(w'.carts, user) == more || Cart.Stored(w'.carts, user) == [])
            && Cart.Stored(cleared.carts, user) == [] && cleared.orders == w'.orders
            && i in w'.orders && OrdersTheCart(w'.orders[i], w.requests[i].cart)
  {
    hide Exec, OrdersTheCart, Cart.WellFormed;
    var user := w.requests[i].user;
    var w1 := Exec(w, before);
    var w2 := Step(w1, SaveCart(user, more));
    var w' := Exec(w2, after);
    RunKeepsInv(w, before);
    StepKeepsInv(w1, SaveCart(user, more));
    RunKeepsInv(w2, after);
    RequestKeepsItsCart(w, before, i);
    RequestKeepsItsCart(w2, after, i);
    assert w2.requests == w1.requests && Cart.Stored(w2.carts, user) == more;
    hide Step, Inv;
    RunKeepsOrClears(w2, after, user);
    ClearStep(w', i);
    ClearingHasOrdered(w', i);
  }

  lemma ClearingHasOrdered(w: World, i: nat)
    requires Inv(w) && i < |w.requests| && w.requests[i].phase == Clearing
    ensures i in w.orders && OrdersTheCart(w.orders[i], w.requests[i].cart)
  {
    assert OrdersOk(w) && FollowsCart(w.requests[i]);
  }

  /** The user's checkout has arrived, and then the user saves another cart. */
  function ThenSaves(w: World, user: UserId, more: seq<CartItem>): World {
    Step(Step(w, Arrive(user, 0.0, true)), SaveCart(user, more))
  }

  lemma SavedWhileOrdering(w: World, user: UserId, more: seq<CartItem>)
    requires Inv(w) && Cart.Stored(w.carts, user) != [] && Cart.WellFormed(more)
    ensures var i, w2 := |w.requests|, ThenSaves(w, user, more);
            && Inv(w2) && |w2.requests| == i + 1 && user in w2.carts && w2.carts[user] == more && w2.orders == w.orders
            && w2.requests[i] == Request(user, 0.0, Cart.Stored(w.carts, user), [], 0.0, Reading)
  {
    ArrivalReads(w, user, 0.0);
    StepKeepsInv(Step(w, Arrive(user, 0.0, true)), SaveCart(user, more));
    hide Inv;
  }

  /** A request that has read a cart of n lines orders it and clears what is stored. */
  lemma OrdersAndClears(w: World, i: nat, n: nat)
    requires Inv(w) && i < |w.requests|
    requires w.requests[i].phase.Reading? && |w.requests[i].cart| - |w.requests[i].lines| == n
    ensures var w' := Step(Exec(w, ToOrder(i, n)), Next(i, true));
            && w'.carts == w.carts - {w.requests[i].user} && i in w'.orders
            && w'.orders == w.orders[i := w'.orders[i]] && OrdersTheCart(w'.orders[i], w.requests[i].cart)
  {
    hide Step, Exec, Inv, ToOrder, OrdersTheCart;
    EndsInAnOrder(w, i);
    ClearStep(Exec(w, ToOrder(i, n)), i);
  }

  /**
   Whatever the user saves while a checkout is under way can be lost: the checkout clears it, and it is neither
   stored nor ordered.
   */
  lemma SavedLinesCanBeLost(w: World, user: UserId, more: seq<CartItem>) returns (run: seq<Action>)
    requires Inv(w) && Cart.Stored(w.carts, user) != [] && Cart.WellFormed(more)
    ensures var w', i := Exec(ThenSaves(w, user, more), run), |w.requests|;
            && user in ThenSaves(w, user, more).carts && ThenSaves(w, user, more).carts[user] == more
            && user !in w'.carts && i in w'.orders
            && w'.orders == w.orders[i := w'.orders[i]] && OrdersTheCart(w'.orders[i], Cart.Stored(w.carts, user))
  {
    hide *;
    var i, n, w2 := |w.requests|, |Cart.Stored(w.carts, user)|, ThenSaves(w, user, more);
    SavedWhileOrdering(w, user, more);
    OrdersAndClears(w2, i, n);
    run := ToOrder(i, n) + [Next(i, true)];
    ExecAppend(w2, ToOrder(i, n), Next(i, true));
  }
}
