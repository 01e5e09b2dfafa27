/**
 How often a user's carts are ordered, over whole runs (internal/order/service.go): at most once each, exactly
 when the user's checkouts do not overlap and every clear of the cart is answered.
 */
module CheckoutCounts {
  import opened Basics
  import opened Orders
  import opened Checkout
  import opened CheckoutTheorems
  import Cart

  // ---------- what is counted ----------

  /** Where a request stands: its order is to come, committed but not followed by the clear, done, or never to be. */
  datatype Stage = Ordering | Clears | Done | Gone

  function StageOf(phase: Phase): Stage {
    match phase
    case Clearing => Clears
    case Placed => Done
    case Failed(_) => Gone
    case _ => Ordering
  }

  predicate At(r: Request, user: UserId, stage: Stage) {
    r.user == user && StageOf(r.phase) == stage
  }

  function Counted(requests: seq<Request>, user: UserId, stage: Stage): nat {
    if requests == [] then 0
    else Counted(requests[..|requests| - 1], user, stage) + if At(requests[|requests| - 1], user, stage) then 1 else 0
  }

  function InFlight(w: World, user: UserId): nat {
    Counted(w.requests, user, Ordering) + Counted(w.requests, user, Clears)
  }

  function UserOrders(w: World, user: UserId): set<nat> {
    set i | i in w.orders && w.orders[i].user == user
  }

  /** The action saves a cart with something in it. */
  predicate Saves(a: Action, user: UserId) {
    a.SaveCart? && a.user == user && a.items != [] && Cart.WellFormed(a.items)
  }

  function SavesIn(run: seq<Action>, user: UserId): nat {
    if run == [] then 0 else SavesIn(run[..|run| - 1], user) + if Saves(run[|run| - 1], user) then 1 else 0
  }

  /** The action is not an unanswered clear of the user's cart. */
  predicate ClearIsAnswered(w: World, a: Action, user: UserId) {
    a.Next? && a.i < |w.requests| && At(w.requests[a.i], user, Clears) ==> a.ok
  }

  /** At most k checkouts of the user are ever under way; if `answered`, every clear of the user's cart is answered. */
  predicate Disciplined(run: seq<Action>, user: UserId, k: nat, answered: bool) {
    run != [] ==>
      var front := run[..|run| - 1];
      && Disciplined(front, user, k, answered)
      && InFlight(Exec(Empty(), run), user) <= k
      && (answered ==> ClearIsAnswered(Exec(Empty(), front), run[|run| - 1], user))
  }

  lemma {:induction false} CountedUpdate(requests: seq<Request>, i: nat, r: Request, user: UserId, stage: Stage)
    requires i < |requests|
    ensures Counted(requests[i := r], user, stage) ==
            Counted(requests, user, stage) - (if At(requests[i], user, stage) then 1 else 0)
            + if At(r, user, stage) then 1 else 0
  {
    hide At;
    var n := |requests| - 1;
    if i < n {
      assert requests[i := r][..n] == requests[..n][i := r];
      CountedUpdate(requests[..n], i, r, user, stage);
    } else {
      assert requests[i := r][..n] == requests[..n];
    }
  }

  lemma CountedAppend(requests: seq<Request>, r: Request, user: UserId, stage: Stage)
    ensures Counted(requests + [r], user, stage) ==
            Counted(requests, user, stage) + if At(r, user, stage) then 1 else 0
  {
    assert (requests + [r])[..|requests|] == requests;
  }

  predicate HasOrdered(r: Request, user: UserId) {
    r.user == user && OutcomeOf(r.phase) == Ordered
  }

  /** The requests of the user that have committed an order. */
  function OrderedAmong(requests: seq<Request>, user: UserId): set<nat> {
    set i: nat | i < |requests| && HasOrdered(requests[i], user)
  }

  lemma OneMoreOrdered(requests: seq<Request>, r: Request, user: UserId)
    ensures |requests| !in OrderedAmong(requests, user)
    ensures OrderedAmong(requests + [r], user) ==
            OrderedAmong(requests, user) + if HasOrdered(r, user) then {|requests|} else {}
  {
    hide HasOrdered;
    forall i: nat | i <= |requests|
      ensures i in OrderedAmong(requests + [r], user) <==>
              i in OrderedAmong(requests, user) + if HasOrdered(r, user) then {|requests|} else {}
    {
      assert (requests + [r])[i] == if i < |requests| then requests[i] else r;
    }
  }

  lemma {:induction false} OrderedAreCounted(requests: seq<Request>, user: UserId)
    ensures |OrderedAmong(requests, user)| == Counted(requests, user, Clears) + Counted(requests, user, Done)
  {
    if requests == [] {
      assert OrderedAmong(requests, user) == {};
    } else {
      var front, last := requests[..|requests| - 1], requests[|requests| - 1];
      OrderedAreCounted(front, user);
      OneMoreOrdered(front, last, user);
      assert HasOrdered(last, user) <==> At(last, user, Clears) || At(last, user, Done);
      assert !(At(last, user, Clears) && At(last, user, Done));
      hide OrderedAmong, HasOrdered, At;
      assert requests == front + [last];
    }
  }

  /** The user's rows in the orders table are those of the requests past their commit. */
  lemma OrdersAreCounted(w: World, user: UserId)
    requires Inv(w)
    ensures |UserOrders(w, user)| == Counted(w.requests, user, Clears) + Counted(w.requests, user, Done)
  {
    OrderedAreCounted(w.requests, user);
    assert OrdersOk(w);
    assert UserOrders(w, user) == OrderedAmong(w.requests, user);
  }

  // ---------- one at a time, with answered clears ----------

  /** The orders of the user, and those that are still to come of what is stored or being ordered. */
  function Owed(w: World, user: UserId): nat {
    Counted(w.requests, user, Clears) + Counted(w.requests, user, Done) + Counted(w.requests, user, Ordering)
    + if InFlight(w, user) == 0 && Cart.Stored(w.carts, user) != [] then 1 else 0
  }

  lemma ArrivalAppends(w: World, user: UserId, discount: real, ok: bool)
    ensures var w', r := Step(w, Arrive(user, discount, ok)), Arrived(w.carts, user, discount, ok);
            && w'.requests == w.requests + [r] && w'.carts == w.carts && r.user == user
            && r.phase == if ok && Cart.Stored(w.carts, user) != [] then Reading else Failed(EmptyCart)
  {
  }

  lemma ArrivalOwes(w: World, user: UserId, discount: real, ok: bool, u: UserId)
    requires InFlight(Step(w, Arrive(user, discount, ok)), u) <= 1
    ensures Owed(Step(w, Arrive(user, discount, ok)), u) <= Owed(w, u)
  {
    var r := Arrived(w.carts, user, discount, ok);
    CountedAppend(w.requests, r, u, Ordering);
    CountedAppend(w.requests, r, u, Clears);
    CountedAppend(w.requests, r, u, Done);
    ArrivalAppends(w, user, discount, ok);
    hide Counted, Step, Arrived;
  }

  /** How a statement moves its request from stage to stage, and what it does to the user's cart. */
  lemma StatementMoves(w: World, i: nat, ok: bool)
    requires i < |w.requests|
    ensures var w', r, r' := Step(w, Next(i, ok)), w.requests[i], Moved(w, w.requests[i], ok);
            && w'.requests == w.requests[i := r'] && r'.user == r.user
            && match StageOf(r.phase)
               case Ordering => StageOf(r'.phase) != Done && w'.carts == w.carts
               case Clears => StageOf(r'.phase) == Done && w'.carts == if ok then w.carts - {r.user} else w.carts
               case _ => StageOf(r'.phase) == StageOf(r.phase) && w'.carts == w.carts
  {
  }

  lemma StatementOwes(w: World, i: nat, ok: bool, u: UserId)
    requires i < |w.requests| && InFlight(w, u) <= 1 && ClearIsAnswered(w, Next(i, ok), u)
    ensures Owed(Step(w, Next(i, ok)), u) <= Owed(w, u)
  {
    StatementMoves(w, i, ok);
    var r' := Moved(w, w.requests[i], ok);
    CountedUpdate(w.requests, i, r', u, Ordering);
    CountedUpdate(w.requests, i, r', u, Clears);
    CountedUpdate(w.requests, i, r', u, Done);
    hide Step, Moved, Counted, StageOf;
  }

  lemma StepOwes(w: World, a: Action, user: UserId)
    requires InFlight(w, user) <= 1 && InFlight(Step(w, a), user) <= 1 && ClearIsAnswered(w, a, user)
    ensures Owed(Step(w, a), user) <= Owed(w, user) + if Saves(a, user) then 1 else 0
  {
    match a
    case Arrive(v, discount, ok) => ArrivalOwes(w, v, discount, ok, user);
    case Next(i, ok) => if i < |w.requests| { StatementOwes(w, i, ok, user); }
    case SaveCart(_, _) => hide Counted;
    case SetStock(_, _) => hide Counted;
  }

  lemma {:induction false} DisciplinedRunOwes(run: seq<Action>, user: UserId)
    requires Disciplined(run, user, 1, true)
    ensures InFlight(Exec(Empty(), run), user) <= 1 && Owed(Exec(Empty(), run), user) <= SavesIn(run, user)
  {
    if run != [] {
      var front := run[..|run| - 1];
      DisciplinedRunOwes(front, user);
      hide Step, Owed, InFlight, Saves;
      StepOwes(Exec(Empty(), front), run[|run| - 1], user);
    }
  }

  // ---------- two runs that order a cart twice ----------

  /** A cart with one line, of a product without a stock row. */
  function OneLine(): seq<CartItem> {
    [Cart.CartItem(0, "only", 1.0, 1)]
  }

  /** The cart is stored for user 0. */
  function Shop(orders: map<nat, Order>, requests: seq<Request>): World {
    World(map[], map[0 := OneLine()], orders, requests, map[], [])
  }

  /** A request of user 0 that has read the cart, before and after its line. */
  function Reads(): Request {
    Request(0, 0.0, OneLine(), [], 0.0, Reading)
  }

  function Read(phase: Phase): Request {
    Request(0, 0.0, OneLine(), [Line(OneLine()[0], false)], 1.0, phase)
  }

  lemma ShopOpens()
    ensures Step(Empty(), SaveCart(0, OneLine())) == Shop(map[], [])
  {
    assert OneLine()[1..] == [];
    assert Cart.Contents(OneLine()[1..]) == map[];
    assert Cart.WellFormed(OneLine());
  }

  lemma ShopArrive(orders: map<nat, Order>, requests: seq<Request>)
    ensures Step(Shop(orders, requests), Arrive(0, 0.0, true)) == Shop(orders, requests + [Reads()])
  {
  }

  lemma ShopRead(orders: map<nat, Order>, requests: seq<Request>, i: nat)
    requires i < |requests| && requests[i] == Reads()
    ensures Step(Shop(orders, requests), Next(i, true)) == Shop(orders, requests[i := Read(Persisting)])
  {
    assert Reads().lines + [Line(OneLine()[0], false)] == Read(Persisting).lines;
    ReadStep(Shop(orders, requests), i, true);
  }

  lemma ShopPersist(orders: map<nat, Order>, requests: seq<Request>, i: nat)
    requires i < |requests| && requests[i] == Read(Persisting)
    ensures Step(Shop(orders, requests), Next(i, true)) ==
            Shop(orders[i := OrderOf(Read(Persisting))], requests[i := Read(Clearing)])
  {
  }

  /** The clear is not answered, and its error ignored. */
  lemma ShopClearIsLost(orders: map<nat, Order>, requests: seq<Request>, i: nat)
    requires i < |requests| && requests[i] == Read(Clearing)
    ensures Step(Shop(orders, requests), Next(i, false)) == Shop(orders, requests[i := Read(Placed)])
  {
  }

  lemma DisciplinedAppend(run: seq<Action>, a: Action, user: UserId, k: nat, answered: bool)
    requires Disciplined(run, user, k, answered)
    requires InFlight(Step(Exec(Empty(), run), a), user) <= k
    requires answered ==> ClearIsAnswered(Exec(Empty(), run), a, user)
    ensures Disciplined(run + [a], user, k, answered)
    ensures Exec(Empty(), run + [a]) == Step(Exec(Empty(), run), a)
    ensures SavesIn(run + [a], user) == SavesIn(run, user) + if Saves(a, user) then 1 else 0
  {
    assert (run + [a])[..|run|] == run;
    hide InFlight, ClearIsAnswered, Step;
  }

  lemma FlightOfOne(orders: map<nat, Order>, r: Request)
    requires r.user == 0
    ensures InFlight(Shop(orders, [r]), 0) <= 1
    ensures InFlight(Shop(orders, []), 0) == 0
  {
    CountedAppend([], r, 0, Ordering);
    CountedAppend([], r, 0, Clears);
    assert [] + [r] == [r];
  }

  lemma FlightOfTwo(orders: map<nat, Order>, r: Request, s: Request)
    requires r.user == 0 && s.user == 0
    ensures InFlight(Shop(orders, [r, s]), 0) <= 2
    ensures StageOf(r.phase) == Done ==> InFlight(Shop(orders, [r, s]), 0) <= 1
  {
    CountedAppend([r], s, 0, Ordering);
    CountedAppend([r], s, 0, Clears);
    FlightOfOne(orders, r);
    assert [r] + [s] == [r, s];
    assert [r][..0] == [];
  }

  /** A disciplined run with one saved cart and two orders of it. */
  predicate OrdersTwice(run: seq<Action>, k: nat, answered: bool) {
    && Disciplined(run, 0, k, answered) && SavesIn(run, 0) == 1
    && var w := Exec(Empty(), run);
       0 in w.orders && 1 in w.orders && w.orders[0].user == 0 && w.orders[1].user == 0
  }

  /** A run so far: it has led to the given shop, and one cart has been saved. */
  predicate LedTo(run: seq<Action>, k: nat, answered: bool, orders: map<nat, Order>, requests: seq<Request>) {
    Disciplined(run, 0, k, answered) && SavesIn(run, 0) == 1 && Exec(Empty(), run) == Shop(orders, requests)
  }

  lemma Opened(k: nat, answered: bool)
    ensures LedTo([] + [SaveCart(0, OneLine())], k, answered, map[], [])
  {
    ShopOpens();
    FlightOfOne(map[], Reads());
    assert Exec(Empty(), []) == Empty();
    assert Saves(SaveCart(0, OneLine()), 0) by {
      assert OneLine()[1..] == [] && Cart.Contents(OneLine()[1..]) == map[];
    }
    hide Step, InFlight;
    DisciplinedAppend([], SaveCart(0, OneLine()), 0, k, answered);
  }

  /** One more action that saves nothing. */
  lemma LeadsOn(run: seq<Action>, k: nat, answered: bool, orders: map<nat, Order>, requests: seq<Request>, a: Action,
                orders': map<nat, Order>, requests': seq<Request>)
    requires LedTo(run, k, answered, orders, requests) && !a.SaveCart?
    requires Step(Shop(orders, requests), a) == Shop(orders', requests')
    requires InFlight(Shop(orders', requests'), 0) <= k
    requires answered ==> ClearIsAnswered(Shop(orders, requests), a, 0)
    ensures LedTo(run + [a], k, answered, orders', requests')
  {
    hide Step, InFlight, ClearIsAnswered, Shop;
    DisciplinedAppend(run, a, 0, k, answered);
  }

  lemma OverlapOrdersTwice(k: nat, answered: bool) returns (run: seq<Action>)
    requires k >= 2
    ensures OrdersTwice(run, k, answered)
  {
    hide Step, InFlight, Shop, LedTo, OrderOf;
    var o := OrderOf(Read(Persisting));
    var rs, ps, cs := Reads(), Read(Persisting), Read(Clearing);
    Opened(k, answered);
    run := [] + [SaveCart(0, OneLine())];
    ShopArrive(map[], []);
    FlightOfOne(map[], rs);
    assert [] + [rs] == [rs];
    LeadsOn(run, k, answered, map[], [], Arrive(0, 0.0, true), map[], [rs]);
    run := run + [Arrive(0, 0.0, true)];
    ShopArrive(map[], [rs]);
    FlightOfTwo(map[], rs, rs);
    assert [rs] + [rs] == [rs, rs];
    LeadsOn(run, k, answered, map[], [rs], Arrive(0, 0.0, true), map[], [rs, rs]);
    run := run + [Arrive(0, 0.0, true)];
    run := OrdersNext(run, k, answered, map[], [rs, rs], 0);
    assert [rs, rs][0 := cs] == [cs, rs];
    run := OrdersNext(run, k, answered, map[0 := o], [cs, rs], 1);
    TwoOrders(run, k, answered, [cs, rs][1 := cs]);
  }

  /** The two statements that bring request i of two to its order. */
  lemma OrdersNext(before: seq<Action>, k: nat, answered: bool, orders: map<nat, Order>, requests: seq<Request>, i: nat)
    returns (run: seq<Action>)
    requires LedTo(before, k, answered, orders, requests)
    requires i < |requests| <= 2 && requests[i] == Reads() && forall j :: 0 <= j < |requests| ==> requests[j].user == 0
    requires k >= |requests| || (|requests| == 2 && i == 1 && k >= 1 && StageOf(requests[0].phase) == Done)
    ensures LedTo(run, k, answered, orders[i := OrderOf(Read(Persisting))], requests[i := Read(Clearing)])
  {
    hide Step, InFlight, Shop, LedTo, OrderOf, StageOf;
    var next, ps := Next(i, true), requests[i := Read(Persisting)];
    var o := orders[i := OrderOf(Read(Persisting))];
    ShopRead(orders, requests, i);
    Flight(orders, ps, k);
    LeadsOn(before, k, answered, orders, requests, next, orders, ps);
    ShopPersist(orders, ps, i);
    assert ps[i := Read(Clearing)] == requests[i := Read(Clearing)];
    Flight(o, requests[i := Read(Clearing)], k);
    LeadsOn(before + [next], k, answered, orders, ps, next, o, requests[i := Read(Clearing)]);
    run := before + [next] + [next];
  }

  lemma Flight(orders: map<nat, Order>, requests: seq<Request>, k: nat)
    requires 1 <= |requests| <= 2 && forall j :: 0 <= j < |requests| ==> requests[j].user == 0
    requires k >= |requests| || (|requests| == 2 && k >= 1 && StageOf(requests[0].phase) == Done)
    ensures InFlight(Shop(orders, requests), 0) <= k
  {
    if |requests| == 1 {
      assert requests == [requests[0]];
      FlightOfOne(orders, requests[0]);
    } else {
      assert requests == [requests[0], requests[1]];
      FlightOfTwo(orders, requests[0], requests[1]);
    }
  }

  lemma TwoOrders(run: seq<Action>, k: nat, answered: bool, requests: seq<Request>)
    requires LedTo(run, k, answered, map[0 := OrderOf(Read(Persisting))][1 := OrderOf(Read(Persisting))], requests)
    ensures OrdersTwice(run, k, answered)
  {
    hide Disciplined;
  }

  lemma LostClearOrdersTwice(k: nat) returns (run: seq<Action>)
    requires k >= 1
    ensures OrdersTwice(run, k, false)
  {
    hide Step, InFlight, Shop, LedTo, OrderOf;
    var o := OrderOf(Read(Persisting));
    var rs, cs, ds := Reads(), Read(Clearing), Read(Placed);
    Opened(k, false);
    run := [] + [SaveCart(0, OneLine())];
    ShopArrive(map[], []);
    FlightOfOne(map[], rs);
    assert [] + [rs] == [rs];
    LeadsOn(run, k, false, map[], [], Arrive(0, 0.0, true), map[], [rs]);
    run := OrdersNext(run + [Arrive(0, 0.0, true)], k, false, map[], [rs], 0);
    assert [rs][0 := cs] == [cs];
    ShopClearIsLost(map[0 := o], [cs], 0);
    FlightOfOne(map[0 := o], ds);
    assert [cs][0 := ds] == [ds];
    LeadsOn(run, k, false, map[0 := o], [cs], Next(0, false), map[0 := o], [ds]);
    ShopArrive(map[0 := o], [ds]);
    FlightOfTwo(map[0 := o], ds, rs);
    assert [ds] + [rs] == [ds, rs];
    LeadsOn(run + [Next(0, false)], k, false, map[0 := o], [ds], Arrive(0, 0.0, true), map[0 := o], [ds, rs]);
    run := OrdersNext(run + [Next(0, false)] + [Arrive(0, 0.0, true)], k, false, map[0 := o], [ds, rs], 1);
    TwoOrders(run, k, false, [ds, rs][1 := cs]);
  }

  // ---------- the exact condition ----------

  /** In every run of that discipline, the user has no more orders than saved carts. */
  ghost predicate CartsAreOrderedOnce(k: nat, answered: bool) {
    forall run, user ::
      Disciplined(run, user, k, answered) ==> |UserOrders(Exec(Empty(), run), user)| <= SavesIn(run, user)
  }

  lemma TwiceIsTooOften(run: seq<Action>, k: nat, answered: bool)
    requires OrdersTwice(run, k, answered)
    ensures !CartsAreOrderedOnce(k, answered)
  {
    var orders := UserOrders(Exec(Empty(), run), 0);
    assert {0, 1} <= orders && |{0, 1}| == 2;
    SubsetIsNotLarger({0, 1}, orders);
  }

  lemma {:induction false} SubsetIsNotLarger(a: set<nat>, b: set<nat>)
    requires a <= b
    ensures |a| <= |b|
  {
    assert b == a + (b - a);
  }

  /**
   With at most k checkouts of a user under way at once, the user never has more orders than saved carts, in every
   run, if and only if k is 1 and every clear is answered.
   */
  lemma CartsAreOrderedOnceExactlyWhen(k: nat, answered: bool)
    requires k >= 1
    ensures CartsAreOrderedOnce(k, answered) <==> k == 1 && answered
  {
    if k == 1 && answered {
      forall run, user | Disciplined(run, user, k, answered)
        ensures |UserOrders(Exec(Empty(), run), user)| <= SavesIn(run, user)
      {
        DisciplinedRunOwes(run, user);
        RunKeepsInv(Empty(), run);
        OrdersAreCounted(Exec(Empty(), run), user);
      }
    } else if k > 1 {
      var run := OverlapOrdersTwice(k, answered);
      TwiceIsTooOften(run, k, answered);
    } else {
      var run := LostClearOrdersTwice(k);
      TwiceIsTooOften(run, k, answered);
    }
  }
}
