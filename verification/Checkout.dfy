/**
 Concurrent checkout: CreateOrderFromCart (internal/order/service.go) over the statements of the
 cart, inventory and order repositories.  Any number of checkouts interleave, one statement at a time.
 */
module Checkout {
  import opened Basics
  import opened Inventory
  import opened Orders
  import Cart

  type CartItem = Cart.CartItem
  type Carts = Cart.Carts

  datatype Error = EmptyCart | NoStock(reason: StockError) | NotPersisted

  /** A handled cart line; `held` says that its stock was reserved, not skipped. */
  datatype Line = Line(item: CartItem, held: bool)

  datatype Phase =
    | Reading                   // about to read the stock of the next line
    | Reserving(row: Row)       // found enough in `row`; about to run the conditional UPDATE
    | Diagnosing(version: int)  // the UPDATE matched no row; about to read it again
    | Persisting                // every line handled
    | Clearing                  // the order is committed, the cart not yet cleared
    | Placed
    | Failed(error: Error)

  /** One request, with the local variables of CreateOrderFromCart. */
  datatype Request = Request(
    user: UserId, discount: real, cart: seq<CartItem>, lines: seq<Line>, total: real, phase: Phase)
  {
    predicate Working() {
      (phase.Reading? || phase.Reserving? || phase.Diagnosing?) && |lines| < |cart|
    }

    function Item(): CartItem
      requires Working()
    {
      cart[|lines|]
    }
  }

  /** A successful reservation, in commit order; `version` is the one it had read. */
  datatype Commit = Commit(request: nat, product: ProductId, quantity: int, version: int)

  /**
   The shared stores and all requests.  `supplied` is the ledger of stock put in by SetStock
   (net of what it overwrote), `commits` the ledger of reservations.  The order of request i has ID i.
   */
  datatype World = World(
    inventory: Table, carts: Carts, orders: map<nat, Order>, requests: seq<Request>,
    supplied: map<ProductId, int>, commits: seq<Commit>)

  /** Next runs the next statement of request i; with `ok` false the statement fails without effect. */
  datatype Action =
    | SetStock(product: ProductId, quantity: int)
    | SaveCart(user: UserId, items: seq<CartItem>)
    | Arrive(user: UserId, discount: real, ok: bool)
    | Next(i: nat, ok: bool)

  // ---------- the steps ----------

  function Discounted(total: real, percent: real): real {
    if 0.0 < percent < 100.0 then
      var reduced := total - total * (percent / 100.0);
      if reduced < 0.0 then 0.0 else reduced
    else total
  }

  function OrderItems(lines: seq<Line>): seq<OrderItem> {
    seq(|lines|, i requires 0 <= i < |lines| =>
      OrderItem(lines[i].item.productId, lines[i].item.quantity, lines[i].item.unitPrice))
  }

  function OrderOf(r: Request): Order {
    Order(r.user, Discounted(r.total, r.discount), Pending, OrderItems(r.lines))
  }

  /** The next line is done; on to the one after it, or to the order. */
  function Handled(r: Request, held: bool): Request
    requires r.Working()
  {
    r.(lines := r.lines + [Line(r.Item(), held)],
       total := r.total + r.Item().unitPrice * r.Item().quantity as real,
       phase := if |r.lines| + 1 == |r.cart| then Persisting else Reading)
  }

  /** The request reads its cart; a failed read counts as an empty cart. */
  function Arrived(carts: Carts, user: UserId, discount: real, ok: bool): Request {
    var cart := if ok then Cart.Stored(carts, user) else [];
    Request(user, discount, cart, [], 0.0, if cart == [] then Failed(EmptyCart) else Reading)
  }

  /** SELECT of the stock row.  A missing row or a failed read skips the reservation of the line. */
  function AfterRead(t: Table, r: Request, ok: bool): Request
    requires r.Working()
  {
    if !ok || r.Item().productId !in t then Handled(r, false)
    else
      var row := t[r.Item().productId];
      if row.Available() < r.Item().quantity then r.(phase := Failed(NoStock(Insufficient)))
      else r.(phase := Reserving(row))
  }

  /** The conditional UPDATE changes the row in the table `t`. */
  predicate Reserves(t: Table, r: Request, ok: bool) {
    && ok && r.phase.Reserving? && r.Working()
    && Matches(t, r.Item().productId, r.Item().quantity, r.phase.row.version)
    && !Violates(t, r.Item().productId, r.Item().quantity)
  }

  function AfterUpdate(t: Table, r: Request, ok: bool): Request
    requires r.phase.Reserving? && r.Working()
  {
    if Reserves(t, r, ok) then Handled(r, true)
    else if !ok || Matches(t, r.Item().productId, r.Item().quantity, r.phase.row.version)
    then r.(phase := Failed(NoStock(StatementFailed)))
    else r.(phase := Diagnosing(r.phase.row.version))
  }

  function AfterDiagnosis(t: Table, r: Request, ok: bool): Request
    requires r.phase.Diagnosing? && r.Working()
  {
    r.(phase := Failed(NoStock(
      if ok then Diagnosis(t, r.Item().productId, r.Item().quantity, r.phase.version) else StatementFailed)))
  }

  /** What the next statement does to the request itself. */
  function Moved(w: World, r: Request, ok: bool): Request {
    match r.phase
    case Reading => if r.Working() then AfterRead(w.inventory, r, ok) else r
    case Reserving(_) => if r.Working() then AfterUpdate(w.inventory, r, ok) else r
    case Diagnosing(_) => if r.Working() then AfterDiagnosis(w.inventory, r, ok) else r
    case Persisting => r.(phase := if ok then Clearing else Failed(NotPersisted))
    case Clearing => r.(phase := Placed)
    case Placed => r
    case Failed(_) => r
  }

  /** The next statement of request i, table by table. */
  function Statement(w: World, i: nat, ok: bool): World
    requires i < |w.requests|
  {
    var r := w.requests[i];
    var reserves := Reserves(w.inventory, r, ok);
    World(
      if reserves then Taken(w.inventory, r.Item().productId, r.Item().quantity) else w.inventory,
      if r.phase.Clearing? && ok then w.carts - {r.user} else w.carts,
      if r.phase.Persisting? && ok then w.orders[i := OrderOf(r)] else w.orders,
      w.requests[i := Moved(w, r, ok)],
      w.supplied,
      if reserves then w.commits + [Commit(i, r.Item().productId, r.Item().quantity, r.phase.row.version)]
      else w.commits)
  }

  function Step(w: World, a: Action): World {
    match a
    case SetStock(p, q) =>
      if q < 0 then w
      else w.(inventory := Restocked(w.inventory, p, q),
              supplied := w.supplied[p := Supplied(w, p) + q - Quantity(w, p)])
    case SaveCart(user, items) => if Cart.WellFormed(items) then w.(carts := w.carts[user := items]) else w
    case Arrive(user, discount, ok) => w.(requests := w.requests + [Arrived(w.carts, user, discount, ok)])
    case Next(i, ok) => if i < |w.requests| then Statement(w, i, ok) else w
  }

  function Exec(w: World, run: seq<Action>): World {
    if run == [] then w else Step(Exec(w, run[..|run| - 1]), run[|run| - 1])
  }

  function Empty(): World {
    World(map[], map[], map[], [], map[], [])
  }

  // ---------- the ledger ----------

  function Quantity(w: World, p: ProductId): int {
    if p in w.inventory then w.inventory[p].quantity else 0
  }

  function Supplied(w: World, p: ProductId): int {
    if p in w.supplied then w.supplied[p] else 0
  }

  datatype Outcome = Running | Ordered | Aborted

  function OutcomeOf(phase: Phase): Outcome {
    match phase
    case Clearing => Ordered
    case Placed => Ordered
    case Failed(_) => Aborted
    case _ => Running
  }

  /** The stock of product p that the given lines reserved. */
  function HeldLines(lines: seq<Line>, p: ProductId): int {
    if lines == [] then 0
    else
      var last := lines[|lines| - 1];
      HeldLines(lines[..|lines| - 1], p) + (if last.held && last.item.productId == p then last.item.quantity else 0)
  }

  function HeldBy(r: Request, p: ProductId, o: Outcome): int {
    if OutcomeOf(r.phase) == o then HeldLines(r.lines, p) else 0
  }

  /** The stock of p reserved by all requests with the given outcome. */
  function Held(requests: seq<Request>, p: ProductId, o: Outcome): int {
    if requests == [] then 0
    else Held(requests[..|requests| - 1], p, o) + HeldBy(requests[|requests| - 1], p, o)
  }

  function Balance(w: World, p: ProductId): int {
    Quantity(w, p) + Held(w.requests, p, Running) + Held(w.requests, p, Ordered) + Held(w.requests, p, Aborted)
  }

  lemma {:induction false} HeldUpdate(requests: seq<Request>, i: nat, r: Request, p: ProductId, o: Outcome)
    requires i < |requests|
    ensures Held(requests[i := r], p, o) == Held(requests, p, o) - HeldBy(requests[i], p, o) + HeldBy(r, p, o)
  {
    var n := |requests| - 1;
    if i < n {
      assert requests[i := r][..n] == requests[..n][i := r];
      HeldUpdate(requests[..n], i, r, p, o);
    } else {
      assert requests[i := r][..n] == requests[..n];
    }
  }

  lemma BalanceUpdate(w: World, i: nat, r: Request, p: ProductId)
    requires i < |w.requests|
    ensures Balance(w.(requests := w.requests[i := r]), p) ==
            Balance(w, p) - HeldLines(w.requests[i].lines, p) + HeldLines(r.lines, p)
  {
    HeldUpdate(w.requests, i, r, p, Running);
    HeldUpdate(w.requests, i, r, p, Ordered);
    HeldUpdate(w.requests, i, r, p, Aborted);
  }

  lemma HandledHolds(r: Request, held: bool, p: ProductId)
    requires r.Working()
    ensures HeldLines(Handled(r, held).lines, p) ==
            HeldLines(r.lines, p) + if held && r.Item().productId == p then r.Item().quantity else 0
  {
    assert Handled(r, held).lines[..|r.lines|] == r.lines;
  }

  /** A statement adds to what its request holds exactly when it reserves. */
  lemma MovedHolds(w: World, r: Request, ok: bool, p: ProductId)
    ensures HeldLines(Moved(w, r, ok).lines, p) ==
            HeldLines(r.lines, p)
            + if Reserves(w.inventory, r, ok) && r.Item().productId == p then r.Item().quantity else 0
  {
    if r.Working() {
      HandledHolds(r, true, p);
      HandledHolds(r, false, p);
    }
  }

  /** What a statement takes from a row. */
  lemma StatementTakes(w: World, i: nat, ok: bool, p: ProductId)
    requires i < |w.requests|
    ensures var r, w' := w.requests[i], Step(w, Next(i, ok));
            && w'.requests == w.requests[i := Moved(w, r, ok)]
            && Quantity(w', p) ==
               Quantity(w, p) - if Reserves(w.inventory, r, ok) && r.Item().productId == p then r.Item().quantity else 0
  {
    hide Moved;
  }

  /** A statement takes from the row what it adds to its request. */
  lemma StatementConserves(w: World, i: nat, ok: bool, p: ProductId)
    requires i < |w.requests|
    ensures Balance(Step(w, Next(i, ok)), p) == Balance(w, p)
  {
    hide Step, Moved, Reserves, Held, HeldLines;
    var r := w.requests[i];
    StatementTakes(w, i, ok, p);
    MovedHolds(w, r, ok, p);
    BalanceUpdate(w, i, Moved(w, r, ok), p);
  }

  lemma ArrivalConserves(w: World, r: Request, p: ProductId)
    requires r.lines == []
    ensures Balance(w.(requests := w.requests + [r]), p) == Balance(w, p)
  {
    assert (w.requests + [r])[..|w.requests|] == w.requests;
  }

  /** One step keeps the balance: stock moves between the row and the ledgers, never in or out. */
  lemma StepConserves(w: World, a: Action, p: ProductId)
    requires Supplied(w, p) == Balance(w, p)
    ensures Supplied(Step(w, a), p) == Balance(Step(w, a), p)
  {
    if a.Next? && a.i < |w.requests| {
      StatementConserves(w, a.i, a.ok, p);
    } else if a.Arrive? {
      ArrivalConserves(w, Arrived(w.carts, a.user, a.discount, a.ok), p);
    }
  }

  // ---------- what every step keeps ----------

  /** The handled lines are the first lines of the cart that was read, and the total is theirs. */
  predicate FollowsCart(r: Request) {
    && |r.lines| <= |r.cart|
    && (forall k :: 0 <= k < |r.lines| ==> r.lines[k].item == r.cart[k])
    && (forall k :: 0 <= k < |r.cart| ==> r.cart[k].quantity >= 1 && r.cart[k].unitPrice >= 0.0)
    && r.total == Cart.Amount(r.cart[..|r.lines|])
    && (r.phase.Reading? || r.phase.Reserving? || r.phase.Diagnosing? ==> r.Working())
    && (r.phase.Persisting? || r.phase.Clearing? || r.phase.Placed? ==> |r.lines| == |r.cart| > 0)
  }

  /** The version pins the contents: a request holds the current row, or one that has been overwritten since. */
  predicate FollowsStock(t: Table, r: Request) {
    && (r.phase.Reserving? && r.Working() ==>
          var p := r.Item().productId;
          && p in t && r.phase.row.Available() >= r.Item().quantity
          && (r.phase.row == t[p] || r.phase.row.version < t[p].version))
    && (r.phase.Diagnosing? && r.Working() ==>
          r.Item().productId in t && r.phase.version < t[r.Item().productId].version)
  }

  predicate CartsOk(w: World) {
    forall u :: u in w.carts ==> Cart.WellFormed(w.carts[u])
  }

  predicate RequestsOk(w: World) {
    forall i :: 0 <= i < |w.requests| ==> FollowsCart(w.requests[i]) && FollowsStock(w.inventory, w.requests[i])
  }

  /** The orders table holds the orders of exactly those requests that committed one. */
  predicate OrdersOk(w: World) {
    && (forall i :: i in w.orders ==> i < |w.requests|)
    && (forall i: nat :: i < |w.requests| ==> (i in w.orders <==> OutcomeOf(w.requests[i].phase) == Ordered))
    && (forall i :: i in w.orders ==> w.orders[i] == OrderOf(w.requests[i]))
  }

  /** The reservations of a product read ever larger versions, all below the current one. */
  predicate CommitsOk(w: World) {
    && (forall k :: 0 <= k < |w.commits| ==>
          && w.commits[k].product in w.inventory && w.commits[k].version < w.inventory[w.commits[k].product].version
          && w.commits[k].quantity >= 1)
    && (forall j, k :: 0 <= j < k < |w.commits| && w.commits[j].product == w.commits[k].product ==>
          w.commits[j].version < w.commits[k].version)
  }

  predicate Inv(w: World) {
    Sound(w.inventory) && CartsOk(w) && RequestsOk(w) && OrdersOk(w) && CommitsOk(w)
  }

  lemma HandledFollowsCart(r: Request, held: bool)
    requires FollowsCart(r) && r.Working()
    ensures FollowsCart(Handled(r, held))
  {
    Cart.AmountAppend(r.cart[..|r.lines|], r.Item());
    assert r.cart[..|r.lines| + 1] == r.cart[..|r.lines|] + [r.Item()];
  }

  lemma MovedFollowsCart(w: World, r: Request, ok: bool)
    requires FollowsCart(r)
    ensures FollowsCart(Moved(w, r, ok))
  {
    if r.Working() {
      HandledFollowsCart(r, true);
      HandledFollowsCart(r, false);
    }
  }

  lemma ArrivedFollowsCart(w: World, user: UserId, discount: real, ok: bool)
    requires CartsOk(w)
    ensures FollowsCart(Arrived(w.carts, user, discount, ok))
  {
    Cart.WellFormedMeans(Cart.Stored(w.carts, user));
  }

  /** Only a write of the row changes it, and a write raises its version. */
  lemma StepRaisesVersions(w: World, a: Action, p: ProductId)
    requires p in w.inventory
    ensures p in Step(w, a).inventory
    ensures Step(w, a).inventory[p] == w.inventory[p] || Step(w, a).inventory[p].version == w.inventory[p].version + 1
  {
  }

  lemma MovedFollowsStock(w: World, i: nat, ok: bool)
    requires Sound(w.inventory) && RequestsOk(w) && i < |w.requests|
    ensures FollowsStock(Step(w, Next(i, ok)).inventory, Moved(w, w.requests[i], ok))
  {
  }

  /** A request that does not move stays in step with the stock it has read. */
  lemma OthersKeepFollowsStock(w: World, a: Action, r: Request)
    requires FollowsStock(w.inventory, r)
    ensures FollowsStock(Step(w, a).inventory, r)
  {
    if r.Working() && r.Item().productId in w.inventory {
      StepRaisesVersions(w, a, r.Item().productId);
    }
  }

  lemma StatementKeepsRequests(w: World, i: nat, ok: bool)
    requires Sound(w.inventory) && RequestsOk(w) && i < |w.requests|
    ensures RequestsOk(Step(w, Next(i, ok)))
  {
    var w' := Step(w, Next(i, ok));
    forall k | 0 <= k < |w'.requests|
      ensures FollowsCart(w'.requests[k]) && FollowsStock(w'.inventory, w'.requests[k])
    {
      if k == i {
        MovedFollowsCart(w, w.requests[i], ok);
        MovedFollowsStock(w, i, ok);
      } else {
        OthersKeepFollowsStock(w, Next(i, ok), w.requests[k]);
      }
    }
  }

  lemma StepKeepsRequests(w: World, a: Action)
    requires Sound(w.inventory) && CartsOk(w) && RequestsOk(w)
    ensures RequestsOk(Step(w, a))
  {
    if a.Next? && a.i < |w.requests| {
      StatementKeepsRequests(w, a.i, a.ok);
    } else {
      forall k | 0 <= k < |w.requests| ensures FollowsStock(Step(w, a).inventory, w.requests[k]) {
        OthersKeepFollowsStock(w, a, w.requests[k]);
      }
      if a.Arrive? {
        ArrivedFollowsCart(w, a.user, a.discount, a.ok);
      }
    }
  }

  lemma StepKeepsSound(w: World, a: Action)
    requires Sound(w.inventory)
    ensures Sound(Step(w, a).inventory)
  {
  }

  /** The order of a request is settled when it commits, and only the committing statement settles it. */
  lemma MovedOrder(w: World, r: Request, ok: bool)
    ensures OutcomeOf(Moved(w, r, ok).phase) == Ordered <==>
            OutcomeOf(r.phase) == Ordered || (r.phase.Persisting? && ok)
    ensures OutcomeOf(Moved(w, r, ok).phase) == Ordered ==> OrderOf(Moved(w, r, ok)) == OrderOf(r)
  {
  }

  lemma OrdersFollow(w: World, w': World, i: nat, committed: bool)
    requires OrdersOk(w) && i < |w.requests| == |w'.requests|
    requires forall k :: 0 <= k < |w.requests| && k != i ==> w'.requests[k] == w.requests[k]
    requires OutcomeOf(w'.requests[i].phase) == Ordered <==> OutcomeOf(w.requests[i].phase) == Ordered || committed
    requires OutcomeOf(w'.requests[i].phase) == Ordered ==> OrderOf(w'.requests[i]) == OrderOf(w.requests[i])
    requires w'.orders == if committed then w.orders[i := OrderOf(w.requests[i])] else w.orders
    ensures OrdersOk(w')
  {
  }

  lemma StepKeepsOrders(w: World, a: Action)
    requires OrdersOk(w)
    ensures OrdersOk(Step(w, a))
  {
    if a.Next? && a.i < |w.requests| {
      MovedOrder(w, w.requests[a.i], a.ok);
      OrdersFollow(w, Step(w, a), a.i, w.requests[a.i].phase.Persisting? && a.ok);
    }
  }

  lemma StepKeepsCommits(w: World, a: Action)
    requires CommitsOk(w) && RequestsOk(w)
    ensures CommitsOk(Step(w, a))
  {
    forall k | 0 <= k < |w.commits| ensures w.commits[k].product in Step(w, a).inventory {
      StepRaisesVersions(w, a, w.commits[k].product);
    }
  }

  lemma StepKeepsInv(w: World, a: Action)
    requires Inv(w)
    ensures Inv(Step(w, a))
  {
    StepKeepsSound(w, a);
    StepKeepsRequests(w, a);
    StepKeepsOrders(w, a);
    StepKeepsCommits(w, a);
  }

  lemma {:induction false} RunKeepsInv(w: World, run: seq<Action>)
    requires Inv(w)
    ensures Inv(Exec(w, run))
  {
    if run != [] {
      RunKeepsInv(w, run[..|run| - 1]);
      StepKeepsInv(Exec(w, run[..|run| - 1]), run[|run| - 1]);
    }
  }
}
