/**
 Shopping carts: internal/domain/cart.go, internal/cart/service.go and
 internal/cart/repository_redis.go.  A stored cart is a list of lines; the module shows that it
 stands for a map from product to quantity, and what interleaved reads and saves do to it.
 */
module Cart {
  import opened Basics
  import Products

  type Product = Products.Product

  datatype CartItem = CartItem(productId: ProductId, name: string, unitPrice: real, quantity: int)

  type Carts = map<UserId, seq<CartItem>>

  /** The map a list of lines stands for. */
  function Contents(items: seq<CartItem>): map<ProductId, int> {
    if items == [] then map[] else Contents(items[1..])[items[0].productId := items[0].quantity]
  }

  /** One line per product, each with a positive quantity and no negative price. */
  predicate WellFormed(items: seq<CartItem>) {
    items != [] ==>
      && items[0].quantity >= 1 && items[0].unitPrice >= 0.0
      && items[0].productId !in Contents(items[1..])
      && WellFormed(items[1..])
  }

  lemma {:induction false} ContentsMeans(items: seq<CartItem>, p: ProductId)
    ensures p in Contents(items) <==> exists i :: 0 <= i < |items| && items[i].productId == p
  {
    if items != [] {
      var tail := items[1..];
      ContentsMeans(tail, p);
      if k :| 0 <= k < |tail| && tail[k].productId == p {
        assert items[k + 1].productId == p;
      }
      if i :| 0 < i < |items| && items[i].productId == p {
        assert tail[i - 1].productId == p;
      }
    }
  }

  /** The same, line by line: what `WellFormed` and `Contents` say of each index. */
  lemma {:induction false} WellFormedMeans(items: seq<CartItem>)
    ensures WellFormed(items) <==>
            && (forall i :: 0 <= i < |items| ==> items[i].quantity >= 1 && items[i].unitPrice >= 0.0)
            && (forall i, j :: 0 <= i < j < |items| ==> items[i].productId != items[j].productId)
    ensures forall i :: 0 <= i < |items| ==> items[i].productId in Contents(items)
    ensures WellFormed(items) ==>
              forall i :: 0 <= i < |items| ==> Contents(items)[items[i].productId] == items[i].quantity
    ensures WellFormed(items) ==> forall p :: p in Contents(items) ==> Contents(items)[p] >= 1
  {
    if items != [] {
      var tail := items[1..];
      WellFormedMeans(tail);
      ContentsMeans(tail, items[0].productId);
      assert forall i :: 0 < i < |items| ==> items[i] == tail[i - 1];
    }
  }

  function MapAdd(m: map<ProductId, int>, p: ProductId, q: int): map<ProductId, int> {
    m[p := (if p in m then m[p] else 0) + q]
  }

  /** What the lines cost together; the order of summation is that of the loop in Cart.Total. */
  function Amount(items: seq<CartItem>): real {
    if items == [] then 0.0
    else Amount(items[..|items| - 1]) + items[|items| - 1].unitPrice * items[|items| - 1].quantity as real
  }

  lemma AmountAppend(items: seq<CartItem>, item: CartItem)
    ensures Amount(items + [item]) == Amount(items) + item.unitPrice * item.quantity as real
  {
    assert (items + [item])[..|items|] == items;
  }

  method Total(items: seq<CartItem>) returns (total: real)
    ensures total == Amount(items)
  {
    total := 0.0;
    assert Amount(items[..0]) == 0.0;
    hide Amount;
    for i := 0 to |items|
      invariant total == Amount(items[..i])
    {
      AmountAppend(items[..i], items[i]);
      assert items[..i + 1] == items[..i] + [items[i]];
      total := total + items[i].unitPrice * items[i].quantity as real;
    }
    assert items[..|items|] == items;
  }

  // ---------- the edits AddItem and RemoveItem make to a list of lines ----------

  function OrderedQuantity(q: int): int {
    if q <= 0 then 1 else q
  }

  /** The first line of the product grows; without one, a new line goes to the end. */
  function Added(items: seq<CartItem>, product: Product, q: int): seq<CartItem> {
    if items == [] then [CartItem(product.id, product.name, product.price, q)]
    else if items[0].productId == product.id then [items[0].(quantity := items[0].quantity + q)] + items[1..]
    else [items[0]] + Added(items[1..], product, q)
  }

  function Removed(items: seq<CartItem>, p: ProductId): seq<CartItem> {
    if items == [] then []
    else if items[0].productId != p then [items[0]] + Removed(items[1..], p)
    else Removed(items[1..], p)
  }

  /** Removal goes line by line and keeps the order of the lines. */
  lemma {:induction false} RemovedLineByLine(items: seq<CartItem>, item: CartItem, more: seq<CartItem>, p: ProductId)
    ensures Removed([item], p) == if item.productId == p then [] else [item]
    ensures Removed(items + more, p) == Removed(items, p) + Removed(more, p)
  {
    assert [item][1..] == [];
    if items == [] {
      assert items + more == more;
    } else {
      assert (items + more)[1..] == items[1..] + more;
      RemovedLineByLine(items[1..], item, more, p);
    }
  }

  /** What is left are the lines of other products; when all are, the list is as it was. */
  lemma {:induction false} RemovedMeans(items: seq<CartItem>, p: ProductId)
    ensures forall item :: item in Removed(items, p) <==> item in items && item.productId != p
    ensures (forall item :: item in items ==> item.productId != p) ==> Removed(items, p) == items
  {
    if items != [] {
      RemovedMeans(items[1..], p);
      assert items == [items[0]] + items[1..];
    }
  }

  /** AddItem is addition on the map, and a well-formed cart stays well formed. */
  lemma {:induction false} AddRefinesMapAdd(items: seq<CartItem>, product: Product, q: int)
    requires WellFormed(items) && q >= 1 && product.price >= 0.0
    ensures WellFormed(Added(items, product, q))
    ensures Contents(Added(items, product, q)) == MapAdd(Contents(items), product.id, q)
  {
    if items != [] && items[0].productId != product.id {
      AddRefinesMapAdd(items[1..], product, q);
      assert Added(items, product, q)[1..] == Added(items[1..], product, q);
    } else if items != [] {
      assert Added(items, product, q)[1..] == items[1..];
    }
  }

  /** RemoveItem is removal from the map. */
  lemma {:induction false} RemoveRefinesMapRemove(items: seq<CartItem>, p: ProductId)
    requires WellFormed(items)
    ensures WellFormed(Removed(items, p))
    ensures Contents(Removed(items, p)) == Contents(items) - {p}
  {
    if items != [] {
      RemoveRefinesMapRemove(items[1..], p);
      if items[0].productId != p {
        assert Removed(items, p)[1..] == Removed(items[1..], p);
      }
    }
  }

  // ---------- interleaved calls ----------

  datatype Edit = Add(product: Product, quantity: int) | Remove(productId: ProductId)

  function Edited(items: seq<CartItem>, e: Edit): seq<CartItem> {
    match e
    case Add(product, q) => Added(items, product, OrderedQuantity(q))
    case Remove(p) => Removed(items, p)
  }

  function EditedMap(m: map<ProductId, int>, e: Edit): map<ProductId, int> {
    match e
    case Add(product, q) => MapAdd(m, product.id, OrderedQuantity(q))
    case Remove(p) => m - {p}
  }

  /** One AddItem or RemoveItem call: its edit, and the cart it has read, until it saves. */
  datatype Call = Waiting(user: UserId, edit: Edit) | Read(user: UserId, edit: Edit, items: seq<CartItem>) | Finished

  datatype State = State(carts: Carts, calls: seq<Call>)

  /**
   Begin starts a call whose product lookup succeeded.  Next runs the next Redis statement of call
   `c`; `ok` is whether Redis answers.  A read that fails counts as an empty cart.
   Drop removes a stored cart: Clear after checkout, or the seven-day expiry.
   */
  datatype Action = Begin(user: UserId, edit: Edit) | Next(c: nat, ok: bool) | Drop(user: UserId)

  function Stored(carts: Carts, user: UserId): seq<CartItem> {
    if user in carts then carts[user] else []
  }

  predicate Legal(e: Edit) {
    e.Add? ==> e.product.price >= 0.0
  }

  function Step(s: State, a: Action): State {
    match a
    case Begin(user, edit) => if Legal(edit) then s.(calls := s.calls + [Waiting(user, edit)]) else s
    case Drop(user) => s.(carts := s.carts - {user})
    case Next(c, ok) =>
      if c >= |s.calls| then s
      else match s.calls[c]
        case Waiting(user, edit) =>
          s.(calls := s.calls[c := Read(user, edit, if ok then Stored(s.carts, user) else [])])
        case Read(user, edit, items) =>
          s.(calls := s.calls[c := Finished], carts := if ok then s.carts[user := Edited(items, edit)] else s.carts)
        case Finished => s
  }

  function Exec(s: State, run: seq<Action>): State {
    if run == [] then s else Step(Exec(s, run[..|run| - 1]), run[|run| - 1])
  }

  /** Every cart in the store or in a call's hands is well formed. */
  predicate Inv(s: State) {
    && (forall u :: u in s.carts ==> WellFormed(s.carts[u]))
    && (forall c :: 0 <= c < |s.calls| && !s.calls[c].Finished? ==> Legal(s.calls[c].edit))
    && (forall c :: 0 <= c < |s.calls| && s.calls[c].Read? ==> WellFormed(s.calls[c].items))
  }

  lemma EditRefinesMapEdit(items: seq<CartItem>, e: Edit)
    requires WellFormed(items) && Legal(e)
    ensures WellFormed(Edited(items, e)) && Contents(Edited(items, e)) == EditedMap(Contents(items), e)
  {
    match e
    case Add(product, q) => AddRefinesMapAdd(items, product, OrderedQuantity(q));
    case Remove(p) => RemoveRefinesMapRemove(items, p);
  }

  lemma StepKeepsInv(s: State, a: Action)
    requires Inv(s)
    ensures Inv(Step(s, a))
  {
    if a.Next? && a.c < |s.calls| && s.calls[a.c].Read? {
      EditRefinesMapEdit(s.calls[a.c].items, s.calls[a.c].edit);
    }
  }

  lemma {:induction false} RunKeepsInv(s: State, run: seq<Action>)
    requires Inv(s)
    ensures Inv(Exec(s, run))
  {
    if run != [] {
      RunKeepsInv(s, run[..|run| - 1]);
      StepKeepsInv(Exec(s, run[..|run| - 1]), run[|run| - 1]);
    }
  }

  /** Over every interleaving, from no carts at all: at most one line per product, every quantity at least one. */
  lemma CartsStayWellFormed(run: seq<Action>, user: UserId)
    requires user in Exec(State(map[], []), run).carts
    ensures var items := Exec(State(map[], []), run).carts[user];
            && WellFormed(items)
            && (forall i :: 0 <= i < |items| ==> items[i].quantity >= 1)
            && (forall i, j :: 0 <= i < j < |items| ==> items[i].productId != items[j].productId)
  {
    RunKeepsInv(State(map[], []), run);
    WellFormedMeans(Exec(State(map[], []), run).carts[user]);
  }

  /**
   A save after any interference puts the map edit of the cart as it then stands if and only if the
   cart then stands, as a map, for what the call had read (for a removal, outside the removed product).
   */
  lemma SaveIsAtomicExactlyWhenUnchanged(s: State, c: nat)
    requires Inv(s) && c < |s.calls| && s.calls[c].Read?
    ensures var Read(user, edit, items) := s.calls[c];
            var now := Contents(Stored(s.carts, user));
            var saved := Step(s, Next(c, true)).carts[user];
            && WellFormed(saved)
            && (Contents(saved) == EditedMap(now, edit) <==>
                if edit.Add? then Contents(items) == now
                else Contents(items) - {edit.productId} == now - {edit.productId})
  {
    var Read(user, edit, items) := s.calls[c];
    EditRefinesMapEdit(items, edit);
    var now := Contents(Stored(s.carts, user));
    if edit.Add? && EditedMap(Contents(items), edit) == EditedMap(now, edit) {
      WellFormedMeans(items);
      WellFormedMeans(Stored(s.carts, user));
      AddCancels(Contents(items), now, edit.product.id, OrderedQuantity(edit.quantity));
    }
  }

  /** A call that nobody interrupts, answered by Redis, is exactly the map edit of the stored cart. */
  lemma UninterruptedCallIsMapEdit(s: State, user: UserId, edit: Edit)
    requires Inv(s) && Legal(edit)
    ensures var me := |s.calls|;
            var after := Exec(s, [Begin(user, edit), Next(me, true), Next(me, true)]).carts;
            && user in after && WellFormed(after[user])
            && Contents(after[user]) == EditedMap(Contents(Stored(s.carts, user)), edit)
            && after - {user} == s.carts - {user}
  {
    var me := |s.calls|;
    var run := [Begin(user, edit), Next(me, true), Next(me, true)];
    assert Exec(s, run[..1]) == Step(s, run[0]) by { assert run[..1][..0] == []; }
    assert Exec(s, run[..2]) == Step(Exec(s, run[..1]), run[1]) by { assert run[..2][..1] == run[..1]; }
    EditRefinesMapEdit(Stored(s.carts, user), edit);
  }

  // ---------- calls of one user one after the other ----------

  /** No call of the user is under way. */
  predicate Quiet(s: State, user: UserId) {
    forall c :: 0 <= c < |s.calls| && !s.calls[c].Finished? ==> s.calls[c].user != user
  }

  /** The user begins a call only when quiet, and no statement of theirs fails; nobody drops their cart. */
  predicate InTurn(s: State, a: Action, user: UserId) {
    match a
    case Begin(v, _) => v == user ==> Quiet(s, user)
    case Next(c, ok) => c < |s.calls| && !s.calls[c].Finished? && s.calls[c].user == user ==> ok
    case Drop(v) => v != user
  }

  predicate AllInTurn(s: State, run: seq<Action>, user: UserId) {
    run != [] ==>
      var front := run[..|run| - 1];
      AllInTurn(s, front, user) && InTurn(Exec(s, front), run[|run| - 1], user)
  }

  /** The edits of the user's calls, in the order in which the calls begin. */
  function EditsOf(run: seq<Action>, user: UserId): seq<Edit> {
    if run == [] then []
    else
      var before, a := EditsOf(run[..|run| - 1], user), run[|run| - 1];
      if a.Begin? && a.user == user && Legal(a.edit) then before + [a.edit] else before
  }

  function Folded(m: map<ProductId, int>, edits: seq<Edit>): map<ProductId, int> {
    if edits == [] then m else EditedMap(Folded(m, edits[..|edits| - 1]), edits[|edits| - 1])
  }

  /** Call c is the only one of its user under way, and its edit, the last one, is all that the cart lacks. */
  predicate UnderWay(s: State, c: nat, user: UserId, m: map<ProductId, int>, edits: seq<Edit>) {
    && c < |s.calls| && !s.calls[c].Finished? && s.calls[c].user == user
    && (forall d :: 0 <= d < |s.calls| && d != c && !s.calls[d].Finished? ==> s.calls[d].user != user)
    && edits != [] && s.calls[c].edit == edits[|edits| - 1]
    && Contents(Stored(s.carts, user)) == Folded(m, edits[..|edits| - 1])
    && (s.calls[c].Read? ==> s.calls[c].items == Stored(s.carts, user))
  }

  predicate Settled(s: State, user: UserId, m: map<ProductId, int>, edits: seq<Edit>) {
    Quiet(s, user) && Contents(Stored(s.carts, user)) == Folded(m, edits)
  }

  lemma BeginStep(s: State, user: UserId, edit: Edit, m: map<ProductId, int>, edits: seq<Edit>)
    requires Settled(s, user, m, edits) && Legal(edit)
    ensures UnderWay(Step(s, Begin(user, edit)), |s.calls|, user, m, edits + [edit])
  {
    assert (edits + [edit])[..|edits|] == edits;
  }

  lemma SettledStep(s: State, a: Action, user: UserId, m: map<ProductId, int>, edits: seq<Edit>)
    requires Settled(s, user, m, edits) && InTurn(s, a, user)
    requires !(a.Begin? && a.user == user && Legal(a.edit))
    ensures Settled(Step(s, a), user, m, edits)
  {
    hide Contents, Folded, Edited;
  }

  lemma OthersStep(s: State, a: Action, c: nat, user: UserId, m: map<ProductId, int>, edits: seq<Edit>)
    requires UnderWay(s, c, user, m, edits) && InTurn(s, a, user) && !(a.Next? && a.c == c)
    requires a.Begin? ==> a.user != user || !Legal(a.edit)
    ensures UnderWay(Step(s, a), c, user, m, edits)
  {
    hide Contents, Folded, Edited;
  }

  /** Its own statement: the read sees the cart as it is, and the save puts the edit of it. */
  lemma OwnStep(s: State, c: nat, user: UserId, m: map<ProductId, int>, edits: seq<Edit>)
    requires Inv(s) && UnderWay(s, c, user, m, edits)
    ensures var s' := Step(s, Next(c, true));
            if s.calls[c].Read? then Settled(s', user, m, edits) else UnderWay(s', c, user, m, edits)
  {
    if s.calls[c].Read? {
      EditRefinesMapEdit(s.calls[c].items, s.calls[c].edit);
    }
    hide Contents, Edited, EditedMap;
  }

  lemma {:induction false} SettledOrUnderWay(s: State, run: seq<Action>, user: UserId) returns (c: nat)
    requires Inv(s) && Quiet(s, user) && AllInTurn(s, run, user)
    ensures var s', m, edits := Exec(s, run), Contents(Stored(s.carts, user)), EditsOf(run, user);
            Settled(s', user, m, edits) || UnderWay(s', c, user, m, edits)
  {
    c := 0;
    if run != [] {
      var front, a := run[..|run| - 1], run[|run| - 1];
      var now, m, edits := Exec(s, front), Contents(Stored(s.carts, user)), EditsOf(front, user);
      c := SettledOrUnderWay(s, front, user);
      RunKeepsInv(s, front);
      var begins := a.Begin? && a.user == user && Legal(a.edit);
      assert !Settled(now, user, m, edits) ==> !begins;
      hide Step, Settled, UnderWay, Inv, Contents;
      if Settled(now, user, m, edits) {
        if begins {
          BeginStep(now, user, a.edit, m, edits);
          c := |now.calls|;
        } else {
          SettledStep(now, a, user, m, edits);
        }
      } else if a.Next? && a.c == c {
        OwnTurn(now, a, c, user, m, edits);
        OwnStep(now, c, user, m, edits);
      } else {
        OthersStep(now, a, c, user, m, edits);
      }
    }
  }

  lemma OwnTurn(s: State, a: Action, c: nat, user: UserId, m: map<ProductId, int>, edits: seq<Edit>)
    requires UnderWay(s, c, user, m, edits) && InTurn(s, a, user) && a.Next? && a.c == c
    ensures a == Next(c, true)
  {
  }

  /**
   When a user's calls follow one another, and Redis answers them, the stored cart is the fold of the calls' map
   edits over what it was, whatever the calls of other users do in between.
   */
  lemma SerialCallsFoldTheirEdits(s: State, run: seq<Action>, user: UserId)
    requires Inv(s) && Quiet(s, user) && AllInTurn(s, run, user) && Quiet(Exec(s, run), user)
    ensures Contents(Stored(Exec(s, run).carts, user)) == Folded(Contents(Stored(s.carts, user)), EditsOf(run, user))
  {
    var c := SettledOrUnderWay(s, run, user);
  }

  /** In numbers: an uninterrupted AddItem adds its quantity, or one if that is not positive, and nothing else. */
  lemma AddItemAdds(s: State, user: UserId, product: Product, quantity: int)
    requires Inv(s) && product.price >= 0.0
    ensures var me, before := |s.calls|, Contents(Stored(s.carts, user));
            var after := Exec(s, [Begin(user, Add(product, quantity)), Next(me, true), Next(me, true)]).carts;
            && user in after
            && var now := Contents(after[user]);
            && now.Keys == before.Keys + {product.id}
            && now[product.id] == (if product.id in before then before[product.id] else 0)
                                  + (if quantity > 0 then quantity else 1)
            && forall p :: p in before && p != product.id ==> now[p] == before[p]
  {
    UninterruptedCallIsMapEdit(s, user, Add(product, quantity));
    hide Exec, Contents;
  }

  /** An uninterrupted RemoveItem removes its product, and nothing else. */
  lemma RemoveItemRemoves(s: State, user: UserId, productId: ProductId)
    requires Inv(s)
    ensures var me, before := |s.calls|, Contents(Stored(s.carts, user));
            var after := Exec(s, [Begin(user, Remove(productId)), Next(me, true), Next(me, true)]).carts;
            && user in after
            && var now := Contents(after[user]);
            && now.Keys == before.Keys - {productId}
            && forall p :: p in now ==> now[p] == before[p]
  {
    UninterruptedCallIsMapEdit(s, user, Remove(productId));
    hide Exec, Contents;
  }

  /** Two interleaved additions to an empty cart: the second save loses the first one's line. */
  lemma LostUpdateIsReachable(user: UserId, p: Product, q: Product)
    requires p.id != q.id && p.price >= 0.0 && q.price >= 0.0
    ensures var run := [Begin(user, Add(p, 1)), Begin(user, Add(q, 1)),
                        Next(0, true), Next(1, true), Next(0, true), Next(1, true)];
            var end := Exec(State(map[], []), run);
            && end.calls == [Finished, Finished]
            && user in end.carts && Contents(end.carts[user]) == map[q.id := 1]
  {
    var run := [Begin(user, Add(p, 1)), Begin(user, Add(q, 1)),
                Next(0, true), Next(1, true), Next(0, true), Next(1, true)];
    var s := State(map[], []);
    assert Exec(s, run[..1]) == Step(s, run[0]) by { assert run[..1][..0] == []; }
    assert Exec(s, run[..2]) == Step(Exec(s, run[..1]), run[1]) by { assert run[..2][..1] == run[..1]; }
    assert Exec(s, run[..3]) == Step(Exec(s, run[..2]), run[2]) by { assert run[..3][..2] == run[..2]; }
    assert Exec(s, run[..4]) == Step(Exec(s, run[..3]), run[3]) by { assert run[..4][..3] == run[..3]; }
    assert Exec(s, run[..5]) == Step(Exec(s, run[..4]), run[4]) by { assert run[..5][..4] == run[..4]; }
    assert Exec(s, run[..5]).carts == map[user := [CartItem(p.id, p.name, p.price, 1)]];
  }

  /** Map addition is injective on maps without zero entries. */
  lemma AddCancels(m: map<ProductId, int>, n: map<ProductId, int>, p: ProductId, q: int)
    requires (p in m ==> m[p] >= 1) && (p in n ==> n[p] >= 1)
    requires MapAdd(m, p, q) == MapAdd(n, p, q)
    ensures m == n
  {
    assert MapAdd(m, p, q)[p] == MapAdd(n, p, q)[p];
    forall k | k in m ensures k in n && m[k] == n[k] {
      assert k in MapAdd(m, p, q);
      assert k != p ==> MapAdd(m, p, q)[k] == m[k];
      assert k in MapAdd(n, p, q);
    }
    forall k | k in n ensures k in m {
      assert k in MapAdd(n, p, q);
      assert k in MapAdd(m, p, q);
    }
  }

  // ---------- the calls themselves ----------

  /** What happens around one statement: what the other calls do just before it, and whether Redis answers it. */
  datatype Turn = Turn(others: seq<Action>, ok: bool)

  predicate ByOthers(run: seq<Action>, me: nat) {
    forall a :: a in run && a.Next? ==> a.c != me
  }

  /** One statement of call `me`, after what the others do before it. */
  function After(s: State, me: nat, turn: Turn): State {
    Step(Exec(s, turn.others), Next(me, turn.ok))
  }

  lemma {:induction false} OthersKeepMyCall(s: State, run: seq<Action>, me: nat)
    requires me < |s.calls| && ByOthers(run, me)
    ensures |s.calls| <= |Exec(s, run).calls| && Exec(s, run).calls[me] == s.calls[me]
  {
    if run != [] {
      OthersKeepMyCall(s, run[..|run| - 1], me);
    }
  }

  lemma AddedHere(items: seq<CartItem>, product: Product, q: int)
    requires items == [] || items[0].productId == product.id
    ensures Added(items, product, q) ==
            if items == [] then [CartItem(product.id, product.name, product.price, q)]
            else items[0 := items[0].(quantity := items[0].quantity + q)]
  {
  }

  lemma AddedLater(items: seq<CartItem>, product: Product, q: int)
    requires items != [] && items[0].productId != product.id
    ensures Added(items, product, q) == [items[0]] + Added(items[1..], product, q)
  {
  }

  lemma PastTheFirst<T>(s: seq<T>, i: nat, x: T)
    requires 0 < i <= |s|
    ensures [s[0]] + (s[1..] + [x]) == s + [x]
    ensures i < |s| ==> [s[0]] + s[1..][i - 1 := x] == s[i := x]
  {
  }

  /** `Added` by index: the first line of the product, or the end when i is the length. */
  lemma {:induction false} AddedAtFirstLine(items: seq<CartItem>, i: nat, product: Product, q: int)
    requires i <= |items| && forall k :: 0 <= k < i ==> items[k].productId != product.id
    requires i < |items| ==> items[i].productId == product.id
    ensures Added(items, product, q) ==
            if i < |items| then items[i := items[i].(quantity := items[i].quantity + q)]
            else items + [CartItem(product.id, product.name, product.price, q)]
  {
    hide Added;
    if i == 0 {
      AddedHere(items, product, q);
    } else {
      AddedLater(items, product, q);
      AddedAtFirstLine(items[1..], i - 1, product, q);
      PastTheFirst(items, i, if i < |items| then items[i].(quantity := items[i].quantity + q)
                             else CartItem(product.id, product.name, product.price, q));
    }
  }

  /**
   The first line of the product is line i and has grown by `ordered`, with everything else as it was; or there is
   none, i is the length, and a new line with the product's name and price is at the end.
   */
  predicate GrownAt(before: seq<CartItem>, items: seq<CartItem>, i: nat, product: Product, ordered: int) {
    && i <= |before| && (forall k :: 0 <= k < i ==> before[k].productId != product.id)
    && if i < |before| then
         && before[i].productId == product.id && |items| == |before|
         && (forall k :: 0 <= k < |before| && k != i ==> items[k] == before[k])
         && items[i] == CartItem(before[i].productId, before[i].name, before[i].unitPrice, before[i].quantity + ordered)
       else
         items == before + [CartItem(product.id, product.name, product.price, ordered)]
  }

  /** The search-and-grow loop of AddItem, edited in place. */
  method AddLine(before: seq<CartItem>, product: Product, ordered: int) returns (items: seq<CartItem>)
    ensures items == Added(before, product, ordered)
    ensures exists i :: 0 <= i <= |before| && GrownAt(before, items, i, product, ordered)
  {
    items := before;
    for i := 0 to |before|
      invariant items == before
      invariant forall k :: 0 <= k < i ==> before[k].productId != product.id
    {
      if before[i].productId == product.id {
        items := items[i := items[i].(quantity := items[i].quantity + ordered)];
        AddedAtFirstLine(before, i, product, ordered);
        assert GrownAt(before, items, i, product, ordered);
        return;
      }
    }
    items := items + [CartItem(product.id, product.name, product.price, ordered)];
    AddedAtFirstLine(before, |before|, product, ordered);
    assert GrownAt(before, items, |before|, product, ordered);
  }

  /** The filtering loop of RemoveItem. */
  method RemoveLines(items: seq<CartItem>, productId: ProductId) returns (newItems: seq<CartItem>)
    ensures newItems == Removed(items, productId)
    ensures forall item :: item in newItems <==> item in items && item.productId != productId
    ensures (forall item :: item in items ==> item.productId != productId) ==> newItems == items
  {
    newItems := [];
    assert Removed(items[..0], productId) == [];
    hide Removed;
    for i := 0 to |items|
      invariant newItems == Removed(items[..i], productId)
    {
      RemovedLineByLine(items[..i], items[i], [items[i]], productId);
      assert items[..i + 1] == items[..i] + [items[i]];
      if items[i].productId != productId {
        newItems := newItems + [items[i]];
      }
    }
    assert items[..|items|] == items;
    RemovedMeans(items, productId);
  }

  class CartService {
    var carts: Carts
    var calls: seq<Call>

    function View(): State
      reads this
    {
      State(carts, calls)
    }

    method Yield(others: seq<Action>)
      modifies this
      ensures View() == Exec(old(View()), others)
    {
      var s := Exec(View(), others);
      carts, calls := s.carts, s.calls;
    }

    method GetByUserID(user: UserId, ok: bool) returns (items: seq<CartItem>)
      ensures items == if ok then Stored(carts, user) else []
    {
      if !ok || user !in carts {
        return [];
      }
      items := carts[user];
    }

    method Save(user: UserId, items: seq<CartItem>, ok: bool)
      modifies this`carts
      ensures carts == if ok then old(carts)[user := items] else old(carts)
    {
      if ok {
        carts := carts[user := items];
      }
    }

    /** Clear, after a checkout: the stored cart goes, whatever it is, if Redis answers. */
    method Clear(user: UserId, ok: bool)
      modifies this`carts
      ensures View() == if ok then Step(old(View()), Drop(user)) else old(View())
      ensures ok ==> Stored(carts, user) == []
    {
      if ok {
        carts := carts - {user};
      }
    }

    /**
     The lookup's answer comes in as `found`; it is a product with the requested ID.
     Whatever the others do around the two Redis statements, the call is one Begin and two Next steps.
     */
    method AddItem(user: UserId, productId: ProductId, quantity: int, found: Option<Product>, get: Turn, save: Turn)
      returns (r: Option<seq<CartItem>>)
      requires found.Some? ==> found.value.id == productId && found.value.price >= 0.0
      requires ByOthers(get.others, |calls|) && ByOthers(save.others, |calls|)
      modifies this
      ensures found.None? ==> r == None && View() == old(View())
      ensures found.Some? ==>
                var s1 := After(Step(old(View()), Begin(user, Add(found.value, quantity))), |old(calls)|, get);
                View() == After(s1, |old(calls)|, save)
      ensures r.Some? <==> found.Some? && save.ok
      ensures r.Some? ==> user in carts && carts[user] == r.value
      ensures r.Some? ==>
                var now := Exec(Step(old(View()), Begin(user, Add(found.value, quantity))), get.others).carts;
                var read := if get.ok && user in now then now[user] else [];
                var ordered := if quantity <= 0 then 1 else quantity;
                exists i :: 0 <= i <= |read| && GrownAt(read, r.value, i, found.value, ordered)
    {
      var ordered := if quantity <= 0 then 1 else quantity;
      if found.None? {
        return None;
      }
      var product := found.value;
      var me := |calls|;
      calls := calls + [Waiting(user, Add(product, quantity))];
      ghost var s0 := View();

      OthersKeepMyCall(View(), get.others, me);
      Yield(get.others);
      var items := GetByUserID(user, get.ok);
      calls := calls[me := Read(user, Add(product, quantity), items)];
      ghost var s1 := View();
      assert s1 == After(s0, me, get);

      items := AddLine(items, product, ordered);

      OthersKeepMyCall(View(), save.others, me);
      Yield(save.others);
      Save(user, items, save.ok);
      calls := calls[me := Finished];
      r := if save.ok then Some(items) else None;
    }

    method RemoveItem(user: UserId, productId: ProductId, get: Turn, save: Turn) returns (r: Option<seq<CartItem>>)
      requires ByOthers(get.others, |calls|) && ByOthers(save.others, |calls|)
      modifies this
      ensures var s1 := After(Step(old(View()), Begin(user, Remove(productId))), |old(calls)|, get);
              View() == After(s1, |old(calls)|, save)
      ensures r.Some? <==> save.ok
      ensures r.Some? ==> user in carts && carts[user] == r.value
      ensures r.Some? ==>
                var now := Exec(Step(old(View()), Begin(user, Remove(productId))), get.others).carts;
                var read := if get.ok && user in now then now[user] else [];
                && (forall item :: item in r.value <==> item in read && item.productId != productId)
                && ((forall item :: item in read ==> item.productId != productId) ==> r.value == read)
    {
      var me := |calls|;
      calls := calls + [Waiting(user, Remove(productId))];
      ghost var s0 := View();

      OthersKeepMyCall(View(), get.others, me);
      Yield(get.others);
      var items := GetByUserID(user, get.ok);
      calls := calls[me := Read(user, Remove(productId), items)];
      assert View() == After(s0, me, get);

      var newItems := RemoveLines(items, productId);

      OthersKeepMyCall(View(), save.others, me);
      Yield(save.others);
      Save(user, newItems, save.ok);
      calls := calls[me := Finished];
      r := if save.ok then Some(newItems) else None;
    }
  }
}
