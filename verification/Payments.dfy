/**
 Idempotent payments: Charge (internal/payment/service.go) over the payments table
 (internal/payment/repository_pg.go), whose idempotency key is UNIQUE
 (internal/database/migrations.go).  Any number of calls interleave, and any statement can fail.
 */
module Payments {
  import opened Basics

  /** The text form of a UUID: 36 characters (section 4 of RFC 9562). */
  type Uuid = s: string | |s| == 36 witness seq(36, _ => '0')

  datatype Status = Pending | Captured | Failed

  /** A row of the payments table; its ID is the number of the call that made it. */
  datatype Payment = Payment(id: nat, order: Uuid, user: Uuid, key: string, status: Status)

  datatype ChargeRequest = ChargeRequest(order: Uuid, user: Uuid, key: string) {
    /** The client's key, or the one made of order and user. */
    function Key(): string {
      if key == "" then order + "-" + user else key
    }
  }

  /** The column for keys holds 255 characters. */
  predicate Storable(key: string) {
    |key| <= 255
  }

  datatype ChargeError = NotCreated | PaymentFailed

  /** `row` is where the row that the call inserted, or found, stands in the table. */
  datatype Phase =
    | Looking
    | Inserting
    | Charging(row: nat)
    | Settling(row: nat, approved: bool)
    | Settled(row: nat, approved: bool)
    | Replayed(row: nat, found: Payment)
    | Rejected

  datatype Call = Call(request: ChargeRequest, phase: Phase)

  /** One call to the payment provider. */
  datatype ProviderCall = ProviderCall(call: nat, key: string, approved: bool)

  datatype State = State(rows: seq<Payment>, calls: seq<Call>, provider: seq<ProviderCall>)

  /** Next runs the next statement of call c; `ok` is whether the database answers it, or the provider approves. */
  datatype Action = Arrive(request: ChargeRequest) | Next(c: nat, ok: bool)

  /** The position of the first row with the key, or the length. */
  function Find(rows: seq<Payment>, key: string): (i: nat)
    ensures i <= |rows|
    ensures i < |rows| ==> rows[i].key == key
    ensures forall j :: 0 <= j < i ==> rows[j].key != key
  {
    if rows == [] || rows[0].key == key then 0 else 1 + Find(rows[1..], key)
  }

  /** UPDATE payments SET status WHERE id. */
  function WithStatus(rows: seq<Payment>, id: nat, status: Status): seq<Payment> {
    seq(|rows|, i requires 0 <= i < |rows| => if rows[i].id == id then rows[i].(status := status) else rows[i])
  }

  function Outcome(approved: bool): Status {
    if approved then Captured else Failed
  }

  function NewPayment(c: nat, r: ChargeRequest): Payment {
    Payment(c, r.order, r.user, r.Key(), Pending)
  }

  function Moved(s: State, c: nat, ok: bool): Phase
    requires c < |s.calls|
  {
    var call := s.calls[c];
    var found := Find(s.rows, call.request.Key());
    match call.phase
    case Looking => if ok && found < |s.rows| then Replayed(found, s.rows[found]) else Inserting
    case Inserting =>
      if ok && Storable(call.request.Key()) && found == |s.rows| then Charging(|s.rows|) else Rejected
    case Charging(row) => Settling(row, ok)
    case Settling(row, approved) => Settled(row, approved)
    case _ => call.phase
  }

  /** What the next statement of call c does to the payments table. */
  function RowsAfter(s: State, c: nat, ok: bool): seq<Payment>
    requires c < |s.calls|
  {
    var call := s.calls[c];
    if call.phase.Inserting? && ok && Storable(call.request.Key()) && Find(s.rows, call.request.Key()) == |s.rows|
    then s.rows + [NewPayment(c, call.request)]
    else if call.phase.Settling? && ok then WithStatus(s.rows, c, Outcome(call.phase.approved))
    else s.rows
  }

  function Step(s: State, a: Action): State {
    match a
    case Arrive(request) => s.(calls := s.calls + [Call(request, Looking)])
    case Next(c, ok) =>
      if c >= |s.calls| then s
      else State(
          RowsAfter(s, c, ok),
          s.calls[c := s.calls[c].(phase := Moved(s, c, ok))],
          if s.calls[c].phase.Charging? then s.provider + [ProviderCall(c, s.calls[c].request.Key(), ok)]
          else s.provider)
  }

  function Exec(s: State, run: seq<Action>): State {
    if run == [] then s else Step(Exec(s, run[..|run| - 1]), run[|run| - 1])
  }

  function Empty(): State {
    State([], [], [])
  }

  // ---------- what every step keeps ----------

  predicate OwnsRow(phase: Phase) {
    phase.Charging? || phase.Settling? || phase.Settled?
  }

  /** The row at position i was inserted by the call it is named after, and is that call's payment. */
  predicate RowOk(s: State, i: nat)
    requires i < |s.rows|
  {
    var p := s.rows[i];
    && p.id < |s.calls|
    && OwnsRow(s.calls[p.id].phase) && s.calls[p.id].phase.row == i
    && p.(status := Pending) == NewPayment(p.id, s.calls[p.id].request) && Storable(p.key)
    && (p.status != Pending ==> s.calls[p.id].phase.Settled? && p.status == Outcome(s.calls[p.id].phase.approved))
  }

  /** A call that inserted a row still has it. */
  predicate OwnerOk(s: State, c: nat)
    requires c < |s.calls|
  {
    OwnsRow(s.calls[c].phase) ==> s.calls[c].phase.row < |s.rows| && s.rows[s.calls[c].phase.row].id == c
  }

  /** A call that found a row has seen it as it is, or as it was while it was pending. */
  predicate ReplayOk(s: State, c: nat)
    requires c < |s.calls|
  {
    var phase := s.calls[c].phase;
    phase.Replayed? ==>
      && phase.row < |s.rows| && s.rows[phase.row].key == s.calls[c].request.Key()
      && phase.found.(status := Pending) == s.rows[phase.row].(status := Pending)
      && (phase.found.status != Pending ==> phase.found == s.rows[phase.row])
  }

  /** The provider's calls are those of calls past charging, at most one each. */
  predicate ProviderCallsOk(s: State) {
    && (forall k :: 0 <= k < |s.provider| ==>
          var x := s.provider[k];
          && x.call < |s.calls| && x.key == s.calls[x.call].request.Key()
          && (s.calls[x.call].phase.Settling? || s.calls[x.call].phase.Settled?)
          && s.calls[x.call].phase.approved == x.approved)
    && (forall j, k :: 0 <= j < k < |s.provider| ==> s.provider[j].call != s.provider[k].call)
  }

  /** Every call past charging has made its provider call. */
  predicate ProviderMade(s: State) {
    forall c :: 0 <= c < |s.calls| && (s.calls[c].phase.Settling? || s.calls[c].phase.Settled?) ==>
      exists k :: 0 <= k < |s.provider| && s.provider[k].call == c
  }

  predicate KeysDistinct(rows: seq<Payment>) {
    forall i, j :: 0 <= i < j < |rows| ==> rows[i].key != rows[j].key
  }

  predicate Inv(s: State) {
    && KeysDistinct(s.rows)
    && (forall i :: 0 <= i < |s.rows| ==> RowOk(s, i))
    && (forall c :: 0 <= c < |s.calls| ==> OwnerOk(s, c) && ReplayOk(s, c))
    && ProviderCallsOk(s) && ProviderMade(s)
  }

  /** Rows are never removed; a settled row never changes; only the call that inserted a row changes it. */
  lemma StepKeepsRows(s: State, a: Action)
    requires Inv(s)
    ensures var s' := Step(s, a);
            && |s.rows| <= |s'.rows|
            && forall i :: 0 <= i < |s.rows| ==>
                 && s'.rows[i].(status := Pending) == s.rows[i].(status := Pending)
                 && (s.rows[i].status != Pending ==> s'.rows[i] == s.rows[i])
                 && (s'.rows[i] != s.rows[i] ==> a == Next(s.rows[i].id, true))
  {
    if a.Next? && a.c < |s.calls| && s.calls[a.c].phase.Settling? {
      forall i | 0 <= i < |s.rows| && s.rows[i].id == a.c ensures s.rows[i].status == Pending {
        assert RowOk(s, i);
      }
    }
  }

  lemma StepKeepsRowOk(s: State, a: Action, i: nat)
    requires Inv(s) && i < |Step(s, a).rows|
    ensures RowOk(Step(s, a), i)
  {
    if i < |s.rows| {
      assert RowOk(s, i);
      StepKeepsRows(s, a);
    }
  }

  lemma StepKeepsOwnerOk(s: State, a: Action, c: nat)
    requires Inv(s) && c < |Step(s, a).calls|
    ensures OwnerOk(Step(s, a), c)
  {
    StepKeepsRows(s, a);
    if c < |s.calls| {
      assert OwnerOk(s, c);
    }
  }

  lemma StepKeepsReplayOk(s: State, a: Action, c: nat)
    requires Inv(s) && c < |Step(s, a).calls|
    ensures ReplayOk(Step(s, a), c)
  {
    StepKeepsRows(s, a);
    hide RowsAfter;
    if c < |s.calls| {
      assert ReplayOk(s, c);
    }
  }

  /** A call stays past charging, with the outcome it has seen. */
  lemma StepKeepsOutcome(s: State, a: Action, c: nat)
    requires c < |s.calls|
    ensures var was, now := s.calls[c], Step(s, a).calls[c];
            && now.request == was.request
            && (was.phase.Settling? || was.phase.Settled? ==>
                  (now.phase.Settling? || now.phase.Settled?) && now.phase.approved == was.phase.approved)
            && ((now.phase.Settling? || now.phase.Settled?) && !was.phase.Settling? && !was.phase.Settled? ==>
                  a.Next? && a.c == c && was.phase.Charging? && now.phase.Settling? && now.phase.approved == a.ok)
  {
  }

  lemma StepKeepsProviderCalls(s: State, a: Action)
    requires ProviderCallsOk(s)
    ensures ProviderCallsOk(Step(s, a))
  {
    var s' := Step(s, a);
    forall k | 0 <= k < |s'.provider|
      ensures var x := s'.provider[k];
              && x.call < |s'.calls| && x.key == s'.calls[x.call].request.Key()
              && (s'.calls[x.call].phase.Settling? || s'.calls[x.call].phase.Settled?)
              && s'.calls[x.call].phase.approved == x.approved
    {
      if k < |s.provider| {
        StepKeepsOutcome(s, a, s.provider[k].call);
      }
    }
  }

  lemma StepKeepsProviderMade(s: State, a: Action)
    requires ProviderMade(s)
    ensures ProviderMade(Step(s, a))
  {
    var s' := Step(s, a);
    forall c | 0 <= c < |s'.calls| && (s'.calls[c].phase.Settling? || s'.calls[c].phase.Settled?)
      ensures exists k :: 0 <= k < |s'.provider| && s'.provider[k].call == c
    {
      StepKeepsOutcome(s, a, c);
      if s.calls[c].phase.Charging? {
        assert s'.provider[|s.provider|].call == c;
      } else {
        var k :| 0 <= k < |s.provider| && s.provider[k].call == c;
        assert s'.provider[k].call == c;
      }
    }
  }

  lemma StepKeepsKeys(s: State, a: Action)
    requires KeysDistinct(s.rows)
    ensures KeysDistinct(Step(s, a).rows)
  {
  }

  lemma StepKeepsInv(s: State, a: Action)
    requires Inv(s)
    ensures Inv(Step(s, a))
  {
    hide Step, RowOk, OwnerOk, ReplayOk, ProviderCallsOk, ProviderMade;
    StepKeepsKeys(s, a);
    StepKeepsProviderCalls(s, a);
    StepKeepsProviderMade(s, a);
    forall i | 0 <= i < |Step(s, a).rows| ensures RowOk(Step(s, a), i) {
      StepKeepsRowOk(s, a, i);
    }
    forall c | 0 <= c < |Step(s, a).calls| ensures OwnerOk(Step(s, a), c) && ReplayOk(Step(s, a), c) {
      StepKeepsOwnerOk(s, a, c);
      StepKeepsReplayOk(s, a, c);
    }
  }

  lemma {:induction false} RunKeepsInv(s: State, run: seq<Action>)
    requires Inv(s)
    ensures Inv(Exec(s, run))
  {
    if run != [] {
      RunKeepsInv(s, run[..|run| - 1]);
      StepKeepsInv(Exec(s, run[..|run| - 1]), run[|run| - 1]);
    }
  }

  // ---------- at most one charge per key ----------

  /**
   In every run, failed lookups included: an idempotency key has at most one payment row and at most
   one provider call; a row says CAPTURED or FAILED only if that is what the provider call made for its
   key said; and a row belongs to the call it is named after.
   */
  lemma ChargedAtMostOnce(run: seq<Action>)
    ensures var s := Exec(Empty(), run);
            && KeysDistinct(s.rows)
            && (forall j, k :: 0 <= j < k < |s.provider| ==> s.provider[j].key != s.provider[k].key)
            && (forall i :: 0 <= i < |s.rows| ==>
                  && s.rows[i].id < |s.calls| && s.rows[i].key == s.calls[s.rows[i].id].request.Key()
                  && (s.rows[i].status != Pending ==>
                        ProviderCall(s.rows[i].id, s.rows[i].key, s.rows[i].status == Captured) in s.provider))
  {
    RunKeepsInv(Empty(), run);
    var s := Exec(Empty(), run);
    forall j, k | 0 <= j < k < |s.provider| ensures s.provider[j].key != s.provider[k].key {
      OneProviderCallPerKey(s, j, k);
    }
    forall i | 0 <= i < |s.rows|
      ensures s.rows[i].id < |s.calls| && s.rows[i].key == s.calls[s.rows[i].id].request.Key()
      ensures s.rows[i].status != Pending ==>
                ProviderCall(s.rows[i].id, s.rows[i].key, s.rows[i].status == Captured) in s.provider
    {
      assert RowOk(s, i);
      if s.rows[i].status != Pending {
        var k :| 0 <= k < |s.provider| && s.provider[k].call == s.rows[i].id;
      }
    }
  }

  lemma OneProviderCallPerKey(s: State, j: nat, k: nat)
    requires Inv(s) && j < k < |s.provider|
    ensures s.provider[j].key != s.provider[k].key
  {
    var c, d := s.provider[j].call, s.provider[k].call;
    assert OwnerOk(s, c) && OwnerOk(s, d);
    assert RowOk(s, s.calls[c].phase.row) && RowOk(s, s.calls[d].phase.row);
  }

  /** A settled payment row never changes again, whatever is tried with its key. */
  lemma {:induction false} SettledRowsStay(s: State, run: seq<Action>, i: nat)
    requires Inv(s) && i < |s.rows| && s.rows[i].status != Pending
    ensures i < |Exec(s, run).rows| && Exec(s, run).rows[i] == s.rows[i]
  {
    if run != [] {
      SettledRowsStay(s, run[..|run| - 1], i);
      RunKeepsInv(s, run[..|run| - 1]);
      StepKeepsRows(Exec(s, run[..|run| - 1]), run[|run| - 1]);
    }
  }

  // ---------- whose payment a call returns ----------

  /** What Charge returned: the row it found, or its own payment with the outcome it saw. */
  function Returned(s: State, c: nat): Option<Payment>
    requires c < |s.calls|
  {
    match s.calls[c].phase
    case Replayed(_, found) => Some(found)
    case Settled(_, approved) => Some(NewPayment(c, s.calls[c].request).(status := Outcome(approved)))
    case _ => None
  }

  /** The payment is for the order and the user of the request. */
  predicate Own(p: Payment, r: ChargeRequest) {
    p.order == r.order && p.user == r.user
  }

  /**
   A call that returns a payment returns the one its key stands for: the payment of the request that
   inserted the row with that key.
   */
  lemma ReturnedPaymentIsTheFirstRequests(run: seq<Action>, c: nat)
    requires c < |Exec(Empty(), run).calls| && Returned(Exec(Empty(), run), c).Some?
    ensures var s := Exec(Empty(), run);
            var p := Returned(s, c).value;
            && p.id < |s.calls| && p.key == s.calls[c].request.Key() == s.calls[p.id].request.Key()
            && Own(p, s.calls[p.id].request)
            && exists i :: 0 <= i < |s.rows| && s.rows[i].id == p.id && s.rows[i].key == p.key
  {
    RunKeepsInv(Empty(), run);
    var s := Exec(Empty(), run);
    assert OwnerOk(s, c) && ReplayOk(s, c);
    assert RowOk(s, s.calls[c].phase.row);
  }

  /** Where the row of a returned payment stands; its key is the call's. */
  lemma ReturnedRow(s: State, c: nat) returns (i: nat)
    requires Inv(s) && c < |s.calls| && Returned(s, c).Some?
    ensures i < |s.rows| && s.rows[i].id == Returned(s, c).value.id && s.rows[i].key == s.calls[c].request.Key()
  {
    assert OwnerOk(s, c) && ReplayOk(s, c);
    i := s.calls[c].phase.row;
    assert RowOk(s, i);
  }

  /** A row is found by its ID as well as by its key. */
  lemma RowsAreDistinct(s: State, i: nat, j: nat)
    requires Inv(s) && i < |s.rows| && j < |s.rows|
    ensures s.rows[i].id == s.rows[j].id <==> i == j
    ensures s.rows[i].key == s.rows[j].key <==> i == j
  {
    assert RowOk(s, i) && RowOk(s, j);
  }

  /** What a request's payment is stored under: the key that was sent, or order and user when none was. */
  predicate AsSent(key: string, r: ChargeRequest) {
    && (r.key != "" ==> key == r.key)
    && (r.key == "" ==> |key| == 73 && key[..36] == r.order && key[36] == '-' && key[37..] == r.user)
  }

  lemma KeyIsAsSent(r: ChargeRequest)
    ensures AsSent(r.Key(), r)
  {
  }

  /**
   In every run: each row and each provider call carries the key that its request sent, and order and user for a request
   that sent none; and so does the payment that a call is returned.
   */
  lemma KeysAreAsSent(run: seq<Action>)
    ensures var s := Exec(Empty(), run);
            && (forall i :: 0 <= i < |s.rows| ==>
                  s.rows[i].id < |s.calls| && AsSent(s.rows[i].key, s.calls[s.rows[i].id].request))
            && (forall k :: 0 <= k < |s.provider| ==>
                  s.provider[k].call < |s.calls| && AsSent(s.provider[k].key, s.calls[s.provider[k].call].request))
            && (forall c :: 0 <= c < |s.calls| && Returned(s, c).Some? ==>
                  AsSent(Returned(s, c).value.key, s.calls[c].request))
  {
    var s := Exec(Empty(), run);
    RunKeepsInv(Empty(), run);
    hide AsSent;
    forall i: nat | i < |s.rows|
      ensures s.rows[i].id < |s.calls| && AsSent(s.rows[i].key, s.calls[s.rows[i].id].request)
    {
      assert RowOk(s, i);
      KeyIsAsSent(s.calls[s.rows[i].id].request);
    }
    forall k: nat | k < |s.provider|
      ensures s.provider[k].call < |s.calls| && AsSent(s.provider[k].key, s.calls[s.provider[k].call].request)
    {
      assert ProviderCallsOk(s);
      KeyIsAsSent(s.calls[s.provider[k].call].request);
    }
    forall c: nat | c < |s.calls| && Returned(s, c).Some?
      ensures AsSent(Returned(s, c).value.key, s.calls[c].request)
    {
      ReturnedPaymentIsTheFirstRequests(run, c);
      KeyIsAsSent(s.calls[c].request);
    }
  }

  /** Two calls are returned the same payment exactly when their keys are the same. */
  lemma SamePaymentExactlyWhenSameKey(run: seq<Action>, c: nat, d: nat)
    requires var s := Exec(Empty(), run);
             c < |s.calls| && d < |s.calls| && Returned(s, c).Some? && Returned(s, d).Some?
    ensures var s := Exec(Empty(), run);
            Returned(s, c).value.id == Returned(s, d).value.id <==> s.calls[c].request.Key() == s.calls[d].request.Key()
  {
    var s := Exec(Empty(), run);
    RunKeepsInv(Empty(), run);
    hide Exec, Inv, Returned;
    var i := ReturnedRow(s, c);
    var j := ReturnedRow(s, d);
    RowsAreDistinct(s, i, j);
  }

  /** Two calls whose clients sent keys are returned the same payment if and only if the two keys are the same text. */
  lemma ClientKeysTellPaymentsApart(run: seq<Action>, c: nat, d: nat)
    requires var s := Exec(Empty(), run);
             && c < |s.calls| && d < |s.calls| && Returned(s, c).Some? && Returned(s, d).Some?
             && s.calls[c].request.key != "" && s.calls[d].request.key != ""
    ensures var s := Exec(Empty(), run);
            Returned(s, c).value.id == Returned(s, d).value.id <==> s.calls[c].request.key == s.calls[d].request.key
  {
    SamePaymentExactlyWhenSameKey(run, c, d);
    hide Exec, Returned;
  }

  lemma RowIsStorable(s: State, i: nat)
    requires Inv(s) && i < |s.rows|
    ensures Storable(s.rows[i].key)
  {
    assert RowOk(s, i);
  }

  /** The key of a payment that is returned has been stored. */
  lemma ReturnedKeyIsStorable(run: seq<Action>, c: nat)
    requires c < |Exec(Empty(), run).calls| && Returned(Exec(Empty(), run), c).Some?
    ensures Storable(Exec(Empty(), run).calls[c].request.Key())
  {
    RunKeepsInv(Empty(), run);
    var s := Exec(Empty(), run);
    hide Exec, Inv;
    var i := ReturnedRow(s, c);
    RowIsStorable(s, i);
  }

  /** If every call with the same key is for the same order and user, the call gets its own payment. */
  lemma UnsharedKeyReturnsTheOwnPayment(run: seq<Action>, c: nat)
    requires var s := Exec(Empty(), run);
             && c < |s.calls| && Returned(s, c).Some?
             && forall d :: 0 <= d < |s.calls| && s.calls[d].request.Key() == s.calls[c].request.Key() ==>
                  Agree(s.calls[d].request, s.calls[c].request)
    ensures Own(Returned(Exec(Empty(), run), c).value, Exec(Empty(), run).calls[c].request)
  {
    ReturnedPaymentIsTheFirstRequests(run, c);
  }

  predicate Agree(a: ChargeRequest, b: ChargeRequest) {
    a.order == b.order && a.user == b.user
  }

  /** Requests with the same key, the client's or the default one, agree if that key can be stored. */
  predicate KeysAgree(requests: set<ChargeRequest>) {
    forall a, b :: a in requests && b in requests && a.Key() == b.Key() && Storable(a.Key()) ==> Agree(a, b)
  }

  predicate From(run: seq<Action>, requests: set<ChargeRequest>) {
    forall a :: a in run && a.Arrive? ==> a.request in requests
  }

  predicate EveryoneGetsTheirOwn(s: State) {
    forall c :: 0 <= c < |s.calls| && Returned(s, c).Some? ==> Own(Returned(s, c).value, s.calls[c].request)
  }

  lemma {:induction false} RequestsComeFromTheRun(run: seq<Action>, requests: set<ChargeRequest>)
    requires From(run, requests)
    ensures forall c :: 0 <= c < |Exec(Empty(), run).calls| ==> Exec(Empty(), run).calls[c].request in requests
  {
    if run != [] {
      RequestsComeFromTheRun(run[..|run| - 1], requests);
      assert run[|run| - 1] in run;
    }
  }

  lemma ExecAppend(s: State, run: seq<Action>, a: Action)
    ensures Exec(s, run + [a]) == Step(Exec(s, run), a)
  {
    assert (run + [a])[..|run|] == run;
  }

  /** Call 0 is charged from start to end, then call 1 looks its key up. */
  function ChargedFirst(a: ChargeRequest, b: ChargeRequest): seq<Action> {
    [] + [Arrive(a)] + [Arrive(b)] + [Next(0, true)] + [Next(0, true)] + [Next(0, true)] + [Next(0, true)]
    + [Next(1, true)]
  }

  lemma ChargedFirstSteps(a: ChargeRequest, b: ChargeRequest)
    ensures var s0 := Step(Step(Empty(), Arrive(a)), Arrive(b));
            var s4 := Step(Step(Step(Step(s0, Next(0, true)), Next(0, true)), Next(0, true)), Next(0, true));
            Exec(Empty(), ChargedFirst(a, b)) == Step(s4, Next(1, true))
  {
    hide Step;
    var next := Next(0, true);
    ExecAppend(Empty(), [], Arrive(a));
    ExecAppend(Empty(), [] + [Arrive(a)], Arrive(b));
    var two := [] + [Arrive(a)] + [Arrive(b)];
    ExecAppend(Empty(), two, next);
    ExecAppend(Empty(), two + [next], next);
    ExecAppend(Empty(), two + [next] + [next], next);
    ExecAppend(Empty(), two + [next] + [next] + [next], next);
    ExecAppend(Empty(), two + [next] + [next] + [next] + [next], Next(1, true));
  }

  /** Two requests have arrived. */
  function Waiting(a: ChargeRequest, b: ChargeRequest): State {
    State([], [Call(a, Looking), Call(b, Looking)], [])
  }

  /** The first has been charged. */
  function Charged(a: ChargeRequest, b: ChargeRequest): State {
    State([NewPayment(0, a).(status := Captured)], [Call(a, Settled(0, true)), Call(b, Looking)],
          [ProviderCall(0, a.Key(), true)])
  }

  lemma BothWait(a: ChargeRequest, b: ChargeRequest)
    ensures Step(Step(Empty(), Arrive(a)), Arrive(b)) == Waiting(a, b)
  {
  }

  lemma FirstCharges(a: ChargeRequest, b: ChargeRequest)
    requires Storable(a.Key())
    ensures var s2 := Step(Step(Waiting(a, b), Next(0, true)), Next(0, true));
            Step(Step(s2, Next(0, true)), Next(0, true)) == Charged(a, b)
  {
    var s1 := Step(Waiting(a, b), Next(0, true));
    assert s1 == State([], [Call(a, Inserting), Call(b, Looking)], []);
    var s2 := Step(s1, Next(0, true));
    assert s2 == State([NewPayment(0, a)], [Call(a, Charging(0)), Call(b, Looking)], []);
    var s3 := Step(s2, Next(0, true));
    assert s3 == State([NewPayment(0, a)], [Call(a, Settling(0, true)), Call(b, Looking)],
                       [ProviderCall(0, a.Key(), true)]);
  }

  lemma SecondReplays(a: ChargeRequest, b: ChargeRequest)
    requires a.Key() == b.Key()
    ensures var s := Charged(a, b);
            Step(s, Next(1, true)) == State(s.rows, [s.calls[0], Call(b, Replayed(0, s.rows[0]))], s.provider)
  {
    assert Find(Charged(a, b).rows, a.Key()) == 0;
  }

  /** The second of two requests with the same key gets the first one's payment, and no provider call is made for it. */
  lemma SharedKeyReturnsTheFirstPayment(a: ChargeRequest, b: ChargeRequest)
    requires a.Key() == b.Key() && Storable(a.Key())
    ensures var s := Exec(Empty(), ChargedFirst(a, b));
            && |s.calls| == 2 && s.calls[1].request == b && |s.provider| == 1
            && Returned(s, 1) == Some(Payment(0, a.order, a.user, a.Key(), Captured))
  {
    hide Step;
    ChargedFirstSteps(a, b);
    BothWait(a, b);
    FirstCharges(a, b);
    SecondReplays(a, b);
  }

  /**
   Among the given requests, every call is returned a payment for its own order and user, in every run,
   if and only if requests that share a key that can be stored share the order and the user.
   */
  lemma OwnPaymentsExactlyWhenKeysAgree(requests: set<ChargeRequest>)
    ensures (forall run :: From(run, requests) ==> EveryoneGetsTheirOwn(Exec(Empty(), run))) <==> KeysAgree(requests)
  {
    if KeysAgree(requests) {
      forall run | From(run, requests) ensures EveryoneGetsTheirOwn(Exec(Empty(), run)) {
        OwnPaymentsWhenKeysAgree(run, requests);
      }
    } else {
      var a, b :| a in requests && b in requests && a.Key() == b.Key() && Storable(a.Key()) && !Agree(a, b);
      SharedKeyReturnsTheFirstPayment(a, b);
      assert From(ChargedFirst(a, b), requests);
      assert !Own(Returned(Exec(Empty(), ChargedFirst(a, b)), 1).value, b);
      assert !EveryoneGetsTheirOwn(Exec(Empty(), ChargedFirst(a, b)));
    }
  }

  lemma OwnPaymentsWhenKeysAgree(run: seq<Action>, requests: set<ChargeRequest>)
    requires From(run, requests) && KeysAgree(requests)
    ensures EveryoneGetsTheirOwn(Exec(Empty(), run))
  {
    var s := Exec(Empty(), run);
    RequestsComeFromTheRun(run, requests);
    forall c: nat | c < |s.calls| && Returned(s, c).Some? ensures Own(Returned(s, c).value, s.calls[c].request) {
      ReturnedKeyIsStorable(run, c);
      UnsharedKeyReturnsTheOwnPayment(run, c);
    }
  }

  lemma DefaultKeysAreInjective(a: ChargeRequest, b: ChargeRequest)
    requires a.key == "" && b.key == "" && a.Key() == b.Key()
    ensures Agree(a, b)
  {
    assert a.order == a.Key()[..36] && a.user == a.Key()[37..];
    assert b.order == b.Key()[..36] && b.user == b.Key()[37..];
  }

  /**
   When clients send no keys of their own, every call that returns a payment returns one for its own
   order and user, and two calls return the same payment exactly when order and user agree.
   */
  lemma DefaultKeysReplayTheSamePayment(run: seq<Action>, c: nat, d: nat)
    requires var s := Exec(Empty(), run);
             && (forall a :: a in run && a.Arrive? ==> a.request.key == "")
             && c < |s.calls| && d < |s.calls| && Returned(s, c).Some? && Returned(s, d).Some?
    ensures var s := Exec(Empty(), run);
            && Own(Returned(s, c).value, s.calls[c].request)
            && (Agree(s.calls[c].request, s.calls[d].request) <==> Returned(s, c).value.id == Returned(s, d).value.id)
  {
    var s := Exec(Empty(), run);
    var requests := set a | a in run && a.Arrive? :: a.request;
    forall a, b | a in requests && b in requests && a.Key() == b.Key() ensures Agree(a, b) {
      DefaultKeysAreInjective(a, b);
    }
    OwnPaymentsWhenKeysAgree(run, requests);
    SamePaymentExactlyWhenSameKey(run, c, d);
    RequestsComeFromTheRun(run, requests);
  }

  /** A client's key can be the default key of another request; the two then share one payment. */
  lemma ClientKeyCanBeADefaultKey(mine: ChargeRequest, theirs: ChargeRequest)
    requires theirs.key == "" && mine.key == theirs.order + "-" + theirs.user && !Agree(mine, theirs)
    ensures mine.Key() == theirs.Key() && !KeysAgree({mine, theirs})
    ensures var s := Exec(Empty(), ChargedFirst(mine, theirs));
            |s.calls| == 2 && Returned(s, 1).Some? && !Own(Returned(s, 1).value, theirs)
  {
    SharedKeyReturnsTheFirstPayment(mine, theirs);
  }

  // ---------- payments that stay pending ----------

  predicate IsPending(s: State, i: nat) {
    i < |s.rows| && s.rows[i].status == Pending
  }

  predicate OwnerSettled(s: State, i: nat) {
    i < |s.rows| && s.rows[i].id < |s.calls| && s.calls[s.rows[i].id].phase.Settled?
  }

  lemma {:induction false} StuckStaysStuck(s: State, run: seq<Action>, i: nat)
    requires Inv(s) && IsPending(s, i) && OwnerSettled(s, i)
    ensures IsPending(Exec(s, run), i) && OwnerSettled(Exec(s, run), i)
  {
    if run != [] {
      var m, a := Exec(s, run[..|run| - 1]), run[|run| - 1];
      StuckStaysStuck(s, run[..|run| - 1], i);
      RunKeepsInv(s, run[..|run| - 1]);
      StepKeepsRows(m, a);
      StepKeepsOutcome(m, a, m.rows[i].id);
      assert a == Next(m.rows[i].id, true) ==> Step(m, a).rows == m.rows;
    }
  }

  lemma OwnerSettles(s: State, i: nat) returns (run: seq<Action>)
    requires Inv(s) && IsPending(s, i) && !OwnerSettled(s, i)
    ensures !IsPending(Exec(s, run), i)
  {
    assert RowOk(s, i);
    var next := Next(s.rows[i].id, true);
    var s1 := Step(s, next);
    ExecAppend(s, [], next);
    if s.calls[s.rows[i].id].phase.Settling? {
      run := [] + [next];
    } else {
      assert s1.rows == s.rows && s1.calls[s.rows[i].id].phase.Settling?;
      ExecAppend(s, [] + [next], next);
      run := [] + [next] + [next];
    }
  }

  /** A pending payment stays pending in every continuation if and only if the call that made it has ended. */
  lemma PendingForGoodExactlyWhen(s: State, i: nat)
    requires Inv(s) && IsPending(s, i)
    ensures (forall run :: IsPending(Exec(s, run), i)) <==> OwnerSettled(s, i)
  {
    if OwnerSettled(s, i) {
      forall run ensures IsPending(Exec(s, run), i) {
        StuckStaysStuck(s, run, i);
      }
    } else {
      var run := OwnerSettles(s, i);
      assert !IsPending(Exec(s, run), i);
    }
  }

  /** After the last statement of a call that inserted a row, the row is pending if it was not answered. */
  lemma SettleStep(s: State, c: nat, ok: bool)
    requires Inv(s) && c < |s.calls| && s.calls[c].phase.Settling?
    ensures var i, s' := s.calls[c].phase.row, Step(s, Next(c, ok));
            OwnerSettled(s', i) && (IsPending(s', i) <==> !ok)
  {
    assert OwnerOk(s, c);
    assert RowOk(s, s.calls[c].phase.row);
    hide RowOk, OwnerOk, ReplayOk, ProviderCallsOk, ProviderMade, KeysDistinct;
  }

  /**
   The error of the status update is ignored: whatever the provider has answered, the payment is pending
   for good exactly when that update is lost.
   */
  lemma LostUpdateLeavesThePaymentPending(s: State, c: nat, ok: bool)
    requires Inv(s) && c < |s.calls| && s.calls[c].phase.Settling?
    ensures var i := s.calls[c].phase.row;
            (forall run :: IsPending(Exec(Step(s, Next(c, ok)), run), i)) <==> !ok
  {
    var i, s' := s.calls[c].phase.row, Step(s, Next(c, ok));
    StepKeepsInv(s, Next(c, ok));
    SettleStep(s, c, ok);
    hide Step, Inv, IsPending;
    if ok {
      assert Exec(s', []) == s';
      assert !IsPending(Exec(s', []), i);
    } else {
      PendingForGoodExactlyWhen(s', i);
    }
  }

  // ---------- the call itself ----------

  /** What surrounds one statement: what the other calls do just before it, and whether it is answered. */
  datatype Turn = Turn(others: seq<Action>, ok: bool)

  predicate ByOthers(run: seq<Action>, me: nat) {
    forall a :: a in run && a.Next? ==> a.c != me
  }

  /** One statement of call `me`, after what the others do before it. */
  function After(s: State, me: nat, turn: Turn): State {
    Step(Exec(s, turn.others), Next(me, turn.ok))
  }

  lemma {:induction false} OthersKeepMyCall(s: State, run: seq<Action>, me: nat)
    requires me < |s.calls| && ByOthers(run, me)
    ensures |s.calls| <= |Exec(s, run).calls| && Exec(s, run).calls[me] == s.calls[me]
  {
    if run != [] {
      OthersKeepMyCall(s, run[..|run| - 1], me);
    }
  }

  class PaymentService {
    var rows: seq<Payment>
    var calls: seq<Call>
    var provider: seq<ProviderCall>

    function View(): State
      reads this
    {
      State(rows, calls, provider)
    }

    method Yield(others: seq<Action>)
      modifies this
      ensures View() == Exec(old(View()), others)
    {
      var s := Exec(View(), others);
      rows, calls, provider := s.rows, s.calls, s.provider;
    }

    // ---------- the repository ----------

    method GetByIdempotencyKey(key: string, ok: bool) returns (found: Option<nat>)
      ensures found == if ok && Find(rows, key) < |rows| then Some(Find(rows, key)) else None
    {
      if !ok {
        return None;
      }
      var i := 0;
      while i < |rows| && rows[i].key != key
        invariant i <= |rows| && forall j :: 0 <= j < i ==> rows[j].key != key
      {
        i := i + 1;
      }
      found := if i < |rows| then Some(i) else None;
    }

    /** INSERT, refused when the key is too long for its column, or by the UNIQUE constraint when it is taken. */
    method Create(p: Payment, ok: bool) returns (inserted: bool)
      modifies this`rows
      ensures inserted <==> ok && Storable(p.key) && Find(old(rows), p.key) == |old(rows)|
      ensures rows == if inserted then old(rows) + [p] else old(rows)
    {
      var taken := GetByIdempotencyKey(p.key, true);
      inserted := ok && |p.key| <= 255 && taken == None;
      if inserted {
        rows := rows + [p];
      }
    }

    method UpdateStatus(id: nat, status: Status, ok: bool)
      modifies this`rows
      ensures rows == if ok then WithStatus(old(rows), id, status) else old(rows)
    {
      if ok {
        rows := seq(|rows|, i requires 0 <= i < |rows| reads this =>
          if rows[i].id == id then rows[i].(status := status) else rows[i]);
      }
    }

    // ---------- the statements of Charge ----------

    method LookUp(me: nat, turn: Turn) returns (found: Option<Payment>)
      requires me < |calls| && calls[me].phase.Looking? && ByOthers(turn.others, me)
      modifies this
      ensures View() == After(old(View()), me, turn)
      ensures me < |calls| && calls[me].request == old(calls[me]).request
      ensures match found
              case Some(p) =>
                calls[me].phase.Replayed? && calls[me].phase.found == p && AsSent(p.key, calls[me].request)
              case None => calls[me].phase.Inserting?
      ensures rows == Exec(old(View()), turn.others).rows
      ensures var r := calls[me].request;
              var key := if r.key != "" then r.key else r.order + "-" + r.user;
              && (found.Some? <==> turn.ok && exists i :: 0 <= i < |rows| && rows[i].key == key)
              && (found.Some? ==> found.value in rows && found.value.key == key)
    {
      var mine := calls[me];
      OthersKeepMyCall(View(), turn.others, me);
      Yield(turn.others);
      KeyIsAsSent(mine.request);
      var i := GetByIdempotencyKey(mine.request.Key(), turn.ok);
      found := if i.Some? then Some(rows[i.value]) else None;
      calls := calls[me := mine.(phase := if i.Some? then Replayed(i.value, rows[i.value]) else Inserting)];
    }

    method Insert(me: nat, turn: Turn) returns (inserted: bool)
      requires me < |calls| && calls[me].phase.Inserting? && ByOthers(turn.others, me)
      modifies this
      ensures View() == After(old(View()), me, turn)
      ensures me < |calls| && calls[me].request == old(calls[me]).request
      ensures if inserted then calls[me].phase.Charging? else calls[me].phase.Rejected?
      ensures var r, before := calls[me].request, Exec(old(View()), turn.others).rows;
              var key := if r.key != "" then r.key else r.order + "-" + r.user;
              && (inserted <==> turn.ok && |key| <= 255 && forall i :: 0 <= i < |before| ==> before[i].key != key)
              && rows == if inserted then before + [Payment(me, r.order, r.user, key, Pending)] else before
    {
      var mine := calls[me];
      OthersKeepMyCall(View(), turn.others, me);
      Yield(turn.others);
      var at := |rows|;
      inserted := Create(NewPayment(me, mine.request), turn.ok);
      calls := calls[me := mine.(phase := if inserted then Charging(at) else Rejected)];
    }

    method CallProvider(me: nat, turn: Turn)
      requires me < |calls| && calls[me].phase.Charging? && ByOthers(turn.others, me)
      modifies this
      ensures View() == After(old(View()), me, turn)
      ensures me < |calls| && calls[me] == old(calls[me]).(phase := Settling(old(calls[me]).phase.row, turn.ok))
    {
      var mine := calls[me];
      OthersKeepMyCall(View(), turn.others, me);
      Yield(turn.others);
      provider := provider + [ProviderCall(me, mine.request.Key(), turn.ok)];
      calls := calls[me := mine.(phase := Settling(mine.phase.row, turn.ok))];
    }

    method Settle(me: nat, turn: Turn)
      requires me < |calls| && calls[me].phase.Settling? && ByOthers(turn.others, me)
      modifies this
      ensures View() == After(old(View()), me, turn)
      ensures me < |calls|
      ensures calls[me] == old(calls[me]).(phase := Settled(old(calls[me]).phase.row, old(calls[me]).phase.approved))
    {
      var mine := calls[me];
      OthersKeepMyCall(View(), turn.others, me);
      Yield(turn.others);
      UpdateStatus(me, if mine.phase.approved then Captured else Failed, turn.ok);
      calls := calls[me := mine.(phase := Settled(mine.phase.row, mine.phase.approved))];
    }

    /** The last two statements of Charge, for a payment it has inserted. */
    method CallProviderAndSettle(me: nat, charge: Turn, settle: Turn) returns (payment: Payment)
      requires me < |calls| && calls[me].phase.Charging?
      requires ByOthers(charge.others, me) && ByOthers(settle.others, me)
      modifies this
      ensures View() == After(After(old(View()), me, charge), me, settle)
      ensures me < |calls| && calls[me].request == old(calls[me]).request && calls[me].phase.Settled?
      ensures Returned(View(), me) == Some(payment)
      ensures calls[me].phase.approved == charge.ok
      ensures var r := calls[me].request;
              var key := if r.key != "" then r.key else r.order + "-" + r.user;
              payment == Payment(me, r.order, r.user, key, if charge.ok then Captured else Failed)
    {
      hide After;
      var request := calls[me].request;
      CallProvider(me, charge);
      Settle(me, settle);
      payment := NewPayment(me, request).(status := if charge.ok then Captured else Failed);
    }

    /**
     Charge.  Whatever the others do around its statements, and whichever of them fail, the call is
     the statements of one call of this module, and what it returns is what that call came to.  A payment
     that the provider has just declined comes with an error, one that is replayed does not.
     */
    method Charge(request: ChargeRequest, look: Turn, insert: Turn, charge: Turn, settle: Turn)
      returns (payment: Option<Payment>, error: Option<ChargeError>, n: nat)
      requires ByOthers(look.others, |calls|) && ByOthers(insert.others, |calls|)
      requires ByOthers(charge.others, |calls|) && ByOthers(settle.others, |calls|)
      modifies this
      ensures var me := |old(calls)|;
              var s1 := After(Step(old(View()), Arrive(request)), me, look);
              var s2 := After(s1, me, insert);
              match n {
                case 1 => View() == s1
                case 2 => View() == s2
                case _ => View() == After(After(s2, me, charge), me, settle)
              }
      ensures |old(calls)| < |calls| && calls[|old(calls)|].request == request
      ensures payment == Returned(View(), |old(calls)|)
      ensures error == match calls[|old(calls)|].phase
                       case Settled(_, approved) => if approved then None else Some(PaymentFailed)
                       case Replayed(_, _) => None
                       case _ => Some(NotCreated)
      ensures payment.None? <==> error == Some(NotCreated)
      ensures var me := |old(calls)|;
              var s0 := Step(old(View()), Arrive(request));
              var found := Exec(s0, look.others).rows;
              var taken := Exec(After(s0, me, look), insert.others).rows;
              var key := if request.key != "" then request.key else request.order + "-" + request.user;
              && (n == 1 <==> look.ok && exists i :: 0 <= i < |found| && found[i].key == key)
              && (n == 1 ==> payment.Some? && payment.value in found && payment.value.key == key && error.None?)
              && (n == 2 ==> !insert.ok || |key| > 255 || exists i :: 0 <= i < |taken| && taken[i].key == key)
              && (n == 2 ==> payment.None?)
              && (n != 1 && n != 2 ==>
                    && n == 4 && insert.ok && error == (if charge.ok then None else Some(PaymentFailed))
                    && payment == Some(Payment(me, request.order, request.user, key,
                                               if charge.ok then Captured else Failed)))
    {
      var me := |calls|;
      calls := calls + [Call(request, Looking)];
      assert View() == Step(old(View()), Arrive(request));
      hide Step, After, ByOthers, AsSent;

      payment := LookUp(me, look);
      if payment.Some? {
        return payment, None, 1;
      }
      var inserted := Insert(me, insert);
      if !inserted {
        return None, Some(NotCreated), 2;
      }
      KeyIsAsSent(request);
      var p := CallProviderAndSettle(me, charge, settle);
      payment, n := Some(p), 4;
      error := if p.status == Failed then Some(PaymentFailed) else None;
    }
  }
}
