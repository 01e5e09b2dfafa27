/**
 Coupons: internal/domain/coupon.go, internal/coupon/service.go and internal/coupon/repository_pg.go.
 The state is one coupon and its use rows; any number of clients validate and record at once.
 */
module Coupons {
  import opened Basics

  datatype Coupon = Coupon(percent: real, maxUses: int, usedCount: int, expiresAt: real, active: bool)

  datatype Refusal = NotFound | Inactive | Expired | Exhausted | AlreadyUsed | StatementFailed

  // ---------- the coupon itself ----------

  /** A coupon can be applied while it is active, not past its expiry, and below its limit; a limit of zero is none. */
  function IsValid(c: Coupon, now: real): (refusal: Option<Refusal>)
    ensures refusal.None? <==> c.active && now <= c.expiresAt && (c.maxUses <= 0 || c.usedCount < c.maxUses)
    ensures refusal == Some(Inactive) ==> !c.active
    ensures refusal == Some(Expired) ==> c.active && c.expiresAt < now
    ensures refusal == Some(Exhausted) ==> c.active && now <= c.expiresAt && 0 < c.maxUses <= c.usedCount
    ensures refusal.None? || refusal.value in {Inactive, Expired, Exhausted}
  {
    if !c.active then Some(Inactive)
    else if now > c.expiresAt then Some(Expired)
    else if c.maxUses > 0 && c.usedCount >= c.maxUses then Some(Exhausted)
    else None
  }

  /** What is left to pay is the complementary percentage of the amount. */
  function ApplyDiscount(percent: real, original: real): (reduced: real)
    ensures reduced * 100.0 == original * (100.0 - percent)
  {
    original - original * (percent / 100.0)
  }

  // ---------- clients of one coupon ----------

  datatype Phase =
    | Arrived
    | Checking    // read a valid coupon; about to look for an earlier use
    | Validated   // Validate said yes; RecordUse is about to look the coupon up
    | Recording   // RecordUse found the coupon; about to run its transaction
    | Recorded
    | Refused(why: Refusal)
    | Left

  datatype Client = Client(user: UserId, phase: Phase)

  /** The coupon row, the users in its use rows, and the clients. */
  datatype State = State(coupon: Coupon, uses: seq<UserId>, clients: seq<Client>)

  /**
   Next runs the next statement of client c at the time `now`.  RecordUse inserts the use row and
   increments the count in one transaction, so it is one step.  Leave is a client that goes no further,
   RecordUnvalidated a RecordUse without a Validate.  `ok` is whether the statement is answered, and for
   a lookup also whether the code names this coupon.
   */
  datatype Action =
    | Arrive(user: UserId)
    | Next(c: nat, now: real, ok: bool)
    | Leave(c: nat)
    | RecordUnvalidated(user: UserId, ok: bool)

  /** The transaction commits: both statements answered, and the UNIQUE constraint satisfied. */
  predicate Records(s: State, user: UserId, ok: bool) {
    ok && user !in s.uses
  }

  function WithUse(s: State, user: UserId): State {
    s.(coupon := s.coupon.(usedCount := s.coupon.usedCount + 1), uses := s.uses + [user])
  }

  function Moved(s: State, client: Client, now: real, ok: bool): Phase {
    match client.phase
    case Arrived =>
      if !ok then Refused(NotFound)
      else match IsValid(s.coupon, now) { case Some(why) => Refused(why) case None => Checking }
    case Checking =>
      if !ok then Refused(StatementFailed) else if client.user in s.uses then Refused(AlreadyUsed) else Validated
    case Validated => if ok then Recording else Refused(NotFound)
    case Recording => if Records(s, client.user, ok) then Recorded else Refused(StatementFailed)
    case _ => client.phase
  }

  function Step(s: State, a: Action): State {
    match a
    case Arrive(user) => State(s.coupon, s.uses, s.clients + [Client(user, Arrived)])
    case Next(c, now, ok) =>
      if c >= |s.clients| then s
      else
        var client := s.clients[c];
        var after := if client.phase.Recording? && Records(s, client.user, ok) then WithUse(s, client.user) else s;
        State(after.coupon, after.uses, s.clients[c := Client(client.user, Moved(s, client, now, ok))])
    case Leave(c) =>
      if c < |s.clients| && InBetween(s.clients[c])
      then State(s.coupon, s.uses, s.clients[c := Client(s.clients[c].user, Left)])
      else s
    case RecordUnvalidated(user, ok) => if Records(s, user, ok) then WithUse(s, user) else s
  }

  function Exec(s: State, run: seq<Action>): State {
    if run == [] then s else Step(Exec(s, run[..|run| - 1]), run[|run| - 1])
  }

  function Fresh(coupon: Coupon): State {
    State(coupon, [], [])
  }

  // ---------- the count and the rows ----------

  predicate DistinctUsers(uses: seq<UserId>) {
    forall i, j :: 0 <= i < j < |uses| ==> uses[i] != uses[j]
  }

  /** In every run: the count is the initial one plus the number of use rows, and no user has two. */
  lemma {:induction false} CountMatchesRows(coupon: Coupon, run: seq<Action>)
    ensures var s := Exec(Fresh(coupon), run);
            && s.coupon == coupon.(usedCount := coupon.usedCount + |s.uses|)
            && DistinctUsers(s.uses)
  {
    if run != [] {
      CountMatchesRows(coupon, run[..|run| - 1]);
    }
  }

  // ---------- what a validated client has seen ----------

  /** Step k of the run is a read of client c that found a coupon it could apply. */
  predicate SawValid(coupon: Coupon, run: seq<Action>, k: nat, c: nat)
    requires k < |run|
  {
    && run[k].Next? && run[k].c == c && run[k].ok
    && var read := Exec(Fresh(coupon), run[..k]).coupon;
       read.active && run[k].now <= read.expiresAt && (read.maxUses <= 0 || read.usedCount < read.maxUses)
  }

  /** Step k of the run is a read of client c that found no use of the coupon by its user. */
  predicate SawUnused(coupon: Coupon, run: seq<Action>, k: nat, c: nat)
    requires k < |run|
  {
    && run[k].Next? && run[k].c == c && run[k].ok
    && var s := Exec(Fresh(coupon), run[..k]);
       c < |s.clients| && s.clients[c].user !in s.uses
  }

  lemma SeenStays(coupon: Coupon, run: seq<Action>, a: Action, k: nat, c: nat)
    requires k < |run|
    ensures SawValid(coupon, run + [a], k, c) <==> SawValid(coupon, run, k, c)
    ensures SawUnused(coupon, run + [a], k, c) <==> SawUnused(coupon, run, k, c)
  {
    assert (run + [a])[..k] == run[..k];
  }

  /** How a client gets past its first read, and past its second. */
  lemma ClientPasses(s: State, a: Action, c: nat)
    requires c < |Step(s, a).clients|
    ensures var now := Step(s, a).clients[c];
            && (now.phase.Checking? ==>
                  && c < |s.clients| && now.user == s.clients[c].user
                  && (s.clients[c].phase.Checking?
                      || (&& a.Next? && a.c == c && a.ok && s.coupon.active && a.now <= s.coupon.expiresAt
                          && (s.coupon.maxUses <= 0 || s.coupon.usedCount < s.coupon.maxUses))))
            && (now.phase.Validated? || now.phase.Recording? || now.phase.Recorded? ==>
                  && c < |s.clients| && now.user == s.clients[c].user
                  && (s.clients[c].phase.Validated? || s.clients[c].phase.Recording? || s.clients[c].phase.Recorded?
                      || (s.clients[c].phase.Checking? && a.Next? && a.c == c && a.ok && now.user !in s.uses)))
  {
  }

  lemma {:induction false} CheckingClientSawAValidCoupon(coupon: Coupon, run: seq<Action>, c: nat) returns (k: nat)
    requires var s := Exec(Fresh(coupon), run); c < |s.clients| && s.clients[c].phase.Checking?
    ensures k < |run| && SawValid(coupon, run, k, c)
  {
    var front, a := run[..|run| - 1], run[|run| - 1];
    var s := Exec(Fresh(coupon), front);
    ClientPasses(s, a, c);
    assert run == front + [a];
    if s.clients[c].phase.Checking? {
      k := CheckingClientSawAValidCoupon(coupon, front, c);
      SeenStays(coupon, front, a, k, c);
    } else {
      k := |front|;
      assert run[..k] == front;
    }
  }

  /**
   In every run, a client whom Validate has said yes has read, when it looked, an active coupon that had not expired
   and was below its limit, and after that found no use of it by its user; whatever others did.
   */
  lemma {:induction false} ValidatedClientSawAValidCoupon(coupon: Coupon, run: seq<Action>, c: nat)
    returns (k: nat, m: nat)
    requires var s := Exec(Fresh(coupon), run);
             && c < |s.clients|
             && (s.clients[c].phase.Validated? || s.clients[c].phase.Recording? || s.clients[c].phase.Recorded?)
    ensures k < m < |run| && SawValid(coupon, run, k, c) && SawUnused(coupon, run, m, c)
  {
    var front, a := run[..|run| - 1], run[|run| - 1];
    var s := Exec(Fresh(coupon), front);
    ClientPasses(s, a, c);
    assert run == front + [a];
    if s.clients[c].phase.Checking? {
      k := CheckingClientSawAValidCoupon(coupon, front, c);
      SeenStays(coupon, front, a, k, c);
      m := |front|;
      assert run[..m] == front;
    } else {
      k, m := ValidatedClientSawAValidCoupon(coupon, front, c);
      SeenStays(coupon, front, a, k, c);
      SeenStays(coupon, front, a, m, c);
    }
  }

  // ---------- how far the limit can be overrun ----------

  /** The client has seen a valid coupon and has not finished. */
  predicate InBetween(client: Client) {
    client.phase.Checking? || client.phase.Validated? || client.phase.Recording?
  }

  function InFlight(clients: seq<Client>): nat {
    if clients == [] then 0
    else InFlight(clients[..|clients| - 1]) + if InBetween(clients[|clients| - 1]) then 1 else 0
  }

  /** At no time are more than k clients between their Validate and their RecordUse, and nobody records unvalidated. */
  predicate AtMostInFlight(s: State, run: seq<Action>, k: nat) {
    && InFlight(Exec(s, run).clients) <= k
    && (run != [] ==> !run[|run| - 1].RecordUnvalidated? && AtMostInFlight(s, run[..|run| - 1], k))
  }

  lemma {:induction false} InFlightUpdate(clients: seq<Client>, c: nat, client: Client)
    requires c < |clients|
    ensures InFlight(clients[c := client]) ==
            InFlight(clients) - (if InBetween(clients[c]) then 1 else 0) + if InBetween(client) then 1 else 0
  {
    var n := |clients| - 1;
    if c < n {
      assert clients[c := client][..n] == clients[..n][c := client];
      InFlightUpdate(clients[..n], c, client);
    } else {
      assert clients[c := client][..n] == clients[..n];
    }
  }

  lemma NextKeepsAllowance(s: State, c: nat, now: real, ok: bool, k: nat)
    requires s.coupon.maxUses > 0 && k >= 1 && c < |s.clients|
    requires s.coupon.usedCount + InFlight(s.clients) <= s.coupon.maxUses + k - 1
    requires InFlight(Step(s, Next(c, now, ok)).clients) <= k
    ensures var s' := Step(s, Next(c, now, ok));
            && s'.coupon.maxUses == s.coupon.maxUses
            && s'.coupon.usedCount + InFlight(s'.clients) <= s.coupon.maxUses + k - 1
  {
    var client := s.clients[c];
    var next := Client(client.user, Moved(s, client, now, ok));
    InFlightUpdate(s.clients, c, next);
    assert Step(s, Next(c, now, ok)).clients == s.clients[c := next];
    hide InFlight;
  }

  /** The uses still owed by clients in flight are covered: each new one has seen the count below the limit. */
  lemma StepKeepsAllowance(s: State, a: Action, k: nat)
    requires s.coupon.maxUses > 0 && k >= 1 && !a.RecordUnvalidated?
    requires s.coupon.usedCount + InFlight(s.clients) <= s.coupon.maxUses + k - 1
    requires InFlight(Step(s, a).clients) <= k
    ensures var s' := Step(s, a);
            && s'.coupon.maxUses == s.coupon.maxUses
            && s'.coupon.usedCount + InFlight(s'.clients) <= s.coupon.maxUses + k - 1
  {
    match a
    case Arrive(user) => assert (s.clients + [Client(user, Arrived)])[..|s.clients|] == s.clients;
    case Next(c, now, ok) => if c < |s.clients| { NextKeepsAllowance(s, c, now, ok, k); }
    case Leave(c) => if c < |s.clients| { InFlightUpdate(s.clients, c, Client(s.clients[c].user, Left)); }
  }

  /**
   If every RecordUse follows its own successful Validate and at most k clients are between the two at
   once, the count never exceeds maxUses + k - 1.  With one client at a time the limit holds.
   */
  lemma {:induction false} OverrunIsBounded(coupon: Coupon, run: seq<Action>, k: nat)
    requires coupon.maxUses > 0 && coupon.usedCount <= coupon.maxUses && k >= 1
    requires AtMostInFlight(Fresh(coupon), run, k)
    ensures var s := Exec(Fresh(coupon), run);
            && s.coupon.maxUses == coupon.maxUses
            && s.coupon.usedCount + InFlight(s.clients) <= coupon.maxUses + k - 1
  {
    if run != [] {
      OverrunIsBounded(coupon, run[..|run| - 1], k);
      StepKeepsAllowance(Exec(Fresh(coupon), run[..|run| - 1]), run[|run| - 1], k);
    }
  }

  // ---------- the overrun is real ----------

  /** The coupon before the rush: one use is left. */
  function LastUse(maxUses: nat): Coupon {
    Coupon(10.0, maxUses, maxUses - 1, 0.0, true)
  }

  /** Users 0 to n - 1 arrive and validate, one after the other. */
  function Gather(n: nat): seq<Action> {
    if n == 0 then [] else Gather(n - 1) + [Arrive(n - 1)] + [Next(n - 1, 0.0, true)] + [Next(n - 1, 0.0, true)]
  }

  /** Then the first m of the n record their use, one after the other. */
  function Rush(n: nat, m: nat): seq<Action> {
    if m == 0 then Gather(n) else Rush(n, m - 1) + [Next(m - 1, 0.0, true)] + [Next(m - 1, 0.0, true)]
  }

  function RushState(maxUses: nat, n: nat, m: nat): State {
    State(LastUse(maxUses).(usedCount := maxUses - 1 + m),
          seq(m, (i: nat) => i),
          seq(n, (i: nat) => Client(i, if i < m then Recorded else Validated)))
  }

  lemma ExecAppend(s: State, run: seq<Action>, a: Action)
    ensures Exec(s, run + [a]) == Step(Exec(s, run), a)
  {
    assert (run + [a])[..|run|] == run;
  }

  lemma ExecThrice(s: State, run: seq<Action>, a: Action, b: Action, c: Action)
    ensures Exec(s, run + [a] + [b] + [c]) == Step(Step(Step(Exec(s, run), a), b), c)
  {
    ExecAppend(s, run, a);
    ExecAppend(s, run + [a], b);
    ExecAppend(s, run + [a] + [b], c);
  }

  /** One client arrives and validates. */
  lemma Joins(s: State, user: UserId)
    requires IsValid(s.coupon, 0.0).None? && user !in s.uses
    ensures var me := |s.clients|;
            Step(Step(Step(s, Arrive(user)), Next(me, 0.0, true)), Next(me, 0.0, true)) ==
              State(s.coupon, s.uses, s.clients + [Client(user, Validated)])
  {
    var me := |s.clients|;
    var s1 := Step(s, Arrive(user));
    var s2 := Step(s1, Next(me, 0.0, true));
    assert s2 == State(s.coupon, s.uses, s.clients + [Client(user, Checking)]);
  }

  lemma OneMoreGathered(maxUses: nat, n: nat)
    requires maxUses >= 1
    ensures var s := RushState(maxUses, n, 0);
            && IsValid(s.coupon, 0.0).None? && s.uses == [] && |s.clients| == n
            && RushState(maxUses, n + 1, 0) == State(s.coupon, s.uses, s.clients + [Client(n, Validated)])
  {
    assert RushState(maxUses, n + 1, 0).clients == RushState(maxUses, n, 0).clients + [Client(n, Validated)];
  }

  lemma {:induction false} Gathered(maxUses: nat, n: nat)
    requires maxUses >= 1
    ensures Exec(Fresh(LastUse(maxUses)), Gather(n)) == RushState(maxUses, n, 0)
  {
    if n == 0 {
      assert RushState(maxUses, 0, 0) == Fresh(LastUse(maxUses));
    } else {
      var before := Gather(n - 1);
      assert Gather(n) == before + [Arrive(n - 1)] + [Next(n - 1, 0.0, true)] + [Next(n - 1, 0.0, true)];
      hide RushState, Step, Exec, IsValid, LastUse, Gather;
      Gathered(maxUses, n - 1);
      OneMoreGathered(maxUses, n - 1);
      Joins(RushState(maxUses, n - 1, 0), n - 1);
      ExecThrice(Fresh(LastUse(maxUses)), before, Arrive(n - 1), Next(n - 1, 0.0, true), Next(n - 1, 0.0, true));
    }
  }

  /** One validated client records its use. */
  lemma Takes(s: State, me: nat)
    requires me < |s.clients| && s.clients[me].phase.Validated? && s.clients[me].user !in s.uses
    ensures Step(Step(s, Next(me, 0.0, true)), Next(me, 0.0, true)) ==
              WithUse(s, s.clients[me].user).(clients := s.clients[me := Client(s.clients[me].user, Recorded)])
  {
    var s1 := Step(s, Next(me, 0.0, true));
    assert s1 == State(s.coupon, s.uses, s.clients[me := Client(s.clients[me].user, Recording)]);
    var recorded := Client(s.clients[me].user, Recorded);
    assert s1.clients[me := recorded] == s.clients[me := recorded];
  }

  lemma {:induction false} Rushed(maxUses: nat, n: nat, m: nat)
    requires maxUses >= 1 && m <= n
    ensures Exec(Fresh(LastUse(maxUses)), Rush(n, m)) == RushState(maxUses, n, m)
  {
    hide Step, Exec;
    var start := Fresh(LastUse(maxUses));
    if m == 0 {
      Gathered(maxUses, n);
    } else {
      Rushed(maxUses, n, m - 1);
      var before := RushState(maxUses, n, m - 1);
      Takes(before, m - 1);
      ExecAppend(start, Rush(n, m - 1), Next(m - 1, 0.0, true));
      ExecAppend(start, Rush(n, m - 1) + [Next(m - 1, 0.0, true)], Next(m - 1, 0.0, true));
      assert before.uses + [m - 1] == RushState(maxUses, n, m).uses;
      assert before.clients[m - 1 := Client(m - 1, Recorded)] == RushState(maxUses, n, m).clients;
    }
  }

  lemma {:induction false} FewClientsFewInFlight(s: State, run: seq<Action>, k: nat)
    requires |Exec(s, run).clients| <= k && forall a :: a in run ==> !a.RecordUnvalidated?
    ensures AtMostInFlight(s, run, k)
  {
    InFlightAtMostAll(Exec(s, run).clients);
    if run != [] {
      FewClientsFewInFlight(s, run[..|run| - 1], k);
    }
  }

  lemma {:induction false} InFlightAtMostAll(clients: seq<Client>)
    ensures InFlight(clients) <= |clients|
  {
    if clients != [] {
      InFlightAtMostAll(clients[..|clients| - 1]);
    }
  }

  lemma {:induction false} RushIsValidated(n: nat, m: nat)
    ensures forall a :: a in Rush(n, m) ==> !a.RecordUnvalidated?
    decreases m, n
  {
    if m > 0 {
      RushIsValidated(n, m - 1);
    } else if n > 0 {
      RushIsValidated(n - 1, 0);
    }
  }

  /** The bound is attained for every limit and every number of clients: all of them take the last use. */
  lemma OverrunIsAttained(maxUses: nat, k: nat)
    requires maxUses >= 1 && k >= 1
    ensures var start, run := Fresh(LastUse(maxUses)), Rush(k, k);
            AtMostInFlight(start, run, k) && Exec(start, run).coupon.usedCount == maxUses + k - 1
  {
    Rushed(maxUses, k, k);
    RushIsValidated(k, k);
    FewClientsFewInFlight(Fresh(LastUse(maxUses)), Rush(k, k), k);
  }

  /** With at most k clients in flight, no coupon that starts within its limit ever exceeds it. */
  ghost predicate LimitHolds(k: nat) {
    forall coupon: Coupon, run ::
      coupon.maxUses > 0 && coupon.usedCount <= coupon.maxUses && AtMostInFlight(Fresh(coupon), run, k) ==>
        Exec(Fresh(coupon), run).coupon.usedCount <= coupon.maxUses
  }

  /** The limit of a coupon holds in every run if and only if clients validate and record one at a time. */
  lemma LimitHoldsExactlyWhenOneAtATime(k: nat)
    requires k >= 1
    ensures LimitHolds(k) <==> k == 1
  {
    if k == 1 {
      forall coupon: Coupon, run |
        coupon.maxUses > 0 && coupon.usedCount <= coupon.maxUses && AtMostInFlight(Fresh(coupon), run, k)
        ensures Exec(Fresh(coupon), run).coupon.usedCount <= coupon.maxUses
      {
        OverrunIsBounded(coupon, run, k);
      }
    } else {
      OverrunIsAttained(1, k);
      hide AtMostInFlight, Exec, Fresh, Rush;
      assert Exec(Fresh(LastUse(1)), Rush(k, k)).coupon.usedCount > LastUse(1).maxUses;
    }
  }

  // ---------- the service ----------

  /** What surrounds one statement: what the other clients do just before it, the time, and whether it is answered. */
  datatype Turn = Turn(others: seq<Action>, now: real, ok: bool)

  predicate ByOthers(run: seq<Action>, me: nat) {
    forall a :: a in run ==> (a.Next? || a.Leave?) ==> a.c != me
  }

  function After(s: State, me: nat, turn: Turn): State {
    Step(Exec(s, turn.others), Next(me, turn.now, turn.ok))
  }

  lemma {:induction false} OthersKeepMine(s: State, run: seq<Action>, me: nat)
    requires me < |s.clients| && ByOthers(run, me)
    ensures |s.clients| <= |Exec(s, run).clients| && Exec(s, run).clients[me] == s.clients[me]
    ensures Exec(s, run).coupon.percent == s.coupon.percent
  {
    if run != [] {
      OthersKeepMine(s, run[..|run| - 1], me);
    }
  }

  class CouponService {
    var coupon: Coupon
    var uses: seq<UserId>
    var clients: seq<Client>

    function View(): State
      reads this
    {
      State(coupon, uses, clients)
    }

    method Yield(others: seq<Action>)
      modifies this
      ensures View() == Exec(old(View()), others)
    {
      var s := Exec(View(), others);
      coupon, uses, clients := s.coupon, s.uses, s.clients;
    }

    // ---------- the repository ----------

    /** SELECT EXISTS over the use rows. */
    method GetUserCouponUse(user: UserId) returns (used: bool)
      ensures used <==> user in uses
    {
      var i := 0;
      while i < |uses| && uses[i] != user
        invariant i <= |uses| && user !in uses[..i]
      {
        i := i + 1;
      }
      used := i < |uses|;
    }

    /**
     The transaction: both statements write to copies, which become the tables when it commits.  Any of
     the four steps can fail, and the insert fails when the user already has a row.
     */
    method CommitUse(user: UserId, begin: bool, insert: bool, increment: bool, commit: bool) returns (done: bool)
      modifies this`coupon, this`uses
      ensures done <==> Records(old(View()), user, begin && insert && increment && commit)
      ensures View() == if done then WithUse(old(View()), user) else old(View())
    {
      if !begin {
        return false;
      }
      var taken := GetUserCouponUse(user);
      if !insert || taken {
        return false;
      }
      var stagedUses := uses + [user];
      if !increment {
        return false;
      }
      var stagedCoupon := coupon.(usedCount := coupon.usedCount + 1);
      if commit {
        coupon, uses := stagedCoupon, stagedUses;
      }
      done := commit;
    }

    // ---------- the calls ----------

    method FindValid(me: nat, turn: Turn) returns (valid: Result<real, Refusal>)
      requires me < |clients| && clients[me].phase.Arrived? && ByOthers(turn.others, me)
      modifies this
      ensures View() == After(old(View()), me, turn)
      ensures me < |clients| && clients[me].user == old(clients[me]).user
      ensures match valid
              case Ok(percent) => clients[me].phase.Checking? && percent == coupon.percent == old(coupon).percent
              case Err(why) => clients[me].phase == Refused(why)
      ensures coupon == Exec(old(View()), turn.others).coupon
      ensures valid == if !turn.ok then Err(NotFound)
                       else if !coupon.active then Err(Inactive)
                       else if coupon.expiresAt < turn.now then Err(Expired)
                       else if 0 < coupon.maxUses <= coupon.usedCount then Err(Exhausted)
                       else Ok(coupon.percent)
    {
      OthersKeepMine(View(), turn.others, me);
      Yield(turn.others);
      valid := Ok(coupon.percent);
      if !turn.ok {
        valid := Err(NotFound);
      } else {
        match IsValid(coupon, turn.now) {
          case Some(why) => valid := Err(why);
          case None =>
        }
      }
      clients := clients[me := Client(clients[me].user, if valid.Err? then Refused(valid.error) else Checking)];
    }

    method CheckHistory(me: nat, turn: Turn) returns (refusal: Option<Refusal>)
      requires me < |clients| && clients[me].phase.Checking? && ByOthers(turn.others, me)
      modifies this
      ensures View() == After(old(View()), me, turn)
      ensures me < |clients| && clients[me].user == old(clients[me]).user && coupon.percent == old(coupon).percent
      ensures clients[me].phase == if refusal.Some? then Refused(refusal.value) else Validated
      ensures refusal == if !turn.ok then Some(StatementFailed)
                         else if clients[me].user in uses then Some(AlreadyUsed) else None
      ensures uses == Exec(old(View()), turn.others).uses
    {
      OthersKeepMine(View(), turn.others, me);
      Yield(turn.others);
      refusal := None;
      if !turn.ok {
        refusal := Some(StatementFailed);
      } else {
        var used := GetUserCouponUse(clients[me].user);
        if used {
          refusal := Some(AlreadyUsed);
        }
      }
      clients := clients[me := Client(clients[me].user, if refusal.Some? then Refused(refusal.value) else Validated)];
    }

    /** Validate, by a client that has just arrived.  It promises the discount of the coupon and consumes nothing. */
    method Validate(user: UserId, find: Turn, check: Turn) returns (valid: Result<real, Refusal>, n: nat)
      requires ByOthers(find.others, |clients|) && ByOthers(check.others, |clients|)
      modifies this
      ensures var me := |old(clients)|;
              var s := After(Step(old(View()), Arrive(user)), me, find);
              View() == if n == 1 then s else After(s, me, check)
      ensures |old(clients)| < |clients| && clients[|old(clients)|].user == user
      ensures match valid
              case Ok(percent) =>
                && n == 2 && clients[|old(clients)|].phase.Validated?
                && percent == coupon.percent == old(coupon).percent
              case Err(why) => clients[|old(clients)|].phase == Refused(why)
      ensures var read := Exec(Step(old(View()), Arrive(user)), find.others).coupon;
              valid == if !find.ok then Err(NotFound)
                       else if !read.active then Err(Inactive)
                       else if read.expiresAt < find.now then Err(Expired)
                       else if 0 < read.maxUses <= read.usedCount then Err(Exhausted)
                       else if !check.ok then Err(StatementFailed)
                       else if user in uses then Err(AlreadyUsed)
                       else Ok(read.percent)
      ensures n == if !find.ok || valid in {Err(Inactive), Err(Expired), Err(Exhausted)} then 1 else 2
      ensures n == 2 ==>
                uses == Exec(After(Step(old(View()), Arrive(user)), |old(clients)|, find), check.others).uses
    {
      var me := |clients|;
      clients := clients + [Client(user, Arrived)];
      assert View() == Step(old(View()), Arrive(user));
      hide Step, After, ByOthers;
      valid := FindValid(me, find);
      if valid.Err? {
        return valid, 1;
      }
      var refusal := CheckHistory(me, check);
      if refusal.Some? {
        valid := Err(refusal.value);
      }
      n := 2;
    }

    /** RecordUse by client `me`: look the coupon up again, then run the transaction. */
    method RecordUse(me: nat, find: Turn, record: Turn) returns (done: bool, n: nat)
      requires me < |clients| && clients[me].phase.Validated?
      requires ByOthers(find.others, me) && ByOthers(record.others, me)
      modifies this
      ensures var s := After(old(View()), me, find);
              View() == if n == 1 then s else After(s, me, record)
      ensures me < |clients| && (done <==> clients[me].phase.Recorded?)
      ensures done ==> old(clients[me]).user in uses
      ensures n == if find.ok then 2 else 1
      ensures !find.ok ==> !done
      ensures find.ok ==>
                var s, user := Exec(After(old(View()), me, find), record.others), old(clients[me]).user;
                && (done <==> record.ok && user !in s.uses)
                && uses == (if done then s.uses + [user] else s.uses)
                && coupon == if done then s.coupon.(usedCount := s.coupon.usedCount + 1) else s.coupon
    {
      var mine := clients[me];
      OthersKeepMine(View(), find.others, me);
      Yield(find.others);
      if !find.ok {
        clients := clients[me := Client(mine.user, Refused(NotFound))];
        return false, 1;
      }
      clients := clients[me := Client(mine.user, Recording)];
      assert View() == After(old(View()), me, find);

      OthersKeepMine(View(), record.others, me);
      Yield(record.others);
      var begin, insert, increment: bool := *, *, *;
      begin, insert, increment := record.ok || begin, record.ok || insert, record.ok || increment;
      done := CommitUse(mine.user, begin, insert, increment, record.ok);
      clients := clients[me := Client(mine.user, if done then Recorded else Refused(StatementFailed))];
      n := 2;
    }
  }
}
