/**
 The background worker pool: internal/worker/pool.go.  Dispatchers and workers interleave on one
 bounded channel; a job that is accepted gets a ticket, its position among all accepted jobs.
 */
module WorkerPool {
  import opened Basics

  type Job = nat

  datatype Worker = Idle | Running(ticket: nat, attempt: nat) | Exited

  /**
   The channel (its capacity, content and whether it is closed), the workers, and the history:
   jobs accepted and dequeued in order, tickets processed and dead-lettered, tickets whose dispatcher
   has not yet bumped the counter `dispatched`, and the number of dropped jobs.
   */
  datatype State = State(
    capacity: nat, retries: nat, queue: seq<Job>, closed: bool, workers: seq<Worker>,
    accepted: seq<Job>, dequeued: seq<Job>, processed: seq<nat>, dead: seq<nat>,
    uncounted: set<nat>, dispatched: nat, dropped: nat)

  datatype Action =
    | Send(job: Job)             // Dispatch: the channel has room
    | HandOver(job: Job, w: nat) // Dispatch: a worker is waiting on the empty channel
    | Drop(job: Job)             // Dispatch: no room and nobody waiting
    | Count(ticket: nat)         // Dispatch: bump the counter after a send
    | Take(w: nat)
    | Attempt(w: nat, ok: bool)  // one Execute, which returns or panics
    | Exit(w: nat)               // the range loop ends
    | Close

  predicate Enabled(s: State, a: Action) {
    match a
    case Send(_) => !s.closed && |s.queue| < s.capacity
    case HandOver(_, w) => !s.closed && s.queue == [] && w < |s.workers| && s.workers[w].Idle?
    case Drop(_) => !s.closed && |s.queue| >= s.capacity
    case Count(t) => t in s.uncounted
    case Take(w) => s.queue != [] && w < |s.workers| && s.workers[w].Idle?
    case Attempt(w, _) => w < |s.workers| && s.workers[w].Running?
    case Exit(w) => s.closed && s.queue == [] && w < |s.workers| && s.workers[w].Idle?
    case Close => !s.closed
  }

  /** The worker after one execution of its job: done, about to try again, or out of retries. */
  function AfterAttempt(worker: Worker, retries: nat, ok: bool): Worker
    requires worker.Running?
  {
    if !ok && worker.attempt < retries then Running(worker.ticket, worker.attempt + 1) else Idle
  }

  function Accept(s: State, job: Job): State {
    s.(accepted := s.accepted + [job], uncounted := s.uncounted + {|s.accepted|})
  }

  function Start(s: State, w: nat, job: Job): State
    requires w < |s.workers|
  {
    s.(dequeued := s.dequeued + [job], workers := s.workers[w := Running(|s.dequeued|, 1)])
  }

  function Step(s: State, a: Action): State {
    if !Enabled(s, a) then s
    else match a
      case Send(job) => Accept(s, job).(queue := s.queue + [job])
      case HandOver(job, w) => Start(Accept(s, job), w, job)
      case Drop(_) => s.(dropped := s.dropped + 1)
      case Count(t) => s.(uncounted := s.uncounted - {t}, dispatched := s.dispatched + 1)
      case Take(w) => Start(s.(queue := s.queue[1..]), w, s.queue[0])
      case Attempt(w, ok) =>
        var t, after := s.workers[w].ticket, AfterAttempt(s.workers[w], s.retries, ok);
        s.(workers := s.workers[w := after],
           processed := if ok then s.processed + [t] else s.processed,
           dead := if !ok && after.Idle? then s.dead + [t] else s.dead)
      case Exit(w) => s.(workers := s.workers[w := Exited])
      case Close => s.(closed := true)
  }

  function Exec(s: State, run: seq<Action>): State {
    if run == [] then s else Step(Exec(s, run[..|run| - 1]), run[|run| - 1])
  }

  /** A started pool of n workers. */
  function Started(n: nat, capacity: nat, retries: nat): State {
    State(capacity, retries, [], false, seq(n, _ => Idle), [], [], [], [], {}, 0, 0)
  }

  // ---------- no job is lost or duplicated ----------

  /** How often ticket t is in the list. */
  function Occurs(tickets: seq<nat>, t: nat): nat {
    if tickets == [] then 0
    else Occurs(tickets[..|tickets| - 1], t) + if tickets[|tickets| - 1] == t then 1 else 0
  }

  /** How many workers run ticket t. */
  function RunBy(workers: seq<Worker>, t: nat): nat {
    if workers == [] then 0
    else
      var last := workers[|workers| - 1];
      RunBy(workers[..|workers| - 1], t) + if last.Running? && last.ticket == t then 1 else 0
  }

  function InFlight(workers: seq<Worker>): nat {
    if workers == [] then 0
    else InFlight(workers[..|workers| - 1]) + if workers[|workers| - 1].Running? then 1 else 0
  }

  /** The number of places ticket t is in: a worker's hands, the processed or the dead jobs. */
  function Places(s: State, t: nat): nat {
    RunBy(s.workers, t) + Occurs(s.processed, t) + Occurs(s.dead, t)
  }

  ghost predicate TicketsInPlace(s: State) {
    forall t: nat :: Places(s, t) == if t < |s.dequeued| then 1 else 0
  }

  predicate QueueOk(s: State) {
    s.accepted == s.dequeued + s.queue && |s.queue| <= s.capacity
  }

  predicate FlightOk(s: State) {
    |s.dequeued| == InFlight(s.workers) + |s.processed| + |s.dead|
  }

  predicate CounterOk(s: State) {
    (forall t :: t in s.uncounted ==> t < |s.accepted|) && s.dispatched + |s.uncounted| == |s.accepted|
  }

  predicate WorkersOk(s: State) {
    && (forall w :: 0 <= w < |s.workers| && s.workers[w].Running? ==> 1 <= s.workers[w].attempt <= s.retries)
    && (forall w :: 0 <= w < |s.workers| && s.workers[w].Exited? ==> s.closed && s.queue == [])
  }

  ghost predicate Inv(s: State) {
    TicketsInPlace(s) && QueueOk(s) && FlightOk(s) && CounterOk(s) && WorkersOk(s)
  }

  lemma {:induction false} RunByUpdate(workers: seq<Worker>, w: nat, worker: Worker, t: nat)
    requires w < |workers|
    ensures var was := workers[w];
            RunBy(workers[w := worker], t) ==
            RunBy(workers, t) - (if was.Running? && was.ticket == t then 1 else 0)
            + if worker.Running? && worker.ticket == t then 1 else 0
  {
    var n := |workers| - 1;
    if w < n {
      assert workers[w := worker][..n] == workers[..n][w := worker];
      RunByUpdate(workers[..n], w, worker, t);
    } else {
      assert workers[w := worker][..n] == workers[..n];
    }
  }

  lemma {:induction false} InFlightUpdate(workers: seq<Worker>, w: nat, worker: Worker)
    requires w < |workers|
    ensures InFlight(workers[w := worker]) ==
            InFlight(workers) - (if workers[w].Running? then 1 else 0) + if worker.Running? then 1 else 0
  {
    var n := |workers| - 1;
    if w < n {
      assert workers[w := worker][..n] == workers[..n][w := worker];
      InFlightUpdate(workers[..n], w, worker);
    } else {
      assert workers[w := worker][..n] == workers[..n];
    }
  }

  lemma OccursAppend(tickets: seq<nat>, t: nat, u: nat)
    ensures Occurs(tickets + [u], t) == Occurs(tickets, t) + if u == t then 1 else 0
  {
    assert (tickets + [u])[..|tickets|] == tickets;
  }

  /** Starting the next ticket puts it into one worker's hands. */
  lemma StartPlaces(s: State, w: nat, job: Job, t: nat)
    requires w < |s.workers| && !s.workers[w].Running?
    ensures Places(Start(s, w, job), t) == Places(s, t) + if t == |s.dequeued| then 1 else 0
    ensures InFlight(Start(s, w, job).workers) == InFlight(s.workers) + 1
  {
    RunByUpdate(s.workers, w, Running(|s.dequeued|, 1), t);
    InFlightUpdate(s.workers, w, Running(|s.dequeued|, 1));
  }

  /** An attempt leaves its ticket with the worker or puts it among the processed or the dead. */
  lemma AttemptPlaces(s: State, w: nat, ok: bool, t: nat)
    requires Enabled(s, Attempt(w, ok))
    ensures var s' := Step(s, Attempt(w, ok));
            && Places(s', t) == Places(s, t)
            && InFlight(s'.workers) + |s'.processed| + |s'.dead| == InFlight(s.workers) + |s.processed| + |s.dead|
  {
    RunByUpdate(s.workers, w, AfterAttempt(s.workers[w], s.retries, ok), t);
    InFlightUpdate(s.workers, w, AfterAttempt(s.workers[w], s.retries, ok));
    OccursAppend(s.processed, t, s.workers[w].ticket);
    OccursAppend(s.dead, t, s.workers[w].ticket);
  }

  lemma StepPlaces(s: State, a: Action, t: nat)
    requires Places(s, t) == if t < |s.dequeued| then 1 else 0
    ensures Places(Step(s, a), t) == if t < |Step(s, a).dequeued| then 1 else 0
  {
    if Enabled(s, a) {
      match a
      case HandOver(job, w) => StartPlaces(Accept(s, job), w, job, t);
      case Take(w) => StartPlaces(s.(queue := s.queue[1..]), w, s.queue[0], t);
      case Attempt(w, ok) => AttemptPlaces(s, w, ok, t);
      case Exit(w) => RunByUpdate(s.workers, w, Exited, t);
      case _ =>
    }
  }

  lemma StepKeepsTickets(s: State, a: Action)
    requires TicketsInPlace(s)
    ensures TicketsInPlace(Step(s, a))
  {
    hide Step, Places;
    forall t: nat ensures Places(Step(s, a), t) == if t < |Step(s, a).dequeued| then 1 else 0 {
      StepPlaces(s, a, t);
    }
  }

  lemma StepKeepsQueue(s: State, a: Action)
    requires QueueOk(s)
    ensures QueueOk(Step(s, a))
  {
    if a.Take? && s.queue != [] {
      assert s.queue == [s.queue[0]] + s.queue[1..];
    }
  }

  lemma StepKeepsFlight(s: State, a: Action)
    requires FlightOk(s)
    ensures FlightOk(Step(s, a))
  {
    if Enabled(s, a) {
      match a
      case HandOver(job, w) => StartPlaces(Accept(s, job), w, job, 0);
      case Take(w) => StartPlaces(s.(queue := s.queue[1..]), w, s.queue[0], 0);
      case Attempt(w, ok) => AttemptPlaces(s, w, ok, 0);
      case Exit(w) => InFlightUpdate(s.workers, w, Exited);
      case _ =>
    }
  }

  lemma StepKeepsCounter(s: State, a: Action)
    requires CounterOk(s)
    ensures CounterOk(Step(s, a))
  {
  }

  lemma StepKeepsWorkers(s: State, a: Action)
    requires WorkersOk(s) && s.retries >= 1
    ensures WorkersOk(Step(s, a))
    ensures Step(s, a).retries == s.retries && Step(s, a).capacity == s.capacity && |Step(s, a).workers| == |s.workers|
  {
  }

  lemma {:induction false} RunKeepsInv(s: State, run: seq<Action>)
    requires Inv(s) && s.retries >= 1
    ensures var s' := Exec(s, run);
            Inv(s') && s'.retries == s.retries && s'.capacity == s.capacity && |s'.workers| == |s.workers|
  {
    hide Step;
    if run != [] {
      var m := Exec(s, run[..|run| - 1]);
      RunKeepsInv(s, run[..|run| - 1]);
      StepKeepsTickets(m, run[|run| - 1]);
      StepKeepsQueue(m, run[|run| - 1]);
      StepKeepsFlight(m, run[|run| - 1]);
      StepKeepsCounter(m, run[|run| - 1]);
      StepKeepsWorkers(m, run[|run| - 1]);
    }
  }

  lemma {:induction false} InFlightIsBounded(workers: seq<Worker>)
    ensures InFlight(workers) <= |workers|
    ensures (forall w :: 0 <= w < |workers| ==> !workers[w].Running?) ==>
              InFlight(workers) == 0 && forall t: nat :: RunBy(workers, t) == 0
  {
    if workers != [] {
      InFlightIsBounded(workers[..|workers| - 1]);
    }
  }

  lemma StartedIsSound(n: nat, capacity: nat, retries: nat)
    ensures Inv(Started(n, capacity, retries))
  {
    InFlightIsBounded(Started(n, capacity, retries).workers);
  }

  /**
   In every run of a pool of n workers: accepted jobs are the queued, the running, the processed and
   the dead-lettered ones, each dequeued ticket in exactly one place; jobs are dequeued in the order in
   which they were accepted; the queue and the workers keep to their bounds; and the dispatched counter
   lags by exactly the dispatchers between their send and their increment.
   */
  lemma NoJobIsLost(n: nat, capacity: nat, retries: nat, run: seq<Action>)
    requires retries >= 1
    ensures var s := Exec(Started(n, capacity, retries), run);
            && |s.accepted| == |s.queue| + InFlight(s.workers) + |s.processed| + |s.dead|
            && (forall t: nat :: Places(s, t) == if t < |s.dequeued| then 1 else 0)
            && s.accepted == s.dequeued + s.queue
            && |s.queue| <= capacity && InFlight(s.workers) <= n
            && s.dispatched + |s.uncounted| == |s.accepted|
  {
    StartedIsSound(n, capacity, retries);
    RunKeepsInv(Started(n, capacity, retries), run);
    InFlightIsBounded(Exec(Started(n, capacity, retries), run).workers);
  }

  // ---------- shutdown ----------

  function Work(worker: Worker, retries: nat): nat {
    match worker
    case Exited => 0
    case Idle => 1
    case Running(_, attempt) => 1 + (if attempt <= retries then retries - attempt + 1 else 1)
  }

  function WorkOf(workers: seq<Worker>, retries: nat): nat {
    if workers == [] then 0
    else WorkOf(workers[..|workers| - 1], retries) + Work(workers[|workers| - 1], retries)
  }

  /** Queued jobs, remaining attempts, live workers and pending increments. */
  function Measure(s: State): nat {
    (s.retries + 1) * |s.queue| + WorkOf(s.workers, s.retries) + |s.uncounted|
  }

  lemma {:induction false} WorkUpdate(workers: seq<Worker>, w: nat, worker: Worker, retries: nat)
    requires w < |workers|
    ensures WorkOf(workers[w := worker], retries) + Work(workers[w], retries) ==
            WorkOf(workers, retries) + Work(worker, retries)
  {
    var n := |workers| - 1;
    if w < n {
      assert workers[w := worker][..n] == workers[..n][w := worker];
      WorkUpdate(workers[..n], w, worker, retries);
    } else {
      assert workers[w := worker][..n] == workers[..n];
    }
  }

  /** Once the channel is closed, everything that can still happen uses up work. */
  lemma ClosedStepsUseUpWork(s: State, a: Action)
    requires s.closed && Enabled(s, a) && s.retries >= 1
    ensures Measure(Step(s, a)) < Measure(s) && Step(s, a).closed
  {
    match a
    case Take(w) =>
      WorkUpdate(s.workers, w, Running(|s.dequeued|, 1), s.retries);
      assert (s.retries + 1) * |s.queue| == (s.retries + 1) * (|s.queue| - 1) + s.retries + 1;
      assert |s.queue[1..]| == |s.queue| - 1;
    case Attempt(w, ok) => WorkUpdate(s.workers, w, AfterAttempt(s.workers[w], s.retries, ok), s.retries);
    case Exit(w) => WorkUpdate(s.workers, w, Exited, s.retries);
    case Count(t) =>
    case _ =>
  }

  /** Every action of the run is enabled when its turn comes. */
  predicate Effective(s: State, run: seq<Action>) {
    run != [] ==> Effective(s, run[..|run| - 1]) && Enabled(Exec(s, run[..|run| - 1]), run[|run| - 1])
  }

  /** After the close, no schedule goes on for longer than the measure. */
  lemma {:induction false} DrainTerminates(s: State, run: seq<Action>)
    requires Inv(s) && s.retries >= 1 && s.closed && Effective(s, run)
    ensures Exec(s, run).closed && |run| + Measure(Exec(s, run)) <= Measure(s)
  {
    if run != [] {
      DrainTerminates(s, run[..|run| - 1]);
      RunKeepsInv(s, run[..|run| - 1]);
      ClosedStepsUseUpWork(Exec(s, run[..|run| - 1]), run[|run| - 1]);
    }
  }

  predicate AllExited(s: State) {
    forall w :: 0 <= w < |s.workers| ==> s.workers[w].Exited?
  }

  /** The next thing worker w does in a closed pool. */
  function NextOf(s: State, w: nat, ok: bool): Action
    requires w < |s.workers| && !s.workers[w].Exited?
  {
    if s.workers[w].Running? then Attempt(w, ok) else if s.queue != [] then Take(w) else Exit(w)
  }

  /** No worker of a closed pool is ever stuck, so a schedule that cannot go on has all workers gone. */
  lemma NobodyGetsStuck(s: State)
    requires s.closed && forall a :: !Enabled(s, a)
    ensures AllExited(s)
  {
    forall w | 0 <= w < |s.workers| ensures s.workers[w].Exited? {
      if !s.workers[w].Exited? {
        assert Enabled(s, NextOf(s, w, true));
      }
    }
  }

  /** When the last of at least one worker has gone, every accepted job has been processed or dead-lettered. */
  lemma DrainedWhenWaitReturns(s: State)
    requires Inv(s) && AllExited(s) && |s.workers| >= 1
    ensures s.queue == [] && |s.accepted| == |s.processed| + |s.dead|
    ensures forall t: nat :: Occurs(s.processed, t) + Occurs(s.dead, t) == if t < |s.accepted| then 1 else 0
  {
    assert s.workers[0].Exited?;
    InFlightIsBounded(s.workers);
    forall t: nat ensures Occurs(s.processed, t) + Occurs(s.dead, t) == if t < |s.accepted| then 1 else 0 {
      assert Places(s, t) == if t < |s.dequeued| then 1 else 0;
    }
  }

  /** If all workers have left, which is what Wait waits for, the queue is empty. */
  predicate Drained(s: State) {
    AllExited(s) ==> s.queue == []
  }

  /** Without workers, a job that is sent stays in the queue. */
  lemma QueuedWithoutWorkers(capacity: nat, retries: nat)
    requires capacity >= 1
    ensures var s := Exec(Started(0, capacity, retries), [Send(0)]);
            s.queue == [0] && s.workers == []
  {
    var s := Started(0, capacity, retries);
    OneStep(s, Send(0));
    assert Enabled(s, Send(0));
  }

  lemma OneStep(s: State, a: Action)
    ensures Exec(s, [a]) == Step(s, a)
  {
    assert [a][..0] == [];
  }

  /**
   A pool drains its queue before Wait returns, in every run, if and only if it was started with a
   worker or its channel cannot hold a job.
   */
  lemma DrainsExactlyWithAWorker(n: nat, capacity: nat, retries: nat)
    requires retries >= 1
    ensures (forall run :: Drained(Exec(Started(n, capacity, retries), run))) <==> n >= 1 || capacity == 0
  {
    var s := Started(n, capacity, retries);
    if n >= 1 || capacity == 0 {
      forall run ensures Drained(Exec(s, run)) {
        StartedIsSound(n, capacity, retries);
        RunKeepsInv(s, run);
        if n >= 1 && AllExited(Exec(s, run)) {
          DrainedWhenWaitReturns(Exec(s, run));
        }
      }
    } else {
      QueuedWithoutWorkers(capacity, retries);
      assert !Drained(Exec(s, [Send(0)]));
    }
  }

  /**
   Panics are recovered: in every run, whatever the jobs do, all n workers are there, and none has left
   its loop unless the channel is closed and empty.
   */
  lemma {:induction false} NoWorkerIsLost(n: nat, capacity: nat, retries: nat, run: seq<Action>)
    requires retries >= 1
    ensures var s := Exec(Started(n, capacity, retries), run);
            && |s.workers| == n
            && forall w :: 0 <= w < n && s.workers[w].Exited? ==> s.closed && s.queue == []
  {
    StartedIsSound(n, capacity, retries);
    RunKeepsInv(Started(n, capacity, retries), run);
  }

  // ---------- retries ----------

  function Pow2(k: nat): nat {
    if k == 0 then 1 else 2 * Pow2(k - 1)
  }

  lemma {:induction false} Pow2Grows(j: nat, k: nat)
    requires j <= k
    ensures 1 <= Pow2(j) <= Pow2(k)
  {
    if j < k {
      Pow2Grows(j, k - 1);
    } else if k > 0 {
      Pow2Grows(j - 1, k - 1);
    }
  }

  /** Attempt k is the first that returns without a panic. */
  predicate FirstSuccess(outcomes: nat -> bool, k: nat) {
    k >= 1 && outcomes(k) && forall j :: 1 <= j < k ==> !outcomes(j)
  }

  predicate AllFail(outcomes: nat -> bool, n: nat) {
    forall j :: 1 <= j <= n ==> !outcomes(j)
  }

  /**
   executeWithRetry for any retry limit: the job is processed if and only if one of its first
   `maxRetries` attempts succeeds, after exactly as many attempts as that takes; otherwise it is
   dead-lettered after exactly `maxRetries` attempts.  The pauses double, starting at 100 ms.
   */
  method ExecuteWithRetry(outcomes: nat -> bool, maxRetries: nat)
    returns (processed: bool, attempts: nat, backoffMs: nat)
    requires maxRetries >= 1
    ensures processed <==> exists k :: 1 <= k <= maxRetries && outcomes(k)
    ensures processed ==> attempts <= maxRetries && FirstSuccess(outcomes, attempts)
    ensures !processed ==> attempts == maxRetries
    ensures backoffMs == 100 * (Pow2(attempts - 1) - 1) <= 100 * (Pow2(maxRetries - 1) - 1)
    ensures maxRetries == 3 ==> backoffMs <= 300
  {
    attempts, backoffMs := 0, 0;
    assert Pow2(0) == 1 && Pow2(1) == 2 && Pow2(2) == 4;
    while attempts < maxRetries
      invariant attempts <= maxRetries
      invariant AllFail(outcomes, attempts)
      invariant backoffMs == if attempts == 0 then 0
                             else if attempts < maxRetries then 100 * (Pow2(attempts) - 1)
                             else 100 * (Pow2(attempts - 1) - 1)
    {
      attempts := attempts + 1;
      if outcomes(attempts) {
        Pow2Grows(attempts - 1, maxRetries - 1);
        return true, attempts, backoffMs;
      }
      if attempts < maxRetries {
        backoffMs := backoffMs + 100 * Pow2(attempts - 1);
      }
    }
    processed := false;
  }

  /** The outcomes of the executions of worker w in a run, in order. */
  function OutcomesOf(run: seq<Action>, w: nat): seq<bool> {
    if run == [] then []
    else
      var before, a := OutcomesOf(run[..|run| - 1], w), run[|run| - 1];
      if a.Attempt? && a.w == w then before + [a.ok] else before
  }

  predicate Succeeds(outcomes: seq<bool>, n: nat) {
    exists k :: 0 <= k < |outcomes| && k < n && outcomes[k]
  }

  /** What becomes of a job: processed if one of its first n executions returns, dead after n that do not. */
  function Fate(outcomes: seq<bool>, n: nat): Option<bool> {
    if Succeeds(outcomes, n) then Some(true) else if |outcomes| >= n then Some(false) else None
  }

  lemma FateGrows(outcomes: seq<bool>, n: nat, ok: bool)
    ensures Fate(outcomes, n).Some? ==> Fate(outcomes + [ok], n) == Fate(outcomes, n)
    ensures Fate(outcomes, n).None? ==>
              Fate(outcomes + [ok], n) == if ok then Some(true) else if |outcomes| + 1 >= n then Some(false) else None
  {
    assert Succeeds(outcomes + [ok], n) <==> Succeeds(outcomes, n) || (ok && |outcomes| < n) by {
      if Succeeds(outcomes, n) {
        var k :| 0 <= k < |outcomes| && k < n && outcomes[k];
        assert (outcomes + [ok])[k];
      }
      if ok && |outcomes| < n {
        assert (outcomes + [ok])[|outcomes|];
      }
    }
  }

  /** Ticket t is in the hands of worker w, before attempt number `done` + 1, or where its fate says. */
  predicate Follows(s: State, w: nat, t: nat, outcomes: seq<bool>)
  {
    match Fate(outcomes, s.retries)
    case None => w < |s.workers| && s.workers[w] == Running(t, |outcomes| + 1)
    case Some(b) =>
      Occurs(s.processed, t) == (if b then 1 else 0) && Occurs(s.dead, t) == if b then 0 else 1
  }

  lemma {:induction false} RunningIsRunBy(workers: seq<Worker>, w: nat)
    requires w < |workers| && workers[w].Running?
    ensures RunBy(workers, workers[w].ticket) >= 1
  {
    if w < |workers| - 1 {
      RunningIsRunBy(workers[..|workers| - 1], w);
    }
  }

  /** What one attempt does. */
  lemma AttemptStep(s: State, w: nat, ok: bool)
    requires w < |s.workers| && s.workers[w].Running?
    ensures var s', t, after := Step(s, Attempt(w, ok)), s.workers[w].ticket, AfterAttempt(s.workers[w], s.retries, ok);
            && s'.workers == s.workers[w := after] && s'.retries == s.retries
            && s'.processed == (if ok then s.processed + [t] else s.processed)
            && s'.dead == if !ok && after.Idle? then s.dead + [t] else s.dead
  {
  }

  /** A worker's own attempt moves its ticket as the attempt's outcome says. */
  lemma OwnAttemptFollows(s: State, w: nat, t: nat, outcomes: seq<bool>, ok: bool)
    requires s.retries >= 1 && Places(s, t) == 1
    requires Fate(outcomes, s.retries).None? && Follows(s, w, t, outcomes)
    ensures Follows(Step(s, Attempt(w, ok)), w, t, outcomes + [ok])
  {
    hide Fate, RunBy, Occurs, Step;
    FateGrows(outcomes, s.retries, ok);
    RunningIsRunBy(s.workers, w);
    AttemptStep(s, w, ok);
    OccursAppend(s.processed, t, t);
    OccursAppend(s.dead, t, t);
  }

  /** Nothing else that happens touches the ticket. */
  lemma OthersFollow(s: State, a: Action, w: nat, t: nat, outcomes: seq<bool>)
    requires Places(s, t) == 1 && Follows(s, w, t, outcomes)
    requires Fate(outcomes, s.retries).None? ==> !(a.Attempt? && a.w == w)
    ensures Follows(Step(s, a), w, t, outcomes)
  {
    hide Fate, Occurs, Places;
    if a.Attempt? && Enabled(s, a) {
      AttemptStep(s, a.w, a.ok);
      OtherTicket(s, a.w, w, t, outcomes);
      OccursAppend(s.processed, t, s.workers[a.w].ticket);
      OccursAppend(s.dead, t, s.workers[a.w].ticket);
      hide Step;
    }
  }

  /** Whoever else makes an attempt makes it on another ticket, or our ticket is with w still. */
  lemma OtherTicket(s: State, v: nat, w: nat, t: nat, outcomes: seq<bool>)
    requires Places(s, t) == 1 && Follows(s, w, t, outcomes)
    requires v < |s.workers| && s.workers[v].Running?
    ensures Fate(outcomes, s.retries).Some? ==> s.workers[v].ticket != t
  {
    RunningIsRunBy(s.workers, v);
  }

  /**
   The pool treats a job just as ExecuteWithRetry says, whatever else happens between its attempts: the job
   is processed if and only if one of its first `retries` attempts returns, dead-lettered if that many do
   not, and otherwise still in its worker's hands.
   */
  lemma {:induction false} RetriesInThePool(s: State, w: nat, run: seq<Action>)
    requires Inv(s) && s.retries >= 1 && w < |s.workers| && s.workers[w].Running? && s.workers[w].attempt == 1
    ensures Follows(Exec(s, run), w, s.workers[w].ticket, OutcomesOf(run, w))
    ensures Places(Exec(s, run), s.workers[w].ticket) == 1
  {
    var t := s.workers[w].ticket;
    RunKeepsInv(s, run);
    if run == [] {
      RunningIsRunBy(s.workers, w);
    } else {
      var front, a := run[..|run| - 1], run[|run| - 1];
      var m, outcomes := Exec(s, front), OutcomesOf(front, w);
      RetriesInThePool(s, w, front);
      RunKeepsInv(s, front);
      assert TicketsInPlace(m);
      hide Step, Follows, Places, Inv;
      TicketKeepsItsPlace(m, a, t);
      if a.Attempt? && a.w == w {
        FateGrows(outcomes, s.retries, a.ok);
        if Fate(outcomes, s.retries).None? {
          OwnAttemptFollows(m, w, t, outcomes, a.ok);
        } else {
          OthersFollow(m, a, w, t, outcomes);
          SameFate(Step(m, a), w, t, outcomes, outcomes + [a.ok]);
        }
      } else {
        OthersFollow(m, a, w, t, outcomes);
      }
    }
  }

  lemma TicketKeepsItsPlace(s: State, a: Action, t: nat)
    requires TicketsInPlace(s) && Places(s, t) == 1
    ensures Places(Step(s, a), t) == 1
  {
    StepPlaces(s, a, t);
  }

  lemma SameFate(s: State, w: nat, t: nat, outcomes: seq<bool>, more: seq<bool>)
    requires Follows(s, w, t, outcomes) && Fate(outcomes, s.retries).Some?
    requires Fate(more, s.retries) == Fate(outcomes, s.retries)
    ensures Follows(s, w, t, more)
  {
  }

  // ---------- the pool object ----------

  /** What the select of Dispatch does: hand the job to a waiting worker, queue it, or drop it. */
  function DispatchOf(s: State, job: Job, waiting: Option<nat>): Action {
    match waiting
    case Some(w) => HandOver(job, w)
    case None => if |s.queue| < s.capacity then Send(job) else Drop(job)
  }

  lemma {:induction false} OnlyItsDispatcherCounts(s: State, run: seq<Action>, t: nat)
    requires t in s.uncounted && Count(t) !in run
    ensures t in Exec(s, run).uncounted
  {
    if run != [] {
      OnlyItsDispatcherCounts(s, run[..|run| - 1], t);
    }
  }

  lemma {:induction false} AcceptedStay(s: State, run: seq<Action>)
    ensures s.accepted <= Exec(s, run).accepted
  {
    if run != [] {
      AcceptedStay(s, run[..|run| - 1]);
    }
  }

  lemma {:induction false} ConfigurationIsFixed(s: State, run: seq<Action>)
    ensures Exec(s, run).capacity == s.capacity && Exec(s, run).retries == s.retries
  {
    if run != [] {
      ConfigurationIsFixed(s, run[..|run| - 1]);
    }
  }

  lemma {:induction false} OpenStaysOpen(s: State, run: seq<Action>)
    requires !s.closed && forall a :: a in run ==> !a.Close?
    ensures !Exec(s, run).closed
  {
    if run != [] {
      OpenStaysOpen(s, run[..|run| - 1]);
      assert run[|run| - 1] in run;
    }
  }

  lemma OneStepKeepsInv(s: State, a: Action)
    requires Inv(s) && s.retries >= 1
    ensures Inv(Step(s, a))
  {
    RunKeepsInv(s, [a]);
    assert [a][..0] == [];
  }

  class Pool {
    const workerCount: nat
    const capacity: nat
    const maxRetries: nat
    var jobs: seq<Job>
    var closed: bool
    var once: bool
    var workers: seq<Worker>
    var accepted: seq<Job>
    var dequeued: seq<Job>
    var processed: seq<nat>
    var dead: seq<nat>
    var uncounted: set<nat>
    var dispatched: nat
    var dropped: nat

    function View(): State
      reads this
    {
      State(capacity, maxRetries, jobs, closed, workers, accepted, dequeued, processed, dead,
            uncounted, dispatched, dropped)
    }

    constructor (workerCount: nat, queueCapacity: nat, maxRetries: nat)
      ensures View() == Started(0, queueCapacity, maxRetries) && this.workerCount == workerCount && !once
    {
      this.workerCount, this.capacity, this.maxRetries := workerCount, queueCapacity, maxRetries;
      jobs, closed, once, workers := [], false, false, [];
      accepted, dequeued, processed, dead := [], [], [], [];
      uncounted, dispatched, dropped := {}, 0, 0;
    }

    method Start()
      requires View() == Started(0, capacity, maxRetries)
      modifies this
      ensures View() == Started(workerCount, capacity, maxRetries) && once == old(once)
    {
      for i := 0 to workerCount
        invariant View() == Started(0, capacity, maxRetries).(workers := seq(i, _ => Idle)) && once == old(once)
      {
        workers := workers + [Idle];
      }
    }

    method Yield(others: seq<Action>)
      requires forall a :: a in others ==> !a.Close?
      modifies this
      ensures View() == Exec(old(View()), others) && once == old(once)
    {
      ConfigurationIsFixed(View(), others);
      var s := Exec(View(), others);
      jobs, closed, workers, accepted, dequeued := s.queue, s.closed, s.workers, s.accepted, s.dequeued;
      processed, dead, uncounted, dispatched, dropped := s.processed, s.dead, s.uncounted, s.dispatched, s.dropped;
    }

    /** The select of Dispatch; `waiting` is the worker blocked on the empty channel, if any. */
    method TrySend(job: Job, waiting: Option<nat>) returns (sent: bool)
      requires !closed && (waiting.Some? ==> Enabled(View(), HandOver(job, waiting.value)))
      modifies this
      ensures var a := DispatchOf(old(View()), job, waiting);
              && Enabled(old(View()), a) && View() == Step(old(View()), a)
              && (sent <==> !a.Drop?)
              && (sent ==> accepted == old(accepted) + [job] && |old(accepted)| in uncounted)
      ensures once == old(once)
    {
      sent := true;
      if waiting.Some? {
        accepted, uncounted := accepted + [job], uncounted + {|accepted|};
        workers := workers[waiting.value := Running(|dequeued|, 1)];
        dequeued := dequeued + [job];
      } else if |jobs| < capacity {
        accepted, uncounted := accepted + [job], uncounted + {|accepted|};
        jobs := jobs + [job];
      } else {
        dropped := dropped + 1;
        sent := false;
      }
    }

    /**
     Dispatch never blocks: `before` is what others do before its select, `after` what they do
     before it bumps the counter.  A send on a closed channel would panic, so nobody may have closed it.
     */
    method Dispatch(job: Job, waiting: Option<nat>, before: seq<Action>, after: seq<Action>)
      requires !closed && (forall a :: a in before ==> !a.Close?) && (forall a :: a in after ==> !a.Close?)
      requires waiting.Some? ==> Enabled(Exec(View(), before), HandOver(job, waiting.value))
      requires Count(|Exec(View(), before).accepted|) !in after
      modifies this
      ensures var s := Exec(old(View()), before);
              var a := DispatchOf(s, job, waiting);
              && Enabled(s, a)
              && View() == if a.Drop? then Step(s, a) else Step(Exec(Step(s, a), after), Count(|s.accepted|))
      ensures var s := Exec(old(View()), before);
              if waiting.None? && |s.queue| >= capacity
              then accepted == s.accepted && jobs == s.queue && dropped == s.dropped + 1 && dispatched == s.dispatched
              else |s.accepted| < |accepted| && accepted[|s.accepted|] == job && |s.accepted| !in uncounted
      ensures once == old(once)
    {
      OpenStaysOpen(View(), before);
      Yield(before);
      ghost var s := View();
      var mine := |accepted|;
      var sent := TrySend(job, waiting);
      if sent {
        ghost var s1 := View();
        OnlyItsDispatcherCounts(s1, after, mine);
        AcceptedStay(s1, after);
        Yield(after);
        CountSent(mine);
      }
    }

    /** A dispatcher whose job was accepted bumps the counter. */
    method CountSent(t: nat)
      requires t in uncounted
      modifies this
      ensures View() == Step(old(View()), Count(t)) && once == old(once)
      ensures accepted == old(accepted) && uncounted == old(uncounted) - {t} && dispatched == old(dispatched) + 1
    {
      dispatched := dispatched + 1;
      uncounted := uncounted - {t};
    }

    /** Worker w does its next thing in a closed pool: attempt its job, take one, or leave its loop. */
    method WorkerStep(w: nat, ok: bool)
      requires closed && w < |workers| && !workers[w].Exited?
      modifies this
      ensures Enabled(old(View()), NextOf(old(View()), w, ok))
      ensures View() == Step(old(View()), NextOf(old(View()), w, ok)) && once == old(once)
    {
      match workers[w]
      case Running(t, attempt) =>
        if ok {
          processed := processed + [t];
          workers := workers[w := Idle];
        } else if attempt < maxRetries {
          workers := workers[w := Running(t, attempt + 1)];
        } else {
          dead := dead + [t];
          workers := workers[w := Idle];
        }
      case Idle =>
        if jobs != [] {
          var job := jobs[0];
          jobs := jobs[1..];
          workers := workers[w := Running(|dequeued|, 1)];
          dequeued := dequeued + [job];
        } else {
          workers := workers[w := Exited];
        }
    }

    /**
     Shutdown closes the channel and waits for the workers, under any scheduling of the workers and of
     dispatchers that have still to count a job, and under any outcome of the jobs.  It returns, and then
     every accepted job has been processed or dead-lettered; calling it again does nothing.
     */
    method Shutdown() returns (ghost run: seq<Action>)
      requires Inv(View()) && maxRetries >= 1 && once == closed
      modifies this
      ensures once && closed
      ensures old(once) ==> View() == old(View()) && run == []
      ensures !old(once) ==> View() == Exec(Step(old(View()), Close), run) && AllExited(View())
      ensures !old(once) && |workers| >= 1 ==> jobs == [] && |accepted| == |processed| + |dead|
    {
      run := [];
      if once {
        return;
      }
      once := true;
      ghost var s0 := Step(View(), Close);
      closed := true;
      OneStepKeepsInv(old(View()), Close);
      while exists w :: 0 <= w < |workers| && !workers[w].Exited?
        invariant closed && once && maxRetries >= 1
        invariant View() == Exec(s0, run) && Inv(View())
        decreases Measure(View())
      {
        ghost var s := View();
        ghost var a;
        var counting: bool := *;
        if counting && uncounted != {} {
          var t :| t in uncounted;
          a := Count(t);
          CountSent(t);
        } else {
          var w :| 0 <= w < |workers| && !workers[w].Exited?;
          var ok: bool := *;
          a := NextOf(s, w, ok);
          WorkerStep(w, ok);
        }
        ClosedStepsUseUpWork(s, a);
        assert (run + [a])[..|run|] == run;
        run := run + [a];
        OneStepKeepsInv(s, a);
      }
      if |workers| >= 1 {
        DrainedWhenWaitReturns(View());
      }
    }
  }
}
