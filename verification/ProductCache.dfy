/**
 The read-through product cache: internal/product/repository_cache.go around
 internal/product/repository_pg.go.  First, completed calls one after the other: the cache cannot
 be told from the repository it wraps.  Second, calls that race: how stale an answer can be.
 */
module ProductCache {
  import opened Basics
  import opened Products

  // ---------- completed calls, one after the other ----------

  /**
   Calls on the repository.  `hit` is whether Redis answers the lookup, `filled` whether it takes the
   fill, `ok` whether the database answers, `deleted` whether Redis deletes.  Expire is the end of a key's time to live.
   */
  datatype Call =
    | Create(p: Product, ok: bool)
    | Update(p: Product, ok: bool, deleted: bool)
    | Get(id: Id, hit: bool, ok: bool, filled: bool)
    | Expire(id: Id)

  datatype Repo = Repo(table: Table, cache: Table)

  datatype Answer = Found(p: Product) | NotFound | Accepted | Error

  function DirectAnswer(t: Table, c: Call): Answer {
    match c
    case Create(p, ok) => if ok && Insertable(t, p) then Accepted else Error
    case Update(p, ok, _) => if ok && Updatable(t, p) then Accepted else Error
    case Get(id, _, ok, _) =>
      if !ok then Error else match Visible(t, id) { case Some(p) => Found(p) case None => NotFound }
    case Expire(_) => Accepted
  }

  function DirectStep(t: Table, c: Call): Table {
    match c
    case Create(p, ok) => if ok then Inserted(t, p) else t
    case Update(p, ok, _) => if ok then Updated(t, p) else t
    case _ => t
  }

  function CachedAnswer(r: Repo, c: Call): Answer {
    if c.Get? && c.hit && c.id in r.cache then Found(r.cache[c.id]) else DirectAnswer(r.table, c)
  }

  function CachedStep(r: Repo, c: Call): Repo {
    match c
    case Create(p, ok) => r.(table := DirectStep(r.table, c))
    case Update(p, ok, deleted) =>
      Repo(DirectStep(r.table, c), if ok && Updatable(r.table, p) && deleted then r.cache - {p.id} else r.cache)
    case Get(id, hit, ok, filled) =>
      if hit && id in r.cache then r
      else if ok && filled && Visible(r.table, id).Some? then r.(cache := r.cache[id := Visible(r.table, id).value])
      else r
    case Expire(id) => r.(cache := r.cache - {id})
  }

  function DirectRun(t: Table, calls: seq<Call>): Table {
    if calls == [] then t else DirectStep(DirectRun(t, calls[..|calls| - 1]), calls[|calls| - 1])
  }

  function CachedRun(r: Repo, calls: seq<Call>): Repo {
    if calls == [] then r else CachedStep(CachedRun(r, calls[..|calls| - 1]), calls[|calls| - 1])
  }

  /** What is cached is what a select would return. */
  predicate Coherent(r: Repo) {
    forall id :: id in r.cache ==> Visible(r.table, id) == Some(r.cache[id])
  }

  predicate DeletesSucceed(calls: seq<Call>) {
    forall c :: c in calls && c.Update? ==> c.deleted
  }

  lemma StepKeepsCoherence(r: Repo, c: Call)
    requires Coherent(r) && (c.Update? ==> c.deleted)
    ensures Coherent(CachedStep(r, c))
  {
  }

  lemma {:induction false} RunKeepsCoherence(r: Repo, calls: seq<Call>)
    requires Coherent(r) && DeletesSucceed(calls)
    ensures Coherent(CachedRun(r, calls)) && CachedRun(r, calls).table == DirectRun(r.table, calls)
  {
    if calls != [] {
      var front, c := calls[..|calls| - 1], calls[|calls| - 1];
      assert c in calls;
      RunKeepsCoherence(r, front);
      StepKeepsCoherence(CachedRun(r, front), c);
    }
  }

  /**
   For any sequence of completed calls whose deletes succeed, with expiries and failed lookups and fills
   anywhere: whatever the last call answers, the wrapped repository would have answered the same, except
   that a cached product can still be read while the database does not answer.
   */
  lemma {:induction false} CacheIsInvisible(r: Repo, calls: seq<Call>, c: Call)
    requires Coherent(r) && DeletesSucceed(calls)
    ensures var r' := CachedRun(r, calls);
            && r'.table == DirectRun(r.table, calls)
            && (CachedAnswer(r', c) == DirectAnswer(DirectRun(r.table, calls), c)
                || (c.Get? && !c.ok && CachedAnswer(r', c) == DirectAnswer(DirectRun(r.table, calls), c.(ok := true))))
  {
    RunKeepsCoherence(r, calls);
  }

  /** A lost delete is harmless exactly when the product was not cached, or readers see what they saw before it. */
  lemma LostDeleteIsHarmlessExactlyWhen(r: Repo, p: Product)
    requires Coherent(r) && p.price >= 0.0
    ensures var r' := CachedStep(r, Update(p, true, false));
            (forall id ::
               CachedAnswer(r', Get(id, true, true, true)) == DirectAnswer(r'.table, Get(id, true, true, true)))
            <==> p.id !in r.cache || Visible(Updated(r.table, p), p.id) == Visible(r.table, p.id)
  {
    var r' := CachedStep(r, Update(p, true, false));
    forall id | id != p.id || p.id !in r.cache || Visible(Updated(r.table, p), p.id) == Visible(r.table, p.id)
      ensures CachedAnswer(r', Get(id, true, true, true)) == DirectAnswer(r'.table, Get(id, true, true, true))
    {
      assert id in r.cache ==> Visible(r.table, id) == Some(r.cache[id]);
      assert id != p.id ==> Visible(r'.table, id) == Visible(r.table, id);
    }
    if p.id in r.cache {
      assert Visible(r.table, p.id) == Some(r.cache[p.id]);
      assert CachedAnswer(r', Get(p.id, true, true, true)) == Found(r.cache[p.id]);
    }
  }

  // ---------- what is found is what was stored ----------

  lemma {:induction false} DirectConcat(t: Table, calls: seq<Call>, more: seq<Call>)
    ensures DirectRun(t, calls + more) == DirectRun(DirectRun(t, calls), more)
  {
    if more == [] {
      assert calls + more == calls;
    } else {
      assert (calls + more)[..|calls + more| - 1] == calls + more[..|more| - 1];
      DirectConcat(t, calls, more[..|more| - 1]);
    }
  }

  lemma DirectCall(t: Table, c: Call)
    ensures DirectRun(t, [c]) == DirectStep(t, c)
  {
    assert [c][..0] == [];
  }

  /** None of the calls updates the product with this ID. */
  predicate Leaves(calls: seq<Call>, id: Id) {
    forall c :: c in calls && c.Update? ==> c.p.id != id
  }

  lemma {:induction false} StoredStays(t: Table, calls: seq<Call>, id: Id)
    requires id in t && Leaves(calls, id)
    ensures id in DirectRun(t, calls) && DirectRun(t, calls)[id] == t[id]
  {
    if calls != [] {
      StoredStays(t, calls[..|calls| - 1], id);
      assert calls[|calls| - 1] in calls;
    }
  }

  /** What an answered get finds, when nothing fails to be deleted: the row, if it is active. */
  lemma GetFindsTheRow(r: Repo, calls: seq<Call>, id: Id, hit: bool, filled: bool)
    requires Coherent(r) && DeletesSucceed(calls)
    ensures var t := DirectRun(r.table, calls);
            CachedAnswer(CachedRun(r, calls), Get(id, hit, true, filled)) ==
            if id in t && t[id].active then Found(t[id]) else NotFound
  {
    CacheIsInvisible(r, calls, Get(id, hit, true, filled));
  }

  /** An accepted create is found as it was given, until it is updated; it is not found if it was given as inactive. */
  lemma FoundAsCreated(r: Repo, before: seq<Call>, p: Product, after: seq<Call>, hit: bool, filled: bool)
    requires Coherent(r) && DeletesSucceed(before + [Create(p, true)] + after) && Leaves(after, p.id)
    requires CachedAnswer(CachedRun(r, before), Create(p, true)) == Accepted
    ensures CachedAnswer(CachedRun(r, before + [Create(p, true)] + after), Get(p.id, hit, true, filled)) ==
            if p.active then Found(p) else NotFound
  {
    assert DeletesSucceed(before) by {
      assert forall c :: c in before ==> c in before + [Create(p, true)] + after;
    }
    RunKeepsCoherence(r, before);
    var t := DirectRun(r.table, before);
    var t1 := DirectStep(t, Create(p, true));
    assert p.id in t1 && t1[p.id] == p;
    DirectConcat(r.table, before + [Create(p, true)], after);
    DirectConcat(r.table, before, [Create(p, true)]);
    DirectCall(t, Create(p, true));
    StoredStays(t1, after, p.id);
    GetFindsTheRow(r, before + [Create(p, true)] + after, p.id, hit, filled);
  }

  /** An accepted update of a stored product is found, with the SKU and the creation time that were stored. */
  lemma FoundAsUpdated(r: Repo, before: seq<Call>, q: Product, after: seq<Call>, hit: bool, filled: bool)
    requires Coherent(r) && DeletesSucceed(before + [Update(q, true, true)] + after) && Leaves(after, q.id)
    requires CachedAnswer(CachedRun(r, before), Update(q, true, true)) == Accepted
    requires q.id in CachedRun(r, before).table
    ensures var was := CachedRun(r, before).table[q.id];
            CachedAnswer(CachedRun(r, before + [Update(q, true, true)] + after), Get(q.id, hit, true, filled)) ==
            if q.active
            then Found(Product(q.id, was.sku, q.name, q.price, q.category, q.brand, true, was.createdAt))
            else NotFound
  {
    assert DeletesSucceed(before) by {
      assert forall c :: c in before ==> c in before + [Update(q, true, true)] + after;
    }
    RunKeepsCoherence(r, before);
    var t := DirectRun(r.table, before);
    var was := t[q.id];
    var t1 := DirectStep(t, Update(q, true, true));
    assert q.id in t1;
    assert t1[q.id] == Product(q.id, was.sku, q.name, q.price, q.category, q.brand, q.active, was.createdAt);
    DirectConcat(r.table, before + [Update(q, true, true)], after);
    DirectConcat(r.table, before, [Update(q, true, true)]);
    DirectCall(t, Update(q, true, true));
    StoredStays(t1, after, q.id);
    GetFindsTheRow(r, before + [Update(q, true, true)] + after, q.id, hit, filled);
  }

  /** Whatever is updated since, a product keeps the SKU and the creation time it was created with. */
  lemma {:induction false} IdentityStays(t: Table, calls: seq<Call>, id: Id)
    requires id in t
    ensures var t' := DirectRun(t, calls);
            id in t' && t'[id].sku == t[id].sku && t'[id].createdAt == t[id].createdAt
  {
    if calls != [] {
      IdentityStays(t, calls[..|calls| - 1], id);
    }
  }

  /** A product that is never created is never found, whatever else is called. */
  lemma {:induction false} NeverCreated(t: Table, calls: seq<Call>, id: Id)
    requires id !in t && forall c :: c in calls && c.Create? ==> c.p.id != id
    ensures id !in DirectRun(t, calls)
  {
    if calls != [] {
      NeverCreated(t, calls[..|calls| - 1], id);
      assert calls[|calls| - 1] in calls;
    }
  }

  lemma NeverCreatedIsNeverFound(calls: seq<Call>, id: Id, hit: bool, filled: bool)
    requires DeletesSucceed(calls) && forall c :: c in calls && c.Create? ==> c.p.id != id
    ensures CachedAnswer(CachedRun(Repo(map[], map[]), calls), Get(id, hit, true, filled)) == NotFound
  {
    NeverCreated(map[], calls, id);
    GetFindsTheRow(Repo(map[], map[]), calls, id, hit, filled);
  }

  class CachedProductRepository {
    var table: Table
    var cache: Table

    function View(): Repo
      reads this
    {
      Repo(table, cache)
    }

    /** The wrapped repository's select. */
    method SelectByID(id: Id, ok: bool) returns (a: Answer)
      ensures a == DirectAnswer(table, Get(id, false, ok, false))
    {
      if !ok {
        return Error;
      }
      if id in table && table[id].active {
        return Found(table[id]);
      }
      a := NotFound;
    }

    method GetByID(id: Id, hit: bool, ok: bool, filled: bool) returns (a: Answer)
      modifies this`cache
      ensures a == CachedAnswer(old(View()), Get(id, hit, ok, filled))
      ensures hit && id in old(cache) ==> a == Found(old(cache)[id])
      ensures !(hit && id in old(cache)) ==>
                && a == (if !ok then Error else if id in table && table[id].active then Found(table[id]) else NotFound)
                && cache == if a.Found? && filled then old(cache)[id := table[id]] else old(cache)
      ensures View() == CachedStep(old(View()), Get(id, hit, ok, filled))
      ensures old(Coherent(View())) ==> Coherent(View())
    {
      if hit && id in cache {
        return Found(cache[id]);
      }
      a := SelectByID(id, ok);
      if a.Found? && filled {
        cache := cache[id := a.p];
      }
    }

    method Create(p: Product, ok: bool) returns (a: Answer)
      modifies this`table
      ensures a == CachedAnswer(old(View()), Call.Create(p, ok))
      ensures View() == CachedStep(old(View()), Call.Create(p, ok))
      ensures a == Accepted || a == Error
      ensures a == Accepted <==>
                && ok && p.id !in old(table) && p.price >= 0.0
                && forall i :: i in old(table) ==> old(table)[i].sku != p.sku
      ensures table == if a == Accepted then old(table)[p.id := p] else old(table)
      ensures old(Coherent(View())) ==> Coherent(View())
    {
      var taken := p.id in table || exists i :: i in table && table[i].sku == p.sku;
      if !ok || taken || p.price < 0.0 {
        return Error;
      }
      table := table[p.id := p];
      a := Accepted;
    }

    method Update(p: Product, ok: bool, deleted: bool) returns (a: Answer)
      modifies this
      ensures a == CachedAnswer(old(View()), Call.Update(p, ok, deleted))
      ensures View() == CachedStep(old(View()), Call.Update(p, ok, deleted))
      ensures a == Accepted || a == Error
      ensures a == Accepted <==> ok && (p.id in old(table) ==> p.price >= 0.0)
      ensures a == Accepted && deleted ==> p.id !in cache
      ensures a == Accepted && p.id in old(table) ==>
                var was := old(table)[p.id];
                table == old(table)[p.id :=
                  Product(p.id, was.sku, p.name, p.price, p.category, p.brand, p.active, was.createdAt)]
      ensures a == Error || p.id !in old(table) ==> table == old(table)
      ensures old(Coherent(View())) && deleted ==> Coherent(View())
    {
      if !ok || (p.id in table && p.price < 0.0) {
        return Error;
      }
      if p.id in table {
        var was := table[p.id];
        table := table[p.id := Product(p.id, was.sku, p.name, p.price, p.category, p.brand, p.active, was.createdAt)];
      }
      if deleted {
        cache := cache - {p.id};
      }
      a := Accepted;
    }
  }

  // ---------- racing calls on one product ----------

  type Value = Option<nat>

  /** The product had this value from time `at` on; None while it cannot be found. */
  datatype Written = Written(value: Value, at: real)

  datatype Entry = Entry(value: nat, expires: real, readAt: real)

  datatype Reader =
    | Looking
    | Missed
    | HasRead(product: nat, readAt: real)
    | Answered(value: Value, at: real, readAt: real)
    | Failed

  /** `gap` bounds the time between a reader's database read and its cache fill. */
  datatype Race = Race(
    ttl: real, gap: real, now: real, history: seq<Written>, cache: Option<Entry>, readers: seq<Reader>)

  datatype Event =
    | Tick(span: real)
    | Write(value: Value)       // an updater's UPDATE
    | Delete(ok: bool)          // an updater's cache delete
    | Arrive
    | Look(r: nat, ok: bool)
    | Read(r: nat, ok: bool)    // the database read; with `ok` false it fails, and so does the call
    | Fill(r: nat, ok: bool)

  function LookUp(s: Race, ok: bool): Reader {
    if ok && s.cache.Some? && s.now < s.cache.value.expires
    then Answered(Some(s.cache.value.value), s.now, s.cache.value.readAt)
    else Missed
  }

  function Latest(s: Race): Value
    requires s.history != []
  {
    s.history[|s.history| - 1].value
  }

  function ReadNow(s: Race): Reader
    requires s.history != []
  {
    match Latest(s)
    case Some(v) => HasRead(v, s.now)
    case None => Answered(None, s.now, s.now)
  }

  function Step(s: Race, e: Event): Race {
    match e
    case Tick(span) => if span > 0.0 then s.(now := s.now + span) else s
    case Write(value) => s.(history := s.history + [Written(value, s.now)])
    case Delete(ok) => if ok then s.(cache := None) else s
    case Arrive => s.(readers := s.readers + [Looking])
    case Look(r, ok) =>
      if r < |s.readers| && s.readers[r].Looking? then s.(readers := s.readers[r := LookUp(s, ok)]) else s
    case Read(r, ok) =>
      if r < |s.readers| && s.readers[r].Missed? && s.history != [] then
        s.(readers := s.readers[r := if ok then ReadNow(s) else Failed])
      else s
    case Fill(r, ok) =>
      if r < |s.readers| && s.readers[r].HasRead? && s.now <= s.readers[r].readAt + s.gap then
        var reader := s.readers[r];
        s.(cache := if ok then Some(Entry(reader.product, s.now + s.ttl, reader.readAt)) else s.cache,
           readers := s.readers[r := Answered(Some(reader.product), s.now, reader.readAt)])
      else s
  }

  function Exec(s: Race, run: seq<Event>): Race {
    if run == [] then s else Step(Exec(s, run[..|run| - 1]), run[|run| - 1])
  }

  function Initially(ttl: real, gap: real, value: Value): Race {
    Race(ttl, gap, 0.0, [Written(value, 0.0)], None, [])
  }

  /** Write k was the last one at time t (both ends of its interval count). */
  predicate HeldAt(history: seq<Written>, k: nat, t: real) {
    k < |history| && history[k].at <= t && (k + 1 < |history| ==> t <= history[k + 1].at)
  }

  /** At time t the database had this value. */
  predicate WasValue(history: seq<Written>, value: Value, t: real) {
    exists k :: 0 <= k < |history| && HeldAt(history, k, t) && history[k].value == value
  }

  predicate ReaderOk(s: Race, reader: Reader) {
    match reader
    case HasRead(v, t) => t <= s.now && WasValue(s.history, Some(v), t)
    case Answered(v, at, t) => at - s.ttl - s.gap <= t <= at <= s.now && WasValue(s.history, v, t)
    case _ => true
  }

  predicate RaceOk(s: Race) {
    && s.ttl >= 0.0 && s.gap >= 0.0
    && s.history != [] && (forall k :: 0 <= k < |s.history| ==> s.history[k].at <= s.now)
    && (s.cache.Some? ==>
          var e := s.cache.value;
          e.readAt <= s.now && e.expires <= e.readAt + s.gap + s.ttl && WasValue(s.history, Some(e.value), e.readAt))
    && (forall r :: 0 <= r < |s.readers| ==> ReaderOk(s, s.readers[r]))
  }

  /** What the database was at a past time stays what it was. */
  lemma HistoryIsKept(history: seq<Written>, w: Written, value: Value, t: real)
    requires WasValue(history, value, t) && t <= w.at
    ensures WasValue(history + [w], value, t)
  {
    var k :| 0 <= k < |history| && HeldAt(history, k, t) && history[k].value == value;
    assert HeldAt(history + [w], k, t);
  }

  lemma ReaderStaysOk(s: Race, e: Event, reader: Reader)
    requires RaceOk(s) && ReaderOk(s, reader)
    ensures ReaderOk(Step(s, e), reader)
  {
    if e.Write? {
      match reader
      case HasRead(v, t) => HistoryIsKept(s.history, Written(e.value, s.now), Some(v), t);
      case Answered(v, _, t) => HistoryIsKept(s.history, Written(e.value, s.now), v, t);
      case _ =>
    }
  }

  lemma StepKeepsRace(s: Race, e: Event)
    requires RaceOk(s)
    ensures RaceOk(Step(s, e))
  {
    var s' := Step(s, e);
    if e.Write? && s.cache.Some? {
      HistoryIsKept(s.history, Written(e.value, s.now), Some(s.cache.value.value), s.cache.value.readAt);
    }
    assert HeldAt(s.history, |s.history| - 1, s.now);
    forall r | 0 <= r < |s'.readers| ensures ReaderOk(s', s'.readers[r]) {
      if r < |s.readers| {
        ReaderStaysOk(s, e, s.readers[r]);
      }
    }
  }

  lemma {:induction false} RunKeepsRace(s: Race, run: seq<Event>)
    requires RaceOk(s)
    ensures RaceOk(Exec(s, run)) && Exec(s, run).ttl == s.ttl && Exec(s, run).gap == s.gap
  {
    if run != [] {
      RunKeepsRace(s, run[..|run| - 1]);
      StepKeepsRace(Exec(s, run[..|run| - 1]), run[|run| - 1]);
    }
  }

  /**
   In every timed interleaving of readers and updaters, lost deletes included: an answer given at time t
   was the database's value at some instant between t - ttl - gap and t.
   */
  lemma StalenessIsBounded(ttl: real, gap: real, value: Value, run: seq<Event>, r: nat)
    requires ttl >= 0.0 && gap >= 0.0
    requires var s := Exec(Initially(ttl, gap, value), run); r < |s.readers| && s.readers[r].Answered?
    ensures var s := Exec(Initially(ttl, gap, value), run);
            var answer := s.readers[r];
            exists t :: answer.at - ttl - gap <= t <= answer.at && WasValue(s.history, answer.value, t)
  {
    var s0 := Initially(ttl, gap, value);
    RunKeepsRace(s0, run);
    var s := Exec(s0, run);
    assert ReaderOk(s, s.readers[r]);
  }

  /** Readers 0 and 1 and one updater, with every Redis call answered: an answer almost ttl + gap old. */
  function SlowFill(ttl: real, gap: real, v: nat, w: nat, short: real): Race {
    var s0 := Step(Step(Initially(ttl, gap, Some(v)), Arrive), Arrive);
    var s1 := Step(Step(s0, Look(0, true)), Read(0, true));
    var s2 := Step(Step(s1, Write(Some(w))), Delete(true));
    var s3 := Step(Step(s2, Tick(gap)), Fill(0, true));
    Step(Step(s3, Tick(ttl - short)), Look(1, true))
  }

  /** The bound is sharp even when nothing fails: the old value is read before an update and cached long after it. */
  lemma StalenessIsAttained(ttl: real, gap: real, v: nat, w: nat, short: real)
    requires gap > 0.0 && 0.0 < short < ttl && v != w
    ensures var s := SlowFill(ttl, gap, v, w, short);
            && s.history == [Written(Some(v), 0.0), Written(Some(w), 0.0)]
            && |s.readers| == 2 && s.readers[1] == Answered(Some(v), ttl + gap - short, 0.0)
  {
    var s0 := Step(Step(Initially(ttl, gap, Some(v)), Arrive), Arrive);
    assert s0.readers == [Looking, Looking];
    var s1 := Step(Step(s0, Look(0, true)), Read(0, true));
    assert s1.readers == [HasRead(v, 0.0), Looking];
    var s2 := Step(Step(s1, Write(Some(w))), Delete(true));
    var s3 := Step(Step(s2, Tick(gap)), Fill(0, true));
    assert s3.cache == Some(Entry(v, gap + ttl, 0.0)) && s3.readers[1] == Looking;
  }

  // ---------- one racing GetByID ----------

  /** How much time passes during a run. */
  function Elapsed(run: seq<Event>): real {
    if run == [] then 0.0
    else
      var last := run[|run| - 1];
      Elapsed(run[..|run| - 1]) + if last.Tick? && last.span > 0.0 then last.span else 0.0
  }

  predicate ByOthers(run: seq<Event>, me: nat) {
    forall e :: e in run ==> (e.Look? ==> e.r != me) && (e.Read? ==> e.r != me) && (e.Fill? ==> e.r != me)
  }

  lemma {:induction false} OthersKeepMyRead(s: Race, run: seq<Event>, me: nat)
    requires me < |s.readers| && ByOthers(run, me) && s.history != []
    ensures var s' := Exec(s, run);
            && |s.readers| <= |s'.readers| && s'.readers[me] == s.readers[me] && s'.history != []
            && s'.now == s.now + Elapsed(run) && s'.ttl == s.ttl && s'.gap == s.gap
  {
    if run != [] {
      OthersKeepMyRead(s, run[..|run| - 1], me);
      assert run[|run| - 1] in run;
    }
  }

  /** The store as readers of one product share it. */
  class SharedProduct {
    const ttl: real
    const gap: real
    var now: real
    var history: seq<Written>
    var cache: Option<Entry>
    var readers: seq<Reader>

    function View(): Race
      reads this
    {
      Race(ttl, gap, now, history, cache, readers)
    }

    method Yield(others: seq<Event>)
      requires Exec(View(), others).ttl == ttl && Exec(View(), others).gap == gap
      modifies this
      ensures View() == Exec(old(View()), others)
    {
      var s := Exec(View(), others);
      now, history, cache, readers := s.now, s.history, s.cache, s.readers;
    }

    /** Looks into the cache: the answer of call `me` on a hit. */
    method LookIntoCache(me: nat, others: seq<Event>, ok: bool) returns (hit: Option<nat>)
      requires me < |readers| && readers[me].Looking? && history != [] && ByOthers(others, me)
      modifies this
      ensures View() == Step(Exec(old(View()), others), Look(me, ok))
      ensures me < |readers| && history != []
      ensures match hit
              case Some(v) => readers[me].Answered? && readers[me].value == Some(v) && readers[me].at == now
              case None => readers[me].Missed?
    {
      OthersKeepMyRead(View(), others, me);
      Yield(others);
      if ok && cache.Some? && now < cache.value.expires {
        hit := Some(cache.value.value);
        readers := readers[me := Answered(hit, now, cache.value.readAt)];
      } else {
        hit := None;
        readers := readers[me := Missed];
      }
    }

    /** Reads the database after a miss; None if that fails. */
    method ReadDatabase(me: nat, others: seq<Event>, ok: bool) returns (read: Option<Value>)
      requires me < |readers| && readers[me].Missed? && history != [] && ByOthers(others, me)
      modifies this
      ensures View() == Step(Exec(old(View()), others), Read(me, ok))
      ensures me < |readers| && history != [] && (read.Some? <==> ok)
      ensures readers[me] == match read
                             case None => Failed
                             case Some(Some(v)) => HasRead(v, now)
                             case Some(None) => Answered(None, now, now)
    {
      OthersKeepMyRead(View(), others, me);
      Yield(others);
      if !ok {
        readers := readers[me := Failed];
        return None;
      }
      var value := history[|history| - 1].value;
      readers := readers[me := if value.Some? then HasRead(value.value, now) else Answered(None, now, now)];
      read := Some(value);
    }

    /** Fills the cache with what was read; the fill comes within `gap` of the read. */
    method FillCache(me: nat, others: seq<Event>, ok: bool)
      requires me < |readers| && readers[me].HasRead? && readers[me].readAt == now && history != []
      requires ByOthers(others, me) && Elapsed(others) <= gap
      modifies this
      ensures View() == Step(Exec(old(View()), others), Fill(me, ok))
      ensures me < |readers| && readers[me] == Answered(Some(old(readers[me]).product), now, old(readers[me]).readAt)
    {
      var mine := readers[me];
      OthersKeepMyRead(View(), others, me);
      Yield(others);
      if ok {
        cache := Some(Entry(mine.product, now + ttl, mine.readAt));
      }
      readers := readers[me := Answered(Some(mine.product), now, mine.readAt)];
    }

    /**
     GetByID while others read, update and delete around its statements.  Its steps are those of one
     reader of this module, so its answer is at most ttl + gap old; it fails exactly when its database
     read does.
     */
    method GetByID(look: seq<Event>, hits: bool, read: seq<Event>, readOk: bool, fill: seq<Event>, filled: bool)
      returns (answer: Option<Value>, ghost readAt: real)
      requires RaceOk(View()) && Elapsed(fill) <= gap
      requires ByOthers(look, |readers|) && ByOthers(read, |readers|) && ByOthers(fill, |readers|)
      modifies this
      ensures RaceOk(View()) && |old(readers)| < |readers|
      ensures answer.None? ==> !readOk
      ensures match answer
              case None => readers[|old(readers)|] == Failed
              case Some(value) =>
                && readers[|old(readers)|] == Answered(value, now, readAt)
                && now - ttl - gap <= readAt <= now && WasValue(history, value, readAt)
      ensures var me := |old(readers)|;
              var s1 := Step(Exec(Step(old(View()), Arrive), look), Look(me, hits));
              var s2 := Step(Exec(s1, read), Read(me, readOk));
              View() == s1 || View() == s2 || View() == Step(Exec(s2, fill), Fill(me, filled))
    {
      var me := |readers|;
      ghost var s0 := View();
      readers := readers + [Looking];
      StepKeepsRace(s0, Arrive);
      assert View() == Step(s0, Arrive);
      ghost var a := View();
      var hit := LookIntoCache(me, look, hits);
      hide Step;
      RaceIsKept(a, look, Look(me, hits));
      if hit.Some? {
        answer, readAt := Some(hit), readers[me].readAt;
        assert ReaderOk(View(), readers[me]);
        return;
      }
      ghost var b := View();
      answer := ReadDatabase(me, read, readOk);
      RaceIsKept(b, read, Read(me, readOk));
      readAt := now;
      assert ReaderOk(View(), readers[me]);
      if answer.Some? && answer.value.Some? {
        ghost var c := View();
        FillCache(me, fill, filled);
        RaceIsKept(c, fill, Fill(me, filled));
        assert ReaderOk(View(), readers[me]);
      }
    }
  }

  lemma RaceIsKept(s: Race, run: seq<Event>, e: Event)
    requires RaceOk(s)
    ensures RaceOk(Step(Exec(s, run), e))
  {
    RunKeepsRace(s, run);
    StepKeepsRace(Exec(s, run), e);
  }
}
