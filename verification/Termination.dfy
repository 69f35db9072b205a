/** `run_crawl` ends: every step decreases a measure, some step is always possible until it
    has returned, and no row is claimed more often than the attempt cap allows. */
module Termination {
  import opened Wrappers
  import opened Nostr
  import opened Sums
  import opened Tables
  import opened Protocol
  import opened Lifecycle
  import opened Leases

  // ---------------------------------------------------------------- measure

  /** Claims and resolutions a row may still see. */
  function Left(cfg: Config, row: Row): nat {
    if row.status.Terminal() then 0
    else 2 * Max(1, cfg.maxAttempts - row.attempts) + if row.status.Discovered? then 1 else 0
  }

  function Lefts(cfg: Config, db: Db): map<nat, nat> {
    map k | k in db.pubkeys :: Left(cfg, db.pubkeys[k])
  }

  /** Steps a worker may still take for its first author, and to be joined. */
  function Cost(w: Worker): nat {
    match w.phase
    case Fetching => 4
    case Failing => if w.todo == [] then 3 else 4
    case Resolving(lists) =>
      if w.todo == [] then 3
      else if w.todo[0] in lists then |lists[w.todo[0]].followees| + 9
      else 4
    case Upserting(_, _, left) => |left| + 7
    case Confirming(_, _) => 6
    case Diffing(_, _) => 6
    case Writing(_, _, _) => 5
    case Broken => 3
  }

  function Costs(workers: map<nat, Worker>): map<nat, nat> {
    map w | w in workers :: Cost(workers[w])
  }

  function Fetches(workers: map<nat, Worker>): map<nat, nat> {
    map w | w in workers :: if workers[w].phase.Fetching? then 1 else 0
  }

  function Rank(d: Driver): nat {
    match d
    case Holding(_) => 9
    case Reaping => 4
    case AtClaim => 3
    case Draining => 2
    case _ => 0
  }

  /** Lexicographic: startup, keys of the universe not yet seen, remaining attempts, fetches
      under way, steps within the batches. */
  ghost function MeasureOf(cfg: Config, universe: set<PubKey>, s: State): Measure {
    Measure(
      if s.driver.Seeding? then 2 else if s.driver.Starting? then 1 else 0,
      |universe - s.db.pubkeys.Keys|,
      Total(Lefts(cfg, s.db)),
      Total(Fetches(s.workers)) + if s.driver.Holding? then 1 else 0,
      Total(Costs(s.workers)) + Rank(s.driver))
  }

  ghost predicate ListsWithin(universe: set<PubKey>, lists: map<PubKey, FollowList>) {
    forall a, g | a in lists && g in lists[a].followees :: g in universe
  }

  /** The worker has an author when it needs one, and only upserts keys of the universe. */
  ghost predicate WorkerWithin(universe: set<PubKey>, w: Worker) {
    match w.phase
    case Fetching => w.todo != []
    case Failing => true
    case Resolving(lists) => ListsWithin(universe, lists) && OwnLists(lists)
    case Upserting(lists, list, left) =>
      && w.todo != [] && ListsWithin(universe, lists) && OwnLists(lists)
      && (forall x | x in left :: x == w.todo[0] || x in universe)
    case Broken => true
    case _ => w.todo != [] && ListsWithin(universe, w.phase.lists) && OwnLists(w.phase.lists)
  }

  /** Batches are not empty, a drain has workers, and every worker is within the universe. */
  ghost predicate Shaped(universe: set<PubKey>, s: State) {
    && !s.driver.Idle? && !s.driver.FinalDrain?
    && (s.driver.Holding? ==> s.driver.batch != [])
    && (s.driver.Draining? ==> s.workers != map[])
    && (forall w | w in s.workers :: WorkerWithin(universe, s.workers[w]))
  }

  /** Not cut off, and the lists stay within a finite universe. */
  ghost function FiniteWorld(universe: set<PubKey>): (State, Label) -> bool {
    (s: State, l: Label) => !l.Crash? && (l.Work? && l.act.FetchOk? ==> ListsWithin(universe, l.act.lists))
  }

  lemma ActKeepsWithin(universe: set<PubKey>, cfg: Config, db: Db, w: Worker, act: Act)
    requires ActEnabled(cfg, w, act) && cfg.mode.Crawl? && WorkerWithin(universe, w)
    requires act.FetchOk? ==> ListsWithin(universe, act.lists)
    ensures WorkerWithin(universe, ActWorker(cfg, db, w, act))
  {
  }

  lemma StepKeepsShaped(universe: set<PubKey>, cfg: Config, s: State, l: Label)
    requires Shaped(universe, s) && Enabled(cfg, s, l) && cfg.mode.Crawl? && FiniteWorld(universe)(s, l)
    ensures Shaped(universe, Step(cfg, s, l))
  {
    if l.Work? {
      ActKeepsWithin(universe, cfg, s.db, s.workers[l.w], l.act);
    }
  }

  /** What every state of a crawl from any tables satisfies. */
  ghost predicate Sound(universe: set<PubKey>, cfg: Config, s: State) {
    LeaseInv(cfg, s) && Shaped(universe, s)
  }

  lemma StepKeepsSound(universe: set<PubKey>, cfg: Config, s: State, l: Label)
    requires Sound(universe, cfg, s) && Enabled(cfg, s, l) && cfg.mode.Crawl? && FiniteWorld(universe)(s, l)
    ensures Sound(universe, cfg, Step(cfg, s, l))
  {
    StepKeepsLeaseInv(cfg, s, l);
    StepKeepsShaped(universe, cfg, s, l);
  }

  lemma RunsAreSound(universe: set<PubKey>, cfg: Config, db: Db, run: seq<Label>, s: State)
    requires cfg.mode.Crawl? && Reaches(cfg, FiniteWorld(universe), Boot(db), run, s)
    ensures Sound(universe, cfg, s)
  {
    var ok := FiniteWorld(universe);
    forall u: State, l | Sound(universe, cfg, u) && Enabled(cfg, u, l) && ok(u, l)
      ensures Sound(universe, cfg, Step(cfg, u, l))
    {
      StepKeepsSound(universe, cfg, u, l);
    }
    Induct(cfg, ok, u => Sound(universe, cfg, u), Boot(db), run, s);
  }

  /** A resolving act finishes one claim of a leased row. */
  lemma ResolvingDecreasesLefts(cfg: Config, db: Db, w: Worker, act: Act)
    requires ActEnabled(cfg, w, act) && OwnBatch(db, w.todo)
    requires act.Requeue? || act.Miss? || act.Confirm? || act.Commit?
    ensures ActDb(cfg, db, w, act).pubkeys.Keys == db.pubkeys.Keys
    ensures Total(Lefts(cfg, ActDb(cfg, db, w, act))) < Total(Lefts(cfg, db))
  {
    var f, db' := w.todo[0], ActDb(cfg, db, w, act);
    assert f in w.todo && HasStatus(db, f, InProgress);
    assert Left(cfg, db'.pubkeys[f]) < Left(cfg, db.pubkeys[f]);
    assert forall k | k in db.pubkeys && k != f :: db'.pubkeys[k] == db.pubkeys[k];
    TotalLess(Lefts(cfg, db), Lefts(cfg, db'), f);
  }

  /** Any other act leaves the rows alone or adds a key not yet seen. */
  lemma OtherActsGrowRows(universe: set<PubKey>, cfg: Config, db: Db, w: Worker, act: Act)
    requires ActEnabled(cfg, w, act) && OwnBatch(db, w.todo) && WorkerWithin(universe, w)
    requires !act.Requeue? && !act.Miss? && !act.Confirm? && !act.Commit?
    ensures || ActDb(cfg, db, w, act).pubkeys == db.pubkeys
            || |universe - ActDb(cfg, db, w, act).pubkeys.Keys| < |universe - db.pubkeys.Keys|
  {
    if act.UpsertNext? && w.phase.left[0] !in db.pubkeys {
      var x, db' := w.phase.left[0], ActDb(cfg, db, w, act);
      assert w.todo[0] in w.todo && HasStatus(db, w.todo[0], InProgress);
      assert x in w.phase.left && x in universe;
      assert x in universe - db.pubkeys.Keys && x !in universe - db'.pubkeys.Keys;
      StrictSubsetSize(universe - db'.pubkeys.Keys, universe - db.pubkeys.Keys);
    }
  }

  lemma StrictSubsetSize<T>(a: set<T>, b: set<T>)
    requires a < b
    ensures |a| < |b|
  {
    SubsetSize(a, b);
  }

  /** Any other act ends a fetch or takes the worker one step on. */
  lemma ActDecreasesWorker(cfg: Config, db: Db, w: Worker, act: Act)
    requires ActEnabled(cfg, w, act) && cfg.mode.Crawl?
    requires !act.Requeue? && !act.Miss? && !act.Confirm? && !act.Commit?
    ensures var w' := ActWorker(cfg, db, w, act);
            || (w.phase.Fetching? && !w'.phase.Fetching?)
            || (!w.phase.Fetching? && !w'.phase.Fetching? && Cost(w') < Cost(w))
  {
  }

  lemma ResolvingDecreases(universe: set<PubKey>, cfg: Config, s: State, w: nat, act: Act)
    requires Enabled(cfg, s, Work(w, act)) && OwnBatch(s.db, s.workers[w].todo)
    requires act.Requeue? || act.Miss? || act.Confirm? || act.Commit?
    ensures MeasureOf(cfg, universe, Step(cfg, s, Work(w, act))).Less(MeasureOf(cfg, universe, s))
  {
    ResolvingDecreasesLefts(cfg, s.db, s.workers[w], act);
  }

  /** Progress of one worker shows in the sums over all of them. */
  lemma WorkerDecreasesSums(workers: map<nat, Worker>, w: nat, x: Worker)
    requires w in workers
    requires || (workers[w].phase.Fetching? && !x.phase.Fetching?)
             || (!workers[w].phase.Fetching? && !x.phase.Fetching? && Cost(x) < Cost(workers[w]))
    ensures var workers' := workers[w := x];
            || Total(Fetches(workers')) < Total(Fetches(workers))
            || (Total(Fetches(workers')) == Total(Fetches(workers)) && Total(Costs(workers')) < Total(Costs(workers)))
  {
    var workers' := workers[w := x];
    if workers[w].phase.Fetching? {
      TotalLess(Fetches(workers), Fetches(workers'), w);
    } else {
      assert Fetches(workers') == Fetches(workers);
      TotalLess(Costs(workers), Costs(workers'), w);
    }
  }

  lemma ActDecreases(universe: set<PubKey>, cfg: Config, s: State, w: nat, act: Act)
    requires Enabled(cfg, s, Work(w, act)) && cfg.mode.Crawl?
    requires Sound(universe, cfg, s)
    ensures MeasureOf(cfg, universe, Step(cfg, s, Work(w, act))).Less(MeasureOf(cfg, universe, s))
  {
    if act.Requeue? || act.Miss? || act.Confirm? || act.Commit? {
      ResolvingDecreases(universe, cfg, s, w, act);
    } else {
      OtherActsGrowRows(universe, cfg, s.db, s.workers[w], act);
      ActDecreasesWorker(cfg, s.db, s.workers[w], act);
      WorkerDecreasesSums(s.workers, w, ActWorker(cfg, s.db, s.workers[w], act));
    }
  }

  lemma LeaseDecreasesLefts(cfg: Config, db: Db, locked: set<PubKey>, batch: seq<PubKey>, now: int)
    requires ToSet(batch) <= Claimable(db, locked) && batch != []
    ensures Lease(db, batch, now).pubkeys.Keys == db.pubkeys.Keys
    ensures Total(Lefts(cfg, Lease(db, batch, now))) < Total(Lefts(cfg, db))
  {
    forall k | k in batch ensures HasStatus(db, k, Discovered) {
      assert k in ToSet(batch);
    }
    assert batch[0] in batch;
    TotalLess(Lefts(cfg, db), Lefts(cfg, Lease(db, batch, now)), batch[0]);
  }

  lemma ClaimDecreases(universe: set<PubKey>, cfg: Config, s: State, l: Label)
    requires Enabled(cfg, s, l) && l.Claim? && l.batch != []
    ensures MeasureOf(cfg, universe, Step(cfg, s, l)).Less(MeasureOf(cfg, universe, s))
  {
    LeaseDecreasesLefts(cfg, s.db, l.locked, l.batch, l.now);
  }

  lemma AddWorker(workers: map<nat, Worker>, w: nat, x: Worker)
    requires w !in workers
    ensures Total(Costs(workers[w := x])) == Total(Costs(workers)) + Cost(x)
    ensures Total(Fetches(workers[w := x])) == Total(Fetches(workers)) + if x.phase.Fetching? then 1 else 0
  {
    var more := workers[w := x];
    TotalSplit(Fetches(more), w);
    TotalSplit(Costs(more), w);
    assert Fetches(more) - {w} == Fetches(workers);
    assert Costs(more) - {w} == Costs(workers);
  }

  lemma RemoveWorker(workers: map<nat, Worker>, w: nat)
    requires w in workers
    ensures Total(Costs(workers)) == Total(Costs(workers - {w})) + Cost(workers[w])
    ensures Total(Fetches(workers)) ==
            Total(Fetches(workers - {w})) + if workers[w].phase.Fetching? then 1 else 0
  {
    assert workers == (workers - {w})[w := workers[w]];
    AddWorker(workers - {w}, w, workers[w]);
  }

  lemma SpawnDecreases(universe: set<PubKey>, cfg: Config, s: State, w: nat)
    requires Enabled(cfg, s, Spawn(w))
    ensures MeasureOf(cfg, universe, Step(cfg, s, Spawn(w))).Less(MeasureOf(cfg, universe, s))
  {
    var x := Worker(s.driver.batch, Fetching);
    assert Step(cfg, s, Spawn(w)) == State(s.db, Reaping, s.workers[w := x], s.claims);
    AddWorker(s.workers, w, x);
  }

  lemma DroppingWorkerDecreases(universe: set<PubKey>, cfg: Config, s: State, w: nat, d: Driver)
    requires w in s.workers && Cost(s.workers[w]) == 3 && !s.workers[w].phase.Fetching?
    requires !s.driver.Seeding? && !s.driver.Starting? && !d.Seeding? && !d.Starting?
    requires (d.Holding? ==> s.driver.Holding?) && Rank(d) <= Rank(s.driver) + 1
    ensures MeasureOf(cfg, universe, s.(workers := s.workers - {w}, driver := d)).Less(MeasureOf(cfg, universe, s))
  {
    RemoveWorker(s.workers, w);
  }

  lemma JoinDecreases(universe: set<PubKey>, cfg: Config, s: State, w: nat)
    requires Enabled(cfg, s, Join(w)) && cfg.mode.Crawl? && !s.driver.FinalDrain?
    ensures MeasureOf(cfg, universe, Step(cfg, s, Join(w))).Less(MeasureOf(cfg, universe, s))
  {
    if s.workers[w].phase.Broken? {
      assert Step(cfg, s, Join(w)).workers == s.workers;
    } else {
      DroppingWorkerDecreases(universe, cfg, s, w, AfterJoin(cfg, s.driver, s.workers - {w}));
    }
  }

  /** The remaining driver steps only move the driver on. */
  lemma DriverDecreases(universe: set<PubKey>, cfg: Config, s: State, d: Driver)
    requires !d.Seeding? && !d.Starting? && !d.Holding?
    requires s.driver.Seeding? || s.driver.Starting? || Rank(d) < Rank(s.driver)
    ensures MeasureOf(cfg, universe, s.(driver := d)).Less(MeasureOf(cfg, universe, s))
  {
  }

  lemma StartDecreases(universe: set<PubKey>, cfg: Config, s: State, l: Label)
    requires Enabled(cfg, s, l) && (l.Seed? || l.Startup?)
    ensures MeasureOf(cfg, universe, Step(cfg, s, l)).Less(MeasureOf(cfg, universe, s))
  {
  }

  /** Every step of a crawl that is not cut off decreases the measure: no run is infinite. */
  lemma StepDecreases(universe: set<PubKey>, cfg: Config, s: State, l: Label)
    requires Enabled(cfg, s, l) && cfg.mode.Crawl? && FiniteWorld(universe)(s, l)
    requires Sound(universe, cfg, s)
    ensures MeasureOf(cfg, universe, Step(cfg, s, l)).Less(MeasureOf(cfg, universe, s))
  {
    match l
    case Work(w, act) => ActDecreases(universe, cfg, s, w, act);
    case Claim(batch, _, _) =>
      if batch != [] {
        ClaimDecreases(universe, cfg, s, l);
      } else {
        DriverDecreases(universe, cfg, s, AfterEmptyClaim(cfg, s));
      }
    case Spawn(w) => SpawnDecreases(universe, cfg, s, w);
    case Join(w) => JoinDecreases(universe, cfg, s, w);
    case Seed => StartDecreases(universe, cfg, s, l);
    case Startup => StartDecreases(universe, cfg, s, l);
    case EndReap => DriverDecreases(universe, cfg, s, AtClaim);
    case Abort => DriverDecreases(universe, cfg, s, Errored);
  }

  lemma {:induction false} DescendsFrom(universe: set<PubKey>, cfg: Config, s: State, run: seq<Label>, t: State)
    requires cfg.mode.Crawl? && Sound(universe, cfg, s)
    requires Reaches(cfg, FiniteWorld(universe), s, run, t) && run != []
    ensures MeasureOf(cfg, universe, t).Less(MeasureOf(cfg, universe, s))
    decreases |run|
  {
    var u := Step(cfg, s, run[0]);
    StepDecreases(universe, cfg, s, run[0]);
    if run[1..] != [] {
      StepKeepsSound(universe, cfg, s, run[0]);
      DescendsFrom(universe, cfg, u, run[1..], t);
      LessTransitive(MeasureOf(cfg, universe, t), MeasureOf(cfg, universe, u), MeasureOf(cfg, universe, s));
    }
  }

  /** From any tables, along every run of a crawl that is not cut off, the measure strictly
      descends from each state to every later one: a run never comes back, none is infinite. */
  lemma RunsDescend(universe: set<PubKey>, cfg: Config, db: Db, before: seq<Label>, s: State,
                    run: seq<Label>, t: State)
    requires cfg.mode.Crawl? && Reaches(cfg, FiniteWorld(universe), Boot(db), before, s)
    requires Reaches(cfg, FiniteWorld(universe), s, run, t) && run != []
    ensures MeasureOf(cfg, universe, t).Less(MeasureOf(cfg, universe, s))
  {
    RunsAreSound(universe, cfg, db, before, s);
    DescendsFrom(universe, cfg, s, run, t);
  }

  // --------------------------------------------------------------- progress

  /** `run_crawl` has returned. */
  predicate Final(s: State) {
    s.driver.Finished? || s.driver.Errored?
  }

  lemma {:induction false} FirstExists(db: Db, open: set<PubKey>, limit: nat) returns (batch: seq<PubKey>)
    requires open <= db.pubkeys.Keys
    ensures IsFirst(db, open, limit, batch)
    decreases limit
  {
    if limit == 0 || open == {} {
      batch := [];
    } else {
      var k := Oldest(db, open);
      var rest := FirstExists(db, open - {k}, limit - 1);
      batch := [k] + rest;
      assert ToSet(batch) == {k} + ToSet(rest);
    }
  }

  lemma {:induction false} Oldest(db: Db, open: set<PubKey>) returns (k: PubKey)
    requires open <= db.pubkeys.Keys && open != {}
    ensures k in open && forall o | o in open :: db.pubkeys[k].id <= db.pubkeys[o].id
    decreases open
  {
    k :| k in open;
    if open != {k} {
      var j := Oldest(db, open - {k});
      if db.pubkeys[j].id < db.pubkeys[k].id { k := j; }
    }
  }

  lemma SomeLiveWorkerCanAct(universe: set<PubKey>, cfg: Config, s: State) returns (l: Label)
    requires Sound(universe, cfg, s) && LiveWorkers(s) != {}
    ensures Enabled(cfg, s, l) && FiniteWorld(universe)(s, l)
    ensures l.Work? && Harmless(l.act)
  {
    var w :| w in LiveWorkers(s);
    assert WorkerWithin(universe, s.workers[w]);
    var act := NextAct(cfg, s.workers[w]);
    l := Work(w, act);
  }

  lemma CanGoOn(universe: set<PubKey>, cfg: Config, s: State) returns (l: Label)
    requires cfg.mode.Crawl? && cfg.batchSize >= 1 && cfg.concurrency >= 1
    requires Sound(universe, cfg, s) && !Final(s)
    ensures Enabled(cfg, s, l) && FiniteWorld(universe)(s, l)
    ensures !l.Abort? && (l.Work? ==> Harmless(l.act))
  {
    match s.driver
    case Seeding => l := Seed;
    case Starting => l := Startup;
    case AtClaim =>
      var batch := FirstExists(s.db, Claimable(s.db, {}), cfg.batchSize);
      l := Claim(batch, {}, 0);
    case Holding(_) =>
      if |LiveWorkers(s)| < cfg.concurrency {
        var w := FreshHandle(s.workers);
        l := Spawn(w);
      } else {
        l := SomeLiveWorkerCanAct(universe, cfg, s);
      }
    case Reaping => l := EndReap;
    case Draining =>
      if LiveWorkers(s) == {} {
        var w :| w in s.workers;
        assert !s.workers[w].Live() by { assert w !in LiveWorkers(s); }
        l := Join(w);
      } else {
        l := SomeLiveWorkerCanAct(universe, cfg, s);
      }
  }

  /** No deadlock, on any tables: until it has returned, some step other than a failure is
      possible. */
  lemma Progress(universe: set<PubKey>, cfg: Config, db: Db, run: seq<Label>, s: State) returns (l: Label)
    requires cfg.mode.Crawl? && cfg.batchSize >= 1 && cfg.concurrency >= 1
    requires Reaches(cfg, FiniteWorld(universe), Boot(db), run, s) && !Final(s)
    ensures Enabled(cfg, s, l) && FiniteWorld(universe)(s, l)
    ensures !l.Abort? && (l.Work? ==> !l.act.Break?)
  {
    RunsAreSound(universe, cfg, db, run, s);
    l := CanGoOn(universe, cfg, s);
  }

  // ------------------------------------------------------------ claims per row

  /** The claims a row may still see before it has an outcome. */
  function Unclaimed(cfg: Config, row: Row): int {
    if row.status.Terminal() then 0
    else Max(1, cfg.maxAttempts - row.attempts) - if row.status.InProgress? then 1 else 0
  }

  /** Past claims and those still to come stay within the cap. */
  ghost predicate Accounted(cfg: Config, claims: map<PubKey, nat>, db: Db) {
    forall k | k in claims :: k in db.pubkeys && claims[k] + Unclaimed(cfg, db.pubkeys[k]) <= Cap(cfg)
  }

  lemma ActKeepsAccounted(cfg: Config, claims: map<PubKey, nat>, db: Db, w: Worker, act: Act)
    requires Accounted(cfg, claims, db) && ActEnabled(cfg, w, act) && OwnBatch(db, w.todo)
    ensures Accounted(cfg, claims, ActDb(cfg, db, w, act))
  {
    assert w.todo[0] in w.todo && HasStatus(db, w.todo[0], InProgress);
  }

  lemma ClaimKeepsAccounted(cfg: Config, claims: map<PubKey, nat>, db: Db, batch: seq<PubKey>, now: int)
    requires Accounted(cfg, claims, db) && ToSet(batch) <= Claimable(db, {})
    ensures Accounted(cfg, CountClaims(claims, batch), Lease(db, batch, now))
  {
    forall k | k in batch ensures HasStatus(db, k, Discovered) {
      assert k in ToSet(batch);
    }
  }

  lemma StepKeepsAccounted(cfg: Config, s: State, l: Label)
    requires Accounted(cfg, s.claims, s.db) && LeaseInv(cfg, s)
    requires Enabled(cfg, s, l) && cfg.mode.Crawl?
    ensures Accounted(cfg, Step(cfg, s, l).claims, Step(cfg, s, l).db)
  {
    if l.Work? {
      ActKeepsAccounted(cfg, s.claims, s.db, s.workers[l.w], l.act);
    } else if l.Claim? && l.batch != [] {
      assert Claimable(s.db, l.locked) <= Claimable(s.db, {});
      ClaimKeepsAccounted(cfg, s.claims, s.db, l.batch, l.now);
    }
  }

  lemma ClaimsWithinCap(cfg: Config, s: State)
    requires Accounted(cfg, s.claims, s.db)
    ensures forall k | k in s.claims :: s.claims[k] <= Cap(cfg)
  {
    forall k | k in s.claims ensures s.claims[k] <= Cap(cfg) {
      assert Unclaimed(cfg, s.db.pubkeys[k]) >= 0;
    }
  }

  /** From any tables, whatever attempts they record: since the last startup no row was
      claimed more than max(1, max_attempts) times. */
  lemma ClaimsBounded(cfg: Config, db: Db, run: seq<Label>, t: State)
    requires cfg.mode.Crawl? && Reaches(cfg, Anything, Boot(db), run, t)
    ensures forall k | k in t.claims :: t.claims[k] <= Cap(cfg)
  {
    var inv := (s: State) => Accounted(cfg, s.claims, s.db) && LeaseInv(cfg, s);
    forall u: State, l | inv(u) && Enabled(cfg, u, l) ensures inv(Step(cfg, u, l)) {
      StepKeepsAccounted(cfg, u, l);
      StepKeepsLeaseInv(cfg, u, l);
    }
    Induct(cfg, Anything, inv, Boot(db), run, t);
    ClaimsWithinCap(cfg, t);
  }
}
