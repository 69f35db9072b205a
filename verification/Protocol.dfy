/** `run_crawl` and `run_daemon_loop` as one state machine. Every SQL statement or
    transaction is one atomic step; every choice the environment makes (which rows a
    claim finds locked, what a fetch returns, clocks, scheduling, sweeps, crashes) is
    in the step's label, so a run is a sequence of labels. */
module Protocol {
  import opened Wrappers
  import opened Nostr
  import opened Tables

  datatype Mode = Crawl | Daemon

  datatype Config = Config(
    mode: Mode,
    anchor: PubKey,
    batchSize: nat,
    concurrency: nat,
    maxAttempts: int,
    fallback: bool,
    ttl: int,
    age: int)

  /** Where a worker stands inside `process_batch`, for the first author of `todo`. */
  datatype Phase =
    | Fetching
    | Failing
    | Resolving(lists: map<PubKey, FollowList>)
    | Upserting(lists: map<PubKey, FollowList>, list: FollowList, left: seq<PubKey>)
    | Confirming(lists: map<PubKey, FollowList>, list: FollowList)
    | Diffing(lists: map<PubKey, FollowList>, list: FollowList)
    | Writing(lists: map<PubKey, FollowList>, list: FollowList, current: set<PubKey>)
    | Broken

  /** A spawned batch; `todo` are its authors without an outcome yet. */
  datatype Worker = Worker(todo: seq<PubKey>, phase: Phase) {
    predicate Done() {
      todo == [] && (phase.Failing? || phase.Resolving?)
    }

    /** Still holds its crawl permit. */
    predicate Live() {
      !phase.Broken? && !Done()
    }

    /** Inside `apply_validated` for its first author. */
    predicate Applying() {
      todo != [] && (phase.Upserting? || phase.Confirming? || phase.Diffing? || phase.Writing?)
    }
  }

  datatype Driver =
    | Seeding
    | Starting
    | AtClaim
    | Holding(batch: seq<PubKey>)
    | Reaping
    | Draining
    | Idle
    | FinalDrain
    | Finished
    | Errored

  /** `claims` counts, per row, the claims since the last startup. */
  datatype State = State(db: Db, driver: Driver, workers: map<nat, Worker>, claims: map<PubKey, nat>)

  datatype Act =
    | FetchOk(lists: map<PubKey, FollowList>)
    | FetchErr
    | Requeue(stamp: int)
    | Miss(stamp: int)
    | Begin
    | Recover(list: FollowList)
    | UpsertNext
    | ReadEvent
    | Confirm(now: int)
    | ReadEdges
    | Commit(now: int)
    | Break

  datatype Label =
    | Seed
    | Startup
    | Claim(batch: seq<PubKey>, locked: set<PubKey>, now: int)
    | Spawn(w: nat)
    | Join(w: nat)
    | EndReap
    | Cancel
    | Wake
    | Abort
    | Work(w: nat, act: Act)
    | SweepTtl(now: int)
    | SweepAge(now: int)
    | Crash

  // ---------------------------------------------------------------- workers

  ghost predicate OwnLists(lists: map<PubKey, FollowList>) {
    forall a | a in lists :: lists[a].follower == a
  }

  predicate ActEnabled(cfg: Config, w: Worker, act: Act) {
    && w.todo != []
    && match act
       case FetchOk(lists) =>
         w.phase.Fetching? && forall a | a in lists :: a in w.todo && lists[a].follower == a
       case FetchErr => w.phase.Fetching?
       case Requeue(_) => w.phase.Failing?
       case Miss(_) => w.phase.Resolving? && w.todo[0] !in w.phase.lists
       case Begin => w.phase.Resolving? && w.todo[0] in w.phase.lists
       case Recover(list) =>
         && cfg.mode.Daemon? && cfg.fallback
         && w.phase.Resolving? && w.todo[0] !in w.phase.lists && list.follower == w.todo[0]
       case UpsertNext => w.phase.Upserting? && w.phase.left != []
       case ReadEvent => w.phase.Upserting? && w.phase.left == []
       case Confirm(_) => w.phase.Confirming?
       case ReadEdges => w.phase.Diffing?
       case Commit(_) => w.phase.Writing?
       case Break => !w.phase.Broken?
  }

  function ActDb(cfg: Config, db: Db, w: Worker, act: Act): Db
    requires ActEnabled(cfg, w, act)
  {
    match act
    case Requeue(stamp) => RequeueOrFail(db, w.todo[0], cfg.maxAttempts, stamp)
    case Miss(stamp) => SetFetchStatus(db, w.todo[0], NotFound, stamp)
    case UpsertNext => Upsert(db, w.phase.left[0])
    case Confirm(now) => Reconfirm(db, w.todo[0], now)
    case Commit(now) => WriteDiff(db, w.todo[0], w.phase.list, w.phase.current, now)
    case _ => db
  }

  predicate AlreadyApplied(db: Db, f: PubKey, event: EventId) {
    f in db.pubkeys && db.pubkeys[f].applied.Some? && db.pubkeys[f].applied.value.eventId == event
  }

  function ActWorker(cfg: Config, db: Db, w: Worker, act: Act): Worker
    requires ActEnabled(cfg, w, act)
  {
    match act
    case FetchOk(lists) => w.(phase := Resolving(lists))
    case FetchErr => w.(phase := Failing)
    case Requeue(_) => w.(todo := w.todo[1..])
    case Miss(_) => w.(todo := w.todo[1..])
    case Begin =>
      var list := w.phase.lists[w.todo[0]];
      w.(phase := Upserting(w.phase.lists, list, [list.follower] + list.followees))
    case Recover(list) =>
      w.(phase := Upserting(w.phase.lists, list, [list.follower] + list.followees))
    case UpsertNext => w.(phase := w.phase.(left := w.phase.left[1..]))
    case ReadEvent =>
      if AlreadyApplied(db, w.todo[0], w.phase.list.eventId)
      then w.(phase := Confirming(w.phase.lists, w.phase.list))
      else w.(phase := Diffing(w.phase.lists, w.phase.list))
    case Confirm(_) => Worker(w.todo[1..], Resolving(w.phase.lists))
    case ReadEdges => w.(phase := Writing(w.phase.lists, w.phase.list, Out(db, w.todo[0])))
    case Commit(_) => Worker(w.todo[1..], Resolving(w.phase.lists))
    case Break => w.(phase := Broken)
  }

  /** No failure, and no list handed over. */
  predicate Harmless(act: Act) {
    !act.Break? && !act.FetchErr? && (act.FetchOk? ==> act.lists == map[])
  }

  /** A live worker with an author left can act. */
  lemma NextAct(cfg: Config, w: Worker) returns (act: Act)
    requires w.Live() && w.todo != []
    ensures ActEnabled(cfg, w, act) && Harmless(act)
  {
    match w.phase
    case Fetching => act := FetchOk(map[]);
    case Failing => act := Requeue(0);
    case Resolving(lists) => act := if w.todo[0] in lists then Begin else Miss(0);
    case Upserting(_, _, left) => act := if left == [] then ReadEvent else UpsertNext;
    case Confirming(_, _) => act := Confirm(0);
    case Diffing(_, _) => act := ReadEdges;
    case Writing(_, _, _) => act := Commit(0);
  }

  // ----------------------------------------------------------- whole system

  function LiveWorkers(s: State): set<nat> {
    set w | w in s.workers && s.workers[w].Live()
  }

  ghost predicate NoneBroken(s: State) {
    forall w | w in s.workers :: !s.workers[w].phase.Broken?
  }

  /** Rows some unfinished worker may be writing, hence may hold locked. */
  ghost predicate MayBeLocked(s: State, k: PubKey) {
    exists w :: w in s.workers && Touches(s.workers[w], k)
  }

  /** Its own author, the row it upserts, and the key-share locks of the edges it inserts. */
  predicate Touches(w: Worker, k: PubKey) {
    && w.todo != []
    && (|| k == w.todo[0]
        || (w.phase.Upserting? && w.phase.left != [] && k == w.phase.left[0])
        || (w.phase.Writing? && k in w.phase.list.followees))
  }

  ghost predicate Enabled(cfg: Config, s: State, l: Label) {
    match l
    case Seed => s.driver.Seeding?
    case Startup => s.driver.Starting?
    case Claim(batch, locked, _) =>
      && s.driver.AtClaim?
      && IsClaim(s.db, locked, cfg.batchSize, batch)
      && forall k | k in locked :: MayBeLocked(s, k)
    case Spawn(w) => s.driver.Holding? && |LiveWorkers(s)| < cfg.concurrency && w !in s.workers
    case Join(w) =>
      && (s.driver.Reaping? || s.driver.Draining? || s.driver.FinalDrain?)
      && w in s.workers && !s.workers[w].Live()
    case EndReap => s.driver.Reaping?
    case Cancel => cfg.mode.Daemon? && (s.driver.AtClaim? || s.driver.Idle?)
    case Wake => s.driver.Idle?
    case Abort => s.driver.Seeding? || s.driver.Starting? || s.driver.AtClaim?
    case Work(w, act) => w in s.workers && ActEnabled(cfg, s.workers[w], act)
    case SweepTtl(_) => cfg.mode.Daemon?
    case SweepAge(_) => cfg.mode.Daemon?
    case Crash => true
  }

  /** What an empty claim leads to. */
  function AfterEmptyClaim(cfg: Config, s: State): Driver {
    if s.workers != map[] then Draining
    else if cfg.mode.Crawl? then Finished
    else Idle
  }

  /** Where the driver goes on once it has joined a worker and `workers` remain. */
  function AfterJoin(cfg: Config, driver: Driver, workers: map<nat, Worker>): Driver {
    if workers != map[] || driver.Reaping? then driver
    else if driver.FinalDrain? then Finished
    else if cfg.mode.Crawl? then AtClaim
    else Idle
  }

  function CountClaims(claims: map<PubKey, nat>, batch: seq<PubKey>): map<PubKey, nat> {
    map k | k in claims.Keys + ToSet(batch) ::
      (if k in claims then claims[k] else 0) + if k in batch then 1 else 0
  }

  function Step(cfg: Config, s: State, l: Label): State
    requires Enabled(cfg, s, l)
  {
    match l
    case Seed => s.(db := Upsert(s.db, cfg.anchor), driver := Starting)
    case Startup => s.(db := ReclaimOnStartup(s.db), driver := AtClaim, claims := map[])
    case Claim(batch, _, now) =>
      if batch == []
      then s.(driver := AfterEmptyClaim(cfg, s))
      else s.(db := Lease(s.db, batch, now), driver := Holding(batch), claims := CountClaims(s.claims, batch))
    case Spawn(w) =>
      s.(driver := Reaping, workers := s.workers[w := Worker(s.driver.batch, Fetching)])
    case Join(w) =>
      if s.workers[w].phase.Broken? then s.(driver := Errored)
      else
        var rest := s.workers - {w};
        s.(workers := rest, driver := AfterJoin(cfg, s.driver, rest))
    case EndReap => s.(driver := AtClaim)
    case Cancel => s.(driver := if s.workers == map[] then Finished else FinalDrain)
    case Wake => s.(driver := AtClaim)
    case Abort => s.(driver := Errored)
    case Work(w, act) =>
      s.(db := ActDb(cfg, s.db, s.workers[w], act),
         workers := s.workers[w := ActWorker(cfg, s.db, s.workers[w], act)])
    case SweepTtl(now) => s.(db := ReclaimByTtl(s.db, now, cfg.ttl))
    case SweepAge(now) => s.(db := ReclaimByAge(s.db, now, cfg.age))
    case Crash => State(s.db, Seeding, map[], map[])
  }

  /** A handle no worker has. */
  lemma FreshHandle(workers: map<nat, Worker>) returns (w: nat)
    ensures w !in workers
  {
    w := FreshNat(workers.Keys);
  }

  lemma {:induction false} FreshNat(s: set<nat>) returns (n: nat)
    ensures forall x | x in s :: x < n
    decreases s
  {
    n := 0;
    if s != {} {
      var x :| x in s;
      var m := FreshNat(s - {x});
      n := Max(m, x + 1);
      assert forall y | y in s :: y == x || y in s - {x};
    }
  }

  /** Admits every step. */
  predicate Anything(s: State, l: Label) {
    true
  }

  /** `t` is reached from `s` by the steps `run`, each of which `ok` admits. */
  ghost predicate Reaches(cfg: Config, ok: (State, Label) -> bool, s: State, run: seq<Label>, t: State)
    decreases |run|
  {
    if run == [] then s == t
    else Enabled(cfg, s, run[0]) && ok(s, run[0]) && Reaches(cfg, ok, Step(cfg, s, run[0]), run[1..], t)
  }

  /** The one induction over runs: what every admitted step keeps holds at the end. */
  lemma {:induction false} Induct(cfg: Config, ok: (State, Label) -> bool, inv: State -> bool,
                                  s: State, run: seq<Label>, t: State)
    requires Reaches(cfg, ok, s, run, t) && inv(s)
    requires forall u, l :: inv(u) && Enabled(cfg, u, l) && ok(u, l) ==> inv(Step(cfg, u, l))
    ensures inv(t)
    decreases |run|
  {
    if run != [] {
      Induct(cfg, ok, inv, Step(cfg, s, run[0]), run[1..], t);
    }
  }

  lemma {:induction false} Weaken(cfg: Config, ok: (State, Label) -> bool, ok': (State, Label) -> bool,
                                  s: State, run: seq<Label>, t: State)
    requires Reaches(cfg, ok, s, run, t) && forall u, l :: ok(u, l) ==> ok'(u, l)
    ensures Reaches(cfg, ok', s, run, t)
    decreases |run|
  {
    if run != [] {
      Weaken(cfg, ok, ok', Step(cfg, s, run[0]), run[1..], t);
    }
  }

  /** What an invariant of the run implies may be added to what admits its steps. */
  lemma {:induction false} Strengthen(cfg: Config, ok: (State, Label) -> bool, ok': (State, Label) -> bool,
                                      inv: State -> bool, s: State, run: seq<Label>, t: State)
    requires Reaches(cfg, ok, s, run, t) && inv(s)
    requires forall u, l :: inv(u) && Enabled(cfg, u, l) && ok(u, l) ==> inv(Step(cfg, u, l)) && ok'(u, l)
    ensures Reaches(cfg, ok', s, run, t)
    decreases |run|
  {
    if run != [] {
      Strengthen(cfg, ok, ok', inv, Step(cfg, s, run[0]), run[1..], t);
    }
  }

  lemma {:induction false} Extend(cfg: Config, ok: (State, Label) -> bool, s: State, run: seq<Label>,
                                  t: State, l: Label)
    requires Reaches(cfg, ok, s, run, t) && Enabled(cfg, t, l) && ok(t, l)
    ensures Reaches(cfg, ok, s, run + [l], Step(cfg, t, l))
    decreases |run|
  {
    if run == [] {
      assert Reaches(cfg, ok, Step(cfg, t, l), [], Step(cfg, t, l));
      assert (run + [l])[1..] == [];
    } else {
      Extend(cfg, ok, Step(cfg, s, run[0]), run[1..], t, l);
      assert (run + [l])[1..] == run[1..] + [l];
    }
  }

  /** A process that has just started on the tables `db`. */
  function Boot(db: Db): State {
    State(db, Seeding, map[], map[])
  }

  /** Some admitted run from a start on `db` leads to `t`. */
  ghost predicate Reachable(cfg: Config, ok: (State, Label) -> bool, db: Db, t: State) {
    exists run :: Reaches(cfg, ok, Boot(db), run, t)
  }

  /** One more step of a run under construction. */
  lemma Go(cfg: Config, ok: (State, Label) -> bool, db: Db, s: State, l: Label) returns (t: State)
    requires Reachable(cfg, ok, db, s) && Enabled(cfg, s, l) && ok(s, l)
    ensures t == Step(cfg, s, l) && Reachable(cfg, ok, db, t)
  {
    var run :| Reaches(cfg, ok, Boot(db), run, s);
    Extend(cfg, ok, Boot(db), run, s, l);
    t := Step(cfg, s, l);
  }

  lemma GoBoot(cfg: Config, ok: (State, Label) -> bool, db: Db)
    ensures Reachable(cfg, ok, db, Boot(db))
  {
    assert Reaches(cfg, ok, Boot(db), [], Boot(db));
  }
}
