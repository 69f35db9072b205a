/** The driver run to completion under an arbitrary scheduler. */
module CrawlDriver {
  import opened Wrappers
  import opened Nostr
  import opened Paths
  import opened Tables
  import opened Protocol
  import opened Lifecycle
  import opened Leases
  import opened Sums
  import opened Reachability
  import opened Termination

  ghost predicate DriverInv(universe: set<PubKey>, cfg: Config, s: State) {
    Sound(universe, cfg, s) && Accounted(cfg, s.claims, s.db)
  }

  lemma StepKeepsDriverInv(universe: set<PubKey>, cfg: Config, s: State, l: Label)
    requires DriverInv(universe, cfg, s) && Enabled(cfg, s, l) && cfg.mode.Crawl? && FiniteWorld(universe)(s, l)
    ensures DriverInv(universe, cfg, Step(cfg, s, l))
  {
    StepKeepsSound(universe, cfg, s, l);
    StepKeepsAccounted(cfg, s, l);
  }

  /** Only a store error breaks a worker or fails the driver. */
  lemma NothingBreaksUnasked(cfg: Config, s: State, l: Label)
    requires Enabled(cfg, s, l) && !Fails(l) && NoneBroken(s) && !s.driver.Errored?
    ensures NoneBroken(Step(cfg, s, l)) && !Step(cfg, s, l).driver.Errored?
  {
    var t := Step(cfg, s, l);
    forall w | w in t.workers ensures !t.workers[w].phase.Broken? {
      assert w in s.workers ==> !s.workers[w].phase.Broken?;
    }
  }

  /** A store error in the driver or in a worker. */
  predicate Fails(l: Label) {
    l.Abort? || (l.Work? && l.act.Break?)
  }

  ghost predicate NeverFails(schedule: State -> Label) {
    forall u :: !Fails(schedule(u))
  }

  /** The scheduler always picks a step that is possible, within a finite universe. */
  ghost predicate Schedules(universe: set<PubKey>, cfg: Config, schedule: State -> Label) {
    forall u | DriverInv(universe, cfg, u) && !Final(u) ::
      Enabled(cfg, u, schedule(u)) && FiniteWorld(universe)(u, schedule(u))
  }

  ghost predicate GoodChoice(universe: set<PubKey>, cfg: Config, u: State, l: Label) {
    Enabled(cfg, u, l) && FiniteWorld(universe)(u, l) && !Fails(l)
  }

  /** Such schedulers exist, also ones under which nothing fails. */
  lemma ScheduleExists(universe: set<PubKey>, cfg: Config) returns (schedule: State -> Label)
    requires cfg.mode.Crawl? && cfg.batchSize >= 1 && cfg.concurrency >= 1
    ensures Schedules(universe, cfg, schedule) && NeverFails(schedule)
  {
    schedule := (u: State) => if l :| GoodChoice(universe, cfg, u, l) then l else Seed;
    forall u | DriverInv(universe, cfg, u) && !Final(u)
      ensures Enabled(cfg, u, schedule(u)) && FiniteWorld(universe)(u, schedule(u))
    {
      var l := CanGoOn(universe, cfg, u);
      assert GoodChoice(universe, cfg, u, l);
    }
  }

  /** What holds after the steps `run` of a schedule. */
  ghost predicate Underway(universe: set<PubKey>, cfg: Config, db: Db, schedule: State -> Label,
                           run: seq<Label>, s: State)
  {
    && DriverInv(universe, cfg, s)
    && Reaches(cfg, NoCrash, Boot(db), run, s)
    && (NeverFails(schedule) ==> NoneBroken(s) && !s.driver.Errored?)
  }

  lemma OneStep(universe: set<PubKey>, cfg: Config, db: Db, schedule: State -> Label, run: seq<Label>, s: State)
    requires cfg.mode.Crawl? && Schedules(universe, cfg, schedule)
    requires Underway(universe, cfg, db, schedule, run, s) && !Final(s)
    ensures Enabled(cfg, s, schedule(s))
    ensures Underway(universe, cfg, db, schedule, run + [schedule(s)], Step(cfg, s, schedule(s)))
    ensures MeasureOf(cfg, universe, Step(cfg, s, schedule(s))).Less(MeasureOf(cfg, universe, s))
  {
    var l := schedule(s);
    StepDecreases(universe, cfg, s, l);
    StepKeepsDriverInv(universe, cfg, s, l);
    if NeverFails(schedule) { NothingBreaksUnasked(cfg, s, l); }
    Extend(cfg, NoCrash, Boot(db), run, s, l);
  }

  /** What a run that has come to its end leaves. */
  lemma AtTheEnd(universe: set<PubKey>, cfg: Config, db: Db, schedule: State -> Label, run: seq<Label>, s: State)
    requires cfg.mode.Crawl? && cfg.batchSize >= 1
    requires Underway(universe, cfg, db, schedule, run, s) && Final(s)
    ensures NeverFails(schedule) ==> s.driver.Finished?
    ensures s.driver.Finished? ==> forall k | k in s.db.pubkeys :: s.db.pubkeys[k].status.Terminal()
    ensures s.driver.Finished? && db == EMPTY_DB ==>
              forall k :: k in s.db.pubkeys <==> Reach(Stored(s.db), cfg.anchor, k)
    ensures forall k | k in s.claims :: s.claims[k] <= Cap(cfg)
  {
    ClaimsWithinCap(cfg, s);
    if s.driver.Finished? {
      Weaken(cfg, NoCrash, Anything, Boot(db), run, s);
      CrawlSettles(cfg, db, run, s);
      if db == EMPTY_DB { ExactReachability(cfg, run, s); }
    }
  }

  /** `run_crawl` on the tables `db`. `schedule` decides everything the environment decides;
      no state ever recurs, so deciding by the state loses no behaviour. */
  method RunCrawl(cfg: Config, db: Db, schedule: State -> Label, ghost universe: set<PubKey>)
    returns (s: State)
    requires cfg.mode.Crawl? && cfg.batchSize >= 1 && Schedules(universe, cfg, schedule)
    ensures Final(s)
    ensures NeverFails(schedule) ==> s.driver.Finished?
    ensures s.driver.Finished? ==> forall k | k in s.db.pubkeys :: s.db.pubkeys[k].status.Terminal()
    ensures s.driver.Finished? && db == EMPTY_DB ==>
              forall k :: k in s.db.pubkeys <==> Reach(Stored(s.db), cfg.anchor, k)
    ensures forall k | k in s.claims :: s.claims[k] <= Cap(cfg)
  {
    s := Boot(db);
    ghost var run, m := [], MeasureOf(cfg, universe, s);
    while !Final(s)
      invariant Underway(universe, cfg, db, schedule, run, s) && m == MeasureOf(cfg, universe, s)
      decreases m.m0, m.m1, m.m2, m.m3, m.m4
    {
      OneStep(universe, cfg, db, schedule, run, s);
      run := run + [schedule(s)];
      s := Step(cfg, s, schedule(s));
      m := MeasureOf(cfg, universe, s);
    }
    AtTheEnd(universe, cfg, db, schedule, run, s);
  }
}
