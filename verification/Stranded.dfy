/** Why exact reachability is claimed for runs without a crash only: a process that dies between
    an upsert and its transaction leaves a row behind, and when the restarted one gets no list any
    more, nothing stored ever leads to it. */
module Stranded {
  import opened Wrappers
  import opened Nostr
  import opened Paths
  import opened Tables
  import opened Protocol
  import opened Leases
  import opened Reachability
  import opened Sums
  import opened Termination
  import opened CrawlDriver
  import opened Overlap

  ghost predicate Reached(cfg: Config, t: State) {
    Reachable(cfg, Anything, EMPTY_DB, t)
  }

  // -------------------------------------------------- relays that fell silent

  ghost predicate AllSilent(s: State) {
    forall w | w in s.workers :: s.workers[w].phase.Fetching? || s.workers[w].phase == Resolving(map[])
  }

  /** All fetches so far have returned nothing. */
  ghost predicate Quiet(cfg: Config, s: State) {
    Sound({}, cfg, s) && NoneBroken(s) && !s.driver.Errored? && AllSilent(s)
  }

  lemma QuietAct(cfg: Config, w: Worker, act: Act)
    requires ActEnabled(cfg, w, act) && Harmless(act) && cfg.mode.Crawl?
    requires w.phase.Fetching? || w.phase == Resolving(map[])
    ensures act == FetchOk(map[]) || act.Miss?
  {
  }

  lemma ActKeepsSilent(cfg: Config, s: State, w: nat, act: Act)
    requires AllSilent(s) && Enabled(cfg, s, Work(w, act)) && (act == FetchOk(map[]) || act.Miss?)
    ensures Step(cfg, s, Work(w, act)).db.follows == s.db.follows && AllSilent(Step(cfg, s, Work(w, act)))
  {
    assert ActWorker(cfg, s.db, s.workers[w], act).phase == Resolving(map[]);
  }

  lemma DriverKeepsSilent(cfg: Config, s: State, l: Label)
    requires AllSilent(s) && Enabled(cfg, s, l) && !l.Work?
    ensures Step(cfg, s, l).db.follows == s.db.follows && AllSilent(Step(cfg, s, l))
  {
    forall w | w in Step(cfg, s, l).workers
      ensures Step(cfg, s, l).workers[w].phase.Fetching? || Step(cfg, s, l).workers[w].phase == Resolving(map[])
    {
      assert w in s.workers ==> s.workers[w].phase.Fetching? || s.workers[w].phase == Resolving(map[]);
    }
  }

  lemma StepKeepsSilent(cfg: Config, s: State, l: Label)
    requires AllSilent(s) && Enabled(cfg, s, l) && cfg.mode.Crawl? && (l.Work? ==> Harmless(l.act))
    ensures Step(cfg, s, l).db.follows == s.db.follows && AllSilent(Step(cfg, s, l))
  {
    if l.Work? {
      QuietAct(cfg, s.workers[l.w], l.act);
      ActKeepsSilent(cfg, s, l.w, l.act);
    } else {
      DriverKeepsSilent(cfg, s, l);
    }
  }

  /** There is a next step, and it brings no list and no failure. */
  lemma QuietStep(cfg: Config, s: State) returns (l: Label)
    requires cfg.mode.Crawl? && cfg.batchSize >= 1 && cfg.concurrency >= 1
    requires Quiet(cfg, s) && !Final(s)
    ensures Enabled(cfg, s, l) && Quiet(cfg, Step(cfg, s, l)) && Step(cfg, s, l).db.follows == s.db.follows
    ensures MeasureOf(cfg, {}, Step(cfg, s, l)).Less(MeasureOf(cfg, {}, s))
  {
    l := CanGoOn({}, cfg, s);
    StepDecreases({}, cfg, s, l);
    StepKeepsSound({}, cfg, s, l);
    NothingBreaksUnasked(cfg, s, l);
    StepKeepsSilent(cfg, s, l);
  }

  /** Without another list the crawl finishes, keeps its rows and adds no edge. */
  lemma {:induction false} QuietCompletes(cfg: Config, s: State) returns (t: State)
    requires cfg.mode.Crawl? && cfg.batchSize >= 1 && cfg.concurrency >= 1
    requires Reached(cfg, s) && Quiet(cfg, s)
    ensures Reached(cfg, t) && t.driver.Finished?
    ensures t.db.follows == s.db.follows && forall k | k in s.db.pubkeys :: k in t.db.pubkeys
    decreases MeasureOf(cfg, {}, s).m0, MeasureOf(cfg, {}, s).m1, MeasureOf(cfg, {}, s).m2,
              MeasureOf(cfg, {}, s).m3, MeasureOf(cfg, {}, s).m4
  {
    t := s;
    if !Final(s) {
      var l := QuietStep(cfg, s);
      var u := Go(cfg, Anything, EMPTY_DB, s, l);
      forall k | k in s.db.pubkeys ensures k in u.db.pubkeys {
        RowsPersist(cfg, s, l, k);
      }
      t := QuietCompletes(cfg, u);
    }
  }

  // ---------------------------------------------------------------- the crash

  /** The anchor's worker upserts a followee. */
  lemma UpsertsFollowee(cfg: Config) returns (s: State)
    requires cfg.batchSize >= 1 && cfg.concurrency >= 1
    ensures Overlap.Reached(cfg, s) && s.db.follows == map[] && cfg.anchor + 1 in s.db.pubkeys
  {
    var a := cfg.anchor;
    s := FirstClaim(cfg);
    assert LiveWorkers(s) == {};
    s := ToUpserting(cfg, s, 1, [a], Old(a), a + 1);
    s := ToUpserted(cfg, s, 1, [a], Old(a), a + 1);
  }

  /** And then dies. */
  lemma DiesAfterUpsert(cfg: Config) returns (s: State)
    requires cfg.batchSize >= 1 && cfg.concurrency >= 1
    ensures Reached(cfg, s) && s == Boot(s.db) && s.db.follows == map[] && cfg.anchor + 1 in s.db.pubkeys
  {
    var u := UpsertsFollowee(cfg);
    var ok := Genuinely(Body(cfg.anchor));
    var run :| Reaches(cfg, ok, Boot(EMPTY_DB), run, u);
    Weaken(cfg, ok, Anything, Boot(EMPTY_DB), run, u);
    s := Go(cfg, Anything, EMPTY_DB, u, Crash);
  }

  lemma RestartIsQuiet(cfg: Config, db: Db)
    ensures Quiet(cfg, Boot(db))
  {
    assert LiveWorkers(Boot(db)) == {};
  }

  /** A finished crawl with a row to which no stored edge leads. */
  lemma StrandsRow(cfg: Config) returns (t: State)
    requires cfg.mode.Crawl? && cfg.batchSize >= 1 && cfg.concurrency >= 1
    ensures Reached(cfg, t) && t.driver.Finished?
    ensures cfg.anchor + 1 in t.db.pubkeys && t.db.follows == map[]
  {
    var s := DiesAfterUpsert(cfg);
    RestartIsQuiet(cfg, s.db);
    t := QuietCompletes(cfg, s);
  }

  // --------------------------------------------------------- exactly when

  /** The rows are exactly the keys reachable from the anchor along the stored edges. */
  ghost predicate RowsExact(cfg: Config, db: Db) {
    forall k :: k in db.pubkeys <==> Reach(Stored(db), cfg.anchor, k)
  }

  lemma OnlyAnchorReached(cfg: Config, db: Db, k: PubKey)
    requires db.follows == map[]
    ensures Reach(Stored(db), cfg.anchor, k) <==> k == cfg.anchor
  {
    ReachSelf(Stored(db), cfg.anchor);
    if Reach(Stored(db), cfg.anchor, k) { ReachStaysIn(Stored(db), {cfg.anchor}, cfg.anchor, k); }
  }

  /** A crawl that can start no batch sees nothing but its anchor. */
  ghost predicate Barren(cfg: Config, s: State) {
    && s.workers == map[] && s.db.follows == map[] && s.db.pubkeys.Keys <= {cfg.anchor}
    && (cfg.batchSize == 0 ==> !s.driver.Holding?)
    && (!s.driver.Seeding? && !s.driver.Errored? ==> cfg.anchor in s.db.pubkeys)
  }

  lemma StepKeepsBarren(cfg: Config, s: State, l: Label)
    requires Barren(cfg, s) && Enabled(cfg, s, l) && (cfg.concurrency == 0 || cfg.batchSize == 0)
    ensures Barren(cfg, Step(cfg, s, l))
  {
  }

  lemma BarrenIsExact(cfg: Config, run: seq<Label>, t: State)
    requires (cfg.concurrency == 0 || cfg.batchSize == 0) && t.driver.Finished?
    requires Reaches(cfg, Anything, Boot(EMPTY_DB), run, t)
    ensures RowsExact(cfg, t.db)
  {
    forall u: State, l | Barren(cfg, u) && Enabled(cfg, u, l) ensures Barren(cfg, Step(cfg, u, l)) {
      StepKeepsBarren(cfg, u, l);
    }
    Induct(cfg, Anything, u => Barren(cfg, u), Boot(EMPTY_DB), run, t);
    forall k ensures k in t.db.pubkeys <==> Reach(Stored(t.db), cfg.anchor, k) {
      OnlyAnchorReached(cfg, t.db, k);
      assert k in t.db.pubkeys ==> k in t.db.pubkeys.Keys;
    }
  }

  /** With crashes and changing answers, every finished crawl of empty tables has exactly the
      reachable rows if and only if the configuration can start no batch at all. */
  lemma ExactDespiteCrashesIff(cfg: Config)
    requires cfg.mode.Crawl?
    ensures (forall t | Reached(cfg, t) && t.driver.Finished? :: RowsExact(cfg, t.db))
            <==> cfg.concurrency == 0 || cfg.batchSize == 0
  {
    if cfg.concurrency == 0 || cfg.batchSize == 0 {
      forall t | Reached(cfg, t) && t.driver.Finished? ensures RowsExact(cfg, t.db) {
        var run :| Reaches(cfg, Anything, Boot(EMPTY_DB), run, t);
        BarrenIsExact(cfg, run, t);
      }
    } else {
      var t := StrandsRow(cfg);
      OnlyAnchorReached(cfg, t.db, cfg.anchor + 1);
      assert !RowsExact(cfg, t.db);
    }
  }
}
