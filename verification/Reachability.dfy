/** What `run_crawl` leaves behind when it starts on empty tables and returns `Ok`. */
module Reachability {
  import opened Wrappers
  import opened Nostr
  import opened Paths
  import opened Tables
  import opened Protocol
  import opened Leases

  // ------------------------------------- rows and edges of an unreclaimed crawl

  /** Only a fetched row has an applied event or edges, and its edges end in rows. */
  ghost predicate RowClean(db: Db, f: PubKey) {
    && Out(db, f) <= db.pubkeys.Keys
    && (!HasStatus(db, f, Fetched) ==> Out(db, f) == {} && (f in db.pubkeys ==> db.pubkeys[f].applied.None?))
  }

  ghost predicate RowsClean(db: Db) {
    forall f :: RowClean(db, f)
  }

  /** A follow list's targets are rows before the worker reaches its transaction. */
  ghost predicate WorkerClean(db: Db, w: Worker) {
    match w.phase
    case Resolving(lists) => OwnLists(lists)
    case Upserting(lists, list, left) =>
      && OwnLists(lists) && w.todo != [] && list.follower == w.todo[0]
      && (forall x | x in left :: x == w.todo[0] || x in list.followees)
      && (forall x | x in list.followees :: x in left || x in db.pubkeys)
    case Confirming(_, _) => false
    case Diffing(lists, list) =>
      && OwnLists(lists) && w.todo != [] && list.follower == w.todo[0]
      && (forall x | x in list.followees :: x in db.pubkeys)
    case Writing(lists, list, current) =>
      && OwnLists(lists) && w.todo != [] && list.follower == w.todo[0] && current == {}
      && (forall x | x in list.followees :: x in db.pubkeys)
    case _ => true
  }

  ghost predicate Clean(s: State) {
    && RowsClean(s.db)
    && (forall w | w in s.workers :: WorkerClean(s.db, s.workers[w]))
  }

  lemma ActKeepsClean(cfg: Config, db: Db, w: Worker, act: Act)
    requires ActEnabled(cfg, w, act) && RowsClean(db) && WorkerClean(db, w) && OwnBatch(db, w.todo)
    ensures RowsClean(ActDb(cfg, db, w, act))
    ensures WorkerClean(ActDb(cfg, db, w, act), ActWorker(cfg, db, w, act))
    ensures forall v | WorkerClean(db, v) :: WorkerClean(ActDb(cfg, db, w, act), v)
  {
    assert w.todo[0] in w.todo && HasStatus(db, w.todo[0], InProgress);
    var db' := ActDb(cfg, db, w, act);
    assert forall k | k in db.pubkeys :: k in db'.pubkeys;
    assert RowClean(db, w.todo[0]);
    forall f ensures RowClean(db', f) {
      assert RowClean(db, f);
    }
    if act.UpsertNext? {
      forall x | x in w.phase.left ensures x == w.phase.left[0] || x in w.phase.left[1..] {}
    }
  }

  ghost predicate CrawlInv(cfg: Config, s: State) {
    LeaseInv(cfg, s) && Clean(s)
  }

  /** The driver and a crash neither fetch a row nor touch an edge. */
  lemma DriverKeepsClean(cfg: Config, s: State, l: Label)
    requires Clean(s) && Enabled(cfg, s, l) && cfg.mode.Crawl? && !l.Work?
    ensures Clean(Step(cfg, s, l))
  {
    var t := Step(cfg, s, l);
    assert t.db.follows == s.db.follows;
    assert forall k | k in s.db.pubkeys :: k in t.db.pubkeys;
    if l.Claim? {
      forall k | k in l.batch ensures HasStatus(s.db, k, Discovered) {
        assert k in ToSet(l.batch);
      }
    }
    forall f ensures RowClean(t.db, f) {
      assert RowClean(s.db, f);
    }
    forall w | w in t.workers ensures WorkerClean(t.db, t.workers[w]) {
      assert w in s.workers ==> WorkerClean(s.db, s.workers[w]);
    }
  }

  lemma StepKeepsCrawlInv(cfg: Config, s: State, l: Label)
    requires CrawlInv(cfg, s) && Enabled(cfg, s, l) && cfg.mode.Crawl?
    ensures CrawlInv(cfg, Step(cfg, s, l))
  {
    StepKeepsLeaseInv(cfg, s, l);
    if l.Work? {
      ActKeepsClean(cfg, s.db, s.workers[l.w], l.act);
    } else {
      DriverKeepsClean(cfg, s, l);
    }
  }

  // -------------------------------------------------------- exact reachability

  /** The edge a worker is about to write. */
  predicate Proposes(w: Worker, f: PubKey, g: PubKey) {
    w.Applying() && f == w.todo[0] && g != f && g in w.phase.list.followees
  }

  ghost predicate StoredOrProposed(s: State, f: PubKey, g: PubKey) {
    g in Out(s.db, f) || exists w :: w in s.workers && Proposes(s.workers[w], f, g)
  }

  ghost function Growing(s: State): Edges {
    (f: PubKey, g: PubKey) => StoredOrProposed(s, f, g)
  }

  ghost function Stored(db: Db): Edges {
    (f: PubKey, g: PubKey) => g in Out(db, f)
  }

  /** Until a worker fails, every row is reachable along stored and proposed edges. */
  ghost predicate Grown(cfg: Config, s: State) {
    && Settled(s)
    && (s.driver.Seeding? ==> s.db.pubkeys == map[])
    && (!s.driver.Seeding? && !s.driver.Errored? ==> cfg.anchor in s.db.pubkeys)
    && (NoneBroken(s) ==> forall k | k in s.db.pubkeys :: Reach(Growing(s), cfg.anchor, k))
  }

  predicate NoCrash(s: State, l: Label) {
    !l.Crash?
  }

  /** A worker's proposal either stands or has just been committed; stored edges stay. */
  lemma ActKeepsEdge(cfg: Config, db: Db, w: Worker, act: Act, f: PubKey, g: PubKey)
    requires ActEnabled(cfg, w, act) && !act.Break?
    requires RowsClean(db) && WorkerClean(db, w) && OwnBatch(db, w.todo)
    ensures g in Out(db, f) ==> g in Out(ActDb(cfg, db, w, act), f)
    ensures Proposes(w, f, g) ==>
              Proposes(ActWorker(cfg, db, w, act), f, g) || g in Out(ActDb(cfg, db, w, act), f)
  {
    assert w.todo[0] in w.todo && HasStatus(db, w.todo[0], InProgress) && RowClean(db, w.todo[0]);
  }

  /** An edge, stored or proposed, is lost by no step that leaves every worker whole. */
  lemma EdgesPersist(cfg: Config, s: State, l: Label, f: PubKey, g: PubKey)
    requires CrawlInv(cfg, s) && Enabled(cfg, s, l) && cfg.mode.Crawl? && NoCrash(s, l)
    requires NoneBroken(Step(cfg, s, l)) && StoredOrProposed(s, f, g)
    ensures StoredOrProposed(Step(cfg, s, l), f, g)
  {
    if l.Work? {
      ActKeepsEdges(cfg, s, l.w, l.act, f, g);
    } else {
      DriverKeepsEdges(cfg, s, l, f, g);
    }
  }

  lemma ActKeepsEdges(cfg: Config, s: State, w: nat, act: Act, f: PubKey, g: PubKey)
    requires CrawlInv(cfg, s) && Enabled(cfg, s, Work(w, act))
    requires NoneBroken(Step(cfg, s, Work(w, act))) && StoredOrProposed(s, f, g)
    ensures StoredOrProposed(Step(cfg, s, Work(w, act)), f, g)
  {
    var t := Step(cfg, s, Work(w, act));
    assert t.workers[w] == ActWorker(cfg, s.db, s.workers[w], act);
    ActKeepsEdge(cfg, s.db, s.workers[w], act, f, g);
    if g !in Out(s.db, f) && g !in Out(t.db, f) {
      var v :| v in s.workers && Proposes(s.workers[v], f, g);
      assert v in t.workers && Proposes(t.workers[v], f, g);
    }
  }

  lemma DriverKeepsEdges(cfg: Config, s: State, l: Label, f: PubKey, g: PubKey)
    requires Enabled(cfg, s, l) && !l.Work? && !l.Crash? && StoredOrProposed(s, f, g)
    ensures StoredOrProposed(Step(cfg, s, l), f, g)
  {
    var t := Step(cfg, s, l);
    assert t.db.follows == s.db.follows;
    if g !in Out(s.db, f) {
      var v :| v in s.workers && Proposes(s.workers[v], f, g);
      assert v in t.workers && Proposes(t.workers[v], f, g);
    }
  }

  /** The row an upsert inserts is followed by the row being applied. */
  lemma NewRowIsProposed(cfg: Config, s: State, l: Label, k: PubKey)
    requires CrawlInv(cfg, s) && Enabled(cfg, s, l) && !l.Seed?
    requires k !in s.db.pubkeys && k in Step(cfg, s, l).db.pubkeys
    ensures l.Work? && s.workers[l.w].todo != []
    ensures s.workers[l.w].todo[0] in s.db.pubkeys
    ensures StoredOrProposed(s, s.workers[l.w].todo[0], k)
  {
    assert l.Work? && l.act.UpsertNext?;
    var w := s.workers[l.w];
    assert w.todo[0] in w.todo && HasStatus(s.db, w.todo[0], InProgress);
    assert w.phase.left[0] in w.phase.left;
    assert Proposes(w, w.todo[0], k);
  }

  lemma WholeBefore(cfg: Config, s: State, l: Label)
    requires Enabled(cfg, s, l) && NoCrash(s, l) && NoneBroken(Step(cfg, s, l))
    ensures NoneBroken(s)
  {
    forall w | w in s.workers ensures !s.workers[w].phase.Broken? {
      assert w in Step(cfg, s, l).workers || l == Join(w);
    }
  }

  lemma StepKeepsRowsReachable(cfg: Config, s: State, l: Label)
    requires CrawlInv(cfg, s) && Grown(cfg, s) && Enabled(cfg, s, l)
    requires cfg.mode.Crawl? && NoCrash(s, l) && NoneBroken(Step(cfg, s, l))
    ensures forall k | k in Step(cfg, s, l).db.pubkeys :: Reach(Growing(Step(cfg, s, l)), cfg.anchor, k)
  {
    var t := Step(cfg, s, l);
    WholeBefore(cfg, s, l);
    forall f, g | Growing(s)(f, g) ensures Growing(t)(f, g) {
      EdgesPersist(cfg, s, l, f, g);
    }
    forall k | k in t.db.pubkeys ensures Reach(Growing(t), cfg.anchor, k) {
      if k in s.db.pubkeys {
        ReachMono(Growing(s), Growing(t), cfg.anchor, k);
      } else if l.Seed? {
        ReachSelf(Growing(t), cfg.anchor);
      } else {
        NewRowIsProposed(cfg, s, l, k);
        ReachStep(Growing(s), cfg.anchor, s.workers[l.w].todo[0], k);
        ReachMono(Growing(s), Growing(t), cfg.anchor, k);
      }
    }
  }

  lemma StepKeepsGrown(cfg: Config, s: State, l: Label)
    requires CrawlInv(cfg, s) && Grown(cfg, s) && Enabled(cfg, s, l)
    requires cfg.mode.Crawl? && cfg.batchSize >= 1 && NoCrash(s, l)
    ensures Grown(cfg, Step(cfg, s, l))
  {
    var t := Step(cfg, s, l);
    if NoneBroken(t) {
      StepKeepsRowsReachable(cfg, s, l);
    }
    StepKeepsSettled(cfg, s, l);
  }

  lemma RunsGrow(cfg: Config, run: seq<Label>, t: State)
    requires cfg.mode.Crawl? && cfg.batchSize >= 1 && Reaches(cfg, NoCrash, Boot(EMPTY_DB), run, t)
    ensures CrawlInv(cfg, t) && Grown(cfg, t)
  {
    var inv := (u: State) => CrawlInv(cfg, u) && Grown(cfg, u);
    forall u: State, l: Label | inv(u) && Enabled(cfg, u, l) && NoCrash(u, l) ensures inv(Step(cfg, u, l)) {
      StepKeepsCrawlInv(cfg, u, l);
      StepKeepsGrown(cfg, u, l);
    }
    Induct(cfg, NoCrash, inv, Boot(EMPTY_DB), run, t);
  }

  ghost predicate EdgesEndInRows(db: Db) {
    forall f :: Out(db, f) <= db.pubkeys.Keys
  }

  /** Where edges end in rows, nothing reachable from a row is missing. */
  lemma ReachableAreRows(db: Db, a: PubKey, k: PubKey)
    requires EdgesEndInRows(db) && a in db.pubkeys && Reach(Stored(db), a, k)
    ensures k in db.pubkeys
  {
    forall f, g | f in db.pubkeys.Keys && Stored(db)(f, g) ensures g in db.pubkeys.Keys {
      assert Out(db, f) <= db.pubkeys.Keys;
    }
    ReachStaysIn(Stored(db), db.pubkeys.Keys, a, k);
  }

  /** Whatever the relays answer and however often they fail: once `run_crawl` returns
      `Ok` on tables that were empty, every row is fetched, not found or failed, and the
      rows are exactly the keys reachable from the anchor along the stored edges. */
  lemma ExactReachability(cfg: Config, run: seq<Label>, t: State)
    requires cfg.mode.Crawl? && cfg.batchSize >= 1
    requires Reaches(cfg, NoCrash, Boot(EMPTY_DB), run, t) && t.driver.Finished?
    ensures forall k | k in t.db.pubkeys :: t.db.pubkeys[k].status.Terminal()
    ensures forall k :: k in t.db.pubkeys <==> Reach(Stored(t.db), cfg.anchor, k)
  {
    RunsGrow(cfg, run, t);
    forall f ensures Out(t.db, f) <= t.db.pubkeys.Keys {
      assert RowClean(t.db, f);
    }
    forall f, g | Growing(t)(f, g) ensures Stored(t.db)(f, g) {}
    forall k ensures k in t.db.pubkeys <==> Reach(Stored(t.db), cfg.anchor, k) {
      if k in t.db.pubkeys { ReachMono(Growing(t), Stored(t.db), cfg.anchor, k); }
      if Reach(Stored(t.db), cfg.anchor, k) { ReachableAreRows(t.db, cfg.anchor, k); }
    }
  }
}
