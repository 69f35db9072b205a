/** The graph under crashes, sweeps and overlapping writers, whatever is answered: it lies
    between what its own edges reach and what the answers of the run reach. */
module Restarts {
  import opened Wrappers
  import opened Nostr
  import opened Paths
  import opened Tables
  import opened Protocol
  import opened Leases
  import opened Reachability
  import opened Agreement

  // ------------------------------------------------- what a run was handed

  ghost predicate Hands(l: Label, f: PubKey, g: PubKey) {
    match l
    case Work(_, FetchOk(lists)) => exists a | a in lists :: lists[a].follower == f && g in lists[a].followees
    case Work(_, Recover(list)) => list.follower == f && g in list.followees
    case _ => false
  }

  /** Some answer in the run said that `f` follows `g`. */
  ghost function HandedOver(run: seq<Label>): Edges {
    (f: PubKey, g: PubKey) => exists i :: 0 <= i < |run| && Hands(run[i], f, g)
  }

  ghost predicate Vouched(prov: Edges, l: Label) {
    forall f, g | Hands(l, f, g) :: prov(f, g)
  }

  lemma VouchedIsSourced(prov: Edges, s: State, l: Label)
    requires Vouched(prov, l)
    ensures SourcedRun(prov)(s, l)
  {
    match l
    case Work(_, FetchOk(lists)) =>
      forall a | a in lists ensures Sourced(prov, lists[a]) {
        forall g | g in lists[a].followees ensures prov(lists[a].follower, g) {
          assert Hands(l, lists[a].follower, g);
        }
      }
    case Work(_, Recover(list)) =>
      forall g | g in list.followees ensures prov(list.follower, g) {
        assert Hands(l, list.follower, g);
      }
    case _ =>
  }

  lemma {:induction false} RunIsSourced(prov: Edges, cfg: Config, s: State, run: seq<Label>, t: State)
    requires Reaches(cfg, Anything, s, run, t) && forall i :: 0 <= i < |run| ==> Vouched(prov, run[i])
    ensures Reaches(cfg, SourcedRun(prov), s, run, t)
    decreases |run|
  {
    if run != [] {
      VouchedIsSourced(prov, s, run[0]);
      RunIsSourced(prov, cfg, Step(cfg, s, run[0]), run[1..], t);
    }
  }

  /** Without the fallback, and in every crawl, only the curated fetches hand anything over. */
  lemma {:induction false} NothingRecovered(cfg: Config, s: State, run: seq<Label>, t: State)
    requires Reaches(cfg, Anything, s, run, t) && !(cfg.mode.Daemon? && cfg.fallback)
    ensures forall i | 0 <= i < |run| :: !(run[i].Work? && run[i].act.Recover?)
    decreases |run|
  {
    if run != [] {
      NothingRecovered(cfg, Step(cfg, s, run[0]), run[1..], t);
      forall i | 0 <= i < |run| ensures !(run[i].Work? && run[i].act.Recover?) {
        assert i > 0 ==> run[i] == run[1..][i - 1];
      }
    }
  }

  // ------------------------------------------------------------- invariant

  /** What a worker is about to follow is a row, or still to be upserted. */
  ghost predicate WorkerLinked(db: Db, w: Worker) {
    w.Applying() ==>
      && (w.phase.Upserting? ==> forall x | x in w.phase.left :: x == w.todo[0] || x in w.phase.list.followees)
      && (forall x | x in w.phase.list.followees ::
            x in db.pubkeys || (w.phase.Upserting? && x in w.phase.left))
  }

  ghost predicate Linked(s: State) {
    && EdgesEndInRows(s.db)
    && (forall w | w in s.workers :: WorkerLinked(s.db, s.workers[w]))
  }

  lemma ActKeepsEdgesEnding(cfg: Config, db: Db, w: Worker, act: Act)
    requires ActEnabled(cfg, w, act) && EdgesEndInRows(db) && WorkerLinked(db, w)
    ensures EdgesEndInRows(ActDb(cfg, db, w, act))
  {
    var db' := ActDb(cfg, db, w, act);
    forall f ensures Out(db', f) <= db'.pubkeys.Keys {
      assert Out(db, f) <= db.pubkeys.Keys;
    }
  }

  lemma ActKeepsWorkerLinked(cfg: Config, db: Db, w: Worker, act: Act)
    requires ActEnabled(cfg, w, act) && WorkerLinked(db, w)
    requires act.Begin? ==> w.phase.lists[w.todo[0]].follower == w.todo[0]
    ensures WorkerLinked(ActDb(cfg, db, w, act), ActWorker(cfg, db, w, act))
  {
    if act.UpsertNext? {
      forall x | x in w.phase.left ensures x == w.phase.left[0] || x in w.phase.left[1..] {}
    }
  }

  lemma StepKeepsLinked(prov: Edges, cfg: Config, s: State, l: Label)
    requires Linked(s) && AllSourced(prov, s) && Enabled(cfg, s, l)
    ensures Linked(Step(cfg, s, l))
  {
    var t := Step(cfg, s, l);
    forall k | k in s.db.pubkeys ensures k in t.db.pubkeys {
      RowsPersist(cfg, s, l, k);
    }
    if l.Work? {
      assert WorkerSourced(prov, s.workers[l.w]);
      ActKeepsEdgesEnding(cfg, s.db, s.workers[l.w], l.act);
      ActKeepsWorkerLinked(cfg, s.db, s.workers[l.w], l.act);
    } else {
      assert t.db.follows == s.db.follows;
      forall f ensures Out(t.db, f) <= t.db.pubkeys.Keys {
        assert Out(s.db, f) <= s.db.pubkeys.Keys;
      }
    }
  }

  /** Every row is reachable along what was handed over. */
  ghost predicate Rooted(prov: Edges, cfg: Config, s: State) {
    && (forall k | k in s.db.pubkeys :: Reach(prov, cfg.anchor, k))
    && (!s.driver.Seeding? && !s.driver.Errored? ==> cfg.anchor in s.db.pubkeys)
  }

  lemma NewRowIsRooted(prov: Edges, cfg: Config, s: State, l: Label, k: PubKey)
    requires Rooted(prov, cfg, s) && Linked(s) && AllSourced(prov, s) && ClaimsAreRows(s) && Enabled(cfg, s, l)
    requires k !in s.db.pubkeys && k in Step(cfg, s, l).db.pubkeys
    ensures Reach(prov, cfg.anchor, k)
  {
    if l.Seed? {
      ReachSelf(prov, cfg.anchor);
    } else {
      assert l.Work? && l.act.UpsertNext?;
      var w := s.workers[l.w];
      assert WorkerSourced(prov, w) && WorkerLinked(s.db, w);
      assert w.todo[0] in w.todo && w.phase.left[0] in w.phase.left;
      ReachStep(prov, cfg.anchor, w.todo[0], k);
    }
  }

  lemma StepKeepsRooted(prov: Edges, cfg: Config, s: State, l: Label)
    requires Rooted(prov, cfg, s) && Linked(s) && AllSourced(prov, s) && ClaimsAreRows(s) && Enabled(cfg, s, l)
    ensures Rooted(prov, cfg, Step(cfg, s, l))
  {
    var t := Step(cfg, s, l);
    forall k | k in t.db.pubkeys ensures Reach(prov, cfg.anchor, k) {
      if k !in s.db.pubkeys { NewRowIsRooted(prov, cfg, s, l, k); }
    }
    if cfg.anchor in s.db.pubkeys { RowsPersist(cfg, s, l, cfg.anchor); }
  }

  ghost predicate Between(prov: Edges, cfg: Config, s: State) {
    Rooted(prov, cfg, s) && Linked(s) && AllSourced(prov, s) && ClaimsAreRows(s)
  }

  lemma StepKeepsBetween(prov: Edges, cfg: Config, s: State, l: Label)
    requires Between(prov, cfg, s) && Enabled(cfg, s, l) && SourcedRun(prov)(s, l)
    ensures Between(prov, cfg, Step(cfg, s, l))
  {
    StepKeepsRooted(prov, cfg, s, l);
    StepKeepsLinked(prov, cfg, s, l);
    StepKeepsSourced(prov, cfg, s, l);
    StepKeepsClaimsAreRows(cfg, s, l);
  }

  lemma RunsStayBetween(prov: Edges, cfg: Config, run: seq<Label>, t: State)
    requires Reaches(cfg, SourcedRun(prov), Boot(EMPTY_DB), run, t)
    ensures Between(prov, cfg, t)
  {
    var ok, inv := SourcedRun(prov), (u: State) => Between(prov, cfg, u);
    forall u: State, l | inv(u) && Enabled(cfg, u, l) && ok(u, l) ensures inv(Step(cfg, u, l)) {
      StepKeepsBetween(prov, cfg, u, l);
    }
    Induct(cfg, ok, inv, Boot(EMPTY_DB), run, t);
  }

  /** Crawl or daemon, from empty tables, with crashes, sweeps and overlapping writers anywhere
      and answers that may change between restarts: at every moment each stored edge was handed
      over by some answer of the run, each row is reachable from the anchor along such edges,
      and everything reachable along stored edges is a row. */
  lemma RowsBetweenStoredAndHanded(cfg: Config, run: seq<Label>, t: State)
    requires Reaches(cfg, Anything, Boot(EMPTY_DB), run, t)
    ensures forall f, g | g in Out(t.db, f) :: f != g && HandedOver(run)(f, g)
    ensures forall k | k in t.db.pubkeys :: Reach(HandedOver(run), cfg.anchor, k)
    ensures !t.driver.Seeding? && !t.driver.Errored? ==> cfg.anchor in t.db.pubkeys
    ensures cfg.anchor in t.db.pubkeys ==> forall k | Reach(Stored(t.db), cfg.anchor, k) :: k in t.db.pubkeys
  {
    var prov := HandedOver(run);
    RunIsSourced(prov, cfg, Boot(EMPTY_DB), run, t);
    RunsStayBetween(prov, cfg, run, t);
    forall f, g | g in Out(t.db, f) ensures f != g && prov(f, g) {
      assert f in t.db.follows;
    }
    forall k | cfg.anchor in t.db.pubkeys && Reach(Stored(t.db), cfg.anchor, k) ensures k in t.db.pubkeys {
      ReachableAreRows(t.db, cfg.anchor, k);
    }
  }
}
