/** Who holds a leased row: no lease is orphaned by a clean exit, leases are exclusive
    while no live lease is reclaimed by age, and their number is bounded. */
module Leases {
  import opened Wrappers
  import opened Nostr
  import opened Tables
  import opened Protocol

  // ------------------------------------------------------------ clean drain

  ghost predicate Held(s: State, k: PubKey) {
    || (s.driver.Holding? && k in s.driver.batch)
    || exists w :: w in s.workers && k in s.workers[w].todo
  }

  /** The driver is past the startup reclaim and has not failed. */
  predicate Running(d: Driver) {
    !d.Seeding? && !d.Starting? && !d.Errored?
  }

  /** Every leased row is still unresolved in some in-flight batch. */
  ghost predicate Owned(s: State) {
    && (s.driver.Seeding? || s.driver.Starting? || s.driver.Finished? || s.driver.Idle? ==> s.workers == map[])
    && (Running(s.driver) ==> forall k | HasStatus(s.db, k, InProgress) :: Held(s, k))
  }

  lemma ActKeepsOwned(cfg: Config, s: State, w: nat, act: Act)
    requires Owned(s) && Enabled(cfg, s, Work(w, act))
    ensures Owned(Step(cfg, s, Work(w, act)))
  {
    var t := Step(cfg, s, Work(w, act));
    if Running(s.driver) {
      forall k | HasStatus(t.db, k, InProgress) ensures Held(t, k) {
        assert HasStatus(s.db, k, InProgress);
        if !(s.driver.Holding? && k in s.driver.batch) {
          var v :| v in s.workers && k in s.workers[v].todo;
          assert v in t.workers && k in t.workers[v].todo;
        }
      }
    }
  }

  lemma StepKeepsOwned(cfg: Config, s: State, l: Label)
    requires Owned(s) && Enabled(cfg, s, l)
    ensures Owned(Step(cfg, s, l))
  {
    var t := Step(cfg, s, l);
    if l.Work? {
      ActKeepsOwned(cfg, s, l.w, l.act);
    } else if Running(s.driver) && Running(t.driver) {
      forall k | HasStatus(t.db, k, InProgress) ensures Held(t, k) {
        if HasStatus(s.db, k, InProgress) && !(s.driver.Holding? && k in s.driver.batch) {
          var v :| v in s.workers && k in s.workers[v].todo;
          assert v in t.workers && k in t.workers[v].todo;
        } else if l.Spawn? {
          assert l.w in t.workers && k in t.workers[l.w].todo;
        }
      }
    }
  }

  /** Whatever the tables held at the start and however cancellation, both sweeps, late
      writers, worker failures and crashes interleave: a loop that returns `Ok` leaves no
      row leased. */
  lemma CleanDrain(cfg: Config, db: Db, run: seq<Label>, t: State)
    requires Reaches(cfg, Anything, Boot(db), run, t)
    requires t.driver.Finished?
    ensures forall k | k in t.db.pubkeys :: !t.db.pubkeys[k].status.InProgress?
  {
    forall u: State, l | Owned(u) && Enabled(cfg, u, l) ensures Owned(Step(cfg, u, l)) {
      StepKeepsOwned(cfg, u, l);
    }
    Induct(cfg, Anything, s => Owned(s), Boot(db), run, t);
    forall k | k in t.db.pubkeys ensures !t.db.pubkeys[k].status.InProgress? {
      assert HasStatus(t.db, k, InProgress) ==> Held(t, k);
    }
  }

  /** Every claimed author is a row. */
  ghost predicate ClaimsAreRows(s: State) {
    && (s.driver.Holding? ==> forall k | k in s.driver.batch :: k in s.db.pubkeys)
    && (forall w, k | w in s.workers && k in s.workers[w].todo :: k in s.db.pubkeys)
  }

  lemma RowsPersist(cfg: Config, s: State, l: Label, k: PubKey)
    requires Enabled(cfg, s, l) && k in s.db.pubkeys
    ensures k in Step(cfg, s, l).db.pubkeys
  {
  }

  lemma TodoShrinks(cfg: Config, db: Db, w: Worker, act: Act, k: PubKey)
    requires ActEnabled(cfg, w, act) && k in ActWorker(cfg, db, w, act).todo
    ensures k in w.todo
  {
  }

  lemma StepKeepsClaimsAreRows(cfg: Config, s: State, l: Label)
    requires ClaimsAreRows(s) && Enabled(cfg, s, l)
    ensures ClaimsAreRows(Step(cfg, s, l))
  {
    var t := Step(cfg, s, l);
    forall k | k in s.db.pubkeys ensures k in t.db.pubkeys {
      RowsPersist(cfg, s, l, k);
    }
    if l.Work? {
      forall k | k in t.workers[l.w].todo ensures k in s.db.pubkeys {
        TodoShrinks(cfg, s.db, s.workers[l.w], l.act, k);
      }
    } else if l.Claim? {
      forall k | k in l.batch ensures k in s.db.pubkeys {
        assert k in ToSet(l.batch);
      }
    }
  }

  // -------------------------------------------------------------- crawl exit

  /** Without workers nothing is locked, so an empty claim means nothing is discovered. */
  lemma EmptyClaimWithoutWorkers(cfg: Config, s: State, l: Label)
    requires Enabled(cfg, s, l) && l.Claim? && l.batch == [] && s.workers == map[] && cfg.batchSize >= 1
    ensures forall k | k in s.db.pubkeys :: !s.db.pubkeys[k].status.Discovered?
  {
    assert forall k :: !MayBeLocked(s, k);
    forall k | k in s.db.pubkeys ensures !s.db.pubkeys[k].status.Discovered? {
      assert Claimable(s.db, l.locked) == {};
      assert k !in Claimable(s.db, l.locked);
    }
  }

  /** A crawl never idles, and has finished only when every row has an outcome. */
  ghost predicate Settled(s: State) {
    && !s.driver.Idle? && !s.driver.FinalDrain?
    && (s.driver.Finished? ==> forall k | k in s.db.pubkeys :: s.db.pubkeys[k].status.Terminal())
  }

  lemma StepKeepsSettled(cfg: Config, s: State, l: Label)
    requires Owned(s) && Settled(s) && Enabled(cfg, s, l) && cfg.mode.Crawl? && cfg.batchSize >= 1
    ensures Settled(Step(cfg, s, l))
  {
    var t := Step(cfg, s, l);
    if t.driver.Finished? && !s.driver.Finished? {
      EmptyClaimWithoutWorkers(cfg, s, l);
      forall k | k in t.db.pubkeys ensures t.db.pubkeys[k].status.Terminal() {
        assert HasStatus(s.db, k, InProgress) ==> Held(s, k);
      }
    }
  }

  /** From any tables, crashes included: a crawl that returns `Ok` leaves every row with an
      outcome. */
  lemma CrawlSettles(cfg: Config, db: Db, run: seq<Label>, t: State)
    requires cfg.mode.Crawl? && cfg.batchSize >= 1
    requires Reaches(cfg, Anything, Boot(db), run, t) && t.driver.Finished?
    ensures forall k | k in t.db.pubkeys :: t.db.pubkeys[k].status.Terminal()
  {
    forall u: State, l | Owned(u) && Settled(u) && Enabled(cfg, u, l)
      ensures Owned(Step(cfg, u, l)) && Settled(Step(cfg, u, l))
    {
      StepKeepsOwned(cfg, u, l);
      StepKeepsSettled(cfg, u, l);
    }
    Induct(cfg, Anything, s => Owned(s) && Settled(s), Boot(db), run, t);
  }

  // ------------------------------------------------------------- exclusivity

  ghost predicate OwnBatch(db: Db, batch: seq<PubKey>) {
    Distinct(batch) && forall k | k in batch :: HasStatus(db, k, InProgress)
  }

  ghost predicate Disjoint(a: seq<PubKey>, b: seq<PubKey>) {
    forall k :: k in a ==> k !in b
  }

  /** The unresolved parts of the claimed batches are leased and pairwise disjoint. */
  ghost predicate Exclusive(s: State) {
    && (s.driver.Holding? ==> OwnBatch(s.db, s.driver.batch))
    && (forall w | w in s.workers :: OwnBatch(s.db, s.workers[w].todo))
    && (forall w | w in s.workers && s.driver.Holding? :: Disjoint(s.driver.batch, s.workers[w].todo))
    && (forall v, w | v in s.workers && w in s.workers && v != w ::
          Disjoint(s.workers[v].todo, s.workers[w].todo))
  }

  predicate NoAgeReclaim(s: State, l: Label) {
    !l.SweepAge?
  }

  /** A worker changes the status of its first author only, and then drops that author. */
  lemma ActKeepsOwnBatch(cfg: Config, db: Db, w: Worker, act: Act)
    requires ActEnabled(cfg, w, act) && OwnBatch(db, w.todo)
    ensures OwnBatch(ActDb(cfg, db, w, act), ActWorker(cfg, db, w, act).todo)
    ensures forall batch | OwnBatch(db, batch) && Disjoint(batch, w.todo) ::
              OwnBatch(ActDb(cfg, db, w, act), batch)
    ensures forall k :: k in ActWorker(cfg, db, w, act).todo ==> k in w.todo
  {
    forall k | k in w.todo[1..] ensures k in w.todo && k != w.todo[0] {
      var i :| 0 <= i < |w.todo[1..]| && w.todo[1..][i] == k;
      assert w.todo[i + 1] == k;
    }
  }

  lemma ActKeepsExclusive(cfg: Config, s: State, w: nat, act: Act)
    requires Exclusive(s) && Enabled(cfg, s, Work(w, act))
    ensures Exclusive(Step(cfg, s, Work(w, act)))
  {
    ActKeepsOwnBatch(cfg, s.db, s.workers[w], act);
  }

  lemma ClaimKeepsExclusive(cfg: Config, s: State, l: Label)
    requires Owned(s) && Exclusive(s) && Enabled(cfg, s, l) && l.Claim?
    ensures Exclusive(Step(cfg, s, l))
  {
    forall k | k in l.batch ensures HasStatus(s.db, k, Discovered) {
      assert k in ToSet(l.batch);
    }
  }

  lemma StepKeepsExclusive(cfg: Config, s: State, l: Label)
    requires Owned(s) && Exclusive(s) && Enabled(cfg, s, l) && !l.SweepAge?
    ensures Exclusive(Step(cfg, s, l))
  {
    if l.Work? {
      ActKeepsExclusive(cfg, s, l.w, l.act);
    } else if l.Claim? {
      ClaimKeepsExclusive(cfg, s, l);
    }
  }

  // ------------------------------------------------------------------- bound

  /** No more batches run than there are permits, and no batch is oversized. */
  ghost predicate Bounded(cfg: Config, s: State) {
    && |LiveWorkers(s)| <= cfg.concurrency
    && (s.driver.Holding? ==> |s.driver.batch| <= cfg.batchSize)
    && forall w | w in s.workers :: |s.workers[w].todo| <= cfg.batchSize
  }

  lemma ActKeepsBounded(cfg: Config, s: State, w: nat, act: Act)
    requires Bounded(cfg, s) && Enabled(cfg, s, Work(w, act))
    ensures Bounded(cfg, Step(cfg, s, Work(w, act)))
  {
    var t, x := Step(cfg, s, Work(w, act)), ActWorker(cfg, s.db, s.workers[w], act);
    assert |x.todo| <= |s.workers[w].todo| && t.workers == s.workers[w := x];
    assert LiveWorkers(t) <= LiveWorkers(s);
    SubsetSize(LiveWorkers(t), LiveWorkers(s));
  }

  lemma StepKeepsBounded(cfg: Config, s: State, l: Label)
    requires Bounded(cfg, s) && Enabled(cfg, s, l)
    ensures Bounded(cfg, Step(cfg, s, l))
  {
    var t := Step(cfg, s, l);
    if l.Work? {
      ActKeepsBounded(cfg, s, l.w, l.act);
    } else if l.Spawn? {
      assert LiveWorkers(t) <= LiveWorkers(s) + {l.w};
      SubsetSize(LiveWorkers(t), LiveWorkers(s) + {l.w});
    } else {
      assert LiveWorkers(t) <= LiveWorkers(s);
      SubsetSize(LiveWorkers(t), LiveWorkers(s));
    }
  }

  /** Rows that are all in some of the batches `ws`, each at most `n` long, are few. */
  lemma {:induction false} CoverSize(s: State, ws: set<nat>, rows: set<PubKey>, n: nat)
    requires forall w | w in ws :: w in s.workers && |s.workers[w].todo| <= n
    requires forall k | k in rows :: exists w :: w in ws && k in s.workers[w].todo
    ensures |rows| <= |ws| * n
    decreases ws
  {
    if ws == {} {
      assert rows == {} by { if k :| k in rows { assert false; } }
    } else {
      var w :| w in ws;
      var own, ws' := ToSet(s.workers[w].todo), ws - {w};
      forall k | k in rows - own ensures exists v :: v in ws' && k in s.workers[v].todo {
        var v :| v in ws && k in s.workers[v].todo;
        assert v in ws';
      }
      CoverSize(s, ws', rows - own, n);
      SetOfSeqSize(s.workers[w].todo);
      SubsetSize(rows, (rows - own) + own);
      assert |(rows - own) + own| <= |rows - own| + |own|;
      Scale(|ws'|, |ws'|, n);
      assert |ws| == |ws'| + 1;
    }
  }

  lemma {:induction false} SetOfSeqSize(s: seq<PubKey>)
    ensures |ToSet(s)| <= |s|
  {
    if s != [] {
      SetOfSeqSize(s[1..]);
      assert ToSet(s) == {s[0]} + ToSet(s[1..]);
    }
  }

  ghost function Leased(db: Db): set<PubKey> {
    set k | k in db.pubkeys && db.pubkeys[k].status.InProgress?
  }

  /** The authors of the batches that hold a permit. */
  ghost function InFlight(s: State): set<PubKey> {
    set w, k | w in LiveWorkers(s) && k in s.workers[w].todo :: k
  }

  /** Each permit admits one batch. */
  lemma FlightBound(cfg: Config, s: State)
    requires Bounded(cfg, s)
    ensures |InFlight(s)| <= cfg.concurrency * cfg.batchSize
  {
    CoverSize(s, LiveWorkers(s), InFlight(s), cfg.batchSize);
    Scale(|LiveWorkers(s)|, cfg.concurrency, cfg.batchSize);
  }

  /** The claim comes before the permit: up to one batch more than there are permits, and
      only while the driver holds it. */
  lemma LeaseBound(cfg: Config, s: State)
    requires Owned(s) && Bounded(cfg, s) && Running(s.driver) && NoneBroken(s)
    ensures |Leased(s.db)| <= (cfg.concurrency + 1) * cfg.batchSize
    ensures !s.driver.Holding? ==> |Leased(s.db)| <= cfg.concurrency * cfg.batchSize
  {
    var live, pending := LiveWorkers(s), if s.driver.Holding? then ToSet(s.driver.batch) else {};
    if s.driver.Holding? { SetOfSeqSize(s.driver.batch); }
    var rest := Leased(s.db) - pending;
    forall k | k in rest ensures exists w :: w in live && k in s.workers[w].todo {
      assert HasStatus(s.db, k, InProgress);
      var w :| w in s.workers && k in s.workers[w].todo;
      assert w in live;
    }
    CoverSize(s, live, rest, cfg.batchSize);
    SubsetSize(Leased(s.db), rest + pending);
    Scale(|live|, cfg.concurrency, cfg.batchSize);
  }

  lemma Scale(a: nat, b: nat, n: nat)
    requires a <= b
    ensures a * n + n <= b * n + n == (b + 1) * n
  {
  }

  ghost predicate LeaseInv(cfg: Config, s: State) {
    Owned(s) && Exclusive(s) && Bounded(cfg, s)
  }

  lemma StepKeepsLeaseInv(cfg: Config, s: State, l: Label)
    requires LeaseInv(cfg, s) && Enabled(cfg, s, l) && !l.SweepAge?
    ensures LeaseInv(cfg, Step(cfg, s, l))
  {
    StepKeepsOwned(cfg, s, l);
    StepKeepsExclusive(cfg, s, l);
    StepKeepsBounded(cfg, s, l);
  }

  /** In every run without an age reclaim, past startup, the leased rows are exactly the
      disjoint union of the unresolved parts of the claimed batches, at most `concurrency`
      batches run, with at most `concurrency` * `batchSize` authors; and while no worker has
      failed the leases stay within one batch more, and within that number whenever the driver
      holds no claimed batch. */
  lemma LeasesAreExclusive(cfg: Config, db: Db, run: seq<Label>, t: State)
    requires Reaches(cfg, NoAgeReclaim, Boot(db), run, t)
    requires Running(t.driver)
    ensures forall k :: HasStatus(t.db, k, InProgress) <==> Held(t, k)
    ensures Exclusive(t)
    ensures |LiveWorkers(t)| <= cfg.concurrency && |InFlight(t)| <= cfg.concurrency * cfg.batchSize
    ensures NoneBroken(t) ==> |Leased(t.db)| <= (cfg.concurrency + 1) * cfg.batchSize
    ensures NoneBroken(t) && !t.driver.Holding? ==> |Leased(t.db)| <= cfg.concurrency * cfg.batchSize
  {
    forall u: State, l: Label | LeaseInv(cfg, u) && Enabled(cfg, u, l) && NoAgeReclaim(u, l)
      ensures LeaseInv(cfg, Step(cfg, u, l))
    {
      StepKeepsLeaseInv(cfg, u, l);
    }
    Induct(cfg, NoAgeReclaim, s => LeaseInv(cfg, s), Boot(db), run, t);
    FlightBound(cfg, t);
    if NoneBroken(t) {
      LeaseBound(cfg, t);
    }
  }
}
