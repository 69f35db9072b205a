/** How many rows are leased at most: one batch per permit bounds the batches that run, but the
    leases exceed it, by a full batch, in every configuration that claims anything. */
module LeaseCount {
  import opened Wrappers
  import opened Nostr
  import opened Tables
  import opened Protocol
  import opened Leases
  import opened Termination

  ghost predicate Reached(cfg: Config, db: Db, t: State) {
    Reachable(cfg, NoAgeReclaim, db, t)
  }

  /** `k` permits are taken by batches that still fetch, and enough rows are left to claim for
      the other permits and one batch more. */
  ghost predicate Filled(cfg: Config, s: State, k: nat) {
    && s.driver.AtClaim? && k <= cfg.concurrency
    && |LiveWorkers(s)| == k && NoneBroken(s)
    && |Leased(s.db)| == k * cfg.batchSize
    && |Claimable(s.db, {})| >= (cfg.concurrency + 1 - k) * cfg.batchSize
  }

  lemma LeaseMoves(db: Db, batch: seq<PubKey>, now: int)
    requires ToSet(batch) <= Claimable(db, {})
    ensures Leased(Lease(db, batch, now)) == Leased(db) + ToSet(batch) && Leased(db) !! ToSet(batch)
    ensures Claimable(Lease(db, batch, now), {}) == Claimable(db, {}) - ToSet(batch)
  {
    var own := ToSet(batch);
    forall k ensures k in batch <==> k in own {}
    forall k | k in own ensures k in Claimable(db, {}) {}
  }

  lemma LeaseCounts(db: Db, batch: seq<PubKey>, now: int)
    requires Distinct(batch) && ToSet(batch) <= Claimable(db, {})
    ensures |Leased(Lease(db, batch, now))| == |Leased(db)| + |batch|
    ensures |Claimable(Lease(db, batch, now), {})| == |Claimable(db, {})| - |batch|
  {
    LeaseMoves(db, batch, now);
    DistinctSize(batch);
  }

  lemma AtLeast(n: nat, b: nat)
    ensures (n + 1) * b == n * b + b && n * b >= 0
  {
  }

  /** Claim a full batch. */
  lemma ClaimFull(cfg: Config, db: Db, s: State) returns (t: State)
    requires Reached(cfg, db, s) && s.driver.AtClaim?
    requires 1 <= cfg.batchSize <= |Claimable(s.db, {})|
    ensures Reached(cfg, db, t) && t.driver.Holding? && t.driver.batch != [] && t.workers == s.workers
    ensures |Leased(t.db)| == |Leased(s.db)| + cfg.batchSize
    ensures |Claimable(t.db, {})| == |Claimable(s.db, {})| - cfg.batchSize
  {
    var batch := FirstExists(s.db, Claimable(s.db, {}), cfg.batchSize);
    LeaseCounts(s.db, batch, 0);
    assert IsClaim(s.db, {}, cfg.batchSize, batch);
    t := Go(cfg, NoAgeReclaim, db, s, Claim(batch, {}, 0));
    assert t.db == Lease(s.db, batch, 0);
  }

  /** Give it a permit and come back for the next one. */
  lemma SpawnNext(cfg: Config, db: Db, s: State) returns (t: State)
    requires Reached(cfg, db, s) && s.driver.Holding? && s.driver.batch != []
    requires |LiveWorkers(s)| < cfg.concurrency && NoneBroken(s)
    ensures Reached(cfg, db, t) && t.driver.AtClaim? && t.db == s.db && NoneBroken(t)
    ensures |LiveWorkers(t)| == |LiveWorkers(s)| + 1
  {
    var w := FreshHandle(s.workers);
    var u := Go(cfg, NoAgeReclaim, db, s, Spawn(w));
    assert u.workers == s.workers[w := Worker(s.driver.batch, Fetching)];
    t := Go(cfg, NoAgeReclaim, db, u, EndReap);
    assert LiveWorkers(t) == LiveWorkers(s) + {w};
  }

  lemma {:induction false} Fill(cfg: Config, db: Db, s: State, k: nat) returns (t: State)
    requires Reached(cfg, db, s) && Filled(cfg, s, k) && cfg.batchSize >= 1
    ensures Reached(cfg, db, t) && t.driver.Holding? && NoneBroken(t)
    ensures |Leased(t.db)| == (cfg.concurrency + 1) * cfg.batchSize
    decreases cfg.concurrency - k
  {
    AtLeast(k, cfg.batchSize);
    AtLeast(cfg.concurrency - k, cfg.batchSize);
    t := ClaimFull(cfg, db, s);
    assert LiveWorkers(t) == LiveWorkers(s);
    if k < cfg.concurrency {
      var u := SpawnNext(cfg, db, t);
      t := Fill(cfg, db, u, k + 1);
    }
  }

  function FirstKeys(n: nat): (keys: set<PubKey>)
    ensures |keys| == n && forall k: PubKey :: k in keys <==> k < n
  {
    if n == 0 then {} else FirstKeys(n - 1) + {n - 1}
  }

  /** Tables with `n` rows to claim. */
  function Frontier(n: nat): Db {
    Db(n, map k | k in FirstKeys(n) :: NewRow(k), map[])
  }

  /** The driver at its first claim, nothing leased. */
  lemma Start(cfg: Config, n: nat) returns (s: State)
    requires n >= (cfg.concurrency + 1) * cfg.batchSize
    ensures Reached(cfg, Frontier(n), s) && Filled(cfg, s, 0)
  {
    var db := Frontier(n);
    GoBoot(cfg, NoAgeReclaim, db);
    s := Go(cfg, NoAgeReclaim, db, Boot(db), Seed);
    s := Go(cfg, NoAgeReclaim, db, s, Startup);
    assert Leased(s.db) == {} && LiveWorkers(s) == {};
    SubsetSize(FirstKeys(n), Claimable(s.db, {}));
  }

  /** The bound proved is attained in every configuration. */
  lemma LeaseBoundIsAttained(cfg: Config) returns (db: Db, t: State)
    ensures Reachable(cfg, NoAgeReclaim, db, t) && Running(t.driver) && NoneBroken(t)
    ensures |Leased(t.db)| == (cfg.concurrency + 1) * cfg.batchSize
  {
    var n := (cfg.concurrency + 1) * cfg.batchSize;
    db := Frontier(n);
    t := Start(cfg, n);
    if cfg.batchSize >= 1 {
      t := Fill(cfg, db, t, 0);
    }
  }

  /** In every run without a failed worker or an age reclaim at most `bound` rows are leased. */
  ghost predicate LeasesStayWithin(cfg: Config, bound: int) {
    forall db, t | Reachable(cfg, NoAgeReclaim, db, t) && Running(t.driver) && NoneBroken(t) ::
      |Leased(t.db)| <= bound
  }

  /** Exactly the numbers from one batch more than there are permits bound the leases; so one
      batch per permit does so only where no batch is ever claimed. */
  lemma LeaseBoundIff(cfg: Config, bound: int)
    ensures LeasesStayWithin(cfg, bound) <==> (cfg.concurrency + 1) * cfg.batchSize <= bound
    ensures LeasesStayWithin(cfg, cfg.concurrency * cfg.batchSize) <==> cfg.batchSize == 0
  {
    forall db, t | Reachable(cfg, NoAgeReclaim, db, t) && Running(t.driver) && NoneBroken(t)
      ensures |Leased(t.db)| <= (cfg.concurrency + 1) * cfg.batchSize
    {
      var run :| Reaches(cfg, NoAgeReclaim, Boot(db), run, t);
      LeasesAreExclusive(cfg, db, run, t);
    }
    var db, t := LeaseBoundIsAttained(cfg);
    AtLeast(cfg.concurrency, cfg.batchSize);
  }
}
