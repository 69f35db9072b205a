/** The daemon's loop is continuous: it ends by cancellation only, and every wake leads to a claim. */
module DaemonLoop {
  import opened Wrappers
  import opened Nostr
  import opened Tables
  import opened Protocol
  import opened Leases
  import opened Termination
  import opened Agreement
  import opened Overlap
  import opened RowLaws

  predicate NotCancelled(s: State, l: Label) {
    !l.Cancel?
  }

  /** On any tables, with sweeps, failures and crashes anywhere: a daemon that nobody cancels
      neither drains for good nor returns `Ok`. */
  lemma NeverEndsUncancelled(cfg: Config, db: Db, run: seq<Label>, t: State)
    requires cfg.mode.Daemon? && Reaches(cfg, NotCancelled, Boot(db), run, t)
    ensures !t.driver.FinalDrain? && !t.driver.Finished?
  {
    var inv := (u: State) => !u.driver.FinalDrain? && !u.driver.Finished?;
    forall u: State, l | inv(u) && Enabled(cfg, u, l) && NotCancelled(u, l) ensures inv(Step(cfg, u, l)) {
    }
    Induct(cfg, NotCancelled, inv, Boot(db), run, t);
  }

  ghost function Open(db: Db): set<PubKey> {
    set k | k in db.pubkeys && db.pubkeys[k].status == Discovered
  }

  /** With no worker nothing is locked: a claim takes as many discovered rows as there are, up to
      the batch size, and leases them all. */
  lemma FreeClaim(cfg: Config, s: State, l: Label)
    requires Enabled(cfg, s, l) && l.Claim? && s.workers == map[]
    ensures ToSet(l.batch) <= Open(s.db) && |ToSet(l.batch)| == Min(cfg.batchSize, |Open(s.db)|)
    ensures l.batch != [] ==> Step(cfg, s, l).driver == Holding(l.batch)
    ensures forall k | k in l.batch :: HasStatus(Step(cfg, s, l).db, k, InProgress)
  {
    assert forall k :: !MayBeLocked(s, k);
    assert Claimable(s.db, l.locked) == Open(s.db);
    DistinctSize(l.batch);
    forall k | k in l.batch ensures k in s.db.pubkeys {
      assert k in ToSet(l.batch);
    }
  }

  lemma IdleHasNoWorkers(cfg: Config, db: Db, run: seq<Label>, s: State)
    requires Reaches(cfg, Anything, Boot(db), run, s) && s.driver.Idle?
    ensures s.workers == map[]
  {
    forall u: State, k | Owned(u) && Enabled(cfg, u, k) ensures Owned(Step(cfg, u, k)) {
      StepKeepsOwned(cfg, u, k);
    }
    Induct(cfg, Anything, u => Owned(u), Boot(db), run, s);
  }

  /** From every idle state any daemon run reaches: a wake changes no table and leads to a claim;
      some claim is possible, and each takes the discovered rows, up to the batch size, those among
      them that a sweep has put back while the daemon slept. */
  lemma WakeLeadsToClaim(cfg: Config, db: Db, run: seq<Label>, s: State) returns (l: Label)
    requires Reaches(cfg, Anything, Boot(db), run, s) && s.driver.Idle?
    ensures Enabled(cfg, s, Wake) && Step(cfg, s, Wake) == s.(driver := AtClaim)
    ensures l.Claim? && Enabled(cfg, Step(cfg, s, Wake), l)
    ensures forall m: Label | m.Claim? && Enabled(cfg, Step(cfg, s, Wake), m) ::
              && ToSet(m.batch) <= Open(s.db) && |ToSet(m.batch)| == Min(cfg.batchSize, |Open(s.db)|)
              && (Open(s.db) != {} && cfg.batchSize >= 1 ==>
                    Step(cfg, Step(cfg, s, Wake), m).driver == Holding(m.batch))
  {
    IdleHasNoWorkers(cfg, db, run, s);
    var u := Step(cfg, s, Wake);
    var batch := FirstExists(u.db, Claimable(u.db, {}), cfg.batchSize);
    l := Claim(batch, {}, 0);
    forall m: Label | m.Claim? && Enabled(cfg, u, m)
      ensures ToSet(m.batch) <= Open(s.db) && |ToSet(m.batch)| == Min(cfg.batchSize, |Open(s.db)|)
      ensures Open(s.db) != {} && cfg.batchSize >= 1 ==> Step(cfg, u, m).driver == Holding(m.batch)
    {
      FreeClaim(cfg, u, m);
      assert m.batch == [] ==> ToSet(m.batch) == {};
    }
  }

  /** Refreshing: a row that is stale when the sweep runs over a sleeping daemon is claimed by the
      next claim, provided the batch size covers the frontier. */
  lemma StaleRowIsClaimedAgain(cfg: Config, db: Db, run: seq<Label>, s: State, now: int, k: PubKey, l: Label)
    requires cfg.mode.Daemon? && Reaches(cfg, Anything, Boot(db), run, s) && s.driver.Idle?
    requires k in s.db.pubkeys && Stale(s.db.pubkeys[k], now, cfg.ttl)
    ensures Enabled(cfg, s, SweepTtl(now)) && Enabled(cfg, Step(cfg, s, SweepTtl(now)), Wake)
    ensures var u := Step(cfg, Step(cfg, s, SweepTtl(now)), Wake);
            l.Claim? && Enabled(cfg, u, l) && |Open(u.db)| <= cfg.batchSize ==>
              HasStatus(Step(cfg, u, l).db, k, InProgress) && k in Step(cfg, u, l).claims
  {
    SweepsPutBack(s.db, now, cfg.ttl);
    Extend(cfg, Anything, Boot(db), run, s, SweepTtl(now));
    var swept := Step(cfg, s, SweepTtl(now));
    var u := Step(cfg, swept, Wake);
    if l.Claim? && Enabled(cfg, u, l) && |Open(u.db)| <= cfg.batchSize {
      IdleHasNoWorkers(cfg, db, run + [SweepTtl(now)], swept);
      FreeClaim(cfg, u, l);
      SubsetSize(ToSet(l.batch), Open(u.db));
      assert k in Open(u.db) && k in ToSet(l.batch);
    }
  }

  predicate NoWake(s: State, l: Label) {
    !l.Wake? && !l.Crash?
  }

  /** After an empty claim the daemon joins its workers and sleeps before it claims again: nothing
      but a wake, or a new process, takes it back to a claim. */
  lemma NoClaimBeforeWake(cfg: Config, s: State, l: Label, run: seq<Label>, t: State)
    requires cfg.mode.Daemon? && Enabled(cfg, s, l) && l.Claim? && l.batch == []
    requires Reaches(cfg, NoWake, Step(cfg, s, l), run, t)
    ensures !t.driver.AtClaim? && !t.driver.Holding? && !t.driver.Reaping?
  {
    var inv := (u: State) =>
      u.driver.Draining? || u.driver.Idle? || u.driver.FinalDrain? || u.driver.Finished? || u.driver.Errored?;
    forall u: State, k | inv(u) && Enabled(cfg, u, k) && NoWake(u, k) ensures inv(Step(cfg, u, k)) {
    }
    Induct(cfg, NoWake, inv, Step(cfg, s, l), run, t);
  }

  /** A worker may hold the lock of its author's row, of the row it is about to upsert, and of the
      rows its open edge transaction refers to. */
  predicate HoldsBack(w: Worker, k: PubKey) {
    && w.todo != []
    && match w.phase
       case Upserting(_, _, left) => k == w.todo[0] || (left != [] && k == left[0])
       case Writing(_, list, _) => k == w.todo[0] || k in list.followees
       case _ => k == w.todo[0]
  }

  /** A claim comes back empty exactly when workers may hold every discovered row back. */
  lemma EmptyClaimIff(cfg: Config, s: State, now: int)
    requires s.driver.AtClaim? && cfg.batchSize >= 1
    ensures (exists locked :: Enabled(cfg, s, Claim([], locked, now)))
            <==> forall k | k in Open(s.db) :: exists w :: w in s.workers && HoldsBack(s.workers[w], k)
  {
    forall k ensures MayBeLocked(s, k) <==> exists w :: w in s.workers && HoldsBack(s.workers[w], k) {
      assert forall w | w in s.workers :: Touches(s.workers[w], k) <==> HoldsBack(s.workers[w], k);
    }
    if locked :| Enabled(cfg, s, Claim([], locked, now)) {
      assert Claimable(s.db, locked) == {};
      forall k | k in Open(s.db) ensures MayBeLocked(s, k) {
        assert k !in Claimable(s.db, locked);
      }
    }
    if forall k | k in Open(s.db) :: MayBeLocked(s, k) {
      assert Claimable(s.db, Open(s.db)) == {} && ToSet<PubKey>([]) == {};
      assert Enabled(cfg, s, Claim([], Open(s.db), now));
    }
  }

  /** Why the workers are joined first: wherever a batch can run, a claim can come back empty
      although a row is discovered, because the transaction that follows it has it locked. */
  lemma ClaimMayMiss(cfg: Config) returns (s: State, k: PubKey, l: Label)
    requires cfg.batchSize >= 1 && cfg.concurrency >= 1
    ensures Reachable(cfg, Genuinely(Body(cfg.anchor)), EMPTY_DB, s) && HasStatus(s.db, k, Discovered)
    ensures Enabled(cfg, s, l) && l.Claim? && l.batch == []
  {
    var a := cfg.anchor;
    s := FirstClaim(cfg);
    assert LiveWorkers(s) == {};
    FirstUpserts(a);
    s := ToWriting(cfg, s, 1, [a], Old(a), a + 1);
    s := Next(cfg, s, EndReap);
    k, l := a + 1, Claim([], {a + 1}, 0);
    assert Touches(s.workers[1], a + 1);
    assert Claimable(s.db, {a + 1}) == {} && ToSet<PubKey>([]) == {};
  }

  /** Why a clean drain is claimed for `Ok` returns only: wherever a batch can run, a failing worker,
      and a claim that fails while a worker runs, end the process with a row still leased. */
  lemma ErrorsLeaveLeases(cfg: Config) returns (s: State, t: State)
    requires cfg.batchSize >= 1 && cfg.concurrency >= 1
    ensures Reachable(cfg, Genuinely(Body(cfg.anchor)), EMPTY_DB, s)
    ensures s.driver.Errored? && HasStatus(s.db, cfg.anchor, InProgress) && LiveWorkers(s) == {}
    ensures Reachable(cfg, Genuinely(Body(cfg.anchor)), EMPTY_DB, t)
    ensures t.driver.Errored? && HasStatus(t.db, cfg.anchor, InProgress) && LiveWorkers(t) != {}
  {
    var u := FirstClaim(cfg);
    assert LiveWorkers(u) == {} && cfg.anchor in [cfg.anchor];
    u := Next(cfg, u, Spawn(1));
    s := Next(cfg, u, Work(1, Break));
    s := Next(cfg, s, Join(1));
    t := Next(cfg, u, EndReap);
    t := Next(cfg, t, Abort);
    assert 1 in LiveWorkers(t);
  }
}
