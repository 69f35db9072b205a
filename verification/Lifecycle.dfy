/** What a row's status says about its bookkeeping columns, at every point of every run. */
module Lifecycle {
  import opened Wrappers
  import opened Nostr
  import opened Tables
  import opened Protocol

  /** At least one attempt is always made, whatever the configured cap. */
  function Cap(cfg: Config): int {
    Max(1, cfg.maxAttempts)
  }

  predicate RowOk(cfg: Config, row: Row) {
    && (row.status.Terminal() ==> row.lastFetchedAt.Some?)
    && (row.status.InProgress? ==> row.claimedAt.Some?)
    && (row.status.Discovered? || row.status.Failed? ==> row.claimedAt.None?)
    && (row.status.Discovered? || row.status.InProgress? ==> row.attempts < Cap(cfg))
    && (row.status.Failed? ==> row.attempts >= Cap(cfg))
  }

  ghost predicate LifecycleOk(cfg: Config, db: Db) {
    forall k | k in db.pubkeys :: RowOk(cfg, db.pubkeys[k])
  }

  lemma ActKeepsLifecycle(cfg: Config, db: Db, w: Worker, act: Act)
    requires LifecycleOk(cfg, db) && ActEnabled(cfg, w, act)
    ensures LifecycleOk(cfg, ActDb(cfg, db, w, act))
  {
  }

  lemma LeaseKeepsLifecycle(cfg: Config, db: Db, locked: set<PubKey>, batch: seq<PubKey>, now: int)
    requires LifecycleOk(cfg, db) && ToSet(batch) <= Claimable(db, locked)
    ensures LifecycleOk(cfg, Lease(db, batch, now))
  {
    forall k | k in batch ensures HasStatus(db, k, Discovered) {
      assert k in ToSet(batch);
    }
  }

  lemma StepKeepsLifecycle(cfg: Config, s: State, l: Label)
    requires LifecycleOk(cfg, s.db) && Enabled(cfg, s, l)
    ensures LifecycleOk(cfg, Step(cfg, s, l).db)
  {
    if l.Work? {
      ActKeepsLifecycle(cfg, s.db, s.workers[l.w], l.act);
    } else if l.Claim? {
      LeaseKeepsLifecycle(cfg, s.db, l.locked, l.batch, l.now);
    }
  }

  /** Every interleaving of claims, resolutions, late writes, sweeps and crashes. */
  lemma RowLifecycle(cfg: Config, db: Db, run: seq<Label>, t: State)
    requires LifecycleOk(cfg, db)
    requires Reaches(cfg, Anything, Boot(db), run, t)
    ensures LifecycleOk(cfg, t.db)
  {
    forall u: State, l | LifecycleOk(cfg, u.db) && Enabled(cfg, u, l)
      ensures LifecycleOk(cfg, Step(cfg, u, l).db)
    {
      StepKeepsLifecycle(cfg, u, l);
    }
    Induct(cfg, Anything, (s: State) => LifecycleOk(cfg, s.db), Boot(db), run, t);
  }

  // ------------------------------------------------------------------- churn

  /** The freshness and churn columns of one row, told against each other. */
  predicate CountersOk(row: Row) {
    && row.changeCount <= row.fetchCount
    && (row.lastChangedAt.Some? <==> row.changeCount > 0)
    && (row.lastConfirmedAt.Some? <==> row.fetchCount > 0)
    && (row.applied.Some? <==> row.fetchCount > 0)
    && (row.status.Fetched? ==> row.fetchCount > 0)
    && (row.fetchCount > 0 ==> row.lastFetchedAt.Some?)
  }

  ghost predicate ChurnOk(db: Db) {
    forall k | k in db.pubkeys :: CountersOk(db.pubkeys[k])
  }

  /** A confirmation presupposes an applied event: the worker has read it. */
  ghost predicate ConfirmsApplied(s: State) {
    forall w | w in s.workers && s.workers[w].phase.Confirming? && s.workers[w].todo != [] ::
      s.workers[w].todo[0] in s.db.pubkeys && s.db.pubkeys[s.workers[w].todo[0]].applied.Some?
  }

  lemma ActKeepsChurn(cfg: Config, db: Db, w: Worker, act: Act)
    requires ChurnOk(db) && ActEnabled(cfg, w, act)
    requires act.Confirm? ==> w.todo[0] in db.pubkeys && db.pubkeys[w.todo[0]].applied.Some?
    ensures ChurnOk(ActDb(cfg, db, w, act))
    ensures forall k | k in db.pubkeys && db.pubkeys[k].applied.Some? ::
              k in ActDb(cfg, db, w, act).pubkeys && ActDb(cfg, db, w, act).pubkeys[k].applied.Some?
  {
  }

  /** No driver step touches a counter, a stamp of a fetch or an applied event. */
  predicate SameChurn(row: Row, row': Row) {
    && row'.fetchCount == row.fetchCount && row'.changeCount == row.changeCount
    && row'.lastConfirmedAt == row.lastConfirmedAt && row'.lastChangedAt == row.lastChangedAt
    && row'.lastFetchedAt == row.lastFetchedAt && row'.applied == row.applied
    && (row'.status.Fetched? ==> row.status.Fetched?)
  }

  lemma DriverKeepsRowChurn(cfg: Config, s: State, l: Label, k: PubKey)
    requires Enabled(cfg, s, l) && !l.Work? && k in Step(cfg, s, l).db.pubkeys
    ensures k in s.db.pubkeys ==> SameChurn(s.db.pubkeys[k], Step(cfg, s, l).db.pubkeys[k])
    ensures k !in s.db.pubkeys ==> CountersOk(Step(cfg, s, l).db.pubkeys[k])
  {
  }

  lemma DriverKeepsChurn(cfg: Config, s: State, l: Label)
    requires ChurnOk(s.db) && Enabled(cfg, s, l) && !l.Work?
    ensures ChurnOk(Step(cfg, s, l).db)
    ensures forall k | k in s.db.pubkeys :: k in Step(cfg, s, l).db.pubkeys
              && Step(cfg, s, l).db.pubkeys[k].applied == s.db.pubkeys[k].applied
  {
    forall k | k in s.db.pubkeys ensures k in Step(cfg, s, l).db.pubkeys {}
    forall k | k in Step(cfg, s, l).db.pubkeys
      ensures CountersOk(Step(cfg, s, l).db.pubkeys[k])
      ensures k in s.db.pubkeys ==> SameChurn(s.db.pubkeys[k], Step(cfg, s, l).db.pubkeys[k])
    {
      DriverKeepsRowChurn(cfg, s, l, k);
    }
  }

  lemma StepKeepsChurn(cfg: Config, s: State, l: Label)
    requires ChurnOk(s.db) && ConfirmsApplied(s) && Enabled(cfg, s, l)
    ensures ChurnOk(Step(cfg, s, l).db) && ConfirmsApplied(Step(cfg, s, l))
  {
    if l.Work? {
      ActKeepsChurn(cfg, s.db, s.workers[l.w], l.act);
    } else {
      DriverKeepsChurn(cfg, s, l);
    }
  }

  /** In every run: no more changes than fetches are counted, a change or confirmation time
      stands exactly where its counter is positive, and a fetched row has an event. */
  lemma ChurnCounters(cfg: Config, db: Db, run: seq<Label>, t: State)
    requires ChurnOk(db) && Reaches(cfg, Anything, Boot(db), run, t)
    ensures ChurnOk(t.db)
  {
    forall u: State, l | ChurnOk(u.db) && ConfirmsApplied(u) && Enabled(cfg, u, l)
      ensures ChurnOk(Step(cfg, u, l).db) && ConfirmsApplied(Step(cfg, u, l))
    {
      StepKeepsChurn(cfg, u, l);
    }
    Induct(cfg, Anything, (s: State) => ChurnOk(s.db) && ConfirmsApplied(s), Boot(db), run, t);
  }
}
