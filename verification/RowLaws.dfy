/** What each statement does to one row, column by column and in plain terms, and hence what each
    step of the system may do to it. */
module RowLaws {
  import opened Wrappers
  import opened Nostr
  import opened Tables
  import opened Protocol
  import opened Leases

  // ------------------------------------------------------------ one row

  /** Neither the history of its fetches nor its event changes. */
  predicate SameHistory(row: Row, row': Row) {
    && row'.id == row.id && row'.applied == row.applied
    && row'.lastFetchedAt == row.lastFetchedAt && row'.lastConfirmedAt == row.lastConfirmedAt
    && row'.lastChangedAt == row.lastChangedAt
    && row'.fetchCount == row.fetchCount && row'.changeCount == row.changeCount
  }

  /** Back to the frontier: no lease, and all attempts to come. */
  predicate PutBack(row: Row, row': Row) {
    row'.status.Discovered? && row'.claimedAt.None? && row'.attempts == 0 && SameHistory(row, row')
  }

  /** Leased at `now`. */
  predicate Claimed(row: Row, row': Row, now: int) {
    && row'.status.InProgress? && row'.claimedAt == Some(now) && row'.attempts == row.attempts
    && SameHistory(row, row')
  }

  /** One attempt more: the last one stamps a failure, any other lets the row be claimed again. */
  predicate Retried(row: Row, row': Row, maxAttempts: int, stamp: int) {
    && row'.attempts == row.attempts + 1 && row'.claimedAt.None?
    && (if row.attempts + 1 < maxAttempts
        then row'.status.Discovered? && SameHistory(row, row')
        else row'.status.Failed? && row'.lastFetchedAt == Some(stamp)
             && SameHistory(row, row'.(lastFetchedAt := row.lastFetchedAt)))
  }

  /** Marked not found at `stamp`; its lease, attempts, event and counters stay. */
  predicate Missed(row: Row, row': Row, stamp: int) {
    && row'.status.NotFound? && row'.lastFetchedAt == Some(stamp)
    && row'.claimedAt == row.claimedAt && row'.attempts == row.attempts
    && SameHistory(row, row'.(lastFetchedAt := row.lastFetchedAt))
  }

  /** Fetched and confirmed at `now`, one fetch more. */
  predicate FetchedAt(row: Row, row': Row, now: int) {
    && row'.status.Fetched? && row'.lastFetchedAt == Some(now) && row'.lastConfirmedAt == Some(now)
    && row'.fetchCount == row.fetchCount + 1
    && row'.id == row.id && row'.claimedAt == row.claimedAt && row'.attempts == row.attempts
  }

  /** The event is applied already: nothing else moves. */
  predicate Confirmed(row: Row, row': Row, now: int) {
    && FetchedAt(row, row', now) && row'.applied == row.applied
    && row'.lastChangedAt == row.lastChangedAt && row'.changeCount == row.changeCount
  }

  /** The list is applied; a change of edges is counted and dated. */
  predicate Written(row: Row, row': Row, list: FollowList, changed: bool, now: int) {
    && FetchedAt(row, row', now)
    && row'.applied.Some? && row'.applied.value.eventId == list.eventId
    && row'.applied.value.createdAt == list.createdAt
    && (if changed
        then row'.lastChangedAt == Some(now) && row'.changeCount == row.changeCount + 1
        else row'.lastChangedAt == row.lastChangedAt && row'.changeCount == row.changeCount)
  }

  /** A key seen for the first time. */
  predicate Fresh(row: Row) {
    && row.status.Discovered? && row.claimedAt.None? && row.attempts == 0 && row.applied.None?
    && row.lastFetchedAt.None? && row.lastConfirmedAt.None? && row.lastChangedAt.None?
    && row.fetchCount == 0 && row.changeCount == 0
  }

  /** A terminal row fetched more than `ttl` before `now`. */
  predicate Stale(row: Row, now: int, ttl: int) {
    && (row.status.Fetched? || row.status.NotFound? || row.status.Failed?)
    && row.lastFetchedAt.Some? && now > row.lastFetchedAt.value + ttl
  }

  /** A lease taken more than `age` before `now`. */
  predicate Overdue(row: Row, now: int, age: int) {
    row.status.InProgress? && row.claimedAt.Some? && now > row.claimedAt.value + age
  }

  // --------------------------------------------------------- one statement

  /** Every row that `back` names is put back, and nothing else changes. */
  ghost predicate Sweeps(db: Db, db': Db, back: Row -> bool) {
    && db'.pubkeys.Keys == db.pubkeys.Keys && db'.follows == db.follows && db'.nextId == db.nextId
    && forall k | k in db.pubkeys ::
         if back(db.pubkeys[k]) then PutBack(db.pubkeys[k], db'.pubkeys[k]) else db'.pubkeys[k] == db.pubkeys[k]
  }

  /** The startup sweep puts back every lease, the staleness sweep exactly the stale rows, the age
      sweep exactly the overdue leases. */
  lemma SweepsPutBack(db: Db, now: int, limit: int)
    ensures Sweeps(db, ReclaimOnStartup(db), (row: Row) => row.status.InProgress?)
    ensures Sweeps(db, ReclaimByTtl(db, now, limit), (row: Row) => Stale(row, now, limit))
    ensures Sweeps(db, ReclaimByAge(db, now, limit), (row: Row) => Overdue(row, now, limit))
  {
  }

  /** Row `k` changes as `how` says, no other row and no edge does. */
  ghost predicate Changes(db: Db, db': Db, k: PubKey, how: (Row, Row) -> bool) {
    && db'.follows == db.follows && db'.pubkeys.Keys == db.pubkeys.Keys
    && (k in db.pubkeys ==> how(db.pubkeys[k], db'.pubkeys[k]))
    && forall j | j in db.pubkeys && j != k :: db'.pubkeys[j] == db.pubkeys[j]
  }

  lemma ResolutionsChange(db: Db, k: PubKey, maxAttempts: int, stamp: int)
    ensures Changes(db, RequeueOrFail(db, k, maxAttempts, stamp), k,
                    (row: Row, row': Row) => Retried(row, row', maxAttempts, stamp))
    ensures Changes(db, SetFetchStatus(db, k, NotFound, stamp), k, (row: Row, row': Row) => Missed(row, row', stamp))
    ensures Changes(db, Reconfirm(db, k, stamp), k, (row: Row, row': Row) => Confirmed(row, row', stamp))
  {
  }

  /** An unseen key gets a fresh row with the next id; a seen one keeps its row. */
  lemma UpsertInserts(db: Db, k: PubKey)
    ensures var db' := Upsert(db, k);
            && db'.follows == db.follows && db'.nextId == db.nextId + 1
            && db'.pubkeys.Keys == db.pubkeys.Keys + {k}
            && (forall j | j in db.pubkeys :: db'.pubkeys[j] == db.pubkeys[j])
            && (k !in db.pubkeys ==> Fresh(db'.pubkeys[k]) && db'.pubkeys[k].id == db.nextId)
  {
  }

  lemma LeaseClaims(db: Db, batch: seq<PubKey>, now: int)
    ensures var db' := Lease(db, batch, now);
            && db'.follows == db.follows && db'.pubkeys.Keys == db.pubkeys.Keys
            && forall k | k in db.pubkeys ::
                 if k in batch then Claimed(db.pubkeys[k], db'.pubkeys[k], now) else db'.pubkeys[k] == db.pubkeys[k]
  {
  }

  /** The transaction keeps other rows and edges; of the follower's edges it deletes those read that
      the list lacks and inserts those of the list that were not read. */
  lemma WriteDiffWritesEdges(db: Db, f: PubKey, list: FollowList, current: set<PubKey>, now: int)
    requires f in db.pubkeys
    ensures var db' := WriteDiff(db, f, list, current, now);
            && db'.pubkeys.Keys == db.pubkeys.Keys
            && (forall k | k in db.pubkeys && k != f :: db'.pubkeys[k] == db.pubkeys[k])
            && (forall k | k != f :: Out(db', k) == Out(db, k))
            && (forall g :: g in Out(db', f) <==>
                  if g in list.followees && g != f then g in Out(db, f) || g !in current
                  else g in Out(db, f) && g !in current)
  {
  }

  /** And it applies the list to the row, counting a change if the list and the read differ. */
  lemma WriteDiffWritesRow(db: Db, f: PubKey, list: FollowList, current: set<PubKey>, now: int)
    requires f in db.pubkeys
    ensures f in WriteDiff(db, f, list, current, now).pubkeys
    ensures Written(db.pubkeys[f], WriteDiff(db, f, list, current, now).pubkeys[f], list,
                    current != Others(list, f), now)
  {
    assert Others(list, f) - current == {} && current - Others(list, f) == {} <==> current == Others(list, f);
  }

  /** The list without self-follow. */
  function Others(list: FollowList, f: PubKey): set<PubKey> {
    set g | g in list.followees && g != f
  }

  // -------------------------------------------------------------- one step

  /** What a step may do to a row that is there. */
  ghost predicate RowStep(cfg: Config, s: State, l: Label, k: PubKey, row: Row, row': Row)
    requires Enabled(cfg, s, l)
  {
    match l
    case Startup => if row.status.InProgress? then PutBack(row, row') else row' == row
    case Claim(batch, _, now) => if k in batch then Claimed(row, row', now) else row' == row
    case SweepTtl(now) => if Stale(row, now, cfg.ttl) then PutBack(row, row') else row' == row
    case SweepAge(now) => if Overdue(row, now, cfg.age) then PutBack(row, row') else row' == row
    case Work(w, act) => if k == s.workers[w].todo[0] then ActOnRow(cfg, s.workers[w], act, row, row') else row' == row
    case _ => row' == row
  }

  /** What an act may do to the row of its author. */
  ghost predicate ActOnRow(cfg: Config, w: Worker, act: Act, row: Row, row': Row)
    requires ActEnabled(cfg, w, act)
  {
    match act
    case Requeue(stamp) => Retried(row, row', cfg.maxAttempts, stamp)
    case Miss(stamp) => Missed(row, row', stamp)
    case Confirm(now) => Confirmed(row, row', now)
    case Commit(now) => Written(row, row', w.phase.list, w.phase.current != Others(w.phase.list, w.todo[0]), now)
    case _ => row' == row
  }

  lemma ActChangesRow(cfg: Config, db: Db, w: Worker, act: Act, k: PubKey)
    requires ActEnabled(cfg, w, act) && k in db.pubkeys
    ensures k in ActDb(cfg, db, w, act).pubkeys
    ensures k == w.todo[0] ==> ActOnRow(cfg, w, act, db.pubkeys[k], ActDb(cfg, db, w, act).pubkeys[k])
    ensures k != w.todo[0] ==> ActDb(cfg, db, w, act).pubkeys[k] == db.pubkeys[k]
  {
    if act.Commit? && k == w.todo[0] {
      WriteDiffWritesRow(db, k, w.phase.list, w.phase.current, act.now);
    }
  }

  /** In every state of every run, for every step: each row either keeps all its columns or changes
      in the one way the step's statement has for it, at the time the step carries; and a row that
      appears is fresh, the anchor's or the next one a worker upserts. */
  lemma StepChangesRow(cfg: Config, s: State, l: Label, k: PubKey)
    requires Enabled(cfg, s, l)
    ensures k in s.db.pubkeys ==>
              && k in Step(cfg, s, l).db.pubkeys
              && RowStep(cfg, s, l, k, s.db.pubkeys[k], Step(cfg, s, l).db.pubkeys[k])
    ensures k !in s.db.pubkeys && k in Step(cfg, s, l).db.pubkeys ==>
              && Fresh(Step(cfg, s, l).db.pubkeys[k])
              && (|| (l.Seed? && k == cfg.anchor)
                  || (l.Work? && l.act.UpsertNext? && k == s.workers[l.w].phase.left[0]))
  {
    if k in s.db.pubkeys && l.Work? {
      ActChangesRow(cfg, s.db, s.workers[l.w], l.act, k);
    }
  }
}
