/** The two tables and, for each SQL statement or transaction the crawler issues,
    the function from the table contents before it to the contents after it.

    Rows are keyed by the unique `pubkey` column; the surrogate id is a field that
    only orders claims. Edges are grouped by follower. */
module Tables {
  import opened Wrappers
  import opened Nostr

  datatype Status = Discovered | InProgress | Fetched | NotFound | Failed {
    predicate Terminal() {
      Fetched? || NotFound? || Failed?
    }
  }

  datatype Applied = Applied(eventId: EventId, createdAt: Timestamp)

  datatype Row = Row(
    id: nat,
    status: Status,
    claimedAt: Option<int>,
    attempts: nat,
    lastFetchedAt: Option<int>,
    lastConfirmedAt: Option<int>,
    lastChangedAt: Option<int>,
    fetchCount: nat,
    changeCount: nat,
    applied: Option<Applied>)
  {
    /** A row pushed back to the frontier by one of the three sweeps. */
    function Reset(): Row {
      this.(status := Discovered, claimedAt := None, attempts := 0)
    }

    /** One failed fetch attempt: retry below the cap, otherwise give up. */
    function Bumped(maxAttempts: int, stamp: int): Row {
      if attempts + 1 >= maxAttempts
      then this.(attempts := attempts + 1, status := Failed, lastFetchedAt := Some(stamp), claimedAt := None)
      else this.(attempts := attempts + 1, status := Discovered, claimedAt := None)
    }

    predicate OlderThan(stamp: Option<int>, now: int, age: int) {
      stamp.Some? && stamp.value < now - age
    }
  }

  function NewRow(id: nat): Row {
    Row(id, Discovered, None, 0, None, None, None, 0, 0, None)
  }

  datatype Db = Db(nextId: nat, pubkeys: map<PubKey, Row>, follows: map<PubKey, set<PubKey>>)

  const EMPTY_DB := Db(0, map[], map[])

  /** The followees stored for `f`. */
  function Out(db: Db, f: PubKey): set<PubKey> {
    if f in db.follows then db.follows[f] else {}
  }

  predicate HasStatus(db: Db, k: PubKey, st: Status) {
    k in db.pubkeys && db.pubkeys[k].status == st
  }

  /** `upsert_pubkey`: the insert draws an identity value whether or not it conflicts. */
  function Upsert(db: Db, k: PubKey): Db {
    if k in db.pubkeys
    then db.(nextId := db.nextId + 1)
    else db.(nextId := db.nextId + 1, pubkeys := db.pubkeys[k := NewRow(db.nextId)])
  }

  /** `UPDATE pubkeys ... WHERE id = ..`: no row, no change. */
  function SetRow(db: Db, k: PubKey, row: Row): Db {
    if k in db.pubkeys then db.(pubkeys := db.pubkeys[k := row]) else db
  }

  function SetFetchStatus(db: Db, k: PubKey, status: Status, stamp: int): Db {
    if k in db.pubkeys
    then SetRow(db, k, db.pubkeys[k].(status := status, lastFetchedAt := Some(stamp)))
    else db
  }

  function RequeueOrFail(db: Db, k: PubKey, maxAttempts: int, stamp: int): Db {
    if k in db.pubkeys then SetRow(db, k, db.pubkeys[k].Bumped(maxAttempts, stamp)) else db
  }

  /** The rows a claim may take: discovered and not skipped as locked. */
  function Claimable(db: Db, locked: set<PubKey>): set<PubKey> {
    set k | k in db.pubkeys && db.pubkeys[k].status == Discovered && k !in locked
  }

  /** `batch` holds the `limit` rows of `open` with the smallest ids, in any order. */
  ghost predicate IsFirst(db: Db, open: set<PubKey>, limit: nat, batch: seq<PubKey>)
    requires open <= db.pubkeys.Keys
  {
    && Distinct(batch)
    && ToSet(batch) <= open
    && |batch| == Min(limit, |open|)
    && forall b, o | b in ToSet(batch) && o in open - ToSet(batch) :: db.pubkeys[b].id <= db.pubkeys[o].id
  }

  /** What `SELECT .. WHERE status = 'discovered' ORDER BY id LIMIT n FOR UPDATE SKIP LOCKED`
      may select when the rows `locked` are skipped. */
  ghost predicate IsClaim(db: Db, locked: set<PubKey>, limit: nat, batch: seq<PubKey>) {
    IsFirst(db, Claimable(db, locked), limit, batch)
  }

  function Lease(db: Db, batch: seq<PubKey>, now: int): Db {
    db.(pubkeys := map k | k in db.pubkeys ::
      if k in batch then db.pubkeys[k].(status := InProgress, claimedAt := Some(now)) else db.pubkeys[k])
  }

  function ReclaimOnStartup(db: Db): Db {
    db.(pubkeys := map k | k in db.pubkeys ::
      var row := db.pubkeys[k]; if row.status.InProgress? then row.Reset() else row)
  }

  function ReclaimByTtl(db: Db, now: int, ttl: int): Db {
    db.(pubkeys := map k | k in db.pubkeys ::
      var row := db.pubkeys[k];
      if row.status.Terminal() && row.OlderThan(row.lastFetchedAt, now, ttl) then row.Reset() else row)
  }

  function ReclaimByAge(db: Db, now: int, age: int): Db {
    db.(pubkeys := map k | k in db.pubkeys ::
      var row := db.pubkeys[k];
      if row.status.InProgress? && row.OlderThan(row.claimedAt, now, age) then row.Reset() else row)
  }

  /** The edge set a follow list stands for: its followees, self-follows dropped. */
  function Targets(list: FollowList): set<PubKey> {
    ToSet(list.followees) - {list.follower}
  }

  /** The same event is already applied: only the confirmation counters move. */
  function Reconfirm(db: Db, f: PubKey, now: int): Db {
    if f in db.pubkeys
    then
      var row := db.pubkeys[f];
      SetRow(db, f, row.(status := Fetched, lastFetchedAt := Some(now), lastConfirmedAt := Some(now),
        fetchCount := row.fetchCount + 1))
    else db
  }

  /** The edge-diff transaction: `current` is what the worker read before it began. */
  function WriteDiff(db: Db, f: PubKey, list: FollowList, current: set<PubKey>, now: int): Db {
    if f in db.pubkeys
    then
      var wanted := ToSet(list.followees) - {f};
      var added, removed := wanted - current, current - wanted;
      var changed := added != {} || removed != {};
      var row := db.pubkeys[f];
      var row' := row.(status := Fetched, applied := Some(Applied(list.eventId, list.createdAt)),
        lastFetchedAt := Some(now), lastConfirmedAt := Some(now), fetchCount := row.fetchCount + 1,
        lastChangedAt := if changed then Some(now) else row.lastChangedAt,
        changeCount := row.changeCount + if changed then 1 else 0);
      db.(pubkeys := db.pubkeys[f := row'], follows := db.follows[f := Out(db, f) - removed + added])
    else db
  }
}
