/** The tables as the store methods update them in place. */
module Database {
  import opened Wrappers
  import opened Nostr
  import opened Tables
  import opened Protocol
  import opened WorkerRuns
  import opened RowLaws

  /** `batch` was picked from `all`, oldest first, and `open` is left. */
  ghost predicate Picked(rows: map<PubKey, Row>, limit: nat, all: set<PubKey>, batch: seq<PubKey>, open: set<PubKey>)
    requires all <= rows.Keys
  {
    && Distinct(batch) && |batch| <= limit && |batch| + |open| == |all|
    && ToSet(batch) !! open && ToSet(batch) + open == all
    && forall b, o | b in ToSet(batch) && o in open :: rows[b].id <= rows[o].id
  }

  lemma PickOne(rows: map<PubKey, Row>, limit: nat, all: set<PubKey>, batch: seq<PubKey>, open: set<PubKey>, k: PubKey)
    requires all <= rows.Keys && Picked(rows, limit, all, batch, open) && |batch| < limit
    requires k in open && forall o | o in open :: rows[k].id <= rows[o].id
    ensures Picked(rows, limit, all, batch + [k], open - {k})
  {
    assert ToSet(batch + [k]) == ToSet(batch) + {k};
    assert k !in batch by { assert k !in ToSet(batch); }
    assert |open - {k}| == |open| - 1;
  }

  /** The claimed rows were discovered and not locked, and are leased at `now`; every other row
      stays; one is passed over only for `limit` others, none of them younger. */
  ghost predicate OldestClaimed(db: Db, db': Db, locked: set<PubKey>, limit: nat, batch: seq<PubKey>, now: int) {
    && (forall k | k in batch ::
          && k in db.pubkeys && k !in locked && db.pubkeys[k].status.Discovered?
          && k in db'.pubkeys && Claimed(db.pubkeys[k], db'.pubkeys[k], now))
    && (forall k | k in db.pubkeys && k !in batch :: k in db'.pubkeys && db'.pubkeys[k] == db.pubkeys[k])
    && Distinct(batch)
    && (forall o | o in db.pubkeys && o !in batch && o !in locked && db.pubkeys[o].status.Discovered? ::
          |batch| == limit && forall b | b in batch :: db.pubkeys[b].id <= db.pubkeys[o].id)
  }

  lemma ClaimTakesOldest(db: Db, locked: set<PubKey>, limit: nat, batch: seq<PubKey>, now: int)
    requires IsClaim(db, locked, limit, batch)
    ensures OldestClaimed(db, Lease(db, batch, now), locked, limit, batch, now)
  {
    var open := Claimable(db, locked);
    forall k ensures k in batch <==> k in ToSet(batch) {}
    forall k | k in batch ensures k in open {
      assert k in ToSet(batch);
    }
    DistinctSize(batch);
    forall o | o in db.pubkeys && o !in batch && o !in locked && db.pubkeys[o].status.Discovered?
      ensures |batch| == limit && forall b | b in batch :: db.pubkeys[b].id <= db.pubkeys[o].id
    {
      assert o in open - ToSet(batch);
      if |batch| == |open| { SubsetSize(ToSet(batch), open); }
    }
  }

  datatype StoreError = RowNotFound

  class Pool {
    var nextId: nat
    var pubkeys: map<PubKey, Row>
    var follows: map<PubKey, set<PubKey>>

    function Contents(): Db
      reads this
    {
      Db(nextId, pubkeys, follows)
    }

    constructor ()
      ensures Contents() == EMPTY_DB
    {
      nextId, pubkeys, follows := 0, map[], map[];
    }

    /** Get or create: an unseen key lands as `discovered`, a seen one keeps its row. */
    method UpsertPubkey(k: PubKey) returns (id: nat)
      modifies this
      ensures Contents() == Upsert(old(Contents()), k)
      ensures k in pubkeys && id == pubkeys[k].id
      ensures k in old(pubkeys) ==> pubkeys == old(pubkeys)
      ensures k !in old(pubkeys) ==> Fresh(pubkeys[k]) && id == old(nextId)
      ensures forall j | j in old(pubkeys) :: j in pubkeys && pubkeys[j] == old(pubkeys)[j]
      ensures follows == old(follows) && pubkeys.Keys == old(pubkeys).Keys + {k}
    {
      if k !in pubkeys {
        pubkeys := pubkeys[k := NewRow(nextId)];
      }
      nextId := nextId + 1;
      id := pubkeys[k].id;
    }

    method SetStatus(k: PubKey, status: Status, stamp: int)
      modifies this`pubkeys
      ensures Contents() == SetFetchStatus(old(Contents()), k, status, stamp)
      ensures status.NotFound? ==>
                Changes(old(Contents()), Contents(), k, (row: Row, row': Row) => Missed(row, row', stamp))
    {
      if k in pubkeys {
        pubkeys := pubkeys[k := pubkeys[k].(status := status, lastFetchedAt := Some(stamp))];
      }
    }

    method Requeue(k: PubKey, maxAttempts: int, stamp: int)
      modifies this`pubkeys
      ensures Contents() == RequeueOrFail(old(Contents()), k, maxAttempts, stamp)
      ensures Changes(old(Contents()), Contents(), k,
                      (row: Row, row': Row) => Retried(row, row', maxAttempts, stamp))
    {
      if k in pubkeys {
        var row := pubkeys[k].(attempts := pubkeys[k].attempts + 1, claimedAt := None);
        if row.attempts >= maxAttempts {
          row := row.(status := Failed, lastFetchedAt := Some(stamp));
        } else {
          row := row.(status := Discovered);
        }
        pubkeys := pubkeys[k := row];
      }
    }

    /** Lease the `limit` oldest discovered rows that are not locked. */
    method ClaimBatch(limit: nat, locked: set<PubKey>, now: int) returns (batch: seq<PubKey>)
      modifies this`pubkeys
      ensures IsClaim(old(Contents()), locked, limit, batch)
      ensures Contents() == Lease(old(Contents()), batch, now)
      ensures OldestClaimed(old(Contents()), Contents(), locked, limit, batch, now)
    {
      batch := [];
      var open := Claimable(Contents(), locked);
      ghost var all := open;
      while |batch| < limit && open != {}
        invariant pubkeys == old(pubkeys) && all <= pubkeys.Keys
        invariant Picked(pubkeys, limit, all, batch, open)
        decreases open
      {
        var k := OldestOf(open);
        PickOne(pubkeys, limit, all, batch, open, k);
        batch, open := batch + [k], open - {k};
      }
      assert all - ToSet(batch) == open && Contents() == old(Contents());
      ClaimTakesOldest(old(Contents()), locked, limit, batch, now);
      pubkeys := Lease(Contents(), batch, now).pubkeys;
    }

    method OldestOf(open: set<PubKey>) returns (k: PubKey)
      requires open != {} && open <= pubkeys.Keys
      ensures k in open && forall o | o in open :: pubkeys[k].id <= pubkeys[o].id
    {
      k :| k in open;
      var rest := open - {k};
      while rest != {}
        invariant k in open && rest <= open
        invariant forall o | o in open - rest :: pubkeys[k].id <= pubkeys[o].id
        decreases rest
      {
        var j :| j in rest;
        if pubkeys[j].id < pubkeys[k].id { k := j; }
        rest := rest - {j};
      }
    }

    /** Every sweep returns how many rows it reset. */
    method ReclaimStaleOnStartup() returns (n: nat)
      modifies this`pubkeys
      ensures Contents() == ReclaimOnStartup(old(Contents()))
      ensures n == |set k | k in old(pubkeys) && old(pubkeys)[k].status == InProgress|
      ensures forall k :: !HasStatus(Contents(), k, InProgress)
      ensures Sweeps(old(Contents()), Contents(), (row: Row) => row.status.InProgress?)
    {
      n := |set k | k in pubkeys && pubkeys[k].status == InProgress|;
      pubkeys := map k | k in pubkeys ::
        if pubkeys[k].status.InProgress? then pubkeys[k].Reset() else pubkeys[k];
    }

    method ReclaimStaleByTtl(now: int, ttl: int) returns (n: nat)
      modifies this`pubkeys
      ensures Contents() == ReclaimByTtl(old(Contents()), now, ttl)
      ensures n == |set k | k in old(pubkeys) && old(pubkeys)[k] != pubkeys[k]|
      ensures n == |set k | k in old(pubkeys) && Stale(old(pubkeys)[k], now, ttl)|
      ensures Sweeps(old(Contents()), Contents(), (row: Row) => Stale(row, now, ttl))
    {
      var stale := set k | k in pubkeys && pubkeys[k].status.Terminal()
                           && pubkeys[k].OlderThan(pubkeys[k].lastFetchedAt, now, ttl);
      n := |stale|;
      pubkeys := map k | k in pubkeys :: if k in stale then pubkeys[k].Reset() else pubkeys[k];
      assert stale == set k | k in old(pubkeys) && Stale(old(pubkeys)[k], now, ttl);
      assert stale == set k | k in old(pubkeys) && old(pubkeys)[k] != pubkeys[k];
    }

    method ReclaimInProgressOlderThan(now: int, age: int) returns (n: nat)
      modifies this`pubkeys
      ensures Contents() == ReclaimByAge(old(Contents()), now, age)
      ensures n == |set k | k in old(pubkeys) && old(pubkeys)[k] != pubkeys[k]|
      ensures n == |set k | k in old(pubkeys) && Overdue(old(pubkeys)[k], now, age)|
      ensures Sweeps(old(Contents()), Contents(), (row: Row) => Overdue(row, now, age))
    {
      var stale := set k | k in pubkeys && pubkeys[k].status.InProgress?
                           && pubkeys[k].OlderThan(pubkeys[k].claimedAt, now, age);
      n := |stale|;
      pubkeys := map k | k in pubkeys :: if k in stale then pubkeys[k].Reset() else pubkeys[k];
      assert stale == set k | k in old(pubkeys) && Overdue(old(pubkeys)[k], now, age);
      assert stale == set k | k in old(pubkeys) && old(pubkeys)[k] != pubkeys[k];
    }

    /** One `DELETE` per edge. */
    method DeleteEdges(f: PubKey, edges: set<PubKey>)
      requires f in follows
      modifies this`follows
      ensures follows == old(follows)[f := old(follows)[f] - edges]
    {
      var rest := edges;
      while rest != {}
        invariant rest <= edges && follows == old(follows)[f := Out(Contents(), f)]
        invariant Out(Contents(), f) == old(follows)[f] - (edges - rest)
        decreases rest
      {
        var x :| x in rest;
        follows := follows[f := follows[f] - {x}];
        rest := rest - {x};
      }
      assert edges - rest == edges;
    }

    /** One `INSERT` per edge. */
    method InsertEdges(f: PubKey, edges: set<PubKey>)
      requires f in follows
      modifies this`follows
      ensures follows == old(follows)[f := old(follows)[f] + edges]
    {
      var rest := edges;
      while rest != {}
        invariant rest <= edges && follows == old(follows)[f := Out(Contents(), f)]
        invariant Out(Contents(), f) == old(follows)[f] + (edges - rest)
        decreases rest
      {
        var x :| x in rest;
        follows := follows[f := follows[f] + {x}];
        rest := rest - {x};
      }
      assert edges - rest == edges;
    }

    /** The edge writer with nobody else writing: the edges become the list's targets, the
        event is recorded, and every other row and edge set stays; an event already applied
        touches no edge. Returns whether the list was written; a missing row is an error. */
    method ApplyFollowList(f: PubKey, list: FollowList, now: int) returns (written: Result<bool, StoreError>)
      modifies this`pubkeys, this`follows
      ensures written.Err? <==> f !in old(pubkeys)
      ensures written.Err? ==> Contents() == old(Contents())
      ensures written.Ok? ==> written.value == !AlreadyApplied(old(Contents()), f, list.eventId)
      ensures written == Ok(false) ==> Contents() == Reconfirm(old(Contents()), f, now)
      ensures written == Ok(true) ==> Contents() == WriteDiff(old(Contents()), f, list, Out(old(Contents()), f), now)
      ensures written == Ok(true) ==> Out(Contents(), f) == ToSet(list.followees) - {f}
      ensures forall g | g != f :: Out(Contents(), g) == Out(old(Contents()), g)
      ensures forall g | g in old(pubkeys) && g != f :: g in pubkeys && pubkeys[g] == old(pubkeys)[g]
      ensures pubkeys.Keys == old(pubkeys).Keys
      ensures written == Ok(false) ==> Confirmed(old(pubkeys)[f], pubkeys[f], now) && follows == old(follows)
      ensures written == Ok(true) ==>
                Written(old(pubkeys)[f], pubkeys[f], list, Out(Contents(), f) != Out(old(Contents()), f), now)
    {
      if f !in pubkeys {
        return Err(RowNotFound);
      }
      var row := pubkeys[f];
      if row.applied.Some? && row.applied.value.eventId == list.eventId {
        pubkeys := pubkeys[f := row.(status := Fetched, lastFetchedAt := Some(now),
          lastConfirmedAt := Some(now), fetchCount := row.fetchCount + 1)];
        return Ok(false);
      }
      var wanted := set x | x in list.followees && x != f;
      assert wanted == ToSet(list.followees) - {f};
      var current := Out(Contents(), f);
      var added, removed := wanted - current, current - wanted;
      var changed := added != {} || removed != {};
      follows := follows[f := current];
      DeleteEdges(f, removed);
      InsertEdges(f, added);
      assert follows == old(follows)[f := current - removed + added];
      pubkeys := pubkeys[f := row.(status := Fetched, applied := Some(Applied(list.eventId, list.createdAt)),
        lastFetchedAt := Some(now), lastConfirmedAt := Some(now), fetchCount := row.fetchCount + 1,
        lastChangedAt := if changed then Some(now) else row.lastChangedAt,
        changeCount := row.changeCount + if changed then 1 else 0)];
      return Ok(true);
    }

    /** One upsert of `apply_validated`. */
    method UpsertOne(cfg: Config, k: PubKey, ghost x: Local, ghost trace: seq<Act>, ghost y: Local)
      returns (ghost trace': seq<Act>, ghost y': Local)
      requires Runs(cfg, x, trace, y) && y.db == Contents()
      requires y.w.todo != [] && y.w.phase.Upserting? && y.w.phase.left != [] && y.w.phase.left[0] == k
      modifies this
      ensures Runs(cfg, x, trace', y') && y'.db == Contents()
      ensures y'.w == y.w.(phase := y.w.phase.(left := y.w.phase.left[1..]))
      ensures Seen(old(Contents()), Contents(), {k})
    {
      var id := UpsertPubkey(k);
      RunsOn(cfg, x, trace, y, UpsertNext);
      trace', y' := trace + [UpsertNext], Act1(cfg, y, UpsertNext);
    }

    /** The upserts of `apply_validated`: the follower and every followee, one by one. */
    method UpsertAll(cfg: Config, list: FollowList, ghost x: Local, ghost trace: seq<Act>, ghost y: Local)
      returns (ghost trace': seq<Act>, ghost y': Local)
      requires Runs(cfg, x, trace, y) && y.db == Contents()
      requires y.w.todo != [] && y.w.phase.Upserting? && y.w.phase.list == list
      requires y.w.phase.left == [list.follower] + list.followees
      modifies this
      ensures Runs(cfg, x, trace', y') && y'.db == Contents()
      ensures y'.w == Worker(y.w.todo, Upserting(y.w.phase.lists, list, []))
      ensures Seen(old(Contents()), Contents(), {list.follower} + ToSet(list.followees))
    {
      trace', y' := UpsertOne(cfg, list.follower, x, trace, y);
      assert y.w.phase.left[1..] == list.followees;
      var i := 0;
      while i < |list.followees|
        invariant i <= |list.followees|
        invariant Runs(cfg, x, trace', y') && y'.db == Contents()
        invariant y'.w == Worker(y.w.todo, Upserting(y.w.phase.lists, list, list.followees[i..]))
        invariant Seen(old(Contents()), Contents(), {list.follower} + ToSet(list.followees[..i]))
      {
        assert list.followees[..i + 1] == list.followees[..i] + [list.followees[i]];
        assert list.followees[i..][1..] == list.followees[i + 1..];
        assert ToSet(list.followees[..i + 1]) == ToSet(list.followees[..i]) + {list.followees[i]};
        ghost var mid := Contents();
        trace', y' := UpsertOne(cfg, list.followees[i], x, trace', y');
        SeenMore(old(Contents()), mid, Contents(), {list.follower} + ToSet(list.followees[..i]),
                 {list.follower} + ToSet(list.followees[..i + 1]), list.followees[i]);
        i := i + 1;
      }
      assert list.followees[|list.followees|..] == [] && list.followees[..|list.followees|] == list.followees;
    }

    /** The writer's part of `apply_validated`, once all keys of the list are rows. */
    method WriteUpserted(cfg: Config, list: FollowList, now: int,
                         ghost x: Local, ghost trace: seq<Act>, ghost y: Local)
      returns (ghost trace': seq<Act>, ghost y': Local)
      requires Runs(cfg, x, trace, y) && y.db == Contents() && y.w.todo != [] && list.follower == y.w.todo[0]
      requires y.w.phase.Upserting? && y.w.phase.list == list && y.w.phase.left == []
      requires list.follower in pubkeys && forall g | g in list.followees :: g in pubkeys
      modifies this
      ensures Runs(cfg, x, trace', y') && y'.db == Contents()
      ensures y'.w == Worker(y.w.todo[1..], Resolving(y.w.phase.lists))
      ensures ListApplied(old(Contents()), Contents(), list, now)
      ensures Grows(old(Contents()), Contents(), list.follower, [])
    {
      RunsOn(cfg, x, trace, y, ReadEvent);
      trace', y' := trace + [ReadEvent], Act1(cfg, y, ReadEvent);
      var written := ApplyFollowList(list.follower, list, now);
      if written.value {
        RunsOn(cfg, x, trace', y', ReadEdges);
        trace', y' := trace' + [ReadEdges], Act1(cfg, y', ReadEdges);
        RunsOn(cfg, x, trace', y', Commit(now));
        trace', y' := trace' + [Commit(now)], Act1(cfg, y', Commit(now));
      } else {
        RunsOn(cfg, x, trace', y', Confirm(now));
        trace', y' := trace' + [Confirm(now)], Act1(cfg, y', Confirm(now));
      }
    }

    /** `apply_validated` for the first author of the batch: the ghost trace shows the
        statements issued are the worker's acts, one by one. */
    method ApplyValidated(cfg: Config, list: FollowList, now: int,
                          ghost x: Local, ghost trace: seq<Act>, ghost y: Local)
      returns (ghost trace': seq<Act>, ghost y': Local)
      requires Runs(cfg, x, trace, y) && y.db == Contents()
      requires y.w.todo != [] && list.follower == y.w.todo[0]
      requires y.w.phase.Upserting? && y.w.phase.list == list
      requires y.w.phase.left == [list.follower] + list.followees
      modifies this
      ensures Runs(cfg, x, trace', y') && y'.db == Contents()
      ensures y'.w == Worker(y.w.todo[1..], Resolving(y.w.phase.lists))
      ensures HasStatus(Contents(), list.follower, Fetched)
      ensures !AlreadyApplied(old(Contents()), list.follower, list.eventId) ==>
                Out(Contents(), list.follower) == Targets(list)
      ensures forall g | g in list.followees :: g in pubkeys
      ensures list.follower in old(pubkeys) ==> ListApplied(old(Contents()), Contents(), list, now)
      ensures Grows(old(Contents()), Contents(), list.follower, list.followees)
    {
      trace', y' := UpsertAll(cfg, list, x, trace, y);
      ghost var mid := Contents();
      SeenHasAll(old(Contents()), mid, list);
      trace', y' := WriteUpserted(cfg, list, now, x, trace', y');
      AppliedAfterSeen(old(Contents()), mid, Contents(), list, now);
    }

    /** One author of a batch whose fetch succeeded: apply its list or stamp `not_found`. */
    method ResolveAuthor(cfg: Config, a: PubKey, lists: map<PubKey, FollowList>, found: Option<FollowList>,
                         stamp: int, now: int, ghost x: Local, ghost trace: seq<Act>, ghost y: Local)
      returns (ghost trace': seq<Act>, ghost y': Local)
      requires Runs(cfg, x, trace, y) && y.db == Contents()
      requires y.w.todo != [] && y.w.todo[0] == a && y.w.phase == Resolving(lists)
      requires a in lists ==> found == Some(lists[a])
      requires a !in lists && found.Some? ==> cfg.mode.Daemon? && cfg.fallback
      requires found.Some? ==> found.value.follower == a
      modifies this
      ensures Runs(cfg, x, trace', y') && y'.db == Contents()
      ensures y'.w == Worker(y.w.todo[1..], Resolving(lists))
      ensures found.Some? ==> HasStatus(Contents(), a, Fetched)
      ensures found.None? ==> Contents() == SetFetchStatus(old(Contents()), a, NotFound, stamp)
      ensures found.Some? && a in old(pubkeys) ==> ListApplied(old(Contents()), Contents(), found.value, now)
      ensures found.None? && a in old(pubkeys) ==> AuthorMissed(old(Contents()), Contents(), a, stamp)
      ensures Grows(old(Contents()), Contents(), a, if found.Some? then found.value.followees else [])
    {
      trace', y' := trace, y;
      if found.Some? {
        ghost var act := if a in lists then Begin else Recover(found.value);
        RunsOn(cfg, x, trace', y', act);
        trace', y' := trace' + [act], Act1(cfg, y', act);
        trace', y' := ApplyValidated(cfg, found.value, now, x, trace', y');
      } else {
        SetStatus(a, NotFound, stamp);
        RunsOn(cfg, x, trace', y', Miss(stamp));
        trace', y' := trace' + [Miss(stamp)], Act1(cfg, y', Miss(stamp));
      }
    }

    /** The union fetch failed: every author is requeued or fails. */
    method RequeueBatch(cfg: Config, batch: seq<PubKey>, stamp: int,
                        ghost x: Local, ghost trace: seq<Act>, ghost y: Local)
      returns (ghost trace': seq<Act>, ghost end: Worker)
      requires Runs(cfg, x, trace, y) && y == Local(Contents(), Worker(batch, Failing))
      modifies this
      ensures Runs(cfg, x, trace', Local(Contents(), end)) && end == Worker([], Failing)
      ensures follows == old(follows) && pubkeys.Keys == old(pubkeys).Keys
      ensures forall k | k in old(pubkeys) && k !in batch :: pubkeys[k] == old(pubkeys)[k]
      ensures Distinct(batch) ==>
                forall k | k in old(pubkeys) && k in batch ::
                  Retried(old(pubkeys)[k], pubkeys[k], cfg.maxAttempts, stamp)
    {
      trace' := trace;
      ghost var at := y;
      for i := 0 to |batch|
        invariant Runs(cfg, x, trace', at) && at == Local(Contents(), Worker(batch[i..], Failing))
        invariant follows == old(follows) && pubkeys.Keys == old(pubkeys).Keys
        invariant forall k | k in old(pubkeys) && k !in batch[..i] :: pubkeys[k] == old(pubkeys)[k]
        invariant Distinct(batch) ==>
                    forall k | k in old(pubkeys) && k in batch[..i] ::
                      Retried(old(pubkeys)[k], pubkeys[k], cfg.maxAttempts, stamp)
      {
        assert batch[..i + 1] == batch[..i] + [batch[i]];
        Requeue(batch[i], cfg.maxAttempts, stamp);
        RunsOn(cfg, x, trace', at, Act.Requeue(stamp));
        trace', at := trace' + [Act.Requeue(stamp)], Act1(cfg, at, Act.Requeue(stamp));
      }
      end := at.w;
    }

    /** The union fetch succeeded: every author gets its list or is missed. */
    method ResolveBatch(cfg: Config, batch: seq<PubKey>, lists: map<PubKey, FollowList>,
                        recover: PubKey -> Option<FollowList>, stamp: int, now: int,
                        ghost x: Local, ghost trace: seq<Act>, ghost y: Local)
      returns (applied: nat, ghost trace': seq<Act>, ghost end: Worker)
      requires Runs(cfg, x, trace, y) && y == Local(Contents(), Worker(batch, Resolving(lists)))
      requires forall a | a in lists :: lists[a].follower == a
      requires forall a | recover(a).Some? :: recover(a).value.follower == a
      requires cfg.fallback ==> cfg.mode.Daemon?
      modifies this
      ensures Runs(cfg, x, trace', Local(Contents(), end)) && end == Worker([], Resolving(lists))
      ensures applied == |Hits(cfg, batch, lists, recover)|
      ensures BatchSoFar(cfg, old(Contents()), Contents(), batch, |batch|, lists, recover, stamp, now)
    {
      ghost var at := y;
      trace', applied := trace, 0;
      var i := 0;
      while i < |batch|
        invariant i <= |batch| && Runs(cfg, x, trace', at)
        invariant at == Local(Contents(), Worker(batch[i..], Resolving(lists)))
        invariant applied == |Hits(cfg, batch[..i], lists, recover)|
        invariant BatchSoFar(cfg, old(Contents()), Contents(), batch, i, lists, recover, stamp, now)
      {
        var a := batch[i];
        ghost var before := Contents();
        var found := Outcome(cfg, a, lists, recover);
        trace', at := ResolveAuthor(cfg, a, lists, found, stamp, now, x, trace', at);
        HitsNext(cfg, batch, lists, recover, i);
        NextResolved(cfg, old(Contents()), before, Contents(), batch, i, lists, recover, stamp, now);
        if found.Some? {
          applied := applied + 1;
        }
        i := i + 1;
      }
      assert batch[..|batch|] == batch && batch[|batch|..] == [];
      end := at.w;
    }

    /** `process_batch` with nobody else writing. `answer` is what the union fetch and the
        ingest pass returned, `recover` what the write-relay fallback finds for an author.
        It performs exactly the acts of the protocol's worker and leaves no author open. */
    method ProcessBatch(cfg: Config, batch: seq<PubKey>, answer: Option<map<PubKey, FollowList>>,
                        recover: PubKey -> Option<FollowList>, stamp: int, now: int)
      returns (applied: nat, ghost trace: seq<Act>, ghost end: Worker)
      requires answer.Some? ==> forall a | a in answer.value :: a in batch && answer.value[a].follower == a
      requires forall a | recover(a).Some? :: recover(a).value.follower == a
      requires cfg.fallback ==> cfg.mode.Daemon?
      modifies this
      ensures Runs(cfg, Local(old(Contents()), Worker(batch, Fetching)), trace, Local(Contents(), end))
      ensures end.todo == [] && (batch != [] ==> end.Done())
      ensures answer.None? ==> applied == 0
      ensures answer.Some? ==> applied == |Hits(cfg, batch, answer.value, recover)|
      ensures answer.Some? && Distinct(batch) ==>
                forall a | a in batch && a in old(pubkeys) ::
                  AuthorResolved(cfg, old(Contents()), Contents(), a, answer.value, recover, stamp, now)
      ensures answer.None? && Distinct(batch) ==>
                forall a | a in batch && a in old(pubkeys) ::
                  a in pubkeys && Retried(old(pubkeys)[a], pubkeys[a], cfg.maxAttempts, stamp)
                  && Out(Contents(), a) == Out(old(Contents()), a)
      ensures forall k | k in old(pubkeys) && k !in batch ::
                k in pubkeys && pubkeys[k] == old(pubkeys)[k] && Out(Contents(), k) == Out(old(Contents()), k)
    {
      ghost var x := Local(Contents(), Worker(batch, Fetching));
      ghost var y := x;
      trace, applied, end := [], 0, x.w;
      if batch == [] {
        return;
      }
      if answer.None? {
        RunsOn(cfg, x, trace, y, FetchErr);
        trace, y := trace + [FetchErr], Act1(cfg, y, FetchErr);
        trace, end := RequeueBatch(cfg, batch, stamp, x, trace, y);
        return;
      }
      RunsOn(cfg, x, trace, y, FetchOk(answer.value));
      trace, y := trace + [FetchOk(answer.value)], Act1(cfg, y, FetchOk(answer.value));
      applied, trace, end := ResolveBatch(cfg, batch, answer.value, recover, stamp, now, x, trace, y);
      assert batch[..|batch|] == batch;
    }
  }

  // ------------------------------------------- what becomes of the authors

  /** `list` is applied to its follower's row: fetched at `now`; an event already applied moves no
      edge, any other leaves exactly the list without its author; every followee is a row. */
  ghost predicate ListApplied(before: Db, after: Db, list: FollowList, now: int) {
    var f := list.follower;
    && f in before.pubkeys && f in after.pubkeys
    && (forall g | g in list.followees :: g in after.pubkeys)
    && (if before.pubkeys[f].applied.Some? && before.pubkeys[f].applied.value.eventId == list.eventId
        then Confirmed(before.pubkeys[f], after.pubkeys[f], now) && Out(after, f) == Out(before, f)
        else && Written(before.pubkeys[f], after.pubkeys[f], list, Out(after, f) != Out(before, f), now)
             && forall g :: g in Out(after, f) <==> g in list.followees && g != f)
  }

  /** `keys` are rows now: those that were not are fresh, nothing else has changed. */
  ghost predicate Seen(before: Db, after: Db, keys: set<PubKey>) {
    && after.pubkeys.Keys == before.pubkeys.Keys + keys && after.follows == before.follows
    && forall k | k in after.pubkeys ::
         if k in before.pubkeys then after.pubkeys[k] == before.pubkeys[k] else Fresh(after.pubkeys[k])
  }

  lemma SeenMore(before: Db, mid: Db, after: Db, keys: set<PubKey>, keys': set<PubKey>, k: PubKey)
    requires Seen(before, mid, keys) && Seen(mid, after, {k}) && keys' == keys + {k}
    ensures Seen(before, after, keys')
  {
  }

  lemma SeenHasAll(before: Db, mid: Db, list: FollowList)
    requires Seen(before, mid, {list.follower} + ToSet(list.followees))
    ensures list.follower in mid.pubkeys && forall g | g in list.followees :: g in mid.pubkeys
    ensures forall k | k in mid.pubkeys && k !in before.pubkeys ::
              (k == list.follower || k in list.followees) && Fresh(mid.pubkeys[k])
  {
    assert forall g :: g in list.followees <==> g in ToSet(list.followees);
    assert forall k :: k in mid.pubkeys <==> k in mid.pubkeys.Keys;
  }

  /** The upserts before the write change nothing of the follower's own row. */
  lemma AppliedAfterSeen(before: Db, mid: Db, after: Db, list: FollowList, now: int)
    requires Seen(before, mid, {list.follower} + ToSet(list.followees))
    requires ListApplied(mid, after, list, now) && Grows(mid, after, list.follower, [])
    ensures list.follower in before.pubkeys ==> ListApplied(before, after, list, now)
    ensures Grows(before, after, list.follower, list.followees)
    ensures HasStatus(after, list.follower, Fetched)
    ensures !AlreadyApplied(before, list.follower, list.eventId) ==> Out(after, list.follower) == Targets(list)
  {
    SeenHasAll(before, mid, list);
  }

  ghost predicate AuthorMissed(before: Db, after: Db, a: PubKey, stamp: int) {
    && a in before.pubkeys && a in after.pubkeys
    && Missed(before.pubkeys[a], after.pubkeys[a], stamp) && Out(after, a) == Out(before, a)
  }

  /** Rows and edges of others stay, and a new row is a fresh one of `a` or `followees`. */
  ghost predicate Grows(before: Db, after: Db, a: PubKey, followees: seq<PubKey>) {
    && (forall k | k in before.pubkeys :: k in after.pubkeys && (k != a ==> after.pubkeys[k] == before.pubkeys[k]))
    && (forall k | k != a :: Out(after, k) == Out(before, k))
    && (forall k | k in after.pubkeys && k !in before.pubkeys :: k == a || (k in followees && Fresh(after.pubkeys[k])))
  }

  /** An author with a curated list gets it; one without gets what the fallback recovers, if it is
      enabled and finds one; any other is not found. */
  ghost predicate AuthorResolved(cfg: Config, before: Db, after: Db, a: PubKey, lists: map<PubKey, FollowList>,
                                 recover: PubKey -> Option<FollowList>, stamp: int, now: int)
  {
    if a in lists then ListApplied(before, after, lists[a], now)
    else if cfg.fallback && recover(a).Some? then ListApplied(before, after, recover(a).value, now)
    else AuthorMissed(before, after, a, stamp)
  }

  /** The authors of a batch that end up with a list: curated, or recovered by an enabled fallback. */
  ghost function Hits(cfg: Config, batch: seq<PubKey>, lists: map<PubKey, FollowList>,
                      recover: PubKey -> Option<FollowList>): seq<PubKey>
  {
    if batch == [] then []
    else
      var rest, a := Hits(cfg, batch[..|batch| - 1], lists, recover), batch[|batch| - 1];
      if a in lists || (cfg.fallback && recover(a).Some?) then rest + [a] else rest
  }

  lemma HitsNext(cfg: Config, batch: seq<PubKey>, lists: map<PubKey, FollowList>,
                 recover: PubKey -> Option<FollowList>, i: nat)
    requires i < |batch|
    ensures |Hits(cfg, batch[..i + 1], lists, recover)| ==
            |Hits(cfg, batch[..i], lists, recover)|
            + if batch[i] in lists || (cfg.fallback && recover(batch[i]).Some?) then 1 else 0
  {
    assert batch[..i + 1][..i] == batch[..i];
  }

  /** The first `i` authors are resolved, nothing else has changed. */
  ghost predicate BatchSoFar(cfg: Config, before: Db, after: Db, batch: seq<PubKey>, i: nat,
                             lists: map<PubKey, FollowList>, recover: PubKey -> Option<FollowList>,
                             stamp: int, now: int)
    requires i <= |batch|
  {
    && (forall k | k in before.pubkeys :: k in after.pubkeys)
    && (forall k | k in before.pubkeys && k !in batch[..i] ::
          after.pubkeys[k] == before.pubkeys[k] && Out(after, k) == Out(before, k))
    && (Distinct(batch) ==>
          forall a | a in batch[..i] && a in before.pubkeys ::
            AuthorResolved(cfg, before, after, a, lists, recover, stamp, now))
  }

  /** A resolved author stays resolved while others are. */
  lemma StaysResolved(cfg: Config, before: Db, mid: Db, after: Db, a: PubKey, lists: map<PubKey, FollowList>,
                      recover: PubKey -> Option<FollowList>, stamp: int, now: int)
    requires AuthorResolved(cfg, before, mid, a, lists, recover, stamp, now)
    requires forall k | k in mid.pubkeys :: k in after.pubkeys
    requires a in mid.pubkeys ==> after.pubkeys[a] == mid.pubkeys[a]
    requires Out(after, a) == Out(mid, a)
    requires a in lists ==> lists[a].follower == a
    requires recover(a).Some? ==> recover(a).value.follower == a
    ensures AuthorResolved(cfg, before, after, a, lists, recover, stamp, now)
  {
  }

  lemma ResolvedFromUntouched(cfg: Config, before: Db, mid: Db, after: Db, a: PubKey, lists: map<PubKey, FollowList>,
                              recover: PubKey -> Option<FollowList>, stamp: int, now: int)
    requires AuthorResolved(cfg, mid, after, a, lists, recover, stamp, now)
    requires a in before.pubkeys && a in mid.pubkeys && mid.pubkeys[a] == before.pubkeys[a]
    requires Out(mid, a) == Out(before, a)
    requires a in lists ==> lists[a].follower == a
    requires recover(a).Some? ==> recover(a).value.follower == a
    ensures AuthorResolved(cfg, before, after, a, lists, recover, stamp, now)
  {
  }

  lemma NextResolved(cfg: Config, before: Db, mid: Db, after: Db, batch: seq<PubKey>, i: nat,
                     lists: map<PubKey, FollowList>, recover: PubKey -> Option<FollowList>, stamp: int, now: int)
    requires i < |batch| && BatchSoFar(cfg, before, mid, batch, i, lists, recover, stamp, now)
    requires batch[i] in mid.pubkeys ==> AuthorResolved(cfg, mid, after, batch[i], lists, recover, stamp, now)
    requires forall k | k in mid.pubkeys :: k in after.pubkeys && (k != batch[i] ==> after.pubkeys[k] == mid.pubkeys[k])
    requires forall k | k != batch[i] :: Out(after, k) == Out(mid, k)
    requires forall a | a in lists :: lists[a].follower == a
    requires forall a | recover(a).Some? :: recover(a).value.follower == a
    ensures BatchSoFar(cfg, before, after, batch, i + 1, lists, recover, stamp, now)
  {
    assert batch[..i + 1] == batch[..i] + [batch[i]];
    if Distinct(batch) {
      assert batch[i] !in batch[..i];
      forall a | a in batch[..i + 1] && a in before.pubkeys
        ensures AuthorResolved(cfg, before, after, a, lists, recover, stamp, now)
      {
        if a == batch[i] {
          ResolvedFromUntouched(cfg, before, mid, after, a, lists, recover, stamp, now);
        } else {
          StaysResolved(cfg, before, mid, after, a, lists, recover, stamp, now);
        }
      }
    }
  }

  /** The curated list of an author, or else what the fallback recovers when enabled. */
  function Outcome(cfg: Config, a: PubKey, lists: map<PubKey, FollowList>, recover: PubKey -> Option<FollowList>)
    : Option<FollowList>
  {
    if a in lists then Some(lists[a]) else if cfg.fallback then recover(a) else None
  }
}
