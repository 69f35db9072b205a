/** When the edges of a row are those of its applied event: exactly in the configurations in
    which no lease can be taken from a live worker and given to a second one. Elsewhere the age
    sweep lets two workers write one follower, and the diffs that each computed from edges read
    before its transaction leave a union behind. */
module Overlap {
  import opened Wrappers
  import opened Nostr
  import opened Tables
  import opened Protocol
  import opened Leases
  import opened Agreement

  // ------------------------------------------------------------ the bad run

  /** Two genuine follow lists of the key `a`: event 7 follows a + 1, event 8 follows a + 2. */
  ghost function Body(a: PubKey): EventId -> set<PubKey> {
    (e: EventId) => if e == 7 then {a + 1} else if e == 8 then {a + 2} else {}
  }

  function Old(a: PubKey): FollowList {
    FollowList(a, 7, 100, [a + 1])
  }

  function New(a: PubKey): FollowList {
    FollowList(a, 8, 200, [a + 2])
  }

  ghost function Genuinely(body: EventId -> set<PubKey>): (State, Label) -> bool {
    (s: State, l: Label) => GenuineLabel(body, l)
  }

  ghost predicate Reached(cfg: Config, t: State) {
    Reachable(cfg, Genuinely(Body(cfg.anchor)), EMPTY_DB, t)
  }

  lemma Next(cfg: Config, s: State, l: Label) returns (t: State)
    requires Reached(cfg, s) && Enabled(cfg, s, l) && GenuineLabel(Body(cfg.anchor), l)
    ensures t == Step(cfg, s, l) && Reached(cfg, t)
  {
    t := Go(cfg, Genuinely(Body(cfg.anchor)), EMPTY_DB, s, l);
  }

  /** A worker that stands before the transaction of the anchor's list. */
  function Writer(todo: seq<PubKey>, list: FollowList): Worker {
    Worker(todo, Writing(map[list.follower := list], list, {}))
  }

  /** `list` is a genuine list of the anchor with one followee, `todo` a batch that begins with it. */
  ghost predicate Fits(cfg: Config, todo: seq<PubKey>, list: FollowList, g: PubKey) {
    && todo != [] && todo[0] == cfg.anchor
    && list.follower == cfg.anchor && list.followees == [g] && Genuine(Body(cfg.anchor), list)
  }

  /** One worker takes the leased anchor as far as its first upsert. */
  lemma ToUpserting(cfg: Config, s: State, w: nat, todo: seq<PubKey>, list: FollowList, g: PubKey)
    returns (t: State)
    requires Reached(cfg, s) && s.driver == Holding(todo) && Fits(cfg, todo, list, g)
    requires w !in s.workers && |LiveWorkers(s)| < cfg.concurrency
    ensures Reached(cfg, t) && t.driver.Reaping? && t.db == s.db
    ensures var a := cfg.anchor;
            t.workers == s.workers[w := Worker(todo, Upserting(map[a := list], list, [a, g]))]
  {
    var a := cfg.anchor;
    assert [a] + [g] == [a, g];
    t := Next(cfg, s, Spawn(w));
    t := Next(cfg, t, Work(w, FetchOk(map[a := list])));
    t := Next(cfg, t, Work(w, Begin));
    assert t.workers == s.workers[w := Worker(todo, Upserting(map[a := list], list, [a, g]))];
  }

  /** From there through its upserts. */
  lemma ToUpserted(cfg: Config, s: State, w: nat, todo: seq<PubKey>, list: FollowList, g: PubKey)
    returns (t: State)
    requires Reached(cfg, s) && s.driver.Reaping? && w in s.workers && Fits(cfg, todo, list, g)
    requires var a := cfg.anchor; s.workers[w] == Worker(todo, Upserting(map[a := list], list, [a, g]))
    ensures Reached(cfg, t) && t.driver.Reaping? && t.db == Upsert(Upsert(s.db, cfg.anchor), g)
    ensures var a := cfg.anchor;
            t.workers == s.workers[w := Worker(todo, Upserting(map[a := list], list, []))]
  {
    assert [cfg.anchor, g][1..] == [g] && [g][1..] == [];
    t := Next(cfg, s, Work(w, UpsertNext));
    t := Next(cfg, t, Work(w, UpsertNext));
  }

  /** And through its reads. */
  lemma ToRead(cfg: Config, s: State, w: nat, todo: seq<PubKey>, list: FollowList, g: PubKey) returns (t: State)
    requires Reached(cfg, s) && w in s.workers && Fits(cfg, todo, list, g)
    requires var a := cfg.anchor; s.workers[w] == Worker(todo, Upserting(map[a := list], list, []))
    requires cfg.anchor in s.db.pubkeys && s.db.pubkeys[cfg.anchor].applied.None? && s.db.follows == map[]
    ensures Reached(cfg, t) && t.driver == s.driver && t.db == s.db
    ensures t.workers == s.workers[w := Writer(todo, list)]
  {
    t := Next(cfg, s, Work(w, ReadEvent));
    t := Next(cfg, t, Work(w, ReadEdges));
  }

  /** All of it: one worker takes the leased anchor as far as its transaction. */
  lemma ToWriting(cfg: Config, s: State, w: nat, todo: seq<PubKey>, list: FollowList, g: PubKey)
    returns (t: State)
    requires Reached(cfg, s) && s.driver == Holding(todo) && Fits(cfg, todo, list, g)
    requires w !in s.workers && |LiveWorkers(s)| < cfg.concurrency
    requires cfg.anchor in s.db.pubkeys && s.db.pubkeys[cfg.anchor].applied.None? && s.db.follows == map[]
    ensures Reached(cfg, t) && t.driver.Reaping? && t.db == Upsert(Upsert(s.db, cfg.anchor), g)
    ensures t.workers == s.workers[w := Writer(todo, list)]
  {
    t := ToUpserting(cfg, s, w, todo, list, g);
    t := ToUpserted(cfg, t, w, todo, list, g);
    t := ToRead(cfg, t, w, todo, list, g);
  }

  /** A claim that finds nothing locked. */
  lemma ClaimFree(cfg: Config, s: State, batch: seq<PubKey>, now: int) returns (t: State)
    requires Reached(cfg, s) && s.driver.AtClaim? && IsClaim(s.db, {}, cfg.batchSize, batch) && batch != []
    ensures Reached(cfg, t) && t.driver == Holding(batch)
    ensures t.db == Lease(s.db, batch, now) && t.workers == s.workers
  {
    t := Next(cfg, s, Claim(batch, {}, now));
  }

  /** A freshly seeded crawl claims its anchor. */
  lemma FirstClaim(cfg: Config) returns (t: State)
    requires cfg.batchSize >= 1
    ensures Reached(cfg, t) && t.driver == Holding([cfg.anchor]) && t.workers == map[]
    ensures t.db == Lease(Upsert(EMPTY_DB, cfg.anchor), [cfg.anchor], 10)
  {
    GoBoot(cfg, Genuinely(Body(cfg.anchor)), EMPTY_DB);
    t := Next(cfg, Boot(EMPTY_DB), Seed);
    t := Next(cfg, t, Startup);
    assert t.db.pubkeys == map[cfg.anchor := NewRow(0)] && t.db == Upsert(EMPTY_DB, cfg.anchor);
    assert Claimable(t.db, {}) == {cfg.anchor} && ToSet([cfg.anchor]) == {cfg.anchor};
    t := ClaimFree(cfg, t, [cfg.anchor], 10);
  }

  /** The tables while the first worker writes: its own leased row, and the followee's. */
  ghost predicate UnderFirst(db: Db, a: PubKey) {
    && db.pubkeys.Keys == {a, a + 1} && db.pubkeys[a].id < db.pubkeys[a + 1].id
    && db.pubkeys[a].status.InProgress? && db.pubkeys[a].claimedAt == Some(10)
    && db.pubkeys[a].applied.None? && db.pubkeys[a + 1].status.Discovered? && db.follows == map[]
  }

  lemma FirstUpserts(a: PubKey)
    ensures UnderFirst(Upsert(Upsert(Lease(Upsert(EMPTY_DB, a), [a], 10), a), a + 1), a)
  {
    var db := Lease(Upsert(EMPTY_DB, a), [a], 10);
    assert db.pubkeys.Keys == {a} && a in [a];
  }

  /** What the claim after the sweep takes: the two rows, or the older one. */
  function SecondBatch(cfg: Config): seq<PubKey> {
    if cfg.batchSize == 1 then [cfg.anchor] else [cfg.anchor, cfg.anchor + 1]
  }

  lemma SweptIsClaimed(cfg: Config, db: Db)
    requires UnderFirst(db, cfg.anchor) && cfg.batchSize >= 1
    ensures IsClaim(ReclaimByAge(db, 11 + cfg.age, cfg.age), {}, cfg.batchSize, SecondBatch(cfg))
  {
    var a, db' := cfg.anchor, ReclaimByAge(db, 11 + cfg.age, cfg.age);
    assert Claimable(db', {}) == {a, a + 1} && |{a, a + 1}| == 2;
    assert ToSet([a]) == {a} && ToSet([a, a + 1]) == {a, a + 1};
  }

  /** The sweep takes the lease from the worker, and the next claim the anchor again. */
  lemma Reclaim(cfg: Config, s: State) returns (t: State)
    requires Reached(cfg, s) && s.driver.Reaping? && cfg.mode.Daemon? && cfg.batchSize >= 1
    requires UnderFirst(s.db, cfg.anchor)
    ensures Reached(cfg, t) && t.driver == Holding(SecondBatch(cfg)) && t.workers == s.workers
    ensures t.db.follows == map[] && cfg.anchor in t.db.pubkeys && t.db.pubkeys[cfg.anchor].applied.None?
  {
    var now := 11 + cfg.age;
    SweptIsClaimed(cfg, s.db);
    t := Next(cfg, s, EndReap);
    t := Next(cfg, t, SweepAge(now));
    t := ClaimFree(cfg, t, SecondBatch(cfg), now);
  }

  /** The first worker stands before its transaction; its lease goes to a second one. */
  lemma FirstWriter(cfg: Config) returns (t: State)
    requires cfg.mode.Daemon? && cfg.concurrency >= 2 && cfg.batchSize >= 1
    ensures Reached(cfg, t) && t.driver == Holding(SecondBatch(cfg)) && t.db.follows == map[]
    ensures cfg.anchor in t.db.pubkeys && t.db.pubkeys[cfg.anchor].applied.None?
    ensures t.workers == map[1 := Writer([cfg.anchor], Old(cfg.anchor))]
  {
    var a := cfg.anchor;
    t := FirstClaim(cfg);
    assert LiveWorkers(t) == {};
    FirstUpserts(a);
    t := ToWriting(cfg, t, 1, [a], Old(a), a + 1);
    t := Reclaim(cfg, t);
  }

  /** Two diffs against the same empty edge set add up. */
  lemma StaleDiffsAddUp(db: Db, a: PubKey)
    requires a in db.pubkeys && Out(db, a) == {}
    ensures var db' := WriteDiff(WriteDiff(db, a, Old(a), {}, 30), a, New(a), {}, 31);
            Out(db', a) == {a + 1, a + 2} && a in db'.pubkeys && db'.pubkeys[a].applied == Some(Applied(8, 200))
  {
    assert ToSet(Old(a).followees) == {a + 1} && ToSet(New(a).followees) == {a + 2};
    assert {a + 1} - {a} == {a + 1} && {a + 2} - {a} == {a + 2};
  }

  /** Both workers stand before their transactions. */
  ghost predicate BothWrite(cfg: Config, s: State) {
    && cfg.anchor in s.db.pubkeys && s.db.follows == map[]
    && 1 in s.workers && s.workers[1] == Writer([cfg.anchor], Old(cfg.anchor))
    && 2 in s.workers && s.workers[2] == Writer(SecondBatch(cfg), New(cfg.anchor))
  }

  lemma CommitBoth(cfg: Config, s: State) returns (t: State)
    requires Reached(cfg, s) && BothWrite(cfg, s)
    ensures Reached(cfg, t)
    ensures t.db == WriteDiff(WriteDiff(s.db, cfg.anchor, Old(cfg.anchor), {}, 30), cfg.anchor, New(cfg.anchor), {}, 31)
  {
    t := Next(cfg, s, Work(1, Commit(30)));
    t := Next(cfg, t, Work(2, Commit(31)));
  }

  lemma SecondWriter(cfg: Config) returns (t: State)
    requires cfg.mode.Daemon? && cfg.concurrency >= 2 && cfg.batchSize >= 1
    ensures Reached(cfg, t) && BothWrite(cfg, t)
  {
    var a := cfg.anchor;
    t := FirstWriter(cfg);
    assert t.workers.Keys == {1};
    SubsetSize(LiveWorkers(t), {1});
    t := ToWriting(cfg, t, 2, SecondBatch(cfg), New(a), a + 2);
  }

  lemma UnionDisagrees(db: Db, a: PubKey)
    requires Out(db, a) == {a + 1, a + 2} && a in db.pubkeys && db.pubkeys[a].applied == Some(Applied(8, 200))
    ensures !StoreAgrees(Body(a), db)
  {
    assert Body(a)(8) == {a + 2} && a + 1 in Out(db, a);
    assert !RowAgrees(Body(a), db, a);
  }

  /** In every daemon configuration with two permits: a run of genuine lists from empty tables
      ends with the anchor following two keys while the event recorded as applied follows the
      second only. */
  lemma OverlappingWritersDisagree(cfg: Config) returns (t: State)
    requires cfg.mode.Daemon? && cfg.concurrency >= 2 && cfg.batchSize >= 1
    ensures Reached(cfg, t) && !StoreAgrees(Body(cfg.anchor), t.db)
    ensures var a := cfg.anchor;
            && Out(t.db, a) == {a + 1, a + 2}
            && a in t.db.pubkeys && t.db.pubkeys[a].applied == Some(Applied(8, 200))
  {
    var a := cfg.anchor;
    var s := SecondWriter(cfg);
    StaleDiffsAddUp(s.db, a);
    t := CommitBoth(cfg, s);
    UnionDisagrees(t.db, a);
  }

  // --------------------------------------------------------- exactly when

  /** In every run of genuine lists, from tables on which it holds, each row's edges are those
      of its applied event. */
  ghost predicate AlwaysAgrees(cfg: Config) {
    forall body, db, t | StoreAgrees(body, db) && Reachable(cfg, Genuinely(body), db, t) :: StoreAgrees(body, t.db)
  }

  /** A worker inside `apply_validated` holds a permit. */
  lemma OneApplies(cfg: Config, s: State, v: nat, w: nat)
    requires Bounded(cfg, s) && cfg.concurrency <= 1 && v in s.workers && w in s.workers
    requires s.workers[v].Applying() && s.workers[w].Applying()
    ensures v == w
  {
    assert {v, w} <= LiveWorkers(s);
    SubsetSize({v, w}, LiveWorkers(s));
    assert v != w ==> |{v, w}| == 2;
  }

  /** And it has an author of its own. */
  lemma NobodyApplies(cfg: Config, s: State, w: nat)
    requires Bounded(cfg, s) && cfg.batchSize == 0 && w in s.workers
    ensures !s.workers[w].Applying()
  {
  }

  lemma FewWorkersConflictFree(cfg: Config, s: State)
    requires Bounded(cfg, s) && (cfg.concurrency <= 1 || cfg.batchSize == 0)
    ensures ConflictFree(s)
  {
    if cfg.concurrency <= 1 {
      forall v, w | v in s.workers && w in s.workers && s.workers[v].Applying() && s.workers[w].Applying()
        ensures v == w
      {
        OneApplies(cfg, s, v, w);
      }
    } else {
      forall w | w in s.workers ensures !s.workers[w].Applying() {
        NobodyApplies(cfg, s, w);
      }
    }
  }

  lemma FewWorkersAgree(cfg: Config, body: EventId -> set<PubKey>, db: Db, run: seq<Label>, t: State)
    requires cfg.concurrency <= 1 || cfg.batchSize == 0
    requires StoreAgrees(body, db) && Reaches(cfg, Genuinely(body), Boot(db), run, t)
    ensures StoreAgrees(body, t.db)
  {
    var ok := Genuinely(body);
    forall u: State, l: Label | Bounded(cfg, u) && Enabled(cfg, u, l) && ok(u, l)
      ensures Bounded(cfg, Step(cfg, u, l)) && NoConflict(body)(u, l)
    {
      StepKeepsBounded(cfg, u, l);
      FewWorkersConflictFree(cfg, u);
    }
    Strengthen(cfg, ok, NoConflict(body), u => Bounded(cfg, u), Boot(db), run, t);
    StoreMatchesAppliedEvent(body, cfg, db, run, t);
  }

  /** A crawl has no sweeps. */
  lemma CrawlAgrees(cfg: Config, body: EventId -> set<PubKey>, db: Db, run: seq<Label>, t: State)
    requires cfg.mode.Crawl?
    requires StoreAgrees(body, db) && Reaches(cfg, Genuinely(body), Boot(db), run, t)
    ensures StoreAgrees(body, t.db)
  {
    Strengthen(cfg, Genuinely(body), GenuineNoReclaim(body), (u: State) => true, Boot(db), run, t);
    StoreMatchesWithoutAgeReclaim(body, cfg, db, run, t);
  }

  /** A row's edges are those of its applied event in every run if and only if the crawl runs
      without the daemon's sweeps, or at most one batch at a time, or claims nothing at all. */
  lemma AlwaysAgreesIff(cfg: Config)
    ensures AlwaysAgrees(cfg) <==> cfg.mode.Crawl? || cfg.concurrency <= 1 || cfg.batchSize == 0
  {
    if cfg.mode.Crawl? || cfg.concurrency <= 1 || cfg.batchSize == 0 {
      forall body, db, t | StoreAgrees(body, db) && Reachable(cfg, Genuinely(body), db, t)
        ensures StoreAgrees(body, t.db)
      {
        var run :| Reaches(cfg, Genuinely(body), Boot(db), run, t);
        if cfg.mode.Crawl? { CrawlAgrees(cfg, body, db, run, t); } else { FewWorkersAgree(cfg, body, db, run, t); }
      }
    } else {
      var t := OverlappingWritersDisagree(cfg);
      assert StoreAgrees(Body(cfg.anchor), EMPTY_DB);
    }
  }
}
