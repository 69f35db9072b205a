/** Fixed answers: whatever fails and is retried, the schedule, the batch size, the concurrency,
    crashes and sweeps leave no trace in the graph, and a crawl never redoes finished rows. */
module Determinism {
  import opened Wrappers
  import opened Nostr
  import opened Paths
  import opened Tables
  import opened Protocol
  import opened Leases
  import opened Reachability

  /** `ans` is what the relays hold for each author; a missing author has no list. */
  ghost predicate AnswersOk(ans: map<PubKey, FollowList>) {
    forall a | a in ans :: ans[a].follower == a
  }

  ghost predicate ListsFrom(ans: map<PubKey, FollowList>, authors: seq<PubKey>, lists: map<PubKey, FollowList>) {
    forall a | a in authors :: (a in lists <==> a in ans) && (a in lists ==> lists[a] == ans[a])
  }

  /** Every fetch of the curated relays fails or gives an author its list in `cur`, whatever the
      batch; for the others the fallback finds its list in `fb`; no live lease is reclaimed. */
  ghost function FixedWorld(cur: map<PubKey, FollowList>, fb: map<PubKey, FollowList>): (State, Label) -> bool {
    (s: State, l: Label) =>
      && !l.SweepAge?
      && (l.Work? && l.w in s.workers && s.workers[l.w].todo != [] ==>
            FixedAct(cur, fb, s.workers[l.w].todo, l.act))
  }

  ghost predicate FixedAct(cur: map<PubKey, FollowList>, fb: map<PubKey, FollowList>, todo: seq<PubKey>, act: Act)
    requires todo != []
  {
    match act
    case FetchOk(lists) => ListsFrom(cur, todo, lists)
    case Recover(list) => todo[0] in fb && list == fb[todo[0]]
    case Miss(_) => todo[0] !in fb
    case _ => true
  }

  /** The list an author ends up with. */
  function Answers(cur: map<PubKey, FollowList>, fb: map<PubKey, FollowList>): map<PubKey, FollowList> {
    fb + cur
  }

  ghost function AnswerEdges(ans: map<PubKey, FollowList>): Edges {
    (f: PubKey, g: PubKey) => f in ans && g in Targets(ans[f])
  }

  // -------------------------------------------------------------- one row

  function AppliedOf(list: FollowList): Applied {
    Applied(list.eventId, list.createdAt)
  }

  /** A row has nothing stored, or exactly its answer. */
  ghost predicate RowFixed(ans: map<PubKey, FollowList>, db: Db, k: PubKey) {
    if k in db.pubkeys then
      var row := db.pubkeys[k];
      && (row.applied.Some? ==>
            k in ans && row.applied == Some(AppliedOf(ans[k])) && Out(db, k) == Targets(ans[k]))
      && (row.applied.None? ==> Out(db, k) == {})
      && (row.status.Fetched? ==> row.applied.Some?)
      && (row.status.NotFound? ==> k !in ans)
    else Out(db, k) == {}
  }

  ghost predicate RowsFixed(ans: map<PubKey, FollowList>, db: Db) {
    forall k :: RowFixed(ans, db, k)
  }

  /** A worker holds the lists of its authors, and is applying the answer of the first; what it
      is about to follow is a row or still to be upserted; what it has read still stands. */
  ghost predicate WorkerFixed(cur: map<PubKey, FollowList>, ans: map<PubKey, FollowList>, db: Db, w: Worker) {
    && (!w.phase.Fetching? && !w.phase.Failing? && !w.phase.Broken? ==> ListsFrom(cur, w.todo, w.phase.lists))
    && (w.Applying() ==> ApplyingFixed(ans, db, w))
  }

  ghost predicate ApplyingFixed(ans: map<PubKey, FollowList>, db: Db, w: Worker)
    requires w.Applying()
  {
    var f, list := w.todo[0], w.phase.list;
    && f in ans && list == ans[f]
    && (w.phase.Upserting? ==> forall x | x in w.phase.left :: x == f || x in list.followees)
    && (forall x | x in list.followees :: x in db.pubkeys || (w.phase.Upserting? && x in w.phase.left))
    && (w.phase.Confirming? ==> AlreadyApplied(db, f, list.eventId))
    && (w.phase.Writing? ==> w.phase.current == Out(db, f))
  }

  lemma ActKeepsRowsFixed(cur: map<PubKey, FollowList>, fb: map<PubKey, FollowList>, cfg: Config, db: Db,
                          w: Worker, act: Act)
    requires ActEnabled(cfg, w, act) && OwnBatch(db, w.todo) && FixedAct(cur, fb, w.todo, act)
    requires RowsFixed(Answers(cur, fb), db) && WorkerFixed(cur, Answers(cur, fb), db, w)
    requires AnswersOk(Answers(cur, fb))
    ensures RowsFixed(Answers(cur, fb), ActDb(cfg, db, w, act))
  {
    var ans, f, db' := Answers(cur, fb), w.todo[0], ActDb(cfg, db, w, act);
    assert f in w.todo && HasStatus(db, f, InProgress);
    forall k ensures RowFixed(ans, db', k) {
      assert RowFixed(ans, db, k);
      if act.Commit? && k == f {
        WriteOfFreshRead(db, f, w.phase.list, act.now);
      }
    }
  }

  lemma WriteOfFreshRead(db: Db, f: PubKey, list: FollowList, now: int)
    requires f in db.pubkeys && list.follower == f
    ensures Out(WriteDiff(db, f, list, Out(db, f), now), f) == Targets(list)
  {
  }

  lemma UpsertKeepsWorkerFixed(cur: map<PubKey, FollowList>, ans: map<PubKey, FollowList>, cfg: Config, db: Db,
                               w: Worker)
    requires ActEnabled(cfg, w, UpsertNext) && WorkerFixed(cur, ans, db, w)
    ensures WorkerFixed(cur, ans, ActDb(cfg, db, w, UpsertNext), ActWorker(cfg, db, w, UpsertNext))
  {
    forall x | x in w.phase.left ensures x == w.phase.left[0] || x in w.phase.left[1..] {}
  }

  lemma ActKeepsWorkerFixed(cur: map<PubKey, FollowList>, fb: map<PubKey, FollowList>, cfg: Config, db: Db,
                            w: Worker, act: Act)
    requires ActEnabled(cfg, w, act) && FixedAct(cur, fb, w.todo, act)
    requires WorkerFixed(cur, Answers(cur, fb), db, w) && AnswersOk(Answers(cur, fb))
    ensures WorkerFixed(cur, Answers(cur, fb), ActDb(cfg, db, w, act), ActWorker(cfg, db, w, act))
  {
    if act.UpsertNext? {
      UpsertKeepsWorkerFixed(cur, Answers(cur, fb), cfg, db, w);
    } else {
      assert w.todo[0] in w.todo && forall a | a in w.todo[1..] :: a in w.todo;
    }
  }

  // ---------------------------------------------------------------- the system

  ghost predicate Fixed(cur: map<PubKey, FollowList>, fb: map<PubKey, FollowList>, cfg: Config, s: State) {
    && RowsFixed(Answers(cur, fb), s.db)
    && (forall w | w in s.workers :: WorkerFixed(cur, Answers(cur, fb), s.db, s.workers[w]))
  }

  /** What a worker relies on outlives every change of other followers' rows. */
  lemma OthersKeepWorkerFixed(cur: map<PubKey, FollowList>, ans: map<PubKey, FollowList>, db: Db, db': Db, w: Worker)
    requires WorkerFixed(cur, ans, db, w)
    requires forall k | k in db.pubkeys :: k in db'.pubkeys
    requires w.todo != [] ==> Out(db', w.todo[0]) == Out(db, w.todo[0])
    requires w.todo != [] && w.todo[0] in db.pubkeys ==>
               db'.pubkeys[w.todo[0]].applied == db.pubkeys[w.todo[0]].applied
    ensures WorkerFixed(cur, ans, db', w)
  {
  }

  lemma ActKeepsOthersFixed(cur: map<PubKey, FollowList>, ans: map<PubKey, FollowList>, cfg: Config, db: Db,
                            w: Worker, act: Act, v: Worker)
    requires ActEnabled(cfg, w, act) && WorkerFixed(cur, ans, db, v) && Disjoint(v.todo, w.todo)
    ensures WorkerFixed(cur, ans, ActDb(cfg, db, w, act), v)
  {
    assert w.todo[0] in w.todo;
    if v.todo != [] { assert v.todo[0] in v.todo; }
    OthersKeepWorkerFixed(cur, ans, db, ActDb(cfg, db, w, act), v);
  }

  lemma ActKeepsFixed(cur: map<PubKey, FollowList>, fb: map<PubKey, FollowList>, cfg: Config, s: State,
                      w: nat, act: Act)
    requires Enabled(cfg, s, Work(w, act)) && FixedWorld(cur, fb)(s, Work(w, act))
    requires Exclusive(s) && Fixed(cur, fb, cfg, s) && AnswersOk(Answers(cur, fb))
    ensures Fixed(cur, fb, cfg, Step(cfg, s, Work(w, act)))
  {
    var t := Step(cfg, s, Work(w, act));
    ActKeepsRowsFixed(cur, fb, cfg, s.db, s.workers[w], act);
    ActKeepsWorkerFixed(cur, fb, cfg, s.db, s.workers[w], act);
    forall v | v in t.workers ensures WorkerFixed(cur, Answers(cur, fb), t.db, t.workers[v]) {
      if v != w {
        ActKeepsOthersFixed(cur, Answers(cur, fb), cfg, s.db, s.workers[w], act, s.workers[v]);
      }
    }
  }

  /** What the driver and the sweeps do to a row. */
  lemma DriverKeepsRow(cfg: Config, s: State, l: Label, k: PubKey)
    requires Enabled(cfg, s, l) && !l.Work?
    ensures Out(Step(cfg, s, l).db, k) == Out(s.db, k)
    ensures k in s.db.pubkeys ==>
              && k in Step(cfg, s, l).db.pubkeys
              && Step(cfg, s, l).db.pubkeys[k].applied == s.db.pubkeys[k].applied
              && (Step(cfg, s, l).db.pubkeys[k].status == s.db.pubkeys[k].status
                  || !Step(cfg, s, l).db.pubkeys[k].status.Terminal())
    ensures k !in s.db.pubkeys && k in Step(cfg, s, l).db.pubkeys ==>
              && l.Seed? && k == cfg.anchor
              && Step(cfg, s, l).db.pubkeys[k].applied.None?
              && Step(cfg, s, l).db.pubkeys[k].status.Discovered?
  {
  }

  lemma DriverKeepsFixed(cur: map<PubKey, FollowList>, fb: map<PubKey, FollowList>, cfg: Config, s: State, l: Label)
    requires Enabled(cfg, s, l) && !l.Work? && Fixed(cur, fb, cfg, s)
    ensures Fixed(cur, fb, cfg, Step(cfg, s, l))
  {
    var ans, t := Answers(cur, fb), Step(cfg, s, l);
    forall k ensures RowFixed(ans, t.db, k) {
      assert RowFixed(ans, s.db, k);
      DriverKeepsRow(cfg, s, l, k);
    }
    forall w | w in t.workers ensures WorkerFixed(cur, ans, t.db, t.workers[w]) {
      if w in s.workers && t.workers[w] == s.workers[w] {
        forall k
          ensures Out(t.db, k) == Out(s.db, k)
          ensures k in s.db.pubkeys ==>
                    k in t.db.pubkeys && t.db.pubkeys[k].applied == s.db.pubkeys[k].applied
        {
          DriverKeepsRow(cfg, s, l, k);
        }
        OthersKeepWorkerFixed(cur, ans, s.db, t.db, t.workers[w]);
      }
    }
  }

  /** Every row is reachable over the answers, and edges end in rows. */
  ghost predicate RowsReached(ans: map<PubKey, FollowList>, cfg: Config, db: Db) {
    EdgesEndInRows(db) && forall k | k in db.pubkeys :: Reach(AnswerEdges(ans), cfg.anchor, k)
  }

  lemma NewRowIsReached(cur: map<PubKey, FollowList>, ans: map<PubKey, FollowList>, cfg: Config, s: State,
                        l: Label, k: PubKey)
    requires Enabled(cfg, s, l) && RowsReached(ans, cfg, s.db) && Exclusive(s) && AnswersOk(ans)
    requires forall w | w in s.workers :: WorkerFixed(cur, ans, s.db, s.workers[w])
    requires k !in s.db.pubkeys && k in Step(cfg, s, l).db.pubkeys
    ensures Reach(AnswerEdges(ans), cfg.anchor, k)
  {
    if l.Seed? {
      ReachSelf(AnswerEdges(ans), cfg.anchor);
    } else {
      assert l.Work? && l.act.UpsertNext?;
      var w := s.workers[l.w];
      assert WorkerFixed(cur, ans, s.db, w) && w.phase.left[0] in w.phase.left;
      assert w.todo[0] in w.todo && HasStatus(s.db, w.todo[0], InProgress);
      ReachStep(AnswerEdges(ans), cfg.anchor, w.todo[0], k);
    }
  }

  lemma StepKeepsEdgesInRows(cur: map<PubKey, FollowList>, ans: map<PubKey, FollowList>, cfg: Config, s: State,
                             l: Label)
    requires Enabled(cfg, s, l) && EdgesEndInRows(s.db)
    requires forall w | w in s.workers :: WorkerFixed(cur, ans, s.db, s.workers[w])
    ensures EdgesEndInRows(Step(cfg, s, l).db)
  {
    var t := Step(cfg, s, l);
    forall k | k in s.db.pubkeys ensures k in t.db.pubkeys {
      RowsPersist(cfg, s, l, k);
    }
    forall f ensures Out(t.db, f) <= t.db.pubkeys.Keys {
      assert Out(s.db, f) <= s.db.pubkeys.Keys;
      if l.Work? && l.act.Commit? && f == s.workers[l.w].todo[0] {
        assert WorkerFixed(cur, ans, s.db, s.workers[l.w]);
      }
    }
  }

  ghost predicate FixedInv(cur: map<PubKey, FollowList>, fb: map<PubKey, FollowList>, cfg: Config, s: State) {
    && LeaseInv(cfg, s) && Fixed(cur, fb, cfg, s) && RowsReached(Answers(cur, fb), cfg, s.db)
    && (!s.driver.Seeding? && !s.driver.Errored? ==> cfg.anchor in s.db.pubkeys)
  }

  lemma StepKeepsFixedInv(cur: map<PubKey, FollowList>, fb: map<PubKey, FollowList>, cfg: Config, s: State, l: Label)
    requires FixedInv(cur, fb, cfg, s) && Enabled(cfg, s, l) && FixedWorld(cur, fb)(s, l)
    requires AnswersOk(Answers(cur, fb))
    ensures FixedInv(cur, fb, cfg, Step(cfg, s, l))
  {
    var ans, t := Answers(cur, fb), Step(cfg, s, l);
    StepKeepsLeaseInv(cfg, s, l);
    if l.Work? { ActKeepsFixed(cur, fb, cfg, s, l.w, l.act); } else { DriverKeepsFixed(cur, fb, cfg, s, l); }
    StepKeepsEdgesInRows(cur, ans, cfg, s, l);
    forall k | k in t.db.pubkeys ensures Reach(AnswerEdges(ans), cfg.anchor, k) {
      if k !in s.db.pubkeys { NewRowIsReached(cur, ans, cfg, s, l, k); }
    }
    if cfg.anchor in s.db.pubkeys { RowsPersist(cfg, s, l, cfg.anchor); }
  }

  lemma RunsAreFixed(cur: map<PubKey, FollowList>, fb: map<PubKey, FollowList>, cfg: Config, run: seq<Label>, t: State)
    requires AnswersOk(Answers(cur, fb)) && Reaches(cfg, FixedWorld(cur, fb), Boot(EMPTY_DB), run, t)
    ensures FixedInv(cur, fb, cfg, t)
  {
    var ok, inv := FixedWorld(cur, fb), (u: State) => FixedInv(cur, fb, cfg, u);
    forall u: State, l: Label | inv(u) && Enabled(cfg, u, l) && ok(u, l) ensures inv(Step(cfg, u, l)) {
      StepKeepsFixedInv(cur, fb, cfg, u, l);
    }
    Induct(cfg, ok, inv, Boot(EMPTY_DB), run, t);
  }

  // ------------------------------------------------------------- what is stored

  /** No row but what the answers reach, no edge but the answers', none of them in part, and no
      author with an answer passed over as not found. */
  ghost predicate IsSoundGraph(ans: map<PubKey, FollowList>, anchor: PubKey, db: Db) {
    && (forall k | k in db.pubkeys :: Reach(AnswerEdges(ans), anchor, k))
    && (forall k :: Out(db, k) == {} || (k in db.pubkeys && k in ans && Out(db, k) == Targets(ans[k])))
    && (forall k | HasStatus(db, k, Fetched) ::
          k in ans && db.pubkeys[k].applied == Some(AppliedOf(ans[k])) && Out(db, k) == Targets(ans[k]))
    && (forall k | HasStatus(db, k, NotFound) :: k !in ans)
  }

  /** The graph a crawl should end in, told without any schedule. */
  ghost predicate IsFinalGraph(ans: map<PubKey, FollowList>, anchor: PubKey, db: Db) {
    && (forall k :: k in db.pubkeys <==> Reach(AnswerEdges(ans), anchor, k))
    && (forall k | k in db.pubkeys ::
          && db.pubkeys[k].status == (if k in ans then Fetched else NotFound)
          && db.pubkeys[k].applied == (if k in ans then Some(AppliedOf(ans[k])) else None))
    && (forall k :: Out(db, k) == if k in db.pubkeys && k in ans then Targets(ans[k]) else {})
  }

  /** Every row is fetched or not found. */
  ghost predicate NoneOpen(db: Db) {
    forall k | k in db.pubkeys :: db.pubkeys[k].status.Fetched? || db.pubkeys[k].status.NotFound?
  }

  lemma SoundWhenFixed(ans: map<PubKey, FollowList>, cfg: Config, db: Db)
    requires RowsFixed(ans, db) && RowsReached(ans, cfg, db)
    ensures IsSoundGraph(ans, cfg.anchor, db)
  {
    forall k ensures Out(db, k) == {} || (k in db.pubkeys && k in ans && Out(db, k) == Targets(ans[k])) {
      assert RowFixed(ans, db, k);
    }
    forall k | HasStatus(db, k, Fetched)
      ensures k in ans && db.pubkeys[k].applied == Some(AppliedOf(ans[k])) && Out(db, k) == Targets(ans[k])
    {
      assert RowFixed(ans, db, k);
    }
    forall k | HasStatus(db, k, NotFound) ensures k !in ans {
      assert RowFixed(ans, db, k);
    }
  }

  /** An answered row is as its answer dictates. */
  lemma AnsweredRow(ans: map<PubKey, FollowList>, db: Db, k: PubKey)
    requires RowFixed(ans, db, k) && k in db.pubkeys
    requires db.pubkeys[k].status.Fetched? || db.pubkeys[k].status.NotFound?
    ensures db.pubkeys[k].status == if k in ans then Fetched else NotFound
    ensures db.pubkeys[k].applied == if k in ans then Some(AppliedOf(ans[k])) else None
    ensures Out(db, k) == if k in ans then Targets(ans[k]) else {}
  {
  }

  /** Where every row is answered, nothing the answers reach is missing. */
  lemma AnsweredIsClosed(ans: map<PubKey, FollowList>, cfg: Config, db: Db, k: PubKey)
    requires RowsFixed(ans, db) && RowsReached(ans, cfg, db) && NoneOpen(db) && cfg.anchor in db.pubkeys
    requires Reach(AnswerEdges(ans), cfg.anchor, k)
    ensures k in db.pubkeys
  {
    forall f, g | f in db.pubkeys.Keys && AnswerEdges(ans)(f, g) ensures g in db.pubkeys.Keys {
      AnsweredRow(ans, db, f);
      assert Out(db, f) <= db.pubkeys.Keys;
    }
    ReachStaysIn(AnswerEdges(ans), db.pubkeys.Keys, cfg.anchor, k);
  }

  lemma AnsweredIsFinal(ans: map<PubKey, FollowList>, cfg: Config, db: Db)
    requires RowsFixed(ans, db) && RowsReached(ans, cfg, db) && NoneOpen(db) && cfg.anchor in db.pubkeys
    ensures IsFinalGraph(ans, cfg.anchor, db)
  {
    forall k ensures k in db.pubkeys <==> Reach(AnswerEdges(ans), cfg.anchor, k) {
      if Reach(AnswerEdges(ans), cfg.anchor, k) { AnsweredIsClosed(ans, cfg, db, k); }
    }
    forall k | k in db.pubkeys
      ensures db.pubkeys[k].status == if k in ans then Fetched else NotFound
      ensures db.pubkeys[k].applied == if k in ans then Some(AppliedOf(ans[k])) else None
    {
      AnsweredRow(ans, db, k);
    }
    forall k ensures Out(db, k) == if k in db.pubkeys && k in ans then Targets(ans[k]) else {} {
      assert RowFixed(ans, db, k);
      if k in db.pubkeys { AnsweredRow(ans, db, k); }
    }
  }

  lemma FinalIsAnswered(ans: map<PubKey, FollowList>, anchor: PubKey, db: Db)
    requires IsFinalGraph(ans, anchor, db)
    ensures anchor in db.pubkeys && NoneOpen(db)
  {
    ReachSelf(AnswerEdges(ans), anchor);
    forall k | k in db.pubkeys ensures db.pubkeys[k].status.Fetched? || db.pubkeys[k].status.NotFound? {
      assert db.pubkeys[k].status == if k in ans then Fetched else NotFound;
    }
  }

  /** Crawl or daemon, from empty tables, with fixed answers, but failing fetches, failing workers,
      TTL sweeps and crashes anywhere: at every moment the graph is sound; and it is the final one
      if and only if the anchor is a row and every row is fetched or not found. */
  lemma FixedAnswersGraph(cur: map<PubKey, FollowList>, fb: map<PubKey, FollowList>, cfg: Config,
                          run: seq<Label>, t: State)
    requires AnswersOk(Answers(cur, fb)) && Reaches(cfg, FixedWorld(cur, fb), Boot(EMPTY_DB), run, t)
    ensures IsSoundGraph(Answers(cur, fb), cfg.anchor, t.db)
    ensures IsFinalGraph(Answers(cur, fb), cfg.anchor, t.db) <==> cfg.anchor in t.db.pubkeys && NoneOpen(t.db)
  {
    RunsAreFixed(cur, fb, cfg, run, t);
    SoundWhenFixed(Answers(cur, fb), cfg, t.db);
    if cfg.anchor in t.db.pubkeys && NoneOpen(t.db) { AnsweredIsFinal(Answers(cur, fb), cfg, t.db); }
    if IsFinalGraph(Answers(cur, fb), cfg.anchor, t.db) { FinalIsAnswered(Answers(cur, fb), cfg.anchor, t.db); }
  }

  // -------------------------------------------------------------- crawls that finish

  /** Fetches depend on the author alone, whatever batch it is in; they may fail. */
  ghost function FixedLists(ans: map<PubKey, FollowList>): (State, Label) -> bool {
    (s: State, l: Label) => l.Work? && l.act.FetchOk? && l.w in s.workers ==>
      ListsFrom(ans, s.workers[l.w].todo, l.act.lists)
  }

  /** And never fail. */
  ghost function FixedAnswers(ans: map<PubKey, FollowList>): (State, Label) -> bool {
    (s: State, l: Label) => FixedLists(ans)(s, l) && (l.Work? ==> !l.act.FetchErr?)
  }

  lemma CrawlIsFixedWorld(ans: map<PubKey, FollowList>, cfg: Config, s: State, run: seq<Label>, t: State)
    requires cfg.mode.Crawl? && Reaches(cfg, FixedLists(ans), s, run, t)
    ensures Reaches(cfg, FixedWorld(ans, map[]), s, run, t)
  {
    Strengthen(cfg, FixedLists(ans), FixedWorld(ans, map[]), (u: State) => true, s, run, t);
  }

  /** At every moment, whatever fails. */
  lemma CrawlIsSound(ans: map<PubKey, FollowList>, cfg: Config, run: seq<Label>, t: State)
    requires AnswersOk(ans) && cfg.mode.Crawl? && Reaches(cfg, FixedLists(ans), Boot(EMPTY_DB), run, t)
    ensures IsSoundGraph(ans, cfg.anchor, t.db)
  {
    assert Answers(ans, map[]) == ans;
    CrawlIsFixedWorld(ans, cfg, Boot(EMPTY_DB), run, t);
    FixedAnswersGraph(ans, map[], cfg, run, t);
  }

  lemma AnsweredUnlessFailed(db: Db)
    requires forall k | k in db.pubkeys :: db.pubkeys[k].status.Terminal()
    ensures NoneOpen(db) <==> forall k :: !HasStatus(db, k, Failed)
  {
    forall k | k in db.pubkeys
      ensures (db.pubkeys[k].status.Fetched? || db.pubkeys[k].status.NotFound?) <==> !HasStatus(db, k, Failed)
    {
    }
  }

  /** Whatever fails: a finished crawl of empty tables with fixed answers, cut off between any two
      steps any number of times and restarted, has the final graph if and only if no row has used
      up its attempts; failures can only keep rows and edges out. */
  lemma CrawlIsFinalIff(ans: map<PubKey, FollowList>, cfg: Config, run: seq<Label>, t: State)
    requires AnswersOk(ans) && cfg.mode.Crawl? && cfg.batchSize >= 1
    requires Reaches(cfg, FixedLists(ans), Boot(EMPTY_DB), run, t) && t.driver.Finished?
    ensures IsSoundGraph(ans, cfg.anchor, t.db)
    ensures IsFinalGraph(ans, cfg.anchor, t.db) <==> forall k :: !HasStatus(t.db, k, Failed)
  {
    assert Answers(ans, map[]) == ans;
    CrawlIsFixedWorld(ans, cfg, Boot(EMPTY_DB), run, t);
    FixedAnswersGraph(ans, map[], cfg, run, t);
    AnchorIsRow(ans, cfg, run, t);
    Weaken(cfg, FixedLists(ans), Anything, Boot(EMPTY_DB), run, t);
    CrawlSettles(cfg, EMPTY_DB, run, t);
    AnsweredUnlessFailed(t.db);
  }

  lemma AnchorIsRow(ans: map<PubKey, FollowList>, cfg: Config, run: seq<Label>, t: State)
    requires AnswersOk(Answers(ans, map[])) && t.driver.Finished?
    requires Reaches(cfg, FixedWorld(ans, map[]), Boot(EMPTY_DB), run, t)
    ensures cfg.anchor in t.db.pubkeys
  {
    RunsAreFixed(ans, map[], cfg, run, t);
  }

  /** Nothing has failed yet. */
  ghost predicate NoneFailed(s: State) {
    && (forall k | k in s.db.pubkeys :: !s.db.pubkeys[k].status.Failed?)
    && (forall w | w in s.workers :: !s.workers[w].phase.Failing?)
  }

  lemma StepKeepsNoneFailed(cfg: Config, s: State, l: Label)
    requires NoneFailed(s) && Enabled(cfg, s, l) && (l.Work? ==> !l.act.FetchErr?)
    ensures NoneFailed(Step(cfg, s, l))
  {
    if l.Work? {
      assert !ActWorker(cfg, s.db, s.workers[l.w], l.act).phase.Failing?;
    }
  }

  lemma RunsNeverFail(ans: map<PubKey, FollowList>, cfg: Config, run: seq<Label>, t: State)
    requires Reaches(cfg, FixedAnswers(ans), Boot(EMPTY_DB), run, t)
    ensures NoneFailed(t)
  {
    var ok := FixedAnswers(ans);
    forall u: State, l: Label | NoneFailed(u) && Enabled(cfg, u, l) && ok(u, l) ensures NoneFailed(Step(cfg, u, l)) {
      StepKeepsNoneFailed(cfg, u, l);
    }
    Induct(cfg, ok, u => NoneFailed(u), Boot(EMPTY_DB), run, t);
  }

  /** With fixed answers and no failing fetch every finished crawl of empty tables, cut off between
      any two steps any number of times and restarted, ends in the graph reachable from the anchor
      over the answers. */
  lemma CrawlIsDeterministic(ans: map<PubKey, FollowList>, cfg: Config, run: seq<Label>, t: State)
    requires AnswersOk(ans) && cfg.mode.Crawl? && cfg.batchSize >= 1
    requires Reaches(cfg, FixedAnswers(ans), Boot(EMPTY_DB), run, t) && t.driver.Finished?
    ensures IsFinalGraph(ans, cfg.anchor, t.db)
  {
    RunsNeverFail(ans, cfg, run, t);
    Weaken(cfg, FixedAnswers(ans), FixedLists(ans), Boot(EMPTY_DB), run, t);
    CrawlIsFinalIff(ans, cfg, run, t);
  }

  /** Schedule independence: two finished crawls from one anchor over the same answers agree
      on the keys, on each key's status and applied event, and on its edges, whatever their
      batch sizes, concurrency, interleavings and crashes. */
  lemma ScheduleIndependence(ans: map<PubKey, FollowList>, cfg: Config, cfg': Config,
                             run: seq<Label>, run': seq<Label>, t: State, t': State)
    requires AnswersOk(ans) && cfg.mode.Crawl? && cfg'.mode.Crawl? && cfg.anchor == cfg'.anchor
    requires cfg.batchSize >= 1 && cfg'.batchSize >= 1
    requires Reaches(cfg, FixedAnswers(ans), Boot(EMPTY_DB), run, t) && t.driver.Finished?
    requires Reaches(cfg', FixedAnswers(ans), Boot(EMPTY_DB), run', t') && t'.driver.Finished?
    ensures t.db.pubkeys.Keys == t'.db.pubkeys.Keys
    ensures forall k | k in t.db.pubkeys ::
              && t.db.pubkeys[k].status == t'.db.pubkeys[k].status
              && t.db.pubkeys[k].applied == t'.db.pubkeys[k].applied
    ensures forall k :: Out(t.db, k) == Out(t'.db, k)
  {
    CrawlIsDeterministic(ans, cfg, run, t);
    CrawlIsDeterministic(ans, cfg', run', t');
  }

  // -------------------------------------------------------------- no redone work

  lemma ActKeepsFinishedRow(cfg: Config, db: Db, w: Worker, act: Act, k: PubKey)
    requires ActEnabled(cfg, w, act) && OwnBatch(db, w.todo)
    requires k in db.pubkeys && db.pubkeys[k].status.Terminal()
    ensures k in ActDb(cfg, db, w, act).pubkeys && ActDb(cfg, db, w, act).pubkeys[k] == db.pubkeys[k]
    ensures Out(ActDb(cfg, db, w, act), k) == Out(db, k)
  {
    assert w.todo[0] in w.todo && HasStatus(db, w.todo[0], InProgress);
  }

  lemma StepKeepsFinishedRow(cfg: Config, s: State, l: Label, k: PubKey)
    requires Exclusive(s) && Enabled(cfg, s, l) && cfg.mode.Crawl?
    requires k in s.db.pubkeys && s.db.pubkeys[k].status.Terminal()
    ensures k in Step(cfg, s, l).db.pubkeys && Step(cfg, s, l).db.pubkeys[k] == s.db.pubkeys[k]
    ensures Out(Step(cfg, s, l).db, k) == Out(s.db, k)
  {
    if l.Work? {
      ActKeepsFinishedRow(cfg, s.db, s.workers[l.w], l.act, k);
    } else if l.Claim? {
      assert k !in Claimable(s.db, l.locked);
      assert k !in ToSet(l.batch);
    }
  }

  ghost predicate SameRow(k: PubKey, row: Row, out: set<PubKey>, s: State) {
    k in s.db.pubkeys && s.db.pubkeys[k] == row && Out(s.db, k) == out
  }

  /** From any tables: a row that reached an outcome, in this process or before a crash, is
      never claimed or written again by a crawl: not a column of it changes, nor its edges. */
  lemma FinishedWorkIsKept(cfg: Config, db: Db, run: seq<Label>, s: State, run': seq<Label>, t: State, k: PubKey)
    requires cfg.mode.Crawl?
    requires Reaches(cfg, Anything, Boot(db), run, s)
    requires Reaches(cfg, Anything, s, run', t)
    requires k in s.db.pubkeys && s.db.pubkeys[k].status.Terminal()
    ensures k in t.db.pubkeys && t.db.pubkeys[k] == s.db.pubkeys[k]
    ensures Out(t.db, k) == Out(s.db, k)
  {
    var row, out := s.db.pubkeys[k], Out(s.db, k);
    forall u: State, l | LeaseInv(cfg, u) && Enabled(cfg, u, l) ensures LeaseInv(cfg, Step(cfg, u, l)) {
      StepKeepsLeaseInv(cfg, u, l);
    }
    Induct(cfg, Anything, u => LeaseInv(cfg, u), Boot(db), run, s);
    forall u: State, l | LeaseInv(cfg, u) && SameRow(k, row, out, u) && Enabled(cfg, u, l)
      ensures LeaseInv(cfg, Step(cfg, u, l)) && SameRow(k, row, out, Step(cfg, u, l))
    {
      StepKeepsLeaseInv(cfg, u, l);
      StepKeepsFinishedRow(cfg, u, l, k);
    }
    Induct(cfg, Anything, u => LeaseInv(cfg, u) && SameRow(k, row, out, u), s, run', t);
  }
}
