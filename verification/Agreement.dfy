/** The stored edges against the events they came from. */
module Agreement {
  import opened Wrappers
  import opened Nostr
  import opened Tables
  import opened Protocol
  import opened Leases

  // ------------------------------------------------------- one transaction

  /** The diff transaction equals plain replacement exactly when no edge it keeps was
      deleted, and no unwanted edge was inserted, since the worker read the edge set. */
  lemma DiffIsReplacementIff(db: Db, f: PubKey, list: FollowList, current: set<PubKey>, now: int)
    requires f in db.pubkeys
    ensures
      var wanted := ToSet(list.followees) - {f};
      (Out(WriteDiff(db, f, list, current, now), f) == wanted)
        <==> (wanted * current <= Out(db, f) <= wanted + current)
  {
    var wanted := ToSet(list.followees) - {f};
    var out, out' := Out(db, f), Out(WriteDiff(db, f, list, current, now), f);
    assert out' == out - (current - wanted) + (wanted - current);
    if out' == wanted {
      forall k | k in wanted * current ensures k in out { assert k in out'; }
      forall k | k in out ensures k in wanted + current { assert k !in out' ==> k in current; }
    }
  }

  /** The churn columns move exactly when the edge set does. */
  ghost predicate ChangeCounted(db: Db, db': Db, f: PubKey, now: int) {
    && f in db.pubkeys && f in db'.pubkeys
    && var row, row', changed := db.pubkeys[f], db'.pubkeys[f], Out(db', f) != Out(db, f);
       && row'.fetchCount == row.fetchCount + 1
       && row'.changeCount == row.changeCount + (if changed then 1 else 0)
       && row'.lastChangedAt == (if changed then Some(now) else row.lastChangedAt)
  }

  lemma FreshDiffIsCounted(db: Db, f: PubKey, list: FollowList, now: int)
    requires f in db.pubkeys
    ensures Out(WriteDiff(db, f, list, Out(db, f), now), f) == ToSet(list.followees) - {f}
    ensures ChangeCounted(db, WriteDiff(db, f, list, Out(db, f), now), f, now)
  {
    var wanted, current := ToSet(list.followees) - {f}, Out(db, f);
    assert Out(WriteDiff(db, f, list, current, now), f) == wanted;
    assert wanted - current == {} && current - wanted == {} <==> wanted == current;
  }

  /** Only a committing worker changes edges, and only those of its own first author. */
  lemma OnlyCommitWritesEdges(cfg: Config, s: State, l: Label, f: PubKey)
    requires Enabled(cfg, s, l)
    requires !(l.Work? && l.act.Commit? && s.workers[l.w].todo[0] == f)
    ensures Out(Step(cfg, s, l).db, f) == Out(s.db, f)
  {
  }

  // ------------------------------------------ the store and the applied event

  /** `body` gives the followees an event id stands for: verified events with one id agree. */
  ghost predicate Genuine(body: EventId -> set<PubKey>, list: FollowList) {
    ToSet(list.followees) == body(list.eventId)
  }

  ghost predicate GenuineLabel(body: EventId -> set<PubKey>, l: Label) {
    match l
    case Work(_, FetchOk(lists)) => forall a | a in lists :: Genuine(body, lists[a])
    case Work(_, Recover(list)) => Genuine(body, list)
    case _ => true
  }

  /** No two workers are inside `apply_validated` for the same follower. */
  ghost predicate ConflictFree(s: State) {
    forall v, w | v in s.workers && w in s.workers && v != w
                  && s.workers[v].Applying() && s.workers[w].Applying() ::
      s.workers[v].todo[0] != s.workers[w].todo[0]
  }

  ghost predicate RowAgrees(body: EventId -> set<PubKey>, db: Db, f: PubKey)
    requires f in db.pubkeys
  {
    var applied := db.pubkeys[f].applied;
    Out(db, f) == if applied.Some? then body(applied.value.eventId) - {f} else {}
  }

  ghost predicate StoreAgrees(body: EventId -> set<PubKey>, db: Db) {
    && (forall f | f in db.pubkeys :: RowAgrees(body, db, f))
    && (forall f | f in db.follows :: f in db.pubkeys)
  }

  ghost predicate WorkerAgrees(body: EventId -> set<PubKey>, db: Db, w: Worker) {
    && (!w.phase.Fetching? && !w.phase.Failing? && !w.phase.Broken? ==>
          forall a | a in w.phase.lists :: Genuine(body, w.phase.lists[a]))
    && (w.Applying() ==> Genuine(body, w.phase.list))
    && (w.Applying() && w.phase.Confirming? ==> AlreadyApplied(db, w.todo[0], w.phase.list.eventId))
    && (w.Applying() && w.phase.Writing? ==> w.phase.current == Out(db, w.todo[0]))
  }

  ghost predicate Agrees(body: EventId -> set<PubKey>, s: State) {
    && StoreAgrees(body, s.db)
    && forall w | w in s.workers :: WorkerAgrees(body, s.db, s.workers[w])
  }

  /** What an act leaves alone: every other row's edges and applied event. */
  lemma ActFrame(cfg: Config, db: Db, w: Worker, act: Act, f: PubKey)
    requires ActEnabled(cfg, w, act)
    requires f != w.todo[0] || !act.Commit?
    ensures Out(ActDb(cfg, db, w, act), f) == Out(db, f)
    ensures f in db.pubkeys ==>
              f in ActDb(cfg, db, w, act).pubkeys
              && ActDb(cfg, db, w, act).pubkeys[f].applied == db.pubkeys[f].applied
  {
  }

  lemma ActKeepsStore(body: EventId -> set<PubKey>, cfg: Config, db: Db, w: Worker, act: Act)
    requires ActEnabled(cfg, w, act) && StoreAgrees(body, db) && WorkerAgrees(body, db, w)
    ensures StoreAgrees(body, ActDb(cfg, db, w, act))
  {
    var db' := ActDb(cfg, db, w, act);
    forall f | f in db'.pubkeys ensures RowAgrees(body, db', f) {
      if act.Commit? && f == w.todo[0] {
        DiffIsReplacementIff(db, f, w.phase.list, w.phase.current, act.now);
      } else {
        ActFrame(cfg, db, w, act, f);
      }
    }
  }

  lemma ActKeepsOwnAgreement(body: EventId -> set<PubKey>, cfg: Config, db: Db, w: Worker, act: Act)
    requires ActEnabled(cfg, w, act) && WorkerAgrees(body, db, w)
    requires act.FetchOk? ==> forall a | a in act.lists :: Genuine(body, act.lists[a])
    requires act.Recover? ==> Genuine(body, act.list)
    ensures WorkerAgrees(body, ActDb(cfg, db, w, act), ActWorker(cfg, db, w, act))
  {
  }

  lemma ActKeepsAgrees(body: EventId -> set<PubKey>, cfg: Config, s: State, w: nat, act: Act)
    requires Enabled(cfg, s, Work(w, act)) && Agrees(body, s)
    requires ConflictFree(s) && GenuineLabel(body, Work(w, act))
    ensures Agrees(body, Step(cfg, s, Work(w, act)))
  {
    var t := Step(cfg, s, Work(w, act));
    ActKeepsStore(body, cfg, s.db, s.workers[w], act);
    ActKeepsOwnAgreement(body, cfg, s.db, s.workers[w], act);
    forall v | v in t.workers ensures WorkerAgrees(body, t.db, t.workers[v]) {
      if v != w && s.workers[v].Applying() {
        ActFrame(cfg, s.db, s.workers[w], act, s.workers[v].todo[0]);
      }
    }
  }

  /** Neither the driver nor a sweep nor a crash touches an edge or an applied event. */
  lemma DriverKeepsApplied(cfg: Config, s: State, l: Label)
    requires Enabled(cfg, s, l) && !l.Work?
    ensures Step(cfg, s, l).db.follows == s.db.follows
    ensures forall f | f in s.db.pubkeys ::
              f in Step(cfg, s, l).db.pubkeys && Step(cfg, s, l).db.pubkeys[f].applied == s.db.pubkeys[f].applied
    ensures forall f | f in Step(cfg, s, l).db.pubkeys && f !in s.db.pubkeys ::
              Step(cfg, s, l).db.pubkeys[f].applied.None?
    ensures forall w | w in Step(cfg, s, l).workers ::
              || (w in s.workers && Step(cfg, s, l).workers[w] == s.workers[w])
              || Step(cfg, s, l).workers[w].phase.Fetching?
  {
  }

  /** Agreement speaks of edges and applied events only. */
  lemma SameAppliedAgrees(body: EventId -> set<PubKey>, db: Db, db': Db)
    requires StoreAgrees(body, db) && db'.follows == db.follows
    requires forall f | f in db.pubkeys :: f in db'.pubkeys && db'.pubkeys[f].applied == db.pubkeys[f].applied
    requires forall f | f in db'.pubkeys && f !in db.pubkeys :: db'.pubkeys[f].applied.None?
    ensures StoreAgrees(body, db')
    ensures forall w | WorkerAgrees(body, db, w) :: WorkerAgrees(body, db', w)
  {
    forall f | f in db'.pubkeys ensures RowAgrees(body, db', f) {
      assert f in db.pubkeys ==> RowAgrees(body, db, f);
    }
  }

  lemma DriverKeepsAgrees(body: EventId -> set<PubKey>, cfg: Config, s: State, l: Label)
    requires Enabled(cfg, s, l) && Agrees(body, s) && !l.Work?
    ensures Agrees(body, Step(cfg, s, l))
  {
    var t := Step(cfg, s, l);
    DriverKeepsApplied(cfg, s, l);
    SameAppliedAgrees(body, s.db, t.db);
    forall w | w in t.workers ensures WorkerAgrees(body, t.db, t.workers[w]) {
      assert w in s.workers ==> WorkerAgrees(body, s.db, s.workers[w]);
    }
  }

  lemma StepKeepsAgrees(body: EventId -> set<PubKey>, cfg: Config, s: State, l: Label)
    requires Enabled(cfg, s, l) && Agrees(body, s)
    requires ConflictFree(s) && GenuineLabel(body, l)
    ensures Agrees(body, Step(cfg, s, l))
  {
    if l.Work? {
      ActKeepsAgrees(body, cfg, s, l.w, l.act);
    } else {
      DriverKeepsAgrees(body, cfg, s, l);
    }
  }

  ghost function NoConflict(body: EventId -> set<PubKey>): (State, Label) -> bool {
    (s: State, l: Label) => ConflictFree(s) && GenuineLabel(body, l)
  }

  /** While no two workers resolve one follower at once, every row with an applied event
      has exactly that event's followees, itself excepted; a worker about to take the
      same-event shortcut leaves the edges a full re-apply would leave. */
  lemma StoreMatchesAppliedEvent(body: EventId -> set<PubKey>, cfg: Config, db: Db, run: seq<Label>, t: State)
    requires StoreAgrees(body, db)
    requires Reaches(cfg, NoConflict(body), Boot(db), run, t)
    ensures StoreAgrees(body, t.db)
    ensures forall w, now | w in t.workers && ActEnabled(cfg, t.workers[w], Confirm(now)) ::
              ShortcutIsFullApply(t.db, t.workers[w].todo[0], t.workers[w].phase.list, now)
  {
    forall u: State, l | Agrees(body, u) && Enabled(cfg, u, l) && NoConflict(body)(u, l)
      ensures Agrees(body, Step(cfg, u, l))
    {
      StepKeepsAgrees(body, cfg, u, l);
    }
    Induct(cfg, NoConflict(body), s => Agrees(body, s), Boot(db), run, t);
    forall w, now | w in t.workers && ActEnabled(cfg, t.workers[w], Confirm(now))
      ensures ShortcutIsFullApply(t.db, t.workers[w].todo[0], t.workers[w].phase.list, now)
    {
      assert WorkerAgrees(body, t.db, t.workers[w]);
      var f := t.workers[w].todo[0];
      DiffIsReplacementIff(t.db, f, t.workers[w].phase.list, Out(t.db, f), now);
    }
  }

  ghost predicate ShortcutIsFullApply(db: Db, f: PubKey, list: FollowList, now: int) {
    Reconfirm(db, f, now).follows == db.follows
    && Out(db, f) == Out(WriteDiff(db, f, list, Out(db, f), now), f)
  }

  lemma ExclusiveIsConflictFree(s: State)
    requires Exclusive(s)
    ensures ConflictFree(s)
  {
    forall v, w | v in s.workers && w in s.workers && v != w
                  && s.workers[v].Applying() && s.workers[w].Applying()
      ensures s.workers[v].todo[0] != s.workers[w].todo[0]
    {
      assert Disjoint(s.workers[v].todo, s.workers[w].todo);
      assert s.workers[v].todo[0] in s.workers[v].todo && s.workers[w].todo[0] in s.workers[w].todo;
    }
  }

  ghost function ConflictFreely(ok: (State, Label) -> bool): (State, Label) -> bool {
    (s: State, l: Label) => ConflictFree(s) && ok(s, l)
  }

  /** Without the in-run age reclaim no two workers ever meet on one follower. */
  lemma RunsAreConflictFree(cfg: Config, ok: (State, Label) -> bool, db: Db, run: seq<Label>, t: State)
    requires forall u, l :: ok(u, l) ==> NoAgeReclaim(u, l)
    requires Reaches(cfg, ok, Boot(db), run, t)
    ensures Reaches(cfg, ConflictFreely(ok), Boot(db), run, t)
  {
    forall u: State, l | LeaseInv(cfg, u) && Enabled(cfg, u, l) && ok(u, l)
      ensures LeaseInv(cfg, Step(cfg, u, l)) && ConflictFreely(ok)(u, l)
    {
      StepKeepsLeaseInv(cfg, u, l);
      ExclusiveIsConflictFree(u);
    }
    Strengthen(cfg, ok, ConflictFreely(ok), u => LeaseInv(cfg, u), Boot(db), run, t);
  }

  lemma StoreMatchesWithoutAgeReclaim(body: EventId -> set<PubKey>, cfg: Config, db: Db, run: seq<Label>, t: State)
    requires StoreAgrees(body, db)
    requires Reaches(cfg, GenuineNoReclaim(body), Boot(db), run, t)
    ensures StoreAgrees(body, t.db)
  {
    var ok := GenuineNoReclaim(body);
    RunsAreConflictFree(cfg, ok, db, run, t);
    Weaken(cfg, ConflictFreely(ok), NoConflict(body), Boot(db), run, t);
    StoreMatchesAppliedEvent(body, cfg, db, run, t);
  }

  ghost function GenuineNoReclaim(body: EventId -> set<PubKey>): (State, Label) -> bool {
    (s: State, l: Label) => NoAgeReclaim(s, l) && GenuineLabel(body, l)
  }

  // ------------------------------------------------------------------ commits

  /** Between its read and its transaction no worker's edges move under it. */
  ghost predicate FreshReads(s: State) {
    forall w | w in s.workers && s.workers[w].Applying() && s.workers[w].phase.Writing? ::
      s.workers[w].phase.current == Out(s.db, s.workers[w].todo[0])
  }

  lemma StepKeepsFreshReads(cfg: Config, s: State, l: Label)
    requires FreshReads(s) && ConflictFree(s) && Enabled(cfg, s, l)
    ensures FreshReads(Step(cfg, s, l))
  {
    var t := Step(cfg, s, l);
    forall w | w in t.workers && t.workers[w].Applying() && t.workers[w].phase.Writing?
      ensures t.workers[w].phase.current == Out(t.db, t.workers[w].todo[0])
    {
      if w in s.workers && s.workers[w] == t.workers[w] {
        OnlyCommitWritesEdges(cfg, s, l, t.workers[w].todo[0]);
      }
    }
  }

  lemma ReadsAreFresh(cfg: Config, db: Db, run: seq<Label>, t: State)
    requires Reaches(cfg, ConflictFreely(Anything), Boot(db), run, t)
    ensures FreshReads(t) && ClaimsAreRows(t)
  {
    var ok, inv := ConflictFreely(Anything), (u: State) => FreshReads(u) && ClaimsAreRows(u);
    forall u: State, l | inv(u) && Enabled(cfg, u, l) && ok(u, l) ensures inv(Step(cfg, u, l)) {
      StepKeepsFreshReads(cfg, u, l);
      StepKeepsClaimsAreRows(cfg, u, l);
    }
    Induct(cfg, ok, inv, Boot(db), run, t);
  }

  /** In every run in which no two workers resolve one follower at once, every transaction
      leaves exactly the list it writes and counts a change if and only if the edges moved. */
  lemma CommitCountsChange(cfg: Config, db: Db, run: seq<Label>, t: State, w: nat, now: int)
    requires Reaches(cfg, ConflictFreely(Anything), Boot(db), run, t)
    requires Enabled(cfg, t, Work(w, Commit(now)))
    ensures var f, db' := t.workers[w].todo[0], Step(cfg, t, Work(w, Commit(now))).db;
            Out(db', f) == ToSet(t.workers[w].phase.list.followees) - {f} && ChangeCounted(t.db, db', f, now)
  {
    ReadsAreFresh(cfg, db, run, t);
    var f := t.workers[w].todo[0];
    assert f in t.workers[w].todo && f in t.db.pubkeys;
    FreshDiffIsCounted(t.db, f, t.workers[w].phase.list, now);
  }

  // ------------------------------------------------------------- provenance

  ghost predicate Sourced(prov: (PubKey, PubKey) -> bool, list: FollowList) {
    forall g | g in list.followees :: prov(list.follower, g)
  }

  ghost function SourcedRun(prov: (PubKey, PubKey) -> bool): (State, Label) -> bool {
    (s: State, l: Label) =>
      match l
      case Work(_, FetchOk(lists)) => forall a | a in lists :: Sourced(prov, lists[a])
      case Work(_, Recover(list)) => Sourced(prov, list)
      case _ => true
  }

  ghost predicate EdgesSourced(prov: (PubKey, PubKey) -> bool, db: Db) {
    forall f, g | f in db.follows && g in db.follows[f] :: f != g && prov(f, g)
  }

  ghost predicate WorkerSourced(prov: (PubKey, PubKey) -> bool, w: Worker) {
    && (!w.phase.Fetching? && !w.phase.Failing? && !w.phase.Broken? ==>
          forall a | a in w.phase.lists :: Sourced(prov, w.phase.lists[a]) && w.phase.lists[a].follower == a)
    && (w.Applying() ==> Sourced(prov, w.phase.list) && w.phase.list.follower == w.todo[0])
  }

  ghost predicate AllSourced(prov: (PubKey, PubKey) -> bool, s: State) {
    && EdgesSourced(prov, s.db)
    && forall w | w in s.workers :: WorkerSourced(prov, s.workers[w])
  }

  lemma ActKeepsSourced(prov: (PubKey, PubKey) -> bool, cfg: Config, db: Db, w: Worker, act: Act)
    requires ActEnabled(cfg, w, act) && EdgesSourced(prov, db) && WorkerSourced(prov, w)
    requires act.FetchOk? ==> forall a | a in act.lists :: Sourced(prov, act.lists[a])
    requires act.Recover? ==> Sourced(prov, act.list)
    ensures EdgesSourced(prov, ActDb(cfg, db, w, act))
    ensures WorkerSourced(prov, ActWorker(cfg, db, w, act))
  {
  }

  lemma StepKeepsSourced(prov: (PubKey, PubKey) -> bool, cfg: Config, s: State, l: Label)
    requires Enabled(cfg, s, l) && AllSourced(prov, s) && SourcedRun(prov)(s, l)
    ensures AllSourced(prov, Step(cfg, s, l))
  {
    var t := Step(cfg, s, l);
    if l.Work? {
      ActKeepsSourced(prov, cfg, s.db, s.workers[l.w], l.act);
    } else {
      assert t.db.follows == s.db.follows;
      forall w | w in t.workers ensures WorkerSourced(prov, t.workers[w]) {
        assert w in s.workers ==> WorkerSourced(prov, s.workers[w]);
      }
    }
  }

  /** Every stored edge joins two different keys and is vouched for by some list that a
      fetch handed over, whichever writers overlap. */
  lemma EdgeProvenance(prov: (PubKey, PubKey) -> bool, cfg: Config, db: Db, run: seq<Label>, t: State)
    requires EdgesSourced(prov, db)
    requires Reaches(cfg, SourcedRun(prov), Boot(db), run, t)
    ensures EdgesSourced(prov, t.db)
  {
    forall u: State, l | AllSourced(prov, u) && Enabled(cfg, u, l) && SourcedRun(prov)(u, l)
      ensures AllSourced(prov, Step(cfg, u, l))
    {
      StepKeepsSourced(prov, cfg, u, l);
    }
    Induct(cfg, SourcedRun(prov), s => AllSourced(prov, s), Boot(db), run, t);
  }
}
