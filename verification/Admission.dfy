/** The per-relay admission gate as a protocol: each batch holds a global crawl permit and makes
    its visits in turn, passing a health-scaled check and a fixed-size semaphore. Scores and
    in-use counts are kept per url; a curated visit and a write-relay visit to one url take
    their permits from two different semaphores. */
module Admission {
  import opened Wrappers
  import opened Sums

  const U32_SIZE := 0x1_0000_0000
  const U32_MAX := U32_SIZE - 1

  type RelayId = nat

  /** The fan-out over the curated relays, or the fallback to an author's write relays. */
  datatype Path = Curated | WriteRelay

  datatype Visit = Visit(relay: RelayId, path: Path)

  /** Where a batch stands at the first visit of its list. */
  datatype Stage =
    | Queued                    // waits for a crawl permit
    | Gated                     // polls in_use < permits
    | Admitted                  // passed the check, waits for the semaphore
    | Acquired                  // holds the semaphore permit, not yet counted
    | Fetching                  // counted in in_use
    | Leaving                   // counted out, about to release the permit

  datatype Task = Task(visits: seq<Visit>, stage: Stage) {
    predicate Finished() {
      visits == [] && !stage.Queued?
    }

    predicate Crawling() {
      visits != [] && !stage.Queued?
    }

    predicate Fetches(r: RelayId) {
      visits != [] && visits[0].relay == r && stage.Fetching?
    }

    /** Holds a permit of the semaphore for `v`. */
    predicate Holds(v: Visit) {
      visits != [] && visits[0] == v && (stage.Acquired? || stage.Fetching? || stage.Leaving?)
    }
  }

  /** `cap` is the size of every semaphore; write relays are visited only with `fallback`. */
  datatype Config = Config(crawlPermits: nat, cap: nat, curated: set<RelayId>, fallback: bool)

  /** Any url may be a write relay, a curated one included. */
  predicate Allowed(cfg: Config, v: Visit) {
    if v.path.Curated? then v.relay in cfg.curated else cfg.fallback
  }

  /** `inUse` are 32-bit counters that saturate at both ends. */
  datatype State = State(tasks: map<nat, Task>, crawlFree: int, free: map<Visit, int>, inUse: map<RelayId, nat>)

  /** `permits` is what the relay's health score yields at that moment. */
  datatype Label =
    | TakeCrawlPermit(t: nat)
    | PassGate(t: nat, permits: nat)
    | Acquire(t: nat)
    | CountIn(t: nat)
    | CountOut(t: nat)
    | Release(t: nat)

  function FreeAt(cfg: Config, s: State, v: Visit): int {
    if v in s.free then s.free[v] else cfg.cap
  }

  function InUseAt(s: State, r: RelayId): nat {
    if r in s.inUse then s.inUse[r] else 0
  }

  /** The check compares with the permit count cast to 32 bits. */
  predicate GateOpen(s: State, r: RelayId, permits: nat) {
    InUseAt(s, r) < permits % U32_SIZE
  }

  predicate Enabled(cfg: Config, s: State, l: Label) {
    l.t in s.tasks &&
    var task := s.tasks[l.t];
    match l
    case TakeCrawlPermit(_) => task.stage.Queued? && s.crawlFree > 0
    case PassGate(_, permits) =>
      && task.visits != [] && task.stage.Gated?
      && 1 <= permits <= Max(1, cfg.cap) && GateOpen(s, task.visits[0].relay, permits)
    case Acquire(_) => task.visits != [] && task.stage.Admitted? && FreeAt(cfg, s, task.visits[0]) > 0
    case CountIn(_) => task.visits != [] && task.stage.Acquired?
    case CountOut(_) => task.visits != [] && task.stage.Fetching?
    case Release(_) => task.visits != [] && task.stage.Leaving?
  }

  /** A batch that has made its last visit gives its crawl permit back. */
  function Step(cfg: Config, s: State, l: Label): State
    requires Enabled(cfg, s, l)
  {
    var task := s.tasks[l.t];
    match l
    case TakeCrawlPermit(t) =>
      s.(tasks := s.tasks[t := task.(stage := Gated)],
         crawlFree := if task.visits == [] then s.crawlFree else s.crawlFree - 1)
    case PassGate(t, _) => s.(tasks := s.tasks[t := task.(stage := Admitted)])
    case Acquire(t) =>
      s.(tasks := s.tasks[t := task.(stage := Acquired)],
         free := s.free[task.visits[0] := FreeAt(cfg, s, task.visits[0]) - 1])
    case CountIn(t) =>
      var r := task.visits[0].relay;
      s.(tasks := s.tasks[t := task.(stage := Fetching)],
         inUse := s.inUse[r := Min(InUseAt(s, r) + 1, U32_MAX)])
    case CountOut(t) =>
      var r := task.visits[0].relay;
      s.(tasks := s.tasks[t := task.(stage := Leaving)],
         inUse := s.inUse[r := Max(InUseAt(s, r) - 1, 0)])
    case Release(t) =>
      s.(tasks := s.tasks[t := Task(task.visits[1..], Gated)],
         free := s.free[task.visits[0] := FreeAt(cfg, s, task.visits[0]) + 1],
         crawlFree := if task.visits[1..] == [] then s.crawlFree + 1 else s.crawlFree)
  }

  // ------------------------------------------------------------- invariant

  function Fetchers(s: State, r: RelayId): set<nat> {
    set t | t in s.tasks && s.tasks[t].Fetches(r)
  }

  function Holders(s: State, v: Visit): set<nat> {
    set t | t in s.tasks && s.tasks[t].Holds(v)
  }

  function Crawlers(s: State): set<nat> {
    set t | t in s.tasks && s.tasks[t].Crawling()
  }

  /** The semaphore counts its holders. */
  ghost predicate VisitCounted(cfg: Config, s: State, v: Visit) {
    0 <= FreeAt(cfg, s, v) == cfg.cap - |Holders(s, v)|
  }

  /** `in_use` never counts a fetch that does not run. */
  ghost predicate NoneCountedTwice(s: State, r: RelayId) {
    InUseAt(s, r) <= |Fetchers(s, r)| && InUseAt(s, r) <= U32_MAX
  }

  ghost predicate TaskAllowed(cfg: Config, task: Task) {
    forall v | v in task.visits :: Allowed(cfg, v)
  }

  ghost predicate Counted(cfg: Config, s: State) {
    && 0 <= s.crawlFree == cfg.crawlPermits - |Crawlers(s)|
    && (forall v :: VisitCounted(cfg, s, v))
    && (forall r :: NoneCountedTwice(s, r))
    && (forall t | t in s.tasks :: TaskAllowed(cfg, s.tasks[t]))
  }

  /** `in_use` is the number of running fetches. */
  ghost predicate InUseExact(s: State, r: RelayId) {
    InUseAt(s, r) == |Fetchers(s, r)|
  }

  /** All batches queued, nothing taken. */
  ghost predicate Initial(cfg: Config, s: State) {
    && s.crawlFree == cfg.crawlPermits && s.free == map[] && s.inUse == map[]
    && forall t | t in s.tasks :: s.tasks[t].stage.Queued? && TaskAllowed(cfg, s.tasks[t])
  }

  lemma InitialCounted(cfg: Config, s: State)
    requires Initial(cfg, s)
    ensures Counted(cfg, s) && forall r :: InUseExact(s, r)
  {
    assert Crawlers(s) == {};
    forall v ensures VisitCounted(cfg, s, v) {
      assert Holders(s, v) == {};
    }
    forall r ensures NoneCountedTwice(s, r) && InUseExact(s, r) {
      assert Fetchers(s, r) == {};
    }
  }

  /** `s'` differs from `s` in whether `t` belongs. */
  lemma Toggle(s: set<nat>, s': set<nat>, t: nat)
    requires s - {t} == s' - {t}
    ensures |s'| - |s| == (if t in s' then 1 else 0) - (if t in s then 1 else 0)
  {
    if t in s { assert |s - {t}| == |s| - 1; } else { assert s - {t} == s; }
    if t in s' { assert |s' - {t}| == |s'| - 1; } else { assert s' - {t} == s'; }
  }

  /** A step moves one task and, of the counters, those of its visit. */
  lemma StepFrame(cfg: Config, s: State, l: Label)
    requires Enabled(cfg, s, l)
    ensures l.t in Step(cfg, s, l).tasks
    ensures forall t | t != l.t :: t in Step(cfg, s, l).tasks <==> t in s.tasks
    ensures forall t | t != l.t && t in s.tasks :: Step(cfg, s, l).tasks[t] == s.tasks[t]
    ensures forall v | v in Step(cfg, s, l).tasks[l.t].visits :: v in s.tasks[l.t].visits
    ensures forall v | s.tasks[l.t].visits == [] || v != s.tasks[l.t].visits[0] ::
              FreeAt(cfg, Step(cfg, s, l), v) == FreeAt(cfg, s, v)
    ensures forall r | s.tasks[l.t].visits == [] || r != s.tasks[l.t].visits[0].relay ::
              InUseAt(Step(cfg, s, l), r) == InUseAt(s, r)
  {
  }

  lemma StepKeepsVisitCounted(cfg: Config, s: State, l: Label, v: Visit)
    requires Enabled(cfg, s, l) && VisitCounted(cfg, s, v)
    ensures VisitCounted(cfg, Step(cfg, s, l), v)
  {
    StepFrame(cfg, s, l);
    Toggle(Holders(s, v), Holders(Step(cfg, s, l), v), l.t);
  }

  lemma StepKeepsInUse(cfg: Config, s: State, l: Label, r: RelayId)
    requires Enabled(cfg, s, l) && NoneCountedTwice(s, r)
    ensures NoneCountedTwice(Step(cfg, s, l), r)
    ensures InUseExact(s, r) && |Fetchers(Step(cfg, s, l), r)| <= U32_MAX ==> InUseExact(Step(cfg, s, l), r)
  {
    StepFrame(cfg, s, l);
    Toggle(Fetchers(s, r), Fetchers(Step(cfg, s, l), r), l.t);
  }

  lemma StepKeepsCrawlFree(cfg: Config, s: State, l: Label)
    requires Enabled(cfg, s, l) && 0 <= s.crawlFree == cfg.crawlPermits - |Crawlers(s)|
    ensures 0 <= Step(cfg, s, l).crawlFree == cfg.crawlPermits - |Crawlers(Step(cfg, s, l))|
  {
    StepFrame(cfg, s, l);
    Toggle(Crawlers(s), Crawlers(Step(cfg, s, l)), l.t);
  }

  lemma StepKeepsCounted(cfg: Config, s: State, l: Label)
    requires Enabled(cfg, s, l) && Counted(cfg, s)
    ensures Counted(cfg, Step(cfg, s, l))
  {
    var s' := Step(cfg, s, l);
    StepKeepsCrawlFree(cfg, s, l);
    forall v ensures VisitCounted(cfg, s', v) {
      StepKeepsVisitCounted(cfg, s, l, v);
    }
    forall r ensures NoneCountedTwice(s', r) {
      StepKeepsInUse(cfg, s, l, r);
    }
    forall t | t in s'.tasks ensures TaskAllowed(cfg, s'.tasks[t]) {
      StepFrame(cfg, s, l);
      assert TaskAllowed(cfg, s.tasks[t]);
    }
  }

  // ------------------------------------------------------------- how many fetch

  /** The permits of all semaphores for the url `r`. */
  function Ceiling(cfg: Config, r: RelayId): nat {
    (if r in cfg.curated then cfg.cap else 0) + (if cfg.fallback then cfg.cap else 0)
  }

  /** No more fetches from `r` can run at once. */
  function Most(cfg: Config, r: RelayId): nat {
    if cfg.crawlPermits <= Ceiling(cfg, r) then cfg.crawlPermits else Ceiling(cfg, r)
  }

  lemma HoldersFew(cfg: Config, s: State, v: Visit)
    requires Counted(cfg, s)
    ensures |Holders(s, v)| <= if Allowed(cfg, v) then cfg.cap else 0
  {
    assert VisitCounted(cfg, s, v);
    if !Allowed(cfg, v) {
      forall t | t in s.tasks ensures !s.tasks[t].Holds(v) {
        assert TaskAllowed(cfg, s.tasks[t]);
      }
      assert Holders(s, v) == {};
    }
  }

  lemma FetchersFew(cfg: Config, s: State, r: RelayId)
    requires Counted(cfg, s)
    ensures |Fetchers(s, r)| <= Most(cfg, r)
  {
    var curated, other := Holders(s, Visit(r, Curated)), Holders(s, Visit(r, WriteRelay));
    HoldersFew(cfg, s, Visit(r, Curated));
    HoldersFew(cfg, s, Visit(r, WriteRelay));
    forall t | t in Fetchers(s, r) ensures t in curated + other {
      assert s.tasks[t].visits[0] == Visit(r, s.tasks[t].visits[0].path);
    }
    SubsetSize(Fetchers(s, r), curated + other);
    assert |curated + other| <= |curated| + |other|;
    SubsetSize(Fetchers(s, r), Crawlers(s));
  }

  // ------------------------------------------------------------------- runs

  ghost predicate Reaches(cfg: Config, s: State, run: seq<Label>, t: State)
    decreases |run|
  {
    if run == [] then s == t
    else Enabled(cfg, s, run[0]) && Reaches(cfg, Step(cfg, s, run[0]), run[1..], t)
  }

  ghost predicate Reachable(cfg: Config, t: State) {
    exists s, run :: Initial(cfg, s) && Reaches(cfg, s, run, t)
  }

  lemma {:induction false} RunKeepsCounted(cfg: Config, s: State, run: seq<Label>, t: State)
    requires Counted(cfg, s) && Reaches(cfg, s, run, t)
    ensures Counted(cfg, t)
    decreases |run|
  {
    if run != [] {
      StepKeepsCounted(cfg, s, run[0]);
      RunKeepsCounted(cfg, Step(cfg, s, run[0]), run[1..], t);
    }
  }

  lemma {:induction false} RunKeepsInUseExact(cfg: Config, s: State, run: seq<Label>, t: State, r: RelayId)
    requires Counted(cfg, s) && InUseExact(s, r) && Most(cfg, r) <= U32_MAX && Reaches(cfg, s, run, t)
    ensures InUseExact(t, r)
    decreases |run|
  {
    if run != [] {
      var u := Step(cfg, s, run[0]);
      StepKeepsCounted(cfg, s, run[0]);
      FetchersFew(cfg, u, r);
      assert NoneCountedTwice(s, r);
      StepKeepsInUse(cfg, s, run[0], r);
      RunKeepsInUseExact(cfg, u, run[1..], t, r);
    }
  }

  lemma ReachableCounted(cfg: Config, t: State)
    requires Reachable(cfg, t)
    ensures Counted(cfg, t)
    ensures forall r | Most(cfg, r) <= U32_MAX :: InUseExact(t, r)
  {
    var s, run :| Initial(cfg, s) && Reaches(cfg, s, run, t);
    InitialCounted(cfg, s);
    RunKeepsCounted(cfg, s, run, t);
    forall r | Most(cfg, r) <= U32_MAX ensures InUseExact(t, r) {
      RunKeepsInUseExact(cfg, s, run, t, r);
    }
  }

  ghost predicate AllFinished(s: State) {
    forall t | t in s.tasks :: s.tasks[t].Finished()
  }

  /** In every run, whatever the scores do: no semaphore is overdrawn, `in_use` never exceeds the
      running fetches, these stay within the crawl permits and the semaphores of their url, and
      everything is back once all batches are done. Where fewer than 2^32 fetches from a url can
      run at once, `in_use` is their number, and at least one whenever a fetch ends. */
  lemma GateIsSafe(cfg: Config, t: State)
    requires Reachable(cfg, t)
    ensures forall v :: 0 <= FreeAt(cfg, t, v) == cfg.cap - |Holders(t, v)|
    ensures forall r :: InUseAt(t, r) <= |Fetchers(t, r)| <= Most(cfg, r)
    ensures AllFinished(t) ==>
              && t.crawlFree == cfg.crawlPermits
              && (forall v :: FreeAt(cfg, t, v) == cfg.cap) && (forall r :: InUseAt(t, r) == 0)
    ensures forall r | Most(cfg, r) <= U32_MAX :: InUseAt(t, r) == |Fetchers(t, r)|
    ensures forall k | Enabled(cfg, t, CountOut(k)) && Most(cfg, t.tasks[k].visits[0].relay) <= U32_MAX ::
              InUseAt(t, t.tasks[k].visits[0].relay) >= 1
  {
    ReachableCounted(cfg, t);
    forall v ensures 0 <= FreeAt(cfg, t, v) == cfg.cap - |Holders(t, v)| {
      assert VisitCounted(cfg, t, v);
    }
    forall r ensures InUseAt(t, r) <= |Fetchers(t, r)| <= Most(cfg, r) {
      assert NoneCountedTwice(t, r);
      FetchersFew(cfg, t, r);
    }
    forall k | Enabled(cfg, t, CountOut(k)) && Most(cfg, t.tasks[k].visits[0].relay) <= U32_MAX
      ensures InUseAt(t, t.tasks[k].visits[0].relay) >= 1
    {
      assert InUseExact(t, t.tasks[k].visits[0].relay);
      assert k in Fetchers(t, t.tasks[k].visits[0].relay);
    }
    if AllFinished(t) {
      assert Crawlers(t) == {};
      forall v ensures Holders(t, v) == {} {}
      forall r ensures Fetchers(t, r) == {} {}
    }
  }

  /** The gate holds back and lets through by the running fetches: a check with a permit count
      below 2^32 is passed exactly by a batch that waits at the gate of a relay from which fewer
      fetches run than that; and no check is passed with as many running as permitted. */
  lemma GateOpensIff(cfg: Config, s: State, t: nat, permits: nat)
    requires Reachable(cfg, s) && t in s.tasks && s.tasks[t].visits != []
    requires Most(cfg, s.tasks[t].visits[0].relay) <= U32_MAX
    ensures Enabled(cfg, s, PassGate(t, permits)) ==> |Fetchers(s, s.tasks[t].visits[0].relay)| < permits
    ensures permits < U32_SIZE ==>
              (Enabled(cfg, s, PassGate(t, permits)) <==>
                && s.tasks[t].stage.Gated? && 1 <= permits <= Max(1, cfg.cap)
                && |Fetchers(s, s.tasks[t].visits[0].relay)| < permits)
  {
    ReachableCounted(cfg, s);
    assert InUseExact(s, s.tasks[t].visits[0].relay);
  }

  // --------------------------------------------------- the bounds are attained

  lemma {:induction false} Extend(cfg: Config, s: State, run: seq<Label>, t: State, l: Label)
    requires Reaches(cfg, s, run, t) && Enabled(cfg, t, l)
    ensures Reaches(cfg, s, run + [l], Step(cfg, t, l))
    decreases |run|
  {
    if run == [] {
      assert Reaches(cfg, Step(cfg, t, l), [], Step(cfg, t, l));
      assert (run + [l])[1..] == [];
    } else {
      Extend(cfg, Step(cfg, s, run[0]), run[1..], t, l);
      assert (run + [l])[1..] == run[1..] + [l];
    }
  }

  /** One more step of a run under construction. */
  lemma Go(cfg: Config, t: State, l: Label) returns (u: State)
    requires Reachable(cfg, t) && Enabled(cfg, t, l)
    ensures u == Step(cfg, t, l) && Reachable(cfg, u)
  {
    var s, run :| Initial(cfg, s) && Reaches(cfg, s, run, t);
    Extend(cfg, s, run, t, l);
    u := Step(cfg, t, l);
  }

  lemma GoInitial(cfg: Config, s: State)
    requires Initial(cfg, s)
    ensures Reachable(cfg, s)
  {
    assert Reaches(cfg, s, [], s);
  }

  function FirstNats(n: nat): (r: set<nat>)
    ensures |r| == n && forall k: nat :: k in r <==> k < n
  {
    if n == 0 then {} else FirstNats(n - 1) + {n - 1}
  }

  /** The first `cap` batches come to `r` as a curated relay, if it is one, the others, which
      skipped it there as degraded, as to a write relay. */
  function Way(cfg: Config, r: RelayId, t: nat): Visit {
    Visit(r, if r in cfg.curated && t < cfg.cap then Curated else WriteRelay)
  }

  /** `n` batches for `r`, the first `j` of them ahead of the others. */
  function Crowd(cfg: Config, r: RelayId, n: nat, j: nat, ahead: Stage, behind: Stage): map<nat, Task> {
    map t: nat | t in FirstNats(n) :: Task([Way(cfg, r, t)], if t < j then ahead else behind)
  }

  /** One batch moving up leaves the crowd in order. */
  lemma MoveUp(cfg: Config, r: RelayId, n: nat, j: nat, ahead: Stage, behind: Stage)
    requires j < n
    ensures j in Crowd(cfg, r, n, j, ahead, behind)
    ensures Crowd(cfg, r, n, j, ahead, behind)[j] == Task([Way(cfg, r, j)], behind)
    ensures Crowd(cfg, r, n, j, ahead, behind)[j := Task([Way(cfg, r, j)], ahead)]
            == Crowd(cfg, r, n, j + 1, ahead, behind)
  {
  }

  /** `j` of `n` batches past the check, nothing counted yet. */
  function Passed(cfg: Config, r: RelayId, n: nat, j: nat): State {
    State(Crowd(cfg, r, n, j, Admitted, Queued), cfg.crawlPermits - j, map[], map[])
  }

  lemma PassNext(cfg: Config, r: RelayId, n: nat, j: nat)
    requires j < n <= cfg.crawlPermits && Reachable(cfg, Passed(cfg, r, n, j))
    ensures Reachable(cfg, Passed(cfg, r, n, j + 1))
  {
    MoveUp(cfg, r, n, j, Admitted, Queued);
    var u := Go(cfg, Passed(cfg, r, n, j), TakeCrawlPermit(j));
    assert InUseAt(u, r) == 0;
    u := Go(cfg, u, PassGate(j, 1));
    assert u.tasks == Passed(cfg, r, n, j + 1).tasks;
  }

  lemma CrowdAllowed(cfg: Config, r: RelayId, n: nat, t: nat)
    requires t < n <= Ceiling(cfg, r)
    ensures Allowed(cfg, Way(cfg, r, t))
  {
  }

  /** All batches may pass the check before any of them is counted. */
  lemma {:induction false} AllPass(cfg: Config, r: RelayId, n: nat, j: nat)
    requires j <= n <= Most(cfg, r)
    ensures Reachable(cfg, Passed(cfg, r, n, j))
  {
    if j == 0 {
      forall t: nat | t < n ensures TaskAllowed(cfg, Task([Way(cfg, r, t)], Queued)) {
        CrowdAllowed(cfg, r, n, t);
      }
      GoInitial(cfg, Passed(cfg, r, n, 0));
    } else {
      AllPass(cfg, r, n, j - 1);
      PassNext(cfg, r, n, j - 1);
    }
  }

  /** The next batch finds a permit of its semaphore. */
  lemma RoomForNext(cfg: Config, s: State, r: RelayId, n: nat, j: nat)
    requires Counted(cfg, s) && j < n <= Ceiling(cfg, r)
    requires s.tasks == Crowd(cfg, r, n, j, Fetching, Admitted)
    ensures FreeAt(cfg, s, Way(cfg, r, j)) > 0
  {
    var v := Way(cfg, r, j);
    assert VisitCounted(cfg, s, v);
    if r in cfg.curated && j >= cfg.cap {
      assert Holders(s, v) <= FirstNats(j) - FirstNats(cfg.cap);
      assert FirstNats(cfg.cap) <= FirstNats(j);
      SubsetSize(Holders(s, v), FirstNats(j) - FirstNats(cfg.cap));
      assert |FirstNats(j) - FirstNats(cfg.cap)| == j - cfg.cap;
    } else {
      assert Holders(s, v) <= FirstNats(j);
      SubsetSize(Holders(s, v), FirstNats(j));
    }
  }

  lemma AcquireNext(cfg: Config, s: State, r: RelayId, n: nat, j: nat) returns (t: State)
    requires Reachable(cfg, s) && j < n <= Most(cfg, r)
    requires s.tasks == Crowd(cfg, r, n, j, Fetching, Admitted)
    ensures Reachable(cfg, t) && t.tasks == s.tasks[j := Task([Way(cfg, r, j)], Acquired)] && t.inUse == s.inUse
  {
    ReachableCounted(cfg, s);
    RoomForNext(cfg, s, r, n, j);
    MoveUp(cfg, r, n, j, Fetching, Admitted);
    t := Go(cfg, s, Acquire(j));
  }

  lemma LoadNext(cfg: Config, s: State, r: RelayId, n: nat, j: nat) returns (t: State)
    requires Reachable(cfg, s) && j < n <= Most(cfg, r)
    requires s.tasks == Crowd(cfg, r, n, j, Fetching, Admitted) && InUseAt(s, r) == Min(j, U32_MAX)
    ensures Reachable(cfg, t) && t.tasks == Crowd(cfg, r, n, j + 1, Fetching, Admitted)
    ensures InUseAt(t, r) == Min(j + 1, U32_MAX)
  {
    MoveUp(cfg, r, n, j, Fetching, Admitted);
    t := AcquireNext(cfg, s, r, n, j);
    t := Go(cfg, t, CountIn(j));
    assert t.tasks == s.tasks[j := Task([Way(cfg, r, j)], Fetching)];
  }

  lemma {:induction false} AllLoad(cfg: Config, r: RelayId, n: nat, j: nat) returns (t: State)
    requires j <= n <= Most(cfg, r)
    ensures Reachable(cfg, t) && t.tasks == Crowd(cfg, r, n, j, Fetching, Admitted)
    ensures InUseAt(t, r) == Min(j, U32_MAX)
  {
    if j == 0 {
      AllPass(cfg, r, n, n);
      t := Passed(cfg, r, n, n);
      assert t.tasks == Crowd(cfg, r, n, 0, Fetching, Admitted);
    } else {
      t := AllLoad(cfg, r, n, j - 1);
      t := LoadNext(cfg, t, r, n, j - 1);
    }
  }

  /** As many fetches from `r` as there can be run at once in some state. */
  lemma MostIsAttained(cfg: Config, r: RelayId) returns (t: State)
    ensures Reachable(cfg, t) && |Fetchers(t, r)| == Most(cfg, r) && InUseAt(t, r) == Min(Most(cfg, r), U32_MAX)
  {
    var n := Most(cfg, r);
    t := AllLoad(cfg, r, n, n);
    assert Fetchers(t, r) == FirstNats(n);
  }

  /** Exactly the numbers from `Most` bound the fetches that run at once, and exactly those from
      its 32-bit cut bound `in_use`. */
  lemma FetchBoundIff(cfg: Config, r: RelayId, bound: int)
    ensures (forall t | Reachable(cfg, t) :: |Fetchers(t, r)| <= bound) <==> Most(cfg, r) <= bound
    ensures (forall t | Reachable(cfg, t) :: InUseAt(t, r) <= bound) <==> Min(Most(cfg, r), U32_MAX) <= bound
  {
    forall t | Reachable(cfg, t)
      ensures |Fetchers(t, r)| <= Most(cfg, r) && InUseAt(t, r) <= Min(Most(cfg, r), U32_MAX)
    {
      ReachableCounted(cfg, t);
      FetchersFew(cfg, t, r);
      assert NoneCountedTwice(t, r);
    }
    var t := MostIsAttained(cfg, r);
  }

  /** The per-relay cap bounds the fetches from `r` in every run if and only if the relay is not
      visited on both paths, or there are no more crawl permits than the cap, or nothing is ever
      fetched; otherwise up to twice the cap fetch at once. For `in_use` the same, unless the cap
      is beyond what it can count. */
  lemma CapIsCeilingIff(cfg: Config, r: RelayId)
    ensures (forall t | Reachable(cfg, t) :: |Fetchers(t, r)| <= cfg.cap)
            <==> !(r in cfg.curated && cfg.fallback) || cfg.crawlPermits <= cfg.cap || cfg.cap == 0
    ensures (forall t | Reachable(cfg, t) :: InUseAt(t, r) <= cfg.cap)
            <==> || !(r in cfg.curated && cfg.fallback) || cfg.crawlPermits <= cfg.cap || cfg.cap == 0
                 || cfg.cap >= U32_MAX
    ensures forall t | Reachable(cfg, t) :: |Fetchers(t, r)| <= 2 * cfg.cap
  {
    FetchBoundIff(cfg, r, cfg.cap);
    FetchBoundIff(cfg, r, 2 * cfg.cap);
  }

  /** `in_use` is the number of running fetches in every run if and only if fewer than 2^32 of
      them can run at once. */
  lemma InUseIsExactIff(cfg: Config, r: RelayId)
    ensures (forall t | Reachable(cfg, t) :: InUseExact(t, r)) <==> Most(cfg, r) <= U32_MAX
  {
    forall t | Most(cfg, r) <= U32_MAX && Reachable(cfg, t) ensures InUseExact(t, r) {
      ReachableCounted(cfg, t);
    }
    if Most(cfg, r) > U32_MAX {
      var t := MostIsAttained(cfg, r);
      assert !InUseExact(t, r);
    }
  }

  // --------------------------------------------------------------- progress

  /** One permit count per relay, as some scores yield them. */
  ghost predicate Yields(cfg: Config, permits: RelayId -> nat) {
    forall r :: 1 <= permits(r) <= Max(1, cfg.cap)
  }

  /** A check at the gate sees the count of its own relay. */
  predicate Uses(s: State, l: Label, permits: RelayId -> nat) {
    l.PassGate? && l.t in s.tasks && s.tasks[l.t].visits != [] ==>
      l.permits == permits(s.tasks[l.t].visits[0].relay)
  }

  ghost predicate CanStep(cfg: Config, s: State, permits: RelayId -> nat) {
    exists l :: Enabled(cfg, s, l) && Uses(s, l, permits)
  }

  /** No relay is curated and there is no fallback. */
  predicate NothingToVisit(cfg: Config) {
    cfg.curated == {} && !cfg.fallback
  }

  /** Batches get permits, and an idle relay of any score admits one. */
  predicate Workable(cfg: Config) {
    cfg.crawlPermits >= 1 && (1 <= cfg.cap < U32_SIZE || NothingToVisit(cfg))
  }

  /** A task holding a semaphore permit waits for nothing the gate controls. */
  lemma HolderCanStep(cfg: Config, s: State, t: nat, v: Visit) returns (l: Label)
    requires t in Holders(s, v)
    ensures Enabled(cfg, s, l) && !l.PassGate?
  {
    match s.tasks[t].stage
    case Acquired => l := CountIn(t);
    case Fetching => l := CountOut(t);
    case Leaving => l := Release(t);
  }

  lemma CrawlerOrOtherCanStep(cfg: Config, s: State, t: nat, permits: RelayId -> nat) returns (l: Label)
    requires Counted(cfg, s) && 1 <= cfg.cap < U32_SIZE && t in Crawlers(s)
    requires Yields(cfg, permits)
    ensures Enabled(cfg, s, l) && Uses(s, l, permits)
  {
    var v := s.tasks[t].visits[0];
    assert VisitCounted(cfg, s, v) && NoneCountedTwice(s, v.relay);
    if s.tasks[t].stage.Gated? {
      if InUseAt(s, v.relay) < permits(v.relay) {
        l := PassGate(t, permits(v.relay));
      } else {
        var k :| k in Fetchers(s, v.relay);
        l := CountOut(k);
      }
    } else if s.tasks[t].stage.Admitted? {
      if FreeAt(cfg, s, v) > 0 {
        l := Acquire(t);
      } else {
        var k :| k in Holders(s, v);
        l := HolderCanStep(cfg, s, k, v);
      }
    } else {
      assert t in Holders(s, v);
      l := HolderCanStep(cfg, s, t, v);
    }
  }

  lemma VisitorsHaveRelays(cfg: Config, s: State, t: nat)
    requires Counted(cfg, s) && t in Crawlers(s)
    ensures !NothingToVisit(cfg)
  {
    assert TaskAllowed(cfg, s.tasks[t]);
    assert Allowed(cfg, s.tasks[t].visits[0]);
  }

  lemma UnfinishedCanStep(cfg: Config, s: State, t: nat, permits: RelayId -> nat) returns (l: Label)
    requires Counted(cfg, s) && Workable(cfg)
    requires Yields(cfg, permits) && t in s.tasks && !s.tasks[t].Finished()
    ensures Enabled(cfg, s, l) && Uses(s, l, permits)
  {
    if s.tasks[t].stage.Queued? && s.crawlFree > 0 {
      l := TakeCrawlPermit(t);
    } else {
      assert Crawlers(s) != {} by { assert t in Crawlers(s) || |Crawlers(s)| == cfg.crawlPermits; }
      var k :| k in Crawlers(s);
      VisitorsHaveRelays(cfg, s, k);
      l := CrawlerOrOtherCanStep(cfg, s, k, permits);
    }
  }

  /** No deadlock and no live-lock at the gate: while a batch is unfinished some batch can take
      a real step with exactly the permit counts that the relays' scores yield now. */
  lemma SomeTaskCanStep(cfg: Config, u: State, permits: RelayId -> nat) returns (l: Label)
    requires Workable(cfg) && Yields(cfg, permits)
    requires Reachable(cfg, u) && !AllFinished(u)
    ensures Enabled(cfg, u, l) && Uses(u, l, permits)
  {
    ReachableCounted(cfg, u);
    var t :| t in u.tasks && !u.tasks[t].Finished();
    l := UnfinishedCanStep(cfg, u, t, permits);
  }

  /** Whatever the scores, no run gets stuck. */
  ghost predicate NeverStuck(cfg: Config) {
    forall u, permits | Reachable(cfg, u) && !AllFinished(u) && Yields(cfg, permits) :: CanStep(cfg, u, permits)
  }

  /** A batch alone is stuck without a crawl permit, without a semaphore permit, or at an idle
      gate whose permit count the cast turns into zero. */
  lemma AloneStuck(cfg: Config, u: State, v: Visit, permits: RelayId -> nat)
    requires u.tasks.Keys == {0} && u.tasks[0].visits in {[], [v]}
    requires || (u.tasks[0].stage.Queued? && u.crawlFree <= 0)
             || (u.tasks[0].stage.Admitted? && u.tasks[0].visits == [v] && FreeAt(cfg, u, v) <= 0)
             || (u.tasks[0].stage.Gated? && u.tasks[0].visits == [v] && InUseAt(u, v.relay) == 0
                 && permits(v.relay) % U32_SIZE == 0)
    ensures !AllFinished(u) && !CanStep(cfg, u, permits)
  {
    assert 0 in u.tasks.Keys && !u.tasks[0].Finished();
    forall l | Enabled(cfg, u, l) ensures !Uses(u, l, permits) {
      assert l.t in u.tasks.Keys;
    }
  }

  lemma SomeVisit(cfg: Config) returns (v: Visit)
    requires !NothingToVisit(cfg)
    ensures Allowed(cfg, v)
  {
    if cfg.fallback {
      v := Visit(0, WriteRelay);
    } else {
      var r :| r in cfg.curated;
      v := Visit(r, Curated);
    }
  }

  /** One batch, with one visit at most, is enough to get stuck on the wrong configuration. */
  lemma StuckAlone(cfg: Config) returns (u: State, permits: RelayId -> nat)
    requires !Workable(cfg)
    ensures Reachable(cfg, u) && !AllFinished(u) && Yields(cfg, permits) && !CanStep(cfg, u, permits)
  {
    permits := r => if cfg.cap >= U32_SIZE then U32_SIZE else 1;
    if cfg.crawlPermits == 0 {
      u := State(map[0 := Task([], Queued)], 0, map[], map[]);
      GoInitial(cfg, u);
      AloneStuck(cfg, u, Visit(0, Curated), permits);
    } else {
      var v := SomeVisit(cfg);
      u := State(map[0 := Task([v], Queued)], cfg.crawlPermits, map[], map[]);
      GoInitial(cfg, u);
      u := Go(cfg, u, TakeCrawlPermit(0));
      if cfg.cap == 0 {
        u := Go(cfg, u, PassGate(0, 1));
      }
      AloneStuck(cfg, u, v, permits);
    }
  }

  /** The gate keeps moving, in every run and for all scores, if and only if there are crawl
      permits and, where there is anything to visit, the per-relay cap is positive and fits 32
      bits: the cast of a larger count may be zero, and then an idle relay admits nobody. */
  lemma NeverStuckIff(cfg: Config)
    ensures NeverStuck(cfg) <==> cfg.crawlPermits >= 1 && (1 <= cfg.cap < U32_SIZE || NothingToVisit(cfg))
  {
    if Workable(cfg) {
      forall u, permits | Reachable(cfg, u) && !AllFinished(u) && Yields(cfg, permits)
        ensures CanStep(cfg, u, permits)
      {
        var l := SomeTaskCanStep(cfg, u, permits);
      }
    } else {
      var u, permits := StuckAlone(cfg);
    }
  }

  /** Steps a batch still has before it, at most. */
  function Remaining(task: Task): nat {
    if task.visits == [] then (if task.stage.Queued? then 1 else 0)
    else
      6 * |task.visits| - match task.stage
                          case Queued => -1
                          case Gated => 0
                          case Admitted => 1
                          case Acquired => 2
                          case Fetching => 3
                          case Leaving => 4
  }

  function Remainders(s: State): map<nat, nat> {
    map t | t in s.tasks :: Remaining(s.tasks[t])
  }

  lemma StepTakesOne(cfg: Config, s: State, l: Label)
    requires Enabled(cfg, s, l)
    ensures Total(Remainders(Step(cfg, s, l))) < Total(Remainders(s))
  {
    var s' := Step(cfg, s, l);
    StepFrame(cfg, s, l);
    assert Remaining(s'.tasks[l.t]) < Remaining(s.tasks[l.t]);
    TotalLess(Remainders(s), Remainders(s'), l.t);
  }

  /** Every run is finite: together with progress, all batches finish. */
  lemma {:induction false} RunsAreFinite(cfg: Config, s: State, run: seq<Label>, t: State)
    requires Reaches(cfg, s, run, t)
    ensures |run| + Total(Remainders(t)) <= Total(Remainders(s))
    decreases |run|
  {
    if run != [] {
      StepTakesOne(cfg, s, run[0]);
      RunsAreFinite(cfg, Step(cfg, s, run[0]), run[1..], t);
    }
  }

  /** The steps `run` under scores that may change with every state. No state recurs, so any
      behaviour of the scores along a run is one of these. */
  ghost predicate ReachesUnder(cfg: Config, scores: State -> RelayId -> nat, s: State, run: seq<Label>, t: State)
    decreases |run|
  {
    if run == [] then s == t
    else
      && Enabled(cfg, s, run[0]) && Uses(s, run[0], scores(s))
      && ReachesUnder(cfg, scores, Step(cfg, s, run[0]), run[1..], t)
  }

  /** Every batch gets through: whatever the scores do, also if they all stay at the floor, each
      reachable state leads on to one in which all batches are finished. */
  lemma {:induction false} AllBatchesFinish(cfg: Config, s: State, scores: State -> RelayId -> nat)
    returns (run: seq<Label>, t: State)
    requires Reachable(cfg, s) && Workable(cfg)
    requires forall u :: Yields(cfg, scores(u))
    ensures ReachesUnder(cfg, scores, s, run, t) && AllFinished(t)
    decreases Total(Remainders(s))
  {
    run, t := [], s;
    if !AllFinished(s) {
      var l := SomeTaskCanStep(cfg, s, scores(s));
      var u := Go(cfg, s, l);
      StepTakesOne(cfg, s, l);
      var rest;
      rest, t := AllBatchesFinish(cfg, u, scores);
      run := [l] + rest;
      assert run[1..] == rest;
    }
  }
}
