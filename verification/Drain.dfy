/** Cancellation works: from wherever the daemon stands it leads to a return without another
    claim, and in the final drain only joins and workers' own steps matter, which run out
    whatever the sweeps do to the tables meanwhile. */
module Drain {
  import opened Wrappers
  import opened Nostr
  import opened Sums
  import opened Tables
  import opened Protocol

  /** A live worker has an author to work on, and a drain has workers to join. */
  ghost predicate Ready(s: State) {
    && (s.driver.Holding? ==> s.driver.batch != [])
    && (s.driver.Draining? || s.driver.FinalDrain? ==> s.workers != map[])
    && (s.driver.Finished? ==> s.workers == map[])
    && forall w | w in s.workers && s.workers[w].Live() :: s.workers[w].todo != []
  }

  lemma StepKeepsReady(cfg: Config, s: State, l: Label)
    requires Ready(s) && Enabled(cfg, s, l)
    ensures Ready(Step(cfg, s, l))
  {
  }

  // ---------------------------------------------------------------- measure

  function Authors(workers: map<nat, Worker>): map<nat, nat> {
    map w | w in workers :: |workers[w].todo|
  }

  /** Before the fetch, between authors, inside one. */
  function StageOf(w: Worker): nat {
    match w.phase
    case Fetching => 2
    case Failing => 1
    case Resolving(_) => 1
    case _ => 0
  }

  function Stages(workers: map<nat, Worker>): map<nat, nat> {
    map w | w in workers :: StageOf(workers[w])
  }

  function StepsOf(w: Worker): nat {
    match w.phase
    case Upserting(_, _, left) => |left| + 3
    case Confirming(_, _) => 2
    case Diffing(_, _) => 2
    case Writing(_, _, _) => 1
    case _ => 0
  }

  function StepsLeft(workers: map<nat, Worker>): map<nat, nat> {
    map w | w in workers :: StepsOf(workers[w])
  }

  /** Batches, authors without an outcome, stages before them, steps within an author. */
  ghost function MeasureOf(workers: map<nat, Worker>): Measure {
    Measure(|workers|, Total(Authors(workers)), Total(Stages(workers)), Total(StepsLeft(workers)), 0)
  }

  /** Every act resolves an author, enters a later stage or takes a step within an author,
      whatever it reads in the tables. */
  lemma ActAdvances(cfg: Config, db: Db, w: Worker, act: Act)
    requires ActEnabled(cfg, w, act)
    ensures var w' := ActWorker(cfg, db, w, act);
            || |w'.todo| < |w.todo|
            || (|w'.todo| == |w.todo| && StageOf(w') < StageOf(w))
            || (|w'.todo| == |w.todo| && StageOf(w') == StageOf(w) && StepsOf(w') < StepsOf(w))
  {
  }

  lemma WorkDecreases(workers: map<nat, Worker>, w: nat, x: Worker)
    requires w in workers
    requires || |x.todo| < |workers[w].todo|
             || (|x.todo| == |workers[w].todo| && StageOf(x) < StageOf(workers[w]))
             || (|x.todo| == |workers[w].todo| && StageOf(x) == StageOf(workers[w]) && StepsOf(x) < StepsOf(workers[w]))
    ensures MeasureOf(workers[w := x]).Less(MeasureOf(workers))
  {
    var workers' := workers[w := x];
    assert workers'.Keys == workers.Keys;
    if |x.todo| < |workers[w].todo| {
      TotalLess(Authors(workers), Authors(workers'), w);
    } else {
      assert Authors(workers') == Authors(workers);
      if StageOf(x) < StageOf(workers[w]) {
        TotalLess(Stages(workers), Stages(workers'), w);
      } else {
        assert Stages(workers') == Stages(workers);
        TotalLess(StepsLeft(workers), StepsLeft(workers'), w);
      }
    }
  }

  // ------------------------------------------------------------------ drain

  /** The loop is draining for good, or has returned. */
  predicate Stopping(d: Driver) {
    d.FinalDrain? || d.Finished? || d.Errored?
  }

  /** While draining for good nothing new is claimed or spawned; each step of a worker and each
      join of a finished one decreases the measure, and sweeps leave it alone. */
  lemma DrainDecreases(cfg: Config, s: State, l: Label)
    requires Enabled(cfg, s, l) && Stopping(s.driver) && !l.Crash?
    ensures Stopping(Step(cfg, s, l).driver)
    ensures l.SweepTtl? || l.SweepAge? ==>
              Step(cfg, s, l).workers == s.workers && Step(cfg, s, l).driver == s.driver
    ensures !l.SweepTtl? && !l.SweepAge? && !Step(cfg, s, l).driver.Errored? ==>
              MeasureOf(Step(cfg, s, l).workers).Less(MeasureOf(s.workers))
  {
    if l.Work? {
      ActAdvances(cfg, s.db, s.workers[l.w], l.act);
      WorkDecreases(s.workers, l.w, ActWorker(cfg, s.db, s.workers[l.w], l.act));
    } else if l.Join? && !s.workers[l.w].phase.Broken? {
      assert (s.workers - {l.w}).Keys == s.workers.Keys - {l.w};
    }
  }

  // ----------------------------------------------------------- cancellation

  /** Steps the driver still has before it returns. */
  function DriverLeft(d: Driver): nat {
    match d
    case Seeding => 6
    case Starting => 5
    case Holding(_) => 4
    case Reaping => 3
    case Draining => 3
    case AtClaim => 2
    case Idle => 2
    case FinalDrain => 1
    case _ => 0
  }

  ghost function CancelMeasure(s: State): Measure {
    var m := MeasureOf(s.workers);
    Measure(DriverLeft(s.driver), m.m0, m.m1, m.m2, m.m3)
  }

  predicate Final(d: Driver) {
    d.Finished? || d.Errored?
  }

  /** No claim, no wait, no failure, and no help from a sweep or a restart. */
  predicate Graceful(s: State, l: Label) {
    && !l.Claim? && !l.Wake? && !l.Abort? && !(l.Work? && l.act.Break?)
    && !l.SweepTtl? && !l.SweepAge? && !l.Crash?
  }

  /** Some worker can act or be joined while there are workers to drain. */
  lemma DrainProgress(cfg: Config, s: State) returns (l: Label)
    requires Ready(s) && (s.driver.Draining? || s.driver.FinalDrain?)
    ensures Enabled(cfg, s, l) && (l.Work? || l.Join?) && Graceful(s, l)
  {
    var w :| w in s.workers;
    if s.workers[w].Live() {
      var act := NextAct(cfg, s.workers[w]);
      l := Work(w, act);
    } else {
      l := Join(w);
    }
  }

  /** The held batch gets its permit once a worker is done. */
  lemma HoldingProgress(cfg: Config, s: State) returns (l: Label)
    requires Ready(s) && s.driver.Holding? && cfg.concurrency >= 1
    ensures Enabled(cfg, s, l) && (l.Work? || l.Spawn?) && Graceful(s, l)
  {
    if |LiveWorkers(s)| < cfg.concurrency {
      var w := FreshHandle(s.workers);
      l := Spawn(w);
    } else {
      var w :| w in LiveWorkers(s);
      var act := NextAct(cfg, s.workers[w]);
      l := Work(w, act);
    }
  }

  /** What to do next on the way out. */
  lemma CancelProgress(cfg: Config, s: State) returns (l: Label)
    requires Ready(s) && cfg.mode.Daemon? && cfg.concurrency >= 1 && !Final(s.driver)
    ensures Enabled(cfg, s, l) && Graceful(s, l)
  {
    match s.driver
    case Seeding => l := Seed;
    case Starting => l := Startup;
    case AtClaim => l := Cancel;
    case Idle => l := Cancel;
    case Reaping => l := EndReap;
    case Holding(_) => l := HoldingProgress(cfg, s);
    case _ => l := DrainProgress(cfg, s);
  }

  lemma JoinLeavesFewer(workers: map<nat, Worker>, w: nat)
    requires w in workers
    ensures |workers - {w}| < |workers|
  {
    assert (workers - {w}).Keys == workers.Keys - {w};
  }

  lemma DriverMovesOn(cfg: Config, s: State, l: Label)
    requires Enabled(cfg, s, l) && Graceful(s, l) && !l.Work? && !l.Join?
    ensures DriverLeft(Step(cfg, s, l).driver) < DriverLeft(s.driver)
  {
  }

  lemma JoinMovesOn(cfg: Config, s: State, w: nat)
    requires Enabled(cfg, s, Join(w)) && cfg.mode.Daemon? && !s.workers[w].phase.Broken?
    ensures DriverLeft(Step(cfg, s, Join(w)).driver) <= DriverLeft(s.driver)
    ensures |Step(cfg, s, Join(w)).workers| < |s.workers|
  {
    JoinLeavesFewer(s.workers, w);
  }

  lemma CancelDecreases(cfg: Config, s: State, l: Label)
    requires Enabled(cfg, s, l) && Graceful(s, l) && cfg.mode.Daemon?
    ensures Step(cfg, s, l).driver.Errored? || CancelMeasure(Step(cfg, s, l)).Less(CancelMeasure(s))
  {
    if l.Work? {
      ActAdvances(cfg, s.db, s.workers[l.w], l.act);
      WorkDecreases(s.workers, l.w, ActWorker(cfg, s.db, s.workers[l.w], l.act));
    } else if l.Join? {
      if !s.workers[l.w].phase.Broken? { JoinMovesOn(cfg, s, l.w); }
    } else {
      DriverMovesOn(cfg, s, l);
    }
  }

  /** A worker fails only by a failing step, and a failed one stays until its join. */
  lemma FailuresStay(cfg: Config, s: State, l: Label)
    requires Enabled(cfg, s, l) && Graceful(s, l) && !s.driver.Errored?
    ensures Step(cfg, s, l).driver.Errored? ==> !NoneBroken(s)
    ensures !Step(cfg, s, l).driver.Errored? ==> (NoneBroken(Step(cfg, s, l)) <==> NoneBroken(s))
  {
    var t := Step(cfg, s, l);
    if w :| w in s.workers && s.workers[w].phase.Broken? && !t.driver.Errored? {
      assert w in t.workers && t.workers[w].phase.Broken?;
    }
    if w :| w in t.workers && t.workers[w].phase.Broken? {
      assert w in s.workers && s.workers[w].phase.Broken?;
    }
  }

  lemma CancelStep(cfg: Config, s: State) returns (l: Label, u: State)
    requires Ready(s) && cfg.mode.Daemon? && cfg.concurrency >= 1 && !Final(s.driver)
    ensures Enabled(cfg, s, l) && u == Step(cfg, s, l) && Graceful(s, l) && Ready(u)
    ensures u.driver.Errored? ==> !NoneBroken(s)
    ensures !u.driver.Errored? ==> CancelMeasure(u).Less(CancelMeasure(s)) && (NoneBroken(u) <==> NoneBroken(s))
  {
    l := CancelProgress(cfg, s);
    u := Step(cfg, s, l);
    CancelDecreases(cfg, s, l);
    FailuresStay(cfg, s, l);
    StepKeepsReady(cfg, s, l);
  }

  lemma {:induction false} CancelOn(cfg: Config, s: State) returns (run: seq<Label>, t: State)
    requires Ready(s) && cfg.mode.Daemon? && cfg.concurrency >= 1 && !s.driver.Errored?
    ensures Reaches(cfg, Graceful, s, run, t) && Final(t.driver)
    ensures t.driver.Finished? <==> NoneBroken(s)
    decreases CancelMeasure(s).m0, CancelMeasure(s).m1, CancelMeasure(s).m2, CancelMeasure(s).m3, CancelMeasure(s).m4
  {
    run, t := [], s;
    if !s.driver.Finished? {
      var l, u := CancelStep(cfg, s);
      var rest := [];
      t := u;
      if !u.driver.Errored? {
        rest, t := CancelOn(cfg, u);
      }
      run := [l] + rest;
      assert run[1..] == rest;
    }
  }

  /** An errored driver takes no step of its own. */
  lemma GracefulStep(cfg: Config, s: State, l: Label)
    requires Enabled(cfg, s, l) && Graceful(s, l) && cfg.mode.Daemon? && Ready(s)
    ensures Ready(Step(cfg, s, l)) && (s.driver.Errored? ==> Step(cfg, s, l).driver.Errored?)
    ensures !Step(cfg, s, l).driver.Errored? ==>
              CancelMeasure(Step(cfg, s, l)).Less(CancelMeasure(s)) && (NoneBroken(Step(cfg, s, l)) <==> NoneBroken(s))
    ensures !s.driver.Errored? && Step(cfg, s, l).driver.Errored? ==> !NoneBroken(s)
  {
    StepKeepsReady(cfg, s, l);
    CancelDecreases(cfg, s, l);
    if !s.driver.Errored? { FailuresStay(cfg, s, l); }
  }

  /** Whatever the schedule: each graceful step but the one that ends in an error lowers the
      measure, so none can go on for ever, and none changes whether a worker has failed. */
  lemma {:induction false} GracefulRuns(cfg: Config, s: State, run: seq<Label>, t: State)
    requires Reaches(cfg, Graceful, s, run, t) && cfg.mode.Daemon? && Ready(s)
    ensures Ready(t) && (s.driver.Errored? ==> t.driver.Errored?)
    ensures !t.driver.Errored? && run != [] ==> CancelMeasure(t).Less(CancelMeasure(s))
    ensures !t.driver.Errored? ==> (NoneBroken(t) <==> NoneBroken(s))
    ensures !s.driver.Errored? && t.driver.Errored? ==> !NoneBroken(s)
    decreases |run|
  {
    if run != [] {
      var u := Step(cfg, s, run[0]);
      GracefulStep(cfg, s, run[0]);
      GracefulRuns(cfg, u, run[1..], t);
      if !t.driver.Errored? && run[1..] != [] {
        LessTransitive(CancelMeasure(t), CancelMeasure(u), CancelMeasure(s));
      }
    }
  }

  /** Cancellation works, under every schedule: take any state any daemon run reaches, on any
      tables, mid-batch, in a drain or at the start, and let the driver and the workers go on in
      any order, without a claim, a sweep or a new failure. Every step but one into an error
      strictly descends, so they cannot go on for ever; and wherever they stand, with a permit to be
      had, they can complete to a return, which is `Ok` if and only if no worker had failed. */
  lemma CancellationCompletes(cfg: Config, db: Db, before: seq<Label>, s: State, run: seq<Label>, t: State)
    returns (rest: seq<Label>, u: State)
    requires cfg.mode.Daemon? && cfg.concurrency >= 1
    requires Reaches(cfg, Anything, Boot(db), before, s) && !s.driver.Errored?
    requires Reaches(cfg, Graceful, s, run, t)
    ensures run != [] ==> t.driver.Errored? || CancelMeasure(t).Less(CancelMeasure(s))
    ensures Reaches(cfg, Graceful, t, rest, u) && Final(u.driver)
    ensures u.driver.Finished? <==> NoneBroken(s)
  {
    RunsAreReady(cfg, db, before, s);
    GracefulRuns(cfg, s, run, t);
    if t.driver.Errored? {
      rest, u := [], t;
    } else {
      rest, u := CancelOn(cfg, t);
    }
  }

  lemma RunsAreReady(cfg: Config, db: Db, run: seq<Label>, s: State)
    requires Reaches(cfg, Anything, Boot(db), run, s)
    ensures Ready(s)
  {
    forall u: State, l | Ready(u) && Enabled(cfg, u, l) ensures Ready(Step(cfg, u, l)) {
      StepKeepsReady(cfg, u, l);
    }
    Induct(cfg, Anything, u => Ready(u), Boot(db), run, s);
  }
}
