/** A worker running alone: the acts of one batch in a row. */
module WorkerRuns {
  import opened Wrappers
  import opened Nostr
  import opened Tables
  import opened Protocol

  datatype Local = Local(db: Db, w: Worker)

  ghost function Act1(cfg: Config, x: Local, act: Act): Local
    requires ActEnabled(cfg, x.w, act)
  {
    Local(ActDb(cfg, x.db, x.w, act), ActWorker(cfg, x.db, x.w, act))
  }

  ghost predicate Runs(cfg: Config, x: Local, acts: seq<Act>, y: Local)
    decreases |acts|
  {
    if acts == [] then x == y
    else ActEnabled(cfg, x.w, acts[0]) && Runs(cfg, Act1(cfg, x, acts[0]), acts[1..], y)
  }

  lemma {:induction false} RunsOn(cfg: Config, x: Local, acts: seq<Act>, y: Local, act: Act)
    requires Runs(cfg, x, acts, y) && ActEnabled(cfg, y.w, act)
    ensures Runs(cfg, x, acts + [act], Act1(cfg, y, act))
    decreases |acts|
  {
    if acts == [] {
      assert (acts + [act])[1..] == [];
    } else {
      RunsOn(cfg, Act1(cfg, x, acts[0]), acts[1..], y, act);
      assert (acts + [act])[1..] == acts[1..] + [act];
    }
  }

  /** What a worker does alone is a run of the whole system. */
  lemma {:induction false} RunsInSystem(cfg: Config, s: State, w: nat, acts: seq<Act>, y: Local)
    returns (run: seq<Label>)
    requires w in s.workers && Runs(cfg, Local(s.db, s.workers[w]), acts, y)
    ensures Reaches(cfg, Anything, s, run, s.(db := y.db, workers := s.workers[w := y.w]))
    decreases |acts|
  {
    if acts == [] {
      run := [];
      assert s == s.(db := y.db, workers := s.workers[w := y.w]) by { assert s.workers == s.workers[w := y.w]; }
    } else {
      var t := Step(cfg, s, Work(w, acts[0]));
      var rest := RunsInSystem(cfg, t, w, acts[1..], y);
      run := [Work(w, acts[0])] + rest;
      assert t.(db := y.db, workers := t.workers[w := y.w]) == s.(db := y.db, workers := s.workers[w := y.w]) by {
        assert t.workers[w := y.w] == s.workers[w := y.w];
      }
      assert run[1..] == rest;
    }
  }
}
