/** Relay health scores, permits and probes. Scores are modelled as reals. */
module Health {
  import opened Wrappers

  const PROBE_INTERVAL := 60_000_000_000

  /** EWMA update. */
  function Blend(alpha: real, sample: real, prev: real): real {
    alpha * sample + (1.0 - alpha) * prev
  }

  /** The score stays between its old value and the sample, hence within [0, 1]. */
  lemma BlendStaysBetween(alpha: real, sample: real, prev: real)
    requires 0.0 <= alpha <= 1.0
    ensures sample <= prev ==> sample <= Blend(alpha, sample, prev) <= prev
    ensures prev <= sample ==> prev <= Blend(alpha, sample, prev) <= sample
  {
    var gap := if sample <= prev then prev - sample else sample - prev;
    ProductNonNegative(alpha, gap);
    ProductNonNegative(1.0 - alpha, gap);
    if sample <= prev {
      assert Blend(alpha, sample, prev) == prev - alpha * gap == sample + (1.0 - alpha) * gap;
    } else {
      assert Blend(alpha, sample, prev) == prev + alpha * gap == sample - (1.0 - alpha) * gap;
    }
  }

  /** The score after `n` further samples of the same kind. */
  function BlendMany(alpha: real, sample: real, prev: real, n: nat): real {
    if n == 0 then prev else Blend(alpha, sample, BlendMany(alpha, sample, prev, n - 1))
  }

  function Power(x: real, n: nat): real {
    if n == 0 then 1.0 else x * Power(x, n - 1)
  }

  /** Each sample of one kind closes the share `alpha` of what is left between score and sample. */
  lemma {:induction false} ScoreConverges(alpha: real, sample: real, prev: real, n: nat)
    ensures BlendMany(alpha, sample, prev, n) - sample == Power(1.0 - alpha, n) * (prev - sample)
  {
    if n > 0 {
      ScoreConverges(alpha, sample, prev, n - 1);
      BlendCloses(alpha, sample, BlendMany(alpha, sample, prev, n - 1));
      Regroup(1.0 - alpha, Power(1.0 - alpha, n - 1), prev - sample);
    }
  }

  lemma BlendCloses(alpha: real, sample: real, prev: real)
    ensures Blend(alpha, sample, prev) - sample == (1.0 - alpha) * (prev - sample)
  {
  }

  lemma Regroup(a: real, b: real, c: real)
    ensures a * (b * c) == (a * b) * c
  {
  }

  lemma ProductNonNegative(a: real, b: real)
    requires a >= 0.0 && b >= 0.0
    ensures a * b >= 0.0
  {
  }

  /** `max(1, round(cap * score))`, halves rounded up. */
  function Permits(cap: nat, score: real): nat
    requires score >= 0.0
  {
    Max(1, ((cap as real) * score + 0.5).Floor)
  }

  /** Some score yields this permit count. */
  ghost predicate Attainable(cap: nat, permits: nat) {
    exists score :: 0.0 <= score <= 1.0 && Permits(cap, score) == permits
  }

  /** The permit counts are exactly those between 1 and the larger of 1 and the cap. */
  lemma PermitsRange(cap: nat, permits: nat)
    ensures Attainable(cap, permits) <==> 1 <= permits <= Max(1, cap)
  {
    forall score: real | 0.0 <= score <= 1.0 ensures 1 <= Permits(cap, score) <= Max(1, cap) {
      assert (cap as real) * score <= cap as real;
    }
    if 1 <= permits <= Max(1, cap) {
      var score := if cap == 0 then 0.0 else permits as real / cap as real;
      if cap > 0 { ShareOf(permits, cap); }
      assert Permits(cap, score) == permits;
    }
  }

  /** The permits are the cap scaled by the score, to the nearest count, halves up, at least one;
      so they never shrink while the score grows. */
  lemma PermitsFollowScore(cap: nat, score: real, score': real)
    requires 0.0 <= score <= score'
    ensures (cap as real) * score < 1.5 ==> Permits(cap, score) == 1
    ensures (cap as real) * score >= 1.5 ==>
              Permits(cap, score) as real - 0.5 <= (cap as real) * score < Permits(cap, score) as real + 0.5
    ensures Permits(cap, score) <= Permits(cap, score')
  {
    ProductNonNegative(cap as real, score' - score);
    var x, x' := (cap as real) * score, (cap as real) * score';
    assert x' == x + (cap as real) * (score' - score);
    RoundedMax(x, Permits(cap, score));
    RoundedMax(x', Permits(cap, score'));
  }

  lemma RoundedMax(x: real, n: int)
    requires n == Max(1, (x + 0.5).Floor)
    ensures x < 1.5 ==> n == 1
    ensures x >= 1.5 ==> n as real - 0.5 <= x < n as real + 0.5
  {
  }

  lemma ShareOf(part: nat, whole: nat)
    requires part <= whole && whole > 0
    ensures var share := part as real / whole as real;
            0.0 <= share <= 1.0 && (whole as real) * share == part as real
  {
  }

  // ----------------------------------------------------------------- probes

  /** One routing decision: the clock it reads and whether the score meets the threshold. */
  datatype Call = Call(now: int, healthy: bool)

  predicate ProbeDue(last: Option<int>, now: int) {
    last.None? || now - last.value >= PROBE_INTERVAL
  }

  /** The recorded attempt after the calls `log` for one relay. */
  function LastAttempt(log: seq<Call>): Option<int> {
    if log == [] then None
    else
      var last, call := LastAttempt(log[..|log| - 1]), log[|log| - 1];
      if call.healthy || ProbeDue(last, call.now) then Some(call.now) else last
  }

  predicate Granted(log: seq<Call>, i: nat)
    requires i < |log|
  {
    log[i].healthy || ProbeDue(LastAttempt(log[..i]), log[i].now)
  }

  ghost predicate ClockOrdered(log: seq<Call>) {
    forall i, j | 0 <= i <= j < |log| :: log[i].now <= log[j].now
  }

  lemma {:induction false} LastAttemptCoversGrants(log: seq<Call>, i: nat)
    requires ClockOrdered(log) && i < |log| && Granted(log, i)
    ensures LastAttempt(log).Some? && log[i].now <= LastAttempt(log).value <= log[|log| - 1].now
  {
    var init := log[..|log| - 1];
    if i < |init| {
      assert init[..i] == log[..i];
      LastAttemptCoversGrants(init, i);
    } else {
      assert log[..i] == init;
    }
  }

  /** A relay below the threshold is granted at most one probe per interval: any earlier
      attempt, by whichever task, is at least a full interval old. */
  lemma ProbesAreSpaced(log: seq<Call>, i: nat, j: nat)
    requires ClockOrdered(log) && i < j < |log|
    requires Granted(log, i) && Granted(log, j) && !log[j].healthy
    ensures log[j].now - log[i].now >= PROBE_INTERVAL
  {
    var before := log[..j];
    assert before[..i] == log[..i];
    LastAttemptCoversGrants(before, i);
  }

  /** The recorded attempt is that of a granted call, and no later one was granted. */
  lemma {:induction false} LastAttemptIsGranted(log: seq<Call>) returns (i: nat)
    ensures LastAttempt(log).Some? ==> i < |log| && Granted(log, i) && LastAttempt(log) == Some(log[i].now)
    ensures LastAttempt(log).None? ==> forall j | 0 <= j < |log| :: !Granted(log, j)
  {
    i := 0;
    if log != [] {
      var init, n: nat := log[..|log| - 1], |log| - 1;
      forall j | 0 <= j < n ensures init[..j] == log[..j] {}
      i := LastAttemptIsGranted(init);
      if Granted(log, n) { i := n; }
    }
  }

  /** A relay at the threshold is always routed to; one below it exactly when no attempt has been
      granted within the last minute. */
  lemma GrantedIff(log: seq<Call>, j: nat)
    requires ClockOrdered(log) && j < |log|
    ensures Granted(log, j) <==>
              || log[j].healthy
              || forall i | 0 <= i < j && Granted(log, i) :: log[j].now - log[i].now >= 60_000_000_000
  {
    var before := log[..j];
    forall i | 0 <= i < j ensures before[..i] == log[..i] {}
    var last := LastAttemptIsGranted(before);
    if Granted(log, j) && !log[j].healthy {
      forall i | 0 <= i < j && Granted(log, i) ensures log[j].now - log[i].now >= 60_000_000_000 {
        ProbesAreSpaced(log, i, j);
      }
    } else if !Granted(log, j) {
      assert Granted(log, last);
    }
  }

  // --------------------------------------------------------------- registry

  class RelayHealthRegistry {
    const alpha: real
    var scores: map<string, real>
    var lastProbe: map<string, int>
    ghost var calls: map<string, seq<Call>>

    ghost function CallsOf(relay: string): seq<Call>
      reads this`calls
    {
      if relay in calls then calls[relay] else []
    }

    ghost predicate Valid()
      reads this
    {
      && 0.0 <= alpha <= 1.0
      && (forall relay :: 0.0 <= Score(relay) <= 1.0)
      && (forall relay :: Probed(relay) == LastAttempt(CallsOf(relay)))
    }

    function Probed(relay: string): Option<int>
      reads this`lastProbe
    {
      if relay in lastProbe then Some(lastProbe[relay]) else None
    }

    /** An unknown relay is healthy. */
    function Score(relay: string): real
      reads this`scores
    {
      if relay in scores then scores[relay] else 1.0
    }

    constructor (alpha: real)
      requires 0.0 <= alpha <= 1.0
      ensures Valid() && forall relay :: Score(relay) == 1.0
    {
      this.alpha, scores, lastProbe, calls := alpha, map[], map[], map[];
    }

    method Update(relay: string, sample: real)
      requires Valid() && 0.0 <= sample <= 1.0
      modifies this`scores
      ensures Valid() && Score(relay) == Blend(alpha, sample, old(Score(relay)))
      ensures forall other | other != relay :: Score(other) == old(Score(other))
    {
      BlendStaysBetween(alpha, sample, Score(relay));
      assert 0.0 <= Score(relay) <= 1.0;
      scores := scores[relay := Blend(alpha, sample, Score(relay))];
      forall other ensures 0.0 <= Score(other) <= 1.0 {
        assert other != relay ==> Score(other) == old(Score(other));
      }
    }

    /** Decide and claim in one step; the call is granted by the rule of the call log. */
    method TryMarkAttempt(relay: string, threshold: real, now: int) returns (granted: bool)
      requires Valid()
      modifies this`lastProbe, this`calls
      ensures Valid() && CallsOf(relay) == old(CallsOf(relay)) + [Call(now, Score(relay) >= threshold)]
      ensures granted == Granted(CallsOf(relay), |CallsOf(relay)| - 1)
      ensures forall other | other != relay :: CallsOf(other) == old(CallsOf(other))
    {
      var healthy := Score(relay) >= threshold;
      ghost var log := CallsOf(relay) + [Call(now, healthy)];
      assert log[..|log| - 1] == CallsOf(relay) && log[|log| - 1] == Call(now, healthy);
      granted := healthy || relay !in lastProbe || now - lastProbe[relay] >= PROBE_INTERVAL;
      assert granted == (healthy || ProbeDue(LastAttempt(CallsOf(relay)), now)) by {
        assert Probed(relay) == LastAttempt(CallsOf(relay));
      }
      calls := calls[relay := log];
      if granted {
        lastProbe := lastProbe[relay := now];
      }
      forall other ensures Probed(other) == LastAttempt(CallsOf(other)) {
        assert old(Probed(other)) == LastAttempt(old(CallsOf(other)));
      }
    }
  }
}
