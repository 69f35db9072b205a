/** Pagination against an honest relay: a fixed store answered through capped windows of
    its newest events. */
module Completeness {
  import opened Wrappers
  import opened Nostr
  import opened Fetch

  function AtSecond(store: set<Event>, t: Timestamp): set<Event> {
    set e | e in store && e.createdAt == t
  }

  /** NIP-01, "From client to relay": `until` is inclusive and `limit` returns the newest
      `cap` matching events; which of several events of one second are returned is free. */
  ghost predicate IsWindow(store: set<Event>, cap: nat, until: Timestamp, w: seq<Event>) {
    && DistinctIds(w)
    && ToSet(w) <= UpTo(store, until)
    && |w| == Min(cap, |UpTo(store, until)|)
    && forall e, x | e in UpTo(store, until) && e !in w && x in w :: e.createdAt <= x.createdAt
  }

  /** Every window that is answered at all is a window of the store. */
  ghost predicate Honest(relay: Relay, cap: nat, store: set<Event>) {
    && (forall d, e | d in store && e in store && d.id == e.id :: d == e)
    && (forall i, until | relay(i, until).Some? :: IsWindow(store, cap, until, relay(i, until).value))
  }

  /** Some second no later than `first` holds `cap` events or more. */
  ghost predicate FullSecond(store: set<Event>, cap: nat, first: Timestamp) {
    exists t: Timestamp :: t <= first && |AtSecond(store, t)| >= cap
  }

  lemma DistinctIdsSize(w: seq<Event>)
    requires DistinctIds(w)
    ensures |ToSet(w)| == |w|
  {
    DistinctSize(w);
  }

  lemma HonestWindow(relay: Relay, cap: nat, store: set<Event>, first: Timestamp, i: nat)
    requires Honest(relay, cap, store) && Answered(relay, first, i)
    ensures IsWindow(store, cap, UntilAt(relay, first, i), WindowAt(relay, first, i))
  {
    var until := UntilAt(relay, first, i);
    assert relay(i, until).Some?;
  }

  /** What `n` continuing windows have collected: everything newer than the current `until`,
      nothing older, and at least one event per window. */
  ghost predicate Swept(relay: Relay, store: set<Event>, first: Timestamp, n: nat) {
    var until, out := UntilAt(relay, first, n), Collected(relay, first, n);
    && until <= first && |out| >= n && DistinctIds(out)
    && (forall e | e in out :: e in UpTo(store, first) && e.createdAt >= until)
    && (forall e | e in UpTo(store, first) && e.createdAt > until :: e in out)
  }

  /** Where ids are unique, dropping repeated ids drops no event. */
  lemma UniqueIdsLoseNothing(store: set<Event>, events: seq<Event>)
    requires forall d, e | d in store && e in store && d.id == e.id :: d == e
    requires forall e | e in events :: e in store
    ensures forall e :: e in FirstById(events) <==> e in events
  {
    FirstByIdIsFirst(events);
    forall e | e in events ensures e in FirstById(events) {
      var d :| d in FirstById(events) && d.id == e.id;
      assert d in store && e in store;
    }
  }

  lemma WindowFromStore(relay: Relay, cap: nat, store: set<Event>, first: Timestamp, i: nat)
    requires Honest(relay, cap, store)
    ensures forall e | e in WindowAt(relay, first, i) :: e in store
  {
    if Answered(relay, first, i) {
      HonestWindow(relay, cap, store, first, i);
      forall e | e in WindowAt(relay, first, i) ensures e in ToSet(WindowAt(relay, first, i)) {}
    }
  }

  lemma {:induction false} WindowsFromStore(relay: Relay, cap: nat, store: set<Event>, first: Timestamp, n: nat)
    requires Honest(relay, cap, store)
    ensures forall e | e in Windows(relay, first, n) :: e in store
  {
    if n > 0 {
      WindowsFromStore(relay, cap, store, first, n - 1);
      WindowFromStore(relay, cap, store, first, n - 1);
    }
  }

  /** The collected events after one more window. */
  lemma CollectedSet(relay: Relay, cap: nat, store: set<Event>, first: Timestamp, n: nat)
    requires Honest(relay, cap, store)
    ensures forall e :: e in Collected(relay, first, n + 1) <==>
                        e in Collected(relay, first, n) || e in WindowAt(relay, first, n)
    ensures Collected(relay, first, n) <= Collected(relay, first, n + 1)
    ensures DistinctIds(Collected(relay, first, n + 1))
  {
    WindowsFromStore(relay, cap, store, first, n);
    WindowsFromStore(relay, cap, store, first, n + 1);
    UniqueIdsLoseNothing(store, Windows(relay, first, n));
    UniqueIdsLoseNothing(store, Windows(relay, first, n + 1));
    FirstByIdPrefix(Windows(relay, first, n), WindowAt(relay, first, n));
    FirstByIdIsFirst(Windows(relay, first, n + 1));
  }

  /** A full window reaches back to its oldest second and misses nothing newer. */
  lemma FullWindow(relay: Relay, cap: nat, store: set<Event>, first: Timestamp, n: nat)
    requires Honest(relay, cap, store) && Continues(relay, cap, first, n) && cap >= 1
    ensures UntilAt(relay, first, n + 1) <= UntilAt(relay, first, n)
    ensures forall e | e in WindowAt(relay, first, n) ::
              e in UpTo(store, UntilAt(relay, first, n)) && e.createdAt >= UntilAt(relay, first, n + 1)
    ensures forall e | e in UpTo(store, UntilAt(relay, first, n)) && e.createdAt > UntilAt(relay, first, n + 1) ::
              e in WindowAt(relay, first, n)
  {
    HonestWindow(relay, cap, store, first, n);
    WindowReach(store, cap, UntilAt(relay, first, n), WindowAt(relay, first, n), UntilAt(relay, first, n + 1));
  }

  lemma WindowReach(store: set<Event>, cap: nat, until: Timestamp, w: seq<Event>, oldest: Timestamp)
    requires IsWindow(store, cap, until, w) && OldestOf(w) == Some(oldest)
    ensures oldest <= until
    ensures forall e | e in w :: e in UpTo(store, until) && e.createdAt >= oldest
    ensures forall e | e in UpTo(store, until) && e.createdAt > oldest :: e in w
  {
    assert forall e | e in w :: e in ToSet(w);
    var x :| x in w && x.createdAt == oldest;
  }

  lemma ContinuedSoFar(relay: Relay, cap: nat, first: Timestamp, n: nat)
    requires AllContinue(relay, cap, first, n + 1)
    ensures AllContinue(relay, cap, first, n) && Continues(relay, cap, first, n) && BringsNew(relay, first, n)
  {
  }

  lemma {:induction false} SweptAfter(relay: Relay, cap: nat, store: set<Event>, first: Timestamp, n: nat)
    requires Honest(relay, cap, store) && AllContinue(relay, cap, first, n) && cap >= 1
    ensures Swept(relay, store, first, n)
  {
    if n > 0 {
      var m: nat := n - 1;
      ContinuedSoFar(relay, cap, first, m);
      SweptAfter(relay, cap, store, first, m);
      CollectedSet(relay, cap, store, first, m);
      FullWindow(relay, cap, store, first, m);
      SweptStep(relay, store, first, m);
    }
  }

  lemma SweptStep(relay: Relay, store: set<Event>, first: Timestamp, n: nat)
    requires Swept(relay, store, first, n) && BringsNew(relay, first, n)
    requires UntilAt(relay, first, n + 1) <= UntilAt(relay, first, n)
    requires forall e | e in WindowAt(relay, first, n) ::
               e in UpTo(store, UntilAt(relay, first, n)) && e.createdAt >= UntilAt(relay, first, n + 1)
    requires forall e | e in UpTo(store, UntilAt(relay, first, n)) && e.createdAt > UntilAt(relay, first, n + 1) ::
               e in WindowAt(relay, first, n)
    requires DistinctIds(Collected(relay, first, n + 1))
    requires forall e :: e in Collected(relay, first, n + 1) <==>
                         e in Collected(relay, first, n) || e in WindowAt(relay, first, n)
    ensures Swept(relay, store, first, n + 1)
  {
    forall e | e in UpTo(store, first) && e.createdAt > UntilAt(relay, first, n + 1)
      ensures e in Collected(relay, first, n + 1)
    {
      if e !in Collected(relay, first, n) {
        assert e in UpTo(store, UntilAt(relay, first, n));
      }
    }
  }

  /** A window that brings nothing new lies wholly at the current `until`. */
  lemma NothingNewMeansStuck(relay: Relay, cap: nat, store: set<Event>, first: Timestamp, n: nat)
    requires Honest(relay, cap, store) && AllContinue(relay, cap, first, n) && cap >= 1
    requires Capped(relay, cap, first, n) && !BringsNew(relay, first, n)
    ensures Stalled(relay, cap, first, n)
    ensures ToSet(WindowAt(relay, first, n)) <= AtSecond(store, UntilAt(relay, first, n))
  {
    var w, u := WindowAt(relay, first, n), UntilAt(relay, first, n);
    SweptAfter(relay, cap, store, first, n);
    HonestWindow(relay, cap, store, first, n);
    CollectedSet(relay, cap, store, first, n);
    assert Collected(relay, first, n + 1) == Collected(relay, first, n);
    forall e | e in w ensures e.createdAt == u && e in store {
      assert e in ToSet(w) && e in Collected(relay, first, n);
    }
    var x :| x in w && OldestOf(w) == Some(x.createdAt);
  }

  lemma StallMeansFullSecond(relay: Relay, cap: nat, store: set<Event>, first: Timestamp, n: nat)
    requires Honest(relay, cap, store) && AllContinue(relay, cap, first, n) && cap >= 1
    requires Stalled(relay, cap, first, n)
    ensures FullSecond(store, cap, first)
  {
    var w, u := WindowAt(relay, first, n), UntilAt(relay, first, n);
    NothingNewMeansStuck(relay, cap, store, first, n);
    SweptAfter(relay, cap, store, first, n);
    HonestWindow(relay, cap, store, first, n);
    DistinctIdsSize(w);
    SubsetSize(ToSet(w), AtSecond(store, u));
  }

  /** Paging never passes a second that fills a window. */
  lemma {:induction false} NeverPastFullSecond(relay: Relay, cap: nat, store: set<Event>, first: Timestamp,
                                               n: nat, t: Timestamp)
    requires Honest(relay, cap, store) && AllContinue(relay, cap, first, n) && cap >= 1
    requires t <= first && |AtSecond(store, t)| >= cap
    ensures UntilAt(relay, first, n) >= t
  {
    if n > 0 {
      var m: nat := n - 1;
      ContinuedSoFar(relay, cap, first, m);
      NeverPastFullSecond(relay, cap, store, first, m, t);
      HonestWindow(relay, cap, store, first, m);
      var w, u := WindowAt(relay, first, m), UntilAt(relay, first, m);
      var x :| x in w && x.createdAt == UntilAt(relay, first, n);
      if x.createdAt < t {
        forall e | e in AtSecond(store, t) ensures e in ToSet(w) - {x} {
          assert e in UpTo(store, u);
        }
        DistinctIdsSize(w);
        SubsetSize(AtSecond(store, t), ToSet(w) - {x});
        assert false;
      }
    }
  }

  /** An unfilled window is the whole rest of the store, and no second was full. */
  lemma ShortWindowIsTheEnd(relay: Relay, cap: nat, store: set<Event>, first: Timestamp, n: nat)
    requires Honest(relay, cap, store) && AllContinue(relay, cap, first, n) && cap >= 1
    requires Answered(relay, first, n) && !Capped(relay, cap, first, n)
    ensures ToSet(Collected(relay, first, n + 1)) == UpTo(store, first)
    ensures !FullSecond(store, cap, first)
  {
    var w, u := WindowAt(relay, first, n), UntilAt(relay, first, n);
    SweptAfter(relay, cap, store, first, n);
    HonestWindow(relay, cap, store, first, n);
    CollectedSet(relay, cap, store, first, n);
    DistinctIdsSize(w);
    SubsetSize(ToSet(w), UpTo(store, u));
    forall e ensures e in Collected(relay, first, n + 1) <==> e in UpTo(store, first) {
      assert e in w <==> e in ToSet(w);
    }
    forall t: Timestamp | t <= first ensures |AtSecond(store, t)| < cap {
      if |AtSecond(store, t)| >= cap {
        NeverPastFullSecond(relay, cap, store, first, n, t);
        SubsetSize(AtSecond(store, t), UpTo(store, u));
      }
    }
  }

  /** Complete and not needlessly given up: whatever an honest relay returns is, on success,
      every stored event up to the first `until`, each once, however large the store; and with
      fewer matching events than the page budget the loop succeeds exactly when its last window
      is answered and no single second fills a window. */
  lemma PaginationOutcome(relay: Relay, cap: nat, budget: nat, store: set<Event>, first: Timestamp,
                          n: nat, r: Result<seq<Event>, FetchError>)
    requires Honest(relay, cap, store) && cap >= 1
    requires Paginated(relay, cap, budget, first, n, r)
    ensures r.Ok? ==> ToSet(r.value) == UpTo(store, first) && DistinctIds(r.value)
    ensures r.Ok? ==> !Capped(relay, cap, first, n - 1)
    ensures r.Ok? ==> !FullSecond(store, cap, first)
    ensures r.Err? && r.error.BoundaryStall? ==> FullSecond(store, cap, first)
    ensures r.Err? && r.error.PageBudget? ==> |UpTo(store, first)| >= budget
    ensures r == Err(WindowFailed) <==> !Answered(relay, first, n - 1)
    ensures |UpTo(store, first)| < budget ==>
              (r.Ok? <==> Answered(relay, first, n - 1) && !FullSecond(store, cap, first))
  {
    var m: nat := n - 1;
    if Continues(relay, cap, first, m) {
      BudgetMeansLargeStore(relay, cap, store, first, m);
    } else if Stalled(relay, cap, first, m) {
      StallMeansFullSecond(relay, cap, store, first, m);
    } else if Answered(relay, first, m) {
      OkMeansComplete(relay, cap, store, first, m);
    }
  }

  lemma OkMeansComplete(relay: Relay, cap: nat, store: set<Event>, first: Timestamp, n: nat)
    requires Honest(relay, cap, store) && AllContinue(relay, cap, first, n) && cap >= 1
    requires Answered(relay, first, n) && !Continues(relay, cap, first, n) && !Stalled(relay, cap, first, n)
    ensures !Capped(relay, cap, first, n)
    ensures ToSet(Collected(relay, first, n + 1)) == UpTo(store, first)
    ensures DistinctIds(Collected(relay, first, n + 1))
    ensures !FullSecond(store, cap, first)
  {
    OkMeansShortWindow(relay, cap, store, first, n);
    ShortWindowIsTheEnd(relay, cap, store, first, n);
    FirstByIdIsFirst(Windows(relay, first, n + 1));
  }

  /** The break on a full window with nothing new is never reached: that is a stall. */
  lemma OkMeansShortWindow(relay: Relay, cap: nat, store: set<Event>, first: Timestamp, n: nat)
    requires Honest(relay, cap, store) && AllContinue(relay, cap, first, n) && cap >= 1
    requires Answered(relay, first, n) && !Continues(relay, cap, first, n) && !Stalled(relay, cap, first, n)
    ensures !Capped(relay, cap, first, n)
  {
    if Capped(relay, cap, first, n) {
      NothingNewMeansStuck(relay, cap, store, first, n);
    }
  }

  lemma BudgetMeansLargeStore(relay: Relay, cap: nat, store: set<Event>, first: Timestamp, n: nat)
    requires Honest(relay, cap, store) && AllContinue(relay, cap, first, n) && cap >= 1
    requires Continues(relay, cap, first, n)
    ensures |UpTo(store, first)| >= n + 1
  {
    assert AllContinue(relay, cap, first, n + 1);
    SweptAfter(relay, cap, store, first, n + 1);
    var out := Collected(relay, first, n + 1);
    DistinctIdsSize(out);
    SubsetSize(ToSet(out), UpTo(store, first));
  }
}
