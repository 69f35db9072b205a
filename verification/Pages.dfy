/** Pagination told request by request, without the functions the loop is specified by. */
module Pages {
  import opened Wrappers
  import opened Nostr
  import opened Fetch

  /** One request and its answer. */
  datatype Exchange = Exchange(until: Timestamp, answer: Option<seq<Event>>) {
    function Window(): seq<Event> {
      if answer.Some? then answer.value else []
    }
  }

  function Joined(talk: seq<Exchange>): seq<Event> {
    if talk == [] then [] else Joined(talk[..|talk| - 1]) + talk[|talk| - 1].Window()
  }

  /** Some window before the `i`-th has an event with this id. */
  ghost predicate Before(talk: seq<Exchange>, i: nat, id: EventId)
    requires i <= |talk|
  {
    exists j: nat :: j < i && HasId(talk[j].Window(), id)
  }

  /** Window `i` has an event whose id no earlier window has. */
  ghost predicate HasNew(talk: seq<Exchange>, i: nat)
    requires i < |talk|
  {
    exists e :: e in talk[i].Window() && !Before(talk, i, e.id)
  }

  /** `t` is the oldest second of `w`. */
  ghost predicate IsOldest(w: seq<Event>, t: Timestamp) {
    (exists e :: e in w && e.createdAt == t) && forall e | e in w :: t <= e.createdAt
  }

  /** Window `i` was answered, is full and brings something new. */
  ghost predicate Productive(cap: nat, talk: seq<Exchange>, i: nat)
    requires i < |talk|
  {
    talk[i].answer.Some? && |talk[i].Window()| >= cap && HasNew(talk, i)
  }

  /** The loop starts at `first`, goes on exactly after productive windows, and each time from the
      oldest second of the window before, inclusively. */
  ghost predicate IsTalk(relay: Relay, cap: nat, first: Timestamp, talk: seq<Exchange>) {
    && talk != [] && talk[0].until == first
    && (forall i: nat | i < |talk| :: talk[i].answer == relay(i, talk[i].until))
    && (forall i: nat | i < |talk| - 1 :: Productive(cap, talk, i) && IsOldest(talk[i].Window(), talk[i + 1].until))
  }

  /** A full window whose `until` has not moved, or would not move any more. */
  ghost predicate StallsAt(cap: nat, talk: seq<Exchange>, n: nat)
    requires n < |talk|
  {
    && |talk[n].Window()| >= cap
    && ((n > 0 && talk[n - 1].until == talk[n].until) || IsOldest(talk[n].Window(), talk[n].until))
  }

  /** Without an answer it fails; after a productive window it stops only because the budget is
      spent; a full window with nothing new is a stall if its `until` has not moved or would not;
      in every other case the result is the first event of each id. */
  ghost predicate Concludes(cap: nat, budget: nat, talk: seq<Exchange>, r: Result<seq<Event>, FetchError>)
    requires talk != []
  {
    var n: nat := |talk| - 1;
    var until := talk[n].until;
    if talk[n].answer.None? then r == Err(WindowFailed)
    else if Productive(cap, talk, n) then |talk| == budget && r == Err(PageBudget)
    else if StallsAt(cap, talk, n) then r == Err(BoundaryStall(until))
    else r.Ok? && DistinctIds(r.value) && forall e :: e in r.value <==> IsFirstWithId(Joined(talk), e)
  }

  // ------------------------------------------------------------------ proof

  ghost function TalkOf(relay: Relay, first: Timestamp, n: nat): seq<Exchange> {
    seq(n, i requires i >= 0 => Exchange(UntilAt(relay, first, i), relay(i, UntilAt(relay, first, i))))
  }

  lemma {:induction false} JoinedIsWindows(relay: Relay, first: Timestamp, n: nat)
    ensures Joined(TalkOf(relay, first, n)) == Windows(relay, first, n)
  {
    if n > 0 {
      JoinedIsWindows(relay, first, n - 1);
      assert TalkOf(relay, first, n)[..n - 1] == TalkOf(relay, first, n - 1);
    }
  }

  lemma HasIdOfSum(s: seq<Event>, t: seq<Event>, id: EventId)
    ensures HasId(s + t, id) <==> HasId(s, id) || HasId(t, id)
  {
    assert forall d :: d in s + t <==> d in s || d in t;
  }

  lemma TalkAt(relay: Relay, first: Timestamp, n: nat, i: nat)
    requires i < n
    ensures TalkOf(relay, first, n)[i].until == UntilAt(relay, first, i)
    ensures TalkOf(relay, first, n)[i].answer == relay(i, UntilAt(relay, first, i))
    ensures TalkOf(relay, first, n)[i].Window() == WindowAt(relay, first, i)
  {
  }

  /** One window more to look back on. */
  lemma BeforeNext(talk: seq<Exchange>, i: nat, id: EventId)
    requires i < |talk|
    ensures Before(talk, i + 1, id) <==> Before(talk, i, id) || HasId(talk[i].Window(), id)
  {
    if Before(talk, i + 1, id) {
      var j: nat :| j < i + 1 && HasId(talk[j].Window(), id);
      assert j < i ==> Before(talk, i, id);
    }
    if Before(talk, i, id) {
      var j: nat :| j < i && HasId(talk[j].Window(), id);
      assert j < i + 1;
    }
  }

  lemma {:induction false} BeforeIsInWindows(relay: Relay, first: Timestamp, n: nat, i: nat, id: EventId)
    requires i <= n
    ensures Before(TalkOf(relay, first, n), i, id) <==> HasId(Windows(relay, first, i), id)
    decreases i
  {
    if i > 0 {
      var m: nat := i - 1;
      BeforeIsInWindows(relay, first, n, m, id);
      TalkAt(relay, first, n, m);
      BeforeNext(TalkOf(relay, first, n), m, id);
      HasIdOfSum(Windows(relay, first, m), WindowAt(relay, first, m), id);
    }
  }

  /** Appending keeps something exactly if an id is new. */
  lemma {:induction false} GrowsByNew(s: seq<Event>, t: seq<Event>)
    ensures |FirstById(s)| <= |FirstById(s + t)|
    ensures |FirstById(s)| < |FirstById(s + t)| <==> exists e :: e in t && !HasId(s, e.id)
  {
    if t == [] {
      assert s + t == s;
    } else {
      var init, last := t[..|t| - 1], t[|t| - 1];
      GrowsByNew(s, init);
      assert (s + t)[..|s + t| - 1] == s + init && t == init + [last];
      FirstByIdIds(s + init, last.id);
      HasIdOfSum(s, init, last.id);
    }
  }

  lemma NewIffBringsNew(relay: Relay, first: Timestamp, n: nat, i: nat)
    requires i < n
    ensures HasNew(TalkOf(relay, first, n), i) <==> BringsNew(relay, first, i)
  {
    var talk, w := TalkOf(relay, first, n), WindowAt(relay, first, i);
    TalkAt(relay, first, n, i);
    GrowsByNew(Windows(relay, first, i), w);
    assert Windows(relay, first, i + 1) == Windows(relay, first, i) + w;
    forall e | e in w ensures HasId(Windows(relay, first, i), e.id) <==> Before(talk, i, e.id) {
      BeforeIsInWindows(relay, first, n, i, e.id);
    }
  }

  lemma OldestIsOldest(w: seq<Event>, t: Timestamp)
    ensures IsOldest(w, t) <==> OldestOf(w) == Some(t)
  {
  }

  lemma ProductiveIffContinues(relay: Relay, cap: nat, first: Timestamp, n: nat, i: nat)
    requires i < n
    ensures Productive(cap, TalkOf(relay, first, n), i) <==> Continues(relay, cap, first, i)
  {
    TalkAt(relay, first, n, i);
    NewIffBringsNew(relay, first, n, i);
  }

  /** A productive window is not empty, and the next `until` is its oldest second. */
  lemma NextUntil(relay: Relay, cap: nat, first: Timestamp, i: nat)
    requires Continues(relay, cap, first, i)
    ensures IsOldest(WindowAt(relay, first, i), UntilAt(relay, first, i + 1))
  {
    var w := WindowAt(relay, first, i);
    GrowsByNew(Windows(relay, first, i), w);
    assert Windows(relay, first, i + 1) == Windows(relay, first, i) + w;
    assert w != [];
    OldestIsOldest(w, UntilAt(relay, first, i + 1));
  }

  lemma LinkInTalk(relay: Relay, cap: nat, first: Timestamp, n: nat, i: nat)
    requires i + 1 < n && Continues(relay, cap, first, i)
    ensures Productive(cap, TalkOf(relay, first, n), i)
    ensures IsOldest(TalkOf(relay, first, n)[i].Window(), TalkOf(relay, first, n)[i + 1].until)
  {
    ProductiveIffContinues(relay, cap, first, n, i);
    NextUntil(relay, cap, first, i);
    TalkAt(relay, first, n, i);
    TalkAt(relay, first, n, i + 1);
  }

  lemma AnswersInTalk(relay: Relay, first: Timestamp, n: nat)
    requires n > 0
    ensures TalkOf(relay, first, n)[0].until == first
    ensures var talk := TalkOf(relay, first, n); forall i: nat | i < n :: talk[i].answer == relay(i, talk[i].until)
  {
    forall i: nat | i < n
      ensures TalkOf(relay, first, n)[i].answer == relay(i, TalkOf(relay, first, n)[i].until)
    {
      TalkAt(relay, first, n, i);
    }
  }

  lemma TalkIsTalk(relay: Relay, cap: nat, first: Timestamp, n: nat)
    requires n > 0 && AllContinue(relay, cap, first, n - 1)
    ensures IsTalk(relay, cap, first, TalkOf(relay, first, n))
  {
    AnswersInTalk(relay, first, n);
    var talk := TalkOf(relay, first, n);
    forall i: nat | i < n - 1 ensures Productive(cap, talk, i) && IsOldest(talk[i].Window(), talk[i + 1].until) {
      LinkInTalk(relay, cap, first, n, i);
    }
  }

  /** What `Stalled` comes to after a window that the loop does not page back from. */
  lemma StalledIff(relay: Relay, cap: nat, first: Timestamp, n: nat)
    requires Answered(relay, first, n) && !Continues(relay, cap, first, n)
    ensures Stalled(relay, cap, first, n) <==>
              && |WindowAt(relay, first, n)| >= cap
              && (|| (n > 0 && UntilAt(relay, first, n - 1) == UntilAt(relay, first, n))
                  || OldestOf(WindowAt(relay, first, n)) == Some(UntilAt(relay, first, n)))
  {
  }

  lemma StallsIffStalled(relay: Relay, cap: nat, first: Timestamp, n: nat, talk: seq<Exchange>)
    requires Answered(relay, first, n) && !Continues(relay, cap, first, n) && n < |talk|
    requires talk[n].until == UntilAt(relay, first, n) && talk[n].Window() == WindowAt(relay, first, n)
    requires n > 0 ==> talk[n - 1].until == UntilAt(relay, first, n - 1)
    ensures StallsAt(cap, talk, n) <==> Stalled(relay, cap, first, n)
  {
    StalledIff(relay, cap, first, n);
    OldestIsOldest(talk[n].Window(), talk[n].until);
  }

  lemma TalkStallsIff(relay: Relay, cap: nat, first: Timestamp, n: nat)
    requires Answered(relay, first, n) && !Continues(relay, cap, first, n)
    ensures StallsAt(cap, TalkOf(relay, first, n + 1), n) <==> Stalled(relay, cap, first, n)
  {
    TalkAt(relay, first, n + 1, n);
    PreviousUntil(relay, first, n);
    StallsIffStalled(relay, cap, first, n, TalkOf(relay, first, n + 1));
  }

  lemma PreviousUntil(relay: Relay, first: Timestamp, n: nat)
    ensures n > 0 ==> TalkOf(relay, first, n + 1)[n - 1].until == UntilAt(relay, first, n - 1)
  {
  }

  lemma CollectedIsFirsts(relay: Relay, first: Timestamp, n: nat)
    ensures DistinctIds(Collected(relay, first, n))
    ensures forall e :: e in Collected(relay, first, n) <==> IsFirstWithId(Joined(TalkOf(relay, first, n)), e)
  {
    JoinedIsWindows(relay, first, n);
    FirstByIdIsFirst(Windows(relay, first, n));
    forall e ensures e in Collected(relay, first, n) <==> IsFirstWithId(Windows(relay, first, n), e) {
      FirstByIdKeeps(Windows(relay, first, n), e);
    }
  }

  lemma NeitherGoesOnNorStalls(relay: Relay, cap: nat, first: Timestamp, n: nat)
    requires Answered(relay, first, n) && !Continues(relay, cap, first, n) && !Stalled(relay, cap, first, n)
    ensures var talk := TalkOf(relay, first, n + 1);
            talk[n].answer.Some? && !Productive(cap, talk, n) && !StallsAt(cap, talk, n)
  {
    TalkAt(relay, first, n + 1, n);
    ProductiveIffContinues(relay, cap, first, n + 1, n);
    TalkStallsIff(relay, cap, first, n);
  }

  lemma EndsOk(relay: Relay, cap: nat, budget: nat, first: Timestamp, n: nat)
    requires Answered(relay, first, n) && !Continues(relay, cap, first, n) && !Stalled(relay, cap, first, n)
    ensures Concludes(cap, budget, TalkOf(relay, first, n + 1), Ok(Collected(relay, first, n + 1)))
  {
    NeitherGoesOnNorStalls(relay, cap, first, n);
    CollectedIsFirsts(relay, first, n + 1);
  }

  lemma StallsAndGoesNotOn(relay: Relay, cap: nat, first: Timestamp, n: nat)
    requires Answered(relay, first, n) && !Continues(relay, cap, first, n) && Stalled(relay, cap, first, n)
    ensures var talk := TalkOf(relay, first, n + 1);
            && talk[n].answer.Some? && !Productive(cap, talk, n) && StallsAt(cap, talk, n)
            && talk[n].until == UntilAt(relay, first, n)
  {
    TalkAt(relay, first, n + 1, n);
    ProductiveIffContinues(relay, cap, first, n + 1, n);
    TalkStallsIff(relay, cap, first, n);
  }

  lemma StallConcludes(cap: nat, budget: nat, talk: seq<Exchange>, n: nat)
    requires |talk| == n + 1 && talk[n].answer.Some? && !Productive(cap, talk, n) && StallsAt(cap, talk, n)
    ensures Concludes(cap, budget, talk, Err(BoundaryStall(talk[n].until)))
  {
  }

  lemma EndsStalled(relay: Relay, cap: nat, budget: nat, first: Timestamp, n: nat)
    requires Answered(relay, first, n) && !Continues(relay, cap, first, n) && Stalled(relay, cap, first, n)
    ensures Concludes(cap, budget, TalkOf(relay, first, n + 1), Err(BoundaryStall(UntilAt(relay, first, n))))
  {
    StallsAndGoesNotOn(relay, cap, first, n);
    StallConcludes(cap, budget, TalkOf(relay, first, n + 1), n);
  }

  lemma EndsUnfinished(relay: Relay, cap: nat, budget: nat, first: Timestamp, n: nat)
    ensures !Answered(relay, first, n) ==>
              Concludes(cap, budget, TalkOf(relay, first, n + 1), Err(WindowFailed))
    ensures Continues(relay, cap, first, n) && n + 1 == budget ==>
              Concludes(cap, budget, TalkOf(relay, first, n + 1), Err(PageBudget))
  {
    TalkAt(relay, first, n + 1, n);
    ProductiveIffContinues(relay, cap, first, n + 1, n);
  }

  lemma VerdictConcludes(relay: Relay, cap: nat, budget: nat, first: Timestamp, n: nat)
    requires Continues(relay, cap, first, n) ==> n + 1 == budget
    ensures Concludes(cap, budget, TalkOf(relay, first, n + 1), Verdict(relay, cap, first, n))
  {
    EndsUnfinished(relay, cap, budget, first, n);
    if Answered(relay, first, n) && !Continues(relay, cap, first, n) {
      if Stalled(relay, cap, first, n) {
        EndsStalled(relay, cap, budget, first, n);
      } else {
        EndsOk(relay, cap, budget, first, n);
      }
    }
  }

  /** What the loop returns after `n` requests to any relay, in plain terms. */
  lemma PaginatedInPlainTerms(relay: Relay, cap: nat, budget: nat, first: Timestamp, n: nat,
                              r: Result<seq<Event>, FetchError>)
    returns (talk: seq<Exchange>)
    requires Paginated(relay, cap, budget, first, n, r)
    ensures |talk| == n <= budget && IsTalk(relay, cap, first, talk) && Concludes(cap, budget, talk, r)
  {
    talk := TalkOf(relay, first, n);
    TalkIsTalk(relay, cap, first, n);
    VerdictConcludes(relay, cap, budget, first, n - 1);
  }

  /** The source's budget. */
  lemma ChunkInPlainTerms(relay: Relay, cap: nat, first: Timestamp, n: nat, r: Result<seq<Event>, FetchError>)
    returns (talk: seq<Exchange>)
    requires Paginated(relay, cap, MAX_PAGES_PER_CHUNK, first, n, r)
    ensures |talk| == n <= 10_000 && IsTalk(relay, cap, first, talk)
    ensures r == Err(PageBudget) ==> n == 10_000
  {
    talk := PaginatedInPlainTerms(relay, cap, MAX_PAGES_PER_CHUNK, first, n, r);
  }
}
