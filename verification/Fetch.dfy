/** The `until`-window pagination loop, first against any relay at all, then against a
    store it only sees through capped, newest-first windows. */
module Fetch {
  import opened Wrappers
  import opened Nostr

  const MAX_PAGES_PER_CHUNK := 10000

  datatype FetchError =
    | WindowFailed
    | PageBudget
    | BoundaryStall(until: Timestamp)

  /** The relay's answer to the `i`-th request of a chunk, sent with `until`: a window, or
      `None` for a timeout or transport error. Ties, repeats and lies may depend on `i`. */
  type Relay = (nat, Timestamp) -> Option<seq<Event>>

  function OldestOf(events: seq<Event>): (r: Option<Timestamp>)
    ensures r.None? <==> events == []
    ensures r.Some? ==> forall e | e in events :: r.value <= e.createdAt
    ensures r.Some? ==> exists e :: e in events && e.createdAt == r.value
  {
    if events == [] then None
    else
      var rest, e := OldestOf(events[1..]), events[0];
      assert events == [e] + events[1..];
      if rest.Some? && rest.value < e.createdAt then rest else Some(e.createdAt)
  }

  /** Page back, inclusively to the oldest second, only when the window is full. */
  function PageBack(returned: nat, cap: nat, oldest: Option<Timestamp>): Option<Timestamp> {
    if returned >= cap && oldest.Some? then Some(oldest.value) else None
  }

  /** The first occurrence of every id, in order. */
  function FirstById(events: seq<Event>): seq<Event> {
    if events == [] then []
    else
      var init, e := FirstById(events[..|events| - 1]), events[|events| - 1];
      if HasId(init, e.id) then init else init + [e]
  }

  // --------------------------------------------- the requests a chunk leads to

  /** The `until` of request `i`: the oldest second of the window before it. */
  function UntilAt(relay: Relay, first: Timestamp, i: nat): Timestamp
    decreases i, 0
  {
    if i == 0 then first
    else
      var oldest := OldestOf(WindowAt(relay, first, i - 1));
      if oldest.Some? then oldest.value else UntilAt(relay, first, i - 1)
  }

  function WindowAt(relay: Relay, first: Timestamp, i: nat): seq<Event>
    decreases i, 1
  {
    var answer := relay(i, UntilAt(relay, first, i));
    if answer.Some? then answer.value else []
  }

  /** The first `n` windows in a row. */
  function Windows(relay: Relay, first: Timestamp, n: nat): seq<Event> {
    if n == 0 then [] else Windows(relay, first, n - 1) + WindowAt(relay, first, n - 1)
  }

  function Collected(relay: Relay, first: Timestamp, n: nat): seq<Event> {
    FirstById(Windows(relay, first, n))
  }

  predicate Answered(relay: Relay, first: Timestamp, i: nat) {
    relay(i, UntilAt(relay, first, i)).Some?
  }

  predicate Capped(relay: Relay, cap: nat, first: Timestamp, i: nat) {
    |WindowAt(relay, first, i)| >= cap
  }

  /** Window `i` brings an id that no earlier window brought. */
  predicate BringsNew(relay: Relay, first: Timestamp, i: nat) {
    |Collected(relay, first, i)| < |Collected(relay, first, i + 1)|
  }

  /** The loop asks for another page after window `i`. */
  predicate Continues(relay: Relay, cap: nat, first: Timestamp, i: nat) {
    Answered(relay, first, i) && Capped(relay, cap, first, i) && BringsNew(relay, first, i)
  }

  /** A full window with nothing new whose `until` would not move, or has not moved. */
  predicate Stalled(relay: Relay, cap: nat, first: Timestamp, i: nat) {
    && Answered(relay, first, i) && Capped(relay, cap, first, i) && !BringsNew(relay, first, i)
    && (|| (i > 0 && UntilAt(relay, first, i - 1) == UntilAt(relay, first, i))
        || OldestOf(WindowAt(relay, first, i)) == Some(UntilAt(relay, first, i)))
  }

  ghost predicate AllContinue(relay: Relay, cap: nat, first: Timestamp, n: nat) {
    forall i: nat | i < n :: Continues(relay, cap, first, i)
  }

  /** What is returned when window `i` is the last one asked for. */
  function Verdict(relay: Relay, cap: nat, first: Timestamp, i: nat): Result<seq<Event>, FetchError> {
    if !Answered(relay, first, i) then Err(WindowFailed)
    else if Continues(relay, cap, first, i) then Err(PageBudget)
    else if Stalled(relay, cap, first, i) then Err(BoundaryStall(UntilAt(relay, first, i)))
    else Ok(Collected(relay, first, i + 1))
  }

  /** `r` is what the loop returns after `n` requests: it goes on exactly while windows are
      answered, full and bring something new, and within the page budget. */
  ghost predicate Paginated(relay: Relay, cap: nat, budget: nat, first: Timestamp,
                            n: nat, r: Result<seq<Event>, FetchError>)
  {
    && 0 < n <= budget
    && AllContinue(relay, cap, first, n - 1)
    && (Continues(relay, cap, first, n - 1) ==> n == budget)
    && r == Verdict(relay, cap, first, n - 1)
  }

  /** The seen-set holds exactly the ids of what is kept. */
  ghost predicate Tracks(seen: set<EventId>, out: seq<Event>) {
    forall id :: id in seen <==> HasId(out, id)
  }

  lemma TrackOne(seen: set<EventId>, out: seq<Event>, e: Event)
    requires Tracks(seen, out)
    ensures Tracks(seen + {e.id}, out + [e])
  {
    forall id ensures HasId(out + [e], id) <==> HasId(out, id) || id == e.id {
      HasIdOfAppended(out, e, id);
    }
  }

  /** Keep the ids not yet seen across all prior windows and count them. */
  method Absorb(ghost prior: seq<Event>, out: seq<Event>, seen: set<EventId>, events: seq<Event>)
    returns (out': seq<Event>, seen': set<EventId>, newIds: nat)
    requires out == FirstById(prior) && Tracks(seen, out)
    ensures out' == FirstById(prior + events) && Tracks(seen', out')
    ensures newIds == |out'| - |out| && newIds <= |events|
  {
    out', seen', newIds := out, seen, 0;
    assert prior + events[..0] == prior;
    for k := 0 to |events|
      invariant out' == FirstById(prior + events[..k]) && Tracks(seen', out')
      invariant newIds == |out'| - |out| && newIds <= k
    {
      ghost var all := prior + events[..k + 1];
      assert all[..|all| - 1] == prior + events[..k] && all[|all| - 1] == events[k];
      assert FirstById(all) == if HasId(out', events[k].id) then out' else out' + [events[k]];
      if events[k].id !in seen' {
        TrackOne(seen', out', events[k]);
        seen', out', newIds := seen' + {events[k].id}, out' + [events[k]], newIds + 1;
      }
    }
    assert events[..|events|] == events;
  }

  /** What the loop's own variables say about window `n`. */
  lemma WindowFacts(relay: Relay, cap: nat, first: Timestamp, n: nat, events: seq<Event>, newIds: nat)
    requires relay(n, UntilAt(relay, first, n)) == Some(events)
    requires newIds == |Collected(relay, first, n + 1)| - |Collected(relay, first, n)|
    ensures events == WindowAt(relay, first, n) && Answered(relay, first, n)
    ensures Capped(relay, cap, first, n) <==> |events| >= cap
    ensures BringsNew(relay, first, n) <==> newIds > 0
    ensures Windows(relay, first, n + 1) == Windows(relay, first, n) + events
    ensures OldestOf(events).Some? ==> UntilAt(relay, first, n + 1) == OldestOf(events).value
  {
  }

  lemma GoesOn(relay: Relay, cap: nat, first: Timestamp, n: nat)
    requires AllContinue(relay, cap, first, n) && Continues(relay, cap, first, n)
    ensures AllContinue(relay, cap, first, n + 1)
  {
  }

  lemma Stops(relay: Relay, cap: nat, budget: nat, first: Timestamp, n: nat)
    requires AllContinue(relay, cap, first, n) && n < budget && !Continues(relay, cap, first, n)
    ensures Paginated(relay, cap, budget, first, n + 1, Verdict(relay, cap, first, n))
  {
  }

  /** The loop's variables before request `n`. */
  ghost predicate AtPage(relay: Relay, cap: nat, first: Timestamp, n: nat, until: Timestamp,
                         prevUntil: Option<Timestamp>, out: seq<Event>, seen: set<EventId>)
  {
    && AllContinue(relay, cap, first, n)
    && until == UntilAt(relay, first, n) && out == Collected(relay, first, n)
    && prevUntil == (if n == 0 then None else Some(UntilAt(relay, first, n - 1)))
    && Tracks(seen, out)
  }

  /** One turn of the loop: request window `n`, absorb it, and decide. `next` is the `until`
      to page back to; without one, `r` is the outcome. */
  method OnePage(relay: Relay, cap: nat, ghost budget: nat, ghost first: Timestamp, n: nat, until: Timestamp,
                 prevUntil: Option<Timestamp>, out: seq<Event>, seen: set<EventId>)
    returns (next: Option<Timestamp>, out': seq<Event>, seen': set<EventId>, r: Result<seq<Event>, FetchError>)
    requires n < budget && AtPage(relay, cap, first, n, until, prevUntil, out, seen)
    ensures next.Some? ==> AtPage(relay, cap, first, n + 1, next.value, Some(until), out', seen')
    ensures next.None? ==> Paginated(relay, cap, budget, first, n + 1, r)
  {
    next, out', seen', r := None, out, seen, Err(WindowFailed);
    var answer := relay(n, until);
    if answer.None? {
      Stops(relay, cap, budget, first, n);
      return;
    }
    var events := answer.value;
    var oldest, newIds := OldestOf(events), 0;
    assert Windows(relay, first, n + 1) == Windows(relay, first, n) + events;
    out', seen', newIds := Absorb(Windows(relay, first, n), out, seen, events);
    WindowFacts(relay, cap, first, n, events, newIds);
    var back := PageBack(|events|, cap, oldest);
    if newIds == 0 {
      Stops(relay, cap, budget, first, n);
      if |events| >= cap && (prevUntil == Some(until) || back == Some(until)) {
        r := Err(BoundaryStall(until));
      } else {
        r := Ok(out');
      }
    } else if back.None? {
      Stops(relay, cap, budget, first, n);
      r := Ok(out');
    } else {
      GoesOn(relay, cap, first, n);
      next := back;
    }
  }

  lemma BudgetSpent(relay: Relay, cap: nat, budget: nat, first: Timestamp)
    requires budget > 0 && AllContinue(relay, cap, first, budget)
    ensures Paginated(relay, cap, budget, first, budget, Err(PageBudget))
  {
    assert Continues(relay, cap, first, budget - 1);
  }

  lemma AtStart(relay: Relay, cap: nat, first: Timestamp)
    ensures AtPage(relay, cap, first, 0, first, None, [], {})
  {
  }

  /** The loop, for any page budget. */
  method PaginateWithin(relay: Relay, cap: nat, budget: nat, first: Timestamp)
    returns (r: Result<seq<Event>, FetchError>, requests: nat)
    requires budget > 0
    ensures Paginated(relay, cap, budget, first, requests, r)
  {
    var out: seq<Event>, seen: set<EventId> := [], {};
    var until, prevUntil: Option<Timestamp>, pages := first, None, 0;
    AtStart(relay, cap, first);
    while pages < budget
      invariant pages <= budget
      invariant AtPage(relay, cap, first, pages, until, prevUntil, out, seen)
    {
      var next;
      next, out, seen, r := OnePage(relay, cap, budget, first, pages, until, prevUntil, out, seen);
      if next.None? {
        return r, pages + 1;
      }
      prevUntil, until, pages := Some(until), next.value, pages + 1;
    }
    BudgetSpent(relay, cap, budget, first);
    return Err(PageBudget), pages;
  }

  /** `paginate_chunk`. `requests` counts the windows asked for. */
  method PaginateChunk(relay: Relay, cap: nat, first: Timestamp)
    returns (r: Result<seq<Event>, FetchError>, requests: nat)
    ensures Paginated(relay, cap, MAX_PAGES_PER_CHUNK, first, requests, r)
  {
    r, requests := PaginateWithin(relay, cap, MAX_PAGES_PER_CHUNK, first);
  }

  // ------------------------------------------------- first occurrences, spelled out

  ghost predicate DistinctIds(events: seq<Event>) {
    forall i, j | 0 <= i < j < |events| :: events[i].id != events[j].id
  }

  /** `e` stands somewhere in `events` with no earlier event of its id. */
  ghost predicate IsFirstWithId(events: seq<Event>, e: Event) {
    exists k :: 0 <= k < |events| && events[k] == e && !HasId(events[..k], e.id)
  }

  lemma HasIdOfAppended(s: seq<Event>, e: Event, id: EventId)
    ensures HasId(s + [e], id) <==> HasId(s, id) || e.id == id
  {
    assert e in s + [e];
    assert forall d | d in s :: d in s + [e];
  }

  /** Dropping repeats loses no id. */
  lemma {:induction false} FirstByIdIds(events: seq<Event>, id: EventId)
    ensures HasId(FirstById(events), id) <==> HasId(events, id)
  {
    if events != [] {
      var init, last := events[..|events| - 1], events[|events| - 1];
      assert events == init + [last];
      FirstByIdIds(init, id);
      HasIdOfAppended(init, last, id);
      HasIdOfAppended(FirstById(init), last, id);
    }
  }

  lemma {:induction false} FirstByIdIsFirst(events: seq<Event>)
    ensures DistinctIds(FirstById(events))
    ensures forall e | e in FirstById(events) :: e in events
    ensures forall e | e in events :: HasId(FirstById(events), e.id)
  {
    if events != [] {
      var init, last := events[..|events| - 1], events[|events| - 1];
      assert events == init + [last];
      FirstByIdIsFirst(init);
      forall e | e in events ensures HasId(FirstById(events), e.id) {
        FirstByIdIds(events, e.id);
      }
    }
  }

  lemma FirstOfAppended(s: seq<Event>, last: Event, e: Event)
    ensures IsFirstWithId(s + [last], e) <==> IsFirstWithId(s, e) || (e == last && !HasId(s, last.id))
  {
    var all := s + [last];
    assert all[..|s|] == s;
    if IsFirstWithId(s, e) {
      var k :| 0 <= k < |s| && s[k] == e && !HasId(s[..k], e.id);
      assert all[..k] == s[..k] && all[k] == e;
    }
    if e == last && !HasId(s, last.id) {
      assert all[|s|] == e && !HasId(all[..|s|], e.id);
    }
    if IsFirstWithId(all, e) {
      var k :| 0 <= k < |all| && all[k] == e && !HasId(all[..k], e.id);
      if k < |s| { assert s[..k] == all[..k] && s[k] == e; }
    }
  }

  /** Exactly the first event of every id is kept. */
  lemma {:induction false} FirstByIdKeeps(events: seq<Event>, e: Event)
    ensures e in FirstById(events) <==> IsFirstWithId(events, e)
  {
    if events != [] {
      var init, last := events[..|events| - 1], events[|events| - 1];
      assert events == init + [last];
      FirstByIdKeeps(init, e);
      FirstByIdIds(init, last.id);
      FirstOfAppended(init, last, e);
    }
  }

  /** Later windows only append: the order of first occurrences is the order of arrival. */
  lemma {:induction false} FirstByIdPrefix(s: seq<Event>, t: seq<Event>)
    ensures FirstById(s) <= FirstById(s + t)
  {
    if t == [] {
      assert s + t == s;
    } else {
      FirstByIdPrefix(s, t[..|t| - 1]);
      assert (s + t)[..|s + t| - 1] == s + t[..|t| - 1];
    }
  }
}
