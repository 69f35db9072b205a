/** Fetch and gate composed: chunk the authors, paginate each chunk, ingest the union once. */
module Acquire {
  import opened Wrappers
  import opened Nostr
  import opened Fetch
  import opened Completeness
  import opened Ingest

  /** Consecutive runs of at most `size` authors. */
  function Chunks(authors: seq<PubKey>, size: nat): (r: seq<seq<PubKey>>)
    requires size > 0
    ensures forall c | c in r :: 0 < |c| <= size
    decreases |authors|
  {
    if authors == [] then []
    else
      var n := Min(size, |authors|);
      [authors[..n]] + Chunks(authors[n..], size)
  }

  function Concat(chunks: seq<seq<PubKey>>): seq<PubKey> {
    if chunks == [] then [] else chunks[0] + Concat(chunks[1..])
  }

  /** The chunks are the authors in order, in full chunks but for the last. */
  lemma {:induction false} ChunksAre(authors: seq<PubKey>, size: nat)
    requires size > 0
    ensures Concat(Chunks(authors, size)) == authors
    ensures forall i | 0 <= i < |Chunks(authors, size)| - 1 :: |Chunks(authors, size)[i]| == size
    decreases |authors|
  {
    if authors != [] {
      var n := Min(size, |authors|);
      var rest := Chunks(authors[n..], size);
      ChunksAre(authors[n..], size);
      assert Chunks(authors, size) == [authors[..n]] + rest && ([authors[..n]] + rest)[1..] == rest;
      assert authors == authors[..n] + authors[n..];
    }
  }

  lemma {:induction false} ChunkWithin(authors: seq<PubKey>, size: nat, i: nat, a: PubKey)
    requires size > 0 && i < |Chunks(authors, size)| && a in Chunks(authors, size)[i]
    ensures a in authors
    decreases |authors|
  {
    if i > 0 {
      ChunkWithin(authors[Min(size, |authors|)..], size, i - 1, a);
    }
  }

  lemma {:induction false} ChunkOf(authors: seq<PubKey>, size: nat, a: PubKey) returns (i: nat)
    requires size > 0 && a in authors
    ensures i < |Chunks(authors, size)| && a in Chunks(authors, size)[i]
    decreases |authors|
  {
    var n := Min(size, |authors|);
    assert authors == authors[..n] + authors[n..];
    if a in authors[..n] {
      i := 0;
    } else {
      var j := ChunkOf(authors[n..], size, a);
      i := j + 1;
    }
  }

  lemma {:induction false} ChunksDisjoint(authors: seq<PubKey>, size: nat, i: nat, j: nat, a: PubKey)
    requires size > 0 && Distinct(authors)
    requires i < |Chunks(authors, size)| && j < |Chunks(authors, size)|
    requires a in Chunks(authors, size)[i] && a in Chunks(authors, size)[j]
    ensures i == j
    decreases |authors|
  {
    var n := Min(size, |authors|);
    var rest := Chunks(authors[n..], size);
    assert Chunks(authors, size) == [authors[..n]] + rest;
    if i > 0 && j > 0 {
      ChunksDisjoint(authors[n..], size, i - 1, j - 1, a);
    } else if i != j {
      ChunkWithin(authors[n..], size, Max(i, j) - 1, a);
      assert false;
    }
  }

  /** Chunk `i` has its own relay conversation and its own starting `until`. */
  datatype Session = Session(relay: Relay, now: Timestamp)

  ghost function Flatten(parts: seq<seq<Event>>): seq<Event> {
    if parts == [] then [] else Flatten(parts[..|parts| - 1]) + parts[|parts| - 1]
  }

  lemma {:induction false} FlattenHas(parts: seq<seq<Event>>, e: Event)
    ensures e in Flatten(parts) <==> exists i :: 0 <= i < |parts| && e in parts[i]
  {
    if parts != [] {
      var init := parts[..|parts| - 1];
      FlattenHas(init, e);
      forall i | 0 <= i < |parts| && e in parts[i] ensures e in Flatten(parts) {
        assert i < |init| ==> init[i] == parts[i];
      }
      if e in Flatten(init) {
        var i :| 0 <= i < |init| && e in init[i];
        assert parts[i] == init[i];
      }
    }
  }

  /** Chunk `i` was paginated to the end with the events `parts[i]`. */
  ghost predicate ChunkDone(session: nat -> Session, cap: nat, budget: nat, i: nat, n: nat, part: seq<Event>) {
    Paginated(session(i).relay, cap, budget, session(i).now, n, Ok(part))
  }

  ghost predicate AllDone(session: nat -> Session, cap: nat, budget: nat, parts: seq<seq<Event>>, pages: seq<nat>) {
    |parts| == |pages| && forall i | 0 <= i < |parts| :: ChunkDone(session, cap, budget, i, pages[i], parts[i])
  }

  /** `r` is the concatenation of all chunks paginated to the end, or the error of the first
      chunk that failed. */
  ghost predicate FetchedAll(session: nat -> Session, cap: nat, budget: nat, chunks: seq<seq<PubKey>>,
                             r: Result<seq<Event>, FetchError>)
  {
    exists parts, pages :: AllDone(session, cap, budget, parts, pages) &&
      match r
      case Ok(all) => |parts| == |chunks| && all == Flatten(parts)
      case Err(_) =>
        |parts| < |chunks|
        && exists n :: Paginated(session(|parts|).relay, cap, budget, session(|parts|).now, n, r)
  }

  /** `fetch_complete`. The source's `budget` is MAX_PAGES_PER_CHUNK. */
  method FetchComplete(authors: seq<PubKey>, maxLimit: nat, maxAuthors: nat, budget: nat, session: nat -> Session)
    returns (r: Result<seq<Event>, FetchError>)
    requires budget > 0
    ensures FetchedAll(session, Max(maxLimit, 1), budget, Chunks(authors, Max(maxAuthors, 1)), r)
  {
    var cap, size := Max(maxLimit, 1), Max(maxAuthors, 1);
    var all: seq<Event>, chunks := [], Chunks(authors, size);
    ghost var parts: seq<seq<Event>>, pages: seq<nat> := [], [];
    for i := 0 to |chunks|
      invariant |parts| == i && all == Flatten(parts)
      invariant AllDone(session, cap, budget, parts, pages)
    {
      var events, n := PaginateWithin(session(i).relay, cap, budget, session(i).now);
      if events.Err? {
        assert Paginated(session(|parts|).relay, cap, budget, session(|parts|).now, n, events);
        return events;
      }
      all := all + events.value;
      assert (parts + [events.value])[..|parts|] == parts;
      parts, pages := parts + [events.value], pages + [n];
    }
    return Ok(all);
  }

  /** `acquire_validated_lists`: a fetch error passes through; otherwise one ingest pass
      over the whole union. */
  method AcquireValidatedLists(verify: Verifier, gate: Gate, fetched: Result<seq<Event>, FetchError>)
    returns (r: Result<seq<FollowList>, FetchError>)
    requires IdBinds(verify)
    ensures fetched.Err? ==> r == Err(fetched.error)
    ensures fetched.Ok? ==> r.Ok? && forall l :: l in r.value <==> IsAnswer(verify, gate, ToSet(fetched.value), l)
  {
    if fetched.Err? { return Err(fetched.error); }
    var lists := IngestEvents(verify, gate, fetched.value);
    return Ok(lists);
  }

  // -------------------------------------------------------------- end to end

  /** What a relay stores for one chunk's filter. */
  function Matching(store: set<Event>, kind: nat, chunk: seq<PubKey>): set<Event> {
    set e | e in store && e.kind == kind && e.author in chunk
  }

  ghost predicate HonestSessions(session: nat -> Session, cap: nat, store: set<Event>, kind: nat,
                                 chunks: seq<seq<PubKey>>)
  {
    forall i | 0 <= i < |chunks| :: Honest(session(i).relay, cap, Matching(store, kind, chunks[i]))
  }

  lemma ChunkEvents(session: nat -> Session, cap: nat, budget: nat, store: set<Event>, i: nat, n: nat, part: seq<Event>)
    requires cap >= 1 && Honest(session(i).relay, cap, store) && ChunkDone(session, cap, budget, i, n, part)
    ensures forall e :: e in part <==> e in UpTo(store, session(i).now)
  {
    PaginationOutcome(session(i).relay, cap, budget, store, session(i).now, n, Ok(part));
    assert forall e :: e in part <==> e in ToSet(part);
  }

  /** An author's fetched events are its stored events up to its chunk's `until`. */
  lemma FetchedOf(session: nat -> Session, cap: nat, budget: nat, store: set<Event>, kind: nat,
                  chunks: seq<seq<PubKey>>, parts: seq<seq<Event>>, pages: seq<nat>, i: nat, e: Event)
    requires cap >= 1 && |parts| == |chunks| && i < |chunks| && e.author in chunks[i]
    requires HonestSessions(session, cap, store, kind, chunks) && AllDone(session, cap, budget, parts, pages)
    requires forall j | 0 <= j < |chunks| && e.author in chunks[j] :: j == i
    ensures e in Flatten(parts) <==> e in store && e.kind == kind && e.createdAt <= session(i).now
  {
    FlattenHas(parts, e);
    assert ChunkDone(session, cap, budget, i, pages[i], parts[i]);
    ChunkEvents(session, cap, budget, Matching(store, kind, chunks[i]), i, pages[i], parts[i]);
    if e in Flatten(parts) {
      var j :| 0 <= j < |parts| && e in parts[j];
      assert ChunkDone(session, cap, budget, j, pages[j], parts[j]);
      ChunkEvents(session, cap, budget, Matching(store, kind, chunks[j]), j, pages[j], parts[j]);
    }
  }

  /** An author's verified stored events up to `until` that the clamp admits. */
  function Standing(verify: Verifier, gate: Gate, store: set<Event>, until: Timestamp, a: PubKey): set<Event> {
    set e | e in UpTo(Matching(store, gate.kind, [a]), Min(until, gate.Cutoff())) && verify(e)
  }

  lemma CandidatesStand(verify: Verifier, gate: Gate, store: set<Event>, until: Timestamp, a: PubKey, all: seq<Event>)
    requires a in gate.requested
    requires forall e: Event | e.author == a ::
               e in all <==> e in store && e.kind == gate.kind && e.createdAt <= until
    ensures Candidates(verify, gate, ToSet(all), a) == Standing(verify, gate, store, until, a)
  {
    forall e ensures e in Candidates(verify, gate, ToSet(all), a) <==> e in Standing(verify, gate, store, until, a) {
      assert e in ToSet(all) <==> e in all;
    }
  }

  /** So its candidates at the gate are those that verify and are within the clamp. */
  lemma FetchedCandidates(verify: Verifier, gate: Gate, session: nat -> Session, cap: nat, budget: nat,
                          store: set<Event>, chunks: seq<seq<PubKey>>, parts: seq<seq<Event>>, pages: seq<nat>,
                          i: nat, a: PubKey)
    requires cap >= 1 && |parts| == |chunks| && i < |chunks| && a in chunks[i] && a in gate.requested
    requires HonestSessions(session, cap, store, gate.kind, chunks) && AllDone(session, cap, budget, parts, pages)
    requires forall j | 0 <= j < |chunks| && a in chunks[j] :: j == i
    ensures Candidates(verify, gate, ToSet(Flatten(parts)), a) == Standing(verify, gate, store, session(i).now, a)
  {
    forall e: Event | e.author == a
      ensures e in Flatten(parts) <==> e in store && e.kind == gate.kind && e.createdAt <= session(i).now
    {
      FetchedOf(session, cap, budget, store, gate.kind, chunks, parts, pages, i, e);
    }
    CandidatesStand(verify, gate, store, session(i).now, a, Flatten(parts));
  }

  /** The same in plain terms. */
  ghost predicate NewestUpTo(verify: Verifier, gate: Gate, store: set<Event>, until: Timestamp, list: FollowList) {
    && (exists e :: e in store && e.createdAt <= until && Passes(verify, gate, e, list.follower) && StandsFor(list, e))
    && (forall e | e in store && e.createdAt <= until && Passes(verify, gate, e, list.follower) ::
          e.createdAt < list.createdAt || (e.createdAt == list.createdAt && list.eventId <= e.id))
    && |list.followees| <= gate.followCap
  }

  lemma NewestInPlainTerms(verify: Verifier, gate: Gate, store: set<Event>, until: Timestamp, list: FollowList)
    requires NewestStored(verify, gate, store, until, list) && list.follower in gate.requested
    ensures NewestUpTo(verify, gate, store, until, list)
  {
    var w :| IsNewest(w, Standing(verify, gate, store, until, list.follower)) && list == ListOf(w);
    FirstOccurrencesDistinct(w.tags, w.author);
    forall k ensures k in list.followees <==> k in w.tags && k != w.author {
      FirstOccurrencesHas(w.tags, w.author, k);
    }
    assert w in store && w.createdAt <= until && Passes(verify, gate, w, list.follower) && StandsFor(list, w);
    forall e | e in store && e.createdAt <= until && Passes(verify, gate, e, list.follower)
      ensures e.createdAt < list.createdAt || (e.createdAt == list.createdAt && list.eventId <= e.id)
    {
      assert e in Standing(verify, gate, store, until, list.follower);
    }
  }

  /** Some chunk's matching events fill a second no later than its first `until`. */
  ghost predicate SomeSecondFull(session: nat -> Session, cap: nat, store: set<Event>, kind: nat,
                                 chunks: seq<seq<PubKey>>)
  {
    exists i: nat | i < |chunks| :: FullSecond(Matching(store, kind, chunks[i]), cap, session(i).now)
  }

  /** Every chunk has fewer matching events than the page budget. */
  ghost predicate AllSmall(session: nat -> Session, budget: nat, store: set<Event>, kind: nat,
                           chunks: seq<seq<PubKey>>)
  {
    forall i: nat | i < |chunks| :: |UpTo(Matching(store, kind, chunks[i]), session(i).now)| < budget
  }

  /** No window of any chunk goes unanswered. */
  ghost predicate AllAnswered(session: nat -> Session, chunks: seq<seq<PubKey>>) {
    forall i: nat, j, until | i < |chunks| :: session(i).relay(j, until).Some?
  }

  /** Which outcomes have which causes, for the whole fetch. */
  ghost predicate HasItsCause<T>(session: nat -> Session, cap: nat, budget: nat, store: set<Event>, kind: nat,
                                 chunks: seq<seq<PubKey>>, r: Result<T, FetchError>)
  {
    match r
    case Ok(_) => !SomeSecondFull(session, cap, store, kind, chunks)
    case Err(BoundaryStall(_)) => SomeSecondFull(session, cap, store, kind, chunks)
    case Err(PageBudget) => !AllSmall(session, budget, store, kind, chunks)
    case Err(WindowFailed) => !AllAnswered(session, chunks)
  }

  /** One chunk's share in the outcome. */
  lemma ChunkCause(session: nat -> Session, cap: nat, budget: nat, store: set<Event>, kind: nat,
                   chunks: seq<seq<PubKey>>, i: nat, n: nat, r: Result<seq<Event>, FetchError>)
    requires cap >= 1 && i < |chunks| && HonestSessions(session, cap, store, kind, chunks)
    requires Paginated(session(i).relay, cap, budget, session(i).now, n, r)
    ensures r.Ok? ==> !FullSecond(Matching(store, kind, chunks[i]), cap, session(i).now)
    ensures r.Err? ==> HasItsCause(session, cap, budget, store, kind, chunks, r)
  {
    PaginationOutcome(session(i).relay, cap, budget, Matching(store, kind, chunks[i]), session(i).now, n, r);
    if r == Err(WindowFailed) {
      assert session(i).relay(n - 1, UntilAt(session(i).relay, session(i).now, n - 1)).None?;
    }
  }

  /** The fetch succeeds only if no second is full, and fails only for a reason. */
  lemma FetchCause(session: nat -> Session, cap: nat, budget: nat, store: set<Event>, kind: nat,
                   chunks: seq<seq<PubKey>>, r: Result<seq<Event>, FetchError>)
    requires cap >= 1 && HonestSessions(session, cap, store, kind, chunks)
    requires FetchedAll(session, cap, budget, chunks, r)
    ensures HasItsCause(session, cap, budget, store, kind, chunks, r)
  {
    var parts, pages :| AllDone(session, cap, budget, parts, pages)
                        && (r.Ok? ==> |parts| == |chunks|)
                        && (r.Err? ==> |parts| < |chunks| && exists n ::
                              Paginated(session(|parts|).relay, cap, budget, session(|parts|).now, n, r));
    if r.Err? {
      var n :| Paginated(session(|parts|).relay, cap, budget, session(|parts|).now, n, r);
      ChunkCause(session, cap, budget, store, kind, chunks, |parts|, n, r);
    } else {
      forall i: nat | i < |chunks| ensures !FullSecond(Matching(store, kind, chunks[i]), cap, session(i).now) {
        assert ChunkDone(session, cap, budget, i, pages[i], parts[i]);
        ChunkCause(session, cap, budget, store, kind, chunks, i, pages[i], Ok(parts[i]));
      }
    }
  }

  /** The list an honest store owes an author: its newest standing event, unless oversized. */
  ghost predicate NewestStored(verify: Verifier, gate: Gate, store: set<Event>, until: Timestamp, list: FollowList) {
    exists e :: IsNewest(e, Standing(verify, gate, store, until, list.follower))
                && list == ListOf(e) && |list.followees| <= gate.followCap
  }

  /** What the gate makes of a complete fetch. */
  lemma AnswersAreNewest(verify: Verifier, gate: Gate, authors: seq<PubKey>, size: nat, cap: nat, budget: nat,
                         session: nat -> Session, store: set<Event>, all: seq<Event>, i: nat, list: FollowList)
    requires cap >= 1 && size >= 1 && Distinct(authors) && gate.requested == ToSet(authors)
    requires HonestSessions(session, cap, store, gate.kind, Chunks(authors, size))
    requires FetchedAll(session, cap, budget, Chunks(authors, size), Ok(all))
    requires i < |Chunks(authors, size)| && list.follower in Chunks(authors, size)[i]
    ensures IsAnswer(verify, gate, ToSet(all), list) <==> NewestStored(verify, gate, store, session(i).now, list)
  {
    var chunks := Chunks(authors, size);
    var parts, pages :| AllDone(session, cap, budget, parts, pages)
                        && |parts| == |chunks| && all == Flatten(parts);
    ChunkWithin(authors, size, i, list.follower);
    forall j | 0 <= j < |chunks| && list.follower in chunks[j] ensures j == i {
      ChunksDisjoint(authors, size, i, j, list.follower);
    }
    FetchedCandidates(verify, gate, session, cap, budget, store, chunks, parts, pages, i, list.follower);
  }

  /** End to end: over a fixed honest store, forgeries and events from the future included,
      chunking, pagination and one ingest pass yield, for each requested author, the list of its
      single newest verified event within the clamp and up to its chunk's `until` (lowest id on
      ties), and none if that event is oversized. When every window is answered and the page
      budget suffices, it succeeds if and only if no second fills a window; each error has its
      cause. */
  method FetchAndIngest(verify: Verifier, gate: Gate, authors: seq<PubKey>, maxLimit: nat, maxAuthors: nat,
                        budget: nat, session: nat -> Session, ghost store: set<Event>)
    returns (r: Result<seq<FollowList>, FetchError>)
    requires budget > 0 && IdBinds(verify)
    requires Distinct(authors) && gate.requested == ToSet(authors)
    requires HonestSessions(session, Max(maxLimit, 1), store, gate.kind, Chunks(authors, Max(maxAuthors, 1)))
    ensures var cap, chunks := Max(maxLimit, 1), Chunks(authors, Max(maxAuthors, 1));
            && HasItsCause(session, cap, budget, store, gate.kind, chunks, r)
            && (AllAnswered(session, chunks) && AllSmall(session, budget, store, gate.kind, chunks) ==>
                  (r.Ok? <==> !SomeSecondFull(session, cap, store, gate.kind, chunks)))
    ensures r.Ok? ==>
              var chunks := Chunks(authors, Max(maxAuthors, 1));
              forall i, list: FollowList | 0 <= i < |chunks| && list.follower in chunks[i] ::
                list in r.value <==> NewestStored(verify, gate, store, session(i).now, list)
    ensures r.Ok? ==>
              var chunks := Chunks(authors, Max(maxAuthors, 1));
              forall i, list | 0 <= i < |chunks| && list in r.value && list.follower in chunks[i] ::
                NewestUpTo(verify, gate, store, session(i).now, list)
    ensures r.Ok? ==> forall list | list in r.value :: list.follower in authors
  {
    var fetched := FetchComplete(authors, maxLimit, maxAuthors, budget, session);
    r := AcquireValidatedLists(verify, gate, fetched);
    ghost var cap, size := Max(maxLimit, 1), Max(maxAuthors, 1);
    FetchCause(session, cap, budget, store, gate.kind, Chunks(authors, size), fetched);
    if r.Ok? {
      forall i, list: FollowList | 0 <= i < |Chunks(authors, size)| && list.follower in Chunks(authors, size)[i]
        ensures list in r.value <==> NewestStored(verify, gate, store, session(i).now, list)
      {
        AnswersAreNewest(verify, gate, authors, size, cap, budget, session, store, fetched.value, i, list);
      }
      forall i, list | 0 <= i < |Chunks(authors, size)| && list in r.value && list.follower in Chunks(authors, size)[i]
        ensures NewestUpTo(verify, gate, store, session(i).now, list)
      {
        ChunkWithin(authors, size, i, list.follower);
        NewestInPlainTerms(verify, gate, store, session(i).now, list);
      }
      forall list | list in r.value ensures list.follower in authors {
        assert IsAnswer(verify, gate, ToSet(fetched.value), list);
        var e :| IsNewest(e, Candidates(verify, gate, ToSet(fetched.value), list.follower));
      }
    }
  }
}
