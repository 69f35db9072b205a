/** From honest relays to the final graph: pagination, the gate and the crawl composed. */
module HonestCrawl {
  import opened Wrappers
  import opened Nostr
  import opened Tables
  import opened Protocol
  import opened Determinism
  import opened Fetch
  import opened Completeness
  import opened Ingest
  import opened Acquire
  import opened RelayTruth

  /** A curated relay: what it stores throughout the crawl, forgeries included, and the page
      limit it was asked for. */
  datatype Site = Site(store: set<Event>, maxLimit: nat) {
    function Limit(): nat {
      Max(maxLimit, 1)
    }
  }

  /** The crawl's relays, author chunk size and page budget per chunk. */
  datatype World = World(sites: seq<Site>, chunkSize: nat, budget: nat)

  function Held(sites: seq<Site>): set<Event> {
    set i, e | 0 <= i < |sites| && e in sites[i].store :: e
  }

  function ChunksOf(w: World, authors: seq<PubKey>): seq<seq<PubKey>> {
    Chunks(authors, Max(w.chunkSize, 1))
  }

  /** No second of the events of one chunk's authors fills a page, and the page budget covers
      them, for every chunk that may be asked for. */
  ghost predicate Ample(w: World, kind: nat) {
    forall i, chunk: seq<PubKey> | 0 <= i < |w.sites| && |chunk| <= Max(w.chunkSize, 1) ::
      && |Matching(w.sites[i].store, kind, chunk)| < w.budget
      && forall t: Timestamp :: |AtSecond(Matching(w.sites[i].store, kind, chunk), t)| < w.sites[i].Limit()
  }

  /** Nothing of a chunk that the gate would accept is later than that chunk's clock. */
  ghost predicate Current(verify: Verifier, gate: Gate, site: Site, chunks: seq<seq<PubKey>>, session: nat -> Session) {
    forall i: nat, e | i < |chunks| && e in Matching(site.store, gate.kind, chunks[i])
                       && verify(e) && e.createdAt <= gate.Cutoff() ::
      e.createdAt <= session(i).now
  }

  /** `r` is what `fetch_complete` may return for a batch from the honest relay `site`, windows
      that go unanswered included. */
  ghost predicate Fetched(verify: Verifier, gate: Gate, w: World, site: Site, authors: seq<PubKey>,
                          session: nat -> Session, r: Result<seq<Event>, FetchError>)
  {
    && HonestSessions(session, site.Limit(), site.store, gate.kind, ChunksOf(w, authors))
    && Current(verify, gate, site, ChunksOf(w, authors), session)
    && FetchedAll(session, site.Limit(), w.budget, ChunksOf(w, authors), r)
  }

  // ------------------------------------------------------- no fetch fails

  lemma AmpleMeansOk(verify: Verifier, gate: Gate, w: World, i: nat, authors: seq<PubKey>,
                     session: nat -> Session, r: Result<seq<Event>, FetchError>)
    requires Ample(w, gate.kind) && i < |w.sites| && Fetched(verify, gate, w, w.sites[i], authors, session, r)
    requires AllAnswered(session, ChunksOf(w, authors))
    ensures r.Ok?
  {
    var site, chunks := w.sites[i], ChunksOf(w, authors);
    FetchCause(session, site.Limit(), w.budget, site.store, gate.kind, chunks, r);
    forall j: nat | j < |chunks|
      ensures !FullSecond(Matching(site.store, gate.kind, chunks[j]), site.Limit(), session(j).now)
      ensures |UpTo(Matching(site.store, gate.kind, chunks[j]), session(j).now)| < w.budget
    {
      assert chunks[j] in chunks;
      SubsetSize(UpTo(Matching(site.store, gate.kind, chunks[j]), session(j).now),
                 Matching(site.store, gate.kind, chunks[j]));
    }
  }

  // ------------------------------------------------- every event is fetched

  /** What a successful fetch from one honest relay holds. */
  lemma FetchedEvents(verify: Verifier, gate: Gate, w: World, site: Site, authors: seq<PubKey>,
                      session: nat -> Session, all: seq<Event>, e: Event)
    requires Fetched(verify, gate, w, site, authors, session, Ok(all))
    ensures e in all ==> e in site.store && e.kind == gate.kind && e.author in authors
    ensures (&& e in site.store && verify(e) && e.kind == gate.kind && e.author in authors
             && e.createdAt <= gate.Cutoff()) ==> e in all
  {
    var chunks, size := ChunksOf(w, authors), Max(w.chunkSize, 1);
    var parts, pages :| AllDone(session, site.Limit(), w.budget, parts, pages)
                        && |parts| == |chunks| && all == Flatten(parts);
    FlattenHas(parts, e);
    if e in all {
      var i :| 0 <= i < |parts| && e in parts[i];
      PartEvents(session, site, w.budget, gate.kind, chunks, i, pages[i], parts[i]);
      ChunkWithin(authors, size, i, e.author);
    }
    if e in site.store && verify(e) && e.kind == gate.kind && e.author in authors && e.createdAt <= gate.Cutoff() {
      var i := ChunkOf(authors, size, e.author);
      PartEvents(session, site, w.budget, gate.kind, chunks, i, pages[i], parts[i]);
    }
  }

  lemma PartEvents(session: nat -> Session, site: Site, budget: nat, kind: nat, chunks: seq<seq<PubKey>>,
                   i: nat, n: nat, part: seq<Event>)
    requires i < |chunks| && HonestSessions(session, site.Limit(), site.store, kind, chunks)
    requires ChunkDone(session, site.Limit(), budget, i, n, part)
    ensures forall e :: e in part <==> e in UpTo(Matching(site.store, kind, chunks[i]), session(i).now)
  {
    ChunkEvents(session, site.Limit(), budget, Matching(site.store, kind, chunks[i]), i, n, part);
  }

  /** Every relay was asked; `raw` is the concatenation of what they returned. */
  ghost predicate IsUnion(verify: Verifier, gate: Gate, w: World, authors: seq<PubKey>,
                          sessions: seq<nat -> Session>, results: seq<seq<Event>>, raw: seq<Event>)
  {
    && |sessions| == |results| == |w.sites| && raw == Flatten(results)
    && forall i | 0 <= i < |w.sites| :: Fetched(verify, gate, w, w.sites[i], authors, sessions[i], Ok(results[i]))
  }

  lemma UnionHolds(verify: Verifier, gate: Gate, w: World, authors: seq<PubKey>,
                   sessions: seq<nat -> Session>, results: seq<seq<Event>>, raw: seq<Event>, e: Event)
    requires IsUnion(verify, gate, w, authors, sessions, results, raw) && e.author in authors
    requires verify(e) && e.kind == gate.kind && e.createdAt <= gate.Cutoff()
    ensures e in raw <==> e in Held(w.sites)
  {
    FlattenHas(results, e);
    forall i | 0 <= i < |w.sites| ensures e in results[i] <==> e in w.sites[i].store {
      FetchedEvents(verify, gate, w, w.sites[i], authors, sessions[i], results[i], e);
    }
  }

  /** Whatever the batch: an author's candidates in the union are those among all that the relays
      store. */
  lemma UnionCandidates(verify: Verifier, gate: Gate, w: World, authors: seq<PubKey>,
                        sessions: seq<nat -> Session>, results: seq<seq<Event>>, raw: seq<Event>, a: PubKey)
    requires IsUnion(verify, gate, w, authors, sessions, results, raw) && a in authors
    ensures Candidates(verify, gate.(requested := ToSet(authors)), ToSet(raw), a)
            == Candidates(verify, gate.(requested := {a}), Held(w.sites), a)
  {
    forall e: Event | verify(e) && e.kind == gate.kind && e.author == a && e.createdAt <= gate.Cutoff()
      ensures e in ToSet(raw) <==> e in Held(w.sites)
    {
      UnionHolds(verify, gate, w, authors, sessions, results, raw, e);
    }
  }

  // ------------------------------------------------------------------ crawl

  /** What the crawl may see of a batch: the gate's output over the union of all relays. */
  ghost predicate BatchOk(verify: Verifier, gate: Gate, w: World, authors: seq<PubKey>,
                          lists: map<PubKey, FollowList>)
  {
    exists sessions, results, raw :: IsUnion(verify, gate, w, authors, sessions, results, raw)
      && IsOutput(verify, gate.(requested := ToSet(authors)), authors, raw, lists)
  }

  ghost predicate IsOutput(verify: Verifier, gate: Gate, authors: seq<PubKey>, raw: seq<Event>,
                           lists: map<PubKey, FollowList>)
  {
    && (forall a | a in lists :: lists[a].follower == a)
    && (forall list: FollowList | list.follower in authors ::
          (list.follower in lists && lists[list.follower] == list) <==> IsAnswer(verify, gate, ToSet(raw), list))
  }

  /** Some relay's fetch failed although it answered every window. */
  ghost predicate BatchErr(verify: Verifier, gate: Gate, w: World, authors: seq<PubKey>) {
    exists i: nat, session, error ::
      && i < |w.sites| && Fetched(verify, gate, w, w.sites[i], authors, session, Err(error))
      && AllAnswered(session, ChunksOf(w, authors))
  }

  /** Fetches may fail for any reason. */
  ghost function FromRelays(verify: Verifier, gate: Gate, w: World): (State, Label) -> bool {
    (s: State, l: Label) =>
      l.Work? && l.w in s.workers && l.act.FetchOk? ==> BatchOk(verify, gate, w, s.workers[l.w].todo, l.act.lists)
  }

  /** They fail only with every window answered. */
  ghost function FromAnsweringRelays(verify: Verifier, gate: Gate, w: World): (State, Label) -> bool {
    (s: State, l: Label) =>
      && FromRelays(verify, gate, w)(s, l)
      && (l.Work? && l.w in s.workers && l.act.FetchErr? ==> BatchErr(verify, gate, w, s.workers[l.w].todo))
  }

  lemma BatchIsGated(verify: Verifier, gate: Gate, w: World, authors: seq<PubKey>, lists: map<PubKey, FollowList>)
    requires BatchOk(verify, gate, w, authors, lists)
    ensures GatedBatch(verify, gate, Held(w.sites), authors, lists) && forall a | a in lists :: lists[a].follower == a
  {
    var sessions, results, raw :| IsUnion(verify, gate, w, authors, sessions, results, raw)
      && IsOutput(verify, gate.(requested := ToSet(authors)), authors, raw, lists);
    forall a | a in authors
      ensures Candidates(verify, gate.(requested := ToSet(authors)), ToSet(raw), a)
              == Candidates(verify, gate.(requested := {a}), Held(w.sites), a)
    {
      UnionCandidates(verify, gate, w, authors, sessions, results, raw, a);
    }
    assert Serves(verify, gate, Held(w.sites), authors, lists, ToSet(raw));
  }

  lemma NoBatchFails(verify: Verifier, gate: Gate, w: World, authors: seq<PubKey>)
    requires Ample(w, gate.kind)
    ensures !BatchErr(verify, gate, w, authors)
  {
    if i: nat, session, error :|
      && i < |w.sites| && Fetched(verify, gate, w, w.sites[i], authors, session, Err(error))
      && AllAnswered(session, ChunksOf(w, authors))
    {
      AmpleMeansOk(verify, gate, w, i, authors, session, Err(error));
    }
  }

  lemma RelaysAreGated(verify: Verifier, gate: Gate, w: World, u: State, l: Label)
    requires FromRelays(verify, gate, w)(u, l)
    ensures GatedFixed(verify, gate, Held(w.sites))(u, l)
  {
    if l.Work? && l.act.FetchOk? && l.w in u.workers {
      BatchIsGated(verify, gate, w, u.workers[l.w].todo, l.act.lists);
    }
  }

  /** Honest relays with fixed stores, forgeries included, and fetches that may fail at any time
      for any reason: provided no acceptable event is later than the clock of the chunk it belongs
      to, and whatever the batches, chunks, ties broken on each request, schedule and restarts, the
      graph of a crawl of empty tables is sound at every moment, over the newest verified lists
      that the relays hold between them; a finished one is final if and only if no row has used up
      its attempts. */
  lemma GraphOfHonestRelays(verify: Verifier, gate: Gate, w: World, cfg: Config, run: seq<Label>, t: State)
    requires IdBinds(verify) && cfg.mode.Crawl?
    requires Reaches(cfg, FromRelays(verify, gate, w), Boot(EMPTY_DB), run, t)
    ensures IsSoundGraph(OwedMap(verify, gate, Held(w.sites)), cfg.anchor, t.db)
    ensures cfg.batchSize >= 1 && t.driver.Finished? ==>
              (IsFinalGraph(OwedMap(verify, gate, Held(w.sites)), cfg.anchor, t.db) <==>
               forall k :: !HasStatus(t.db, k, Failed))
  {
    var ok, ok' := FromRelays(verify, gate, w), GatedFixed(verify, gate, Held(w.sites));
    forall u: State, l: Label | ok(u, l) ensures ok'(u, l) {
      RelaysAreGated(verify, gate, w, u, l);
    }
    Weaken(cfg, ok, ok', Boot(EMPTY_DB), run, t);
    GraphOfFixedEvents(verify, gate, Held(w.sites), cfg, run, t);
  }

  /** And when every window is answered, each chunk fits the page budget and no second of a chunk
      fills a page, no fetch fails, and every finished crawl of empty tables ends in the graph
      reachable from the anchor over those lists. */
  lemma CrawlOfHonestRelays(verify: Verifier, gate: Gate, w: World, cfg: Config, run: seq<Label>, t: State)
    requires IdBinds(verify) && Ample(w, gate.kind) && cfg.mode.Crawl? && cfg.batchSize >= 1
    requires Reaches(cfg, FromAnsweringRelays(verify, gate, w), Boot(EMPTY_DB), run, t) && t.driver.Finished?
    ensures IsFinalGraph(OwedMap(verify, gate, Held(w.sites)), cfg.anchor, t.db)
  {
    var ok, ok' := FromAnsweringRelays(verify, gate, w), GatedNeverFailing(verify, gate, Held(w.sites));
    forall u: State, l: Label | Enabled(cfg, u, l) && ok(u, l) ensures ok'(u, l) {
      RelaysAreGated(verify, gate, w, u, l);
      if l.Work? && l.act.FetchErr? { NoBatchFails(verify, gate, w, u.workers[l.w].todo); }
    }
    Strengthen(cfg, ok, ok', (u: State) => true, Boot(EMPTY_DB), run, t);
    CrawlOfFixedEvents(verify, gate, Held(w.sites), cfg, run, t);
  }
}
