/** The crawl over the gate: what the stored graph says about the relays' events. */
module RelayTruth {
  import opened Wrappers
  import opened Nostr
  import opened Tables
  import opened Protocol
  import opened Leases
  import opened Agreement
  import opened Determinism
  import opened Ingest

  /** How a crawl configures its gate; `clocks` are the wall clocks of its batches. */
  datatype Policy = Policy(kind: nat, clamp: Timestamp, followCap: nat, clocks: set<Timestamp>)

  /** `list` came out of an ingest pass over some raw events, from whatever relays. */
  ghost predicate FromGate(verify: Verifier, p: Policy, list: FollowList) {
    exists requested, now, events: set<Event> ::
      now in p.clocks && IsAnswer(verify, Gate(p.kind, requested, now, p.clamp, p.followCap), events, list)
  }

  ghost function GatedRun(verify: Verifier, p: Policy): (State, Label) -> bool {
    (s: State, l: Label) =>
      match l
      case Work(_, FetchOk(lists)) => forall a | a in lists :: FromGate(verify, p, lists[a])
      case Work(_, Recover(list)) => FromGate(verify, p, list)
      case _ => true
  }

  /** Some verified event of `f`, of the wanted kind and within the clamp of some batch,
      tags `g`. */
  ghost predicate Attested(verify: Verifier, p: Policy, f: PubKey, g: PubKey) {
    exists e, now :: now in p.clocks && verify(e) && e.kind == p.kind && e.author == f
                     && e.createdAt <= now + p.clamp && g in e.tags
  }

  /** The others tagged by the event behind a verified id. */
  ghost function TaggedBy(verify: Verifier, id: EventId): set<PubKey> {
    var content := Preimage(verify, id); ToSet(content.tags) - {content.author}
  }

  lemma GateAttests(verify: Verifier, p: Policy, list: FollowList)
    requires FromGate(verify, p, list)
    ensures Sourced((f: PubKey, g: PubKey) => Attested(verify, p, f, g), list)
    ensures IdBinds(verify) ==> Genuine((id: EventId) => TaggedBy(verify, id), list)
  {
    var requested, now, events: set<Event> :|
      now in p.clocks && IsAnswer(verify, Gate(p.kind, requested, now, p.clamp, p.followCap), events, list);
    var gate := Gate(p.kind, requested, now, p.clamp, p.followCap);
    var e :| IsNewest(e, Candidates(verify, gate, events, list.follower)) && list == ListOf(e);
    FirstOccurrencesAreTheTags(e.tags, e.author);
    forall g | g in list.followees ensures Attested(verify, p, list.follower, g) {
      assert g in ToSet(list.followees);
      assert g in e.tags && e.createdAt <= now + p.clamp;
    }
    if IdBinds(verify) {
      assert e.Signed() == Preimage(verify, list.eventId);
    }
  }

  /** Edge provenance: on curated, retry and fallback paths and with overlapping writers,
      every stored edge f -> g has f != g and is attested by a verified event of f. */
  lemma StoredEdgesAreAttested(verify: Verifier, p: Policy, cfg: Config, run: seq<Label>, t: State)
    requires Reaches(cfg, GatedRun(verify, p), Boot(EMPTY_DB), run, t)
    ensures forall f, g | g in Out(t.db, f) :: f != g && Attested(verify, p, f, g)
  {
    var prov := (f: PubKey, g: PubKey) => Attested(verify, p, f, g);
    forall u: State, l: Label | GatedRun(verify, p)(u, l) ensures SourcedRun(prov)(u, l) {
      if l.Work? && l.act.FetchOk? {
        forall a | a in l.act.lists ensures Sourced(prov, l.act.lists[a]) { GateAttests(verify, p, l.act.lists[a]); }
      } else if l.Work? && l.act.Recover? {
        GateAttests(verify, p, l.act.list);
      }
    }
    Weaken(cfg, GatedRun(verify, p), SourcedRun(prov), Boot(EMPTY_DB), run, t);
    EdgeProvenance(prov, cfg, EMPTY_DB, run, t);
  }

  ghost function GatedNoReclaim(verify: Verifier, p: Policy): (State, Label) -> bool {
    (s: State, l: Label) => NoAgeReclaim(s, l) && GatedRun(verify, p)(s, l)
  }

  /** Without the in-run age reclaim each row's edges are exactly the others tagged by the
      event recorded as applied, and a row without one has none. */
  lemma StoredEdgesAreTheAppliedTags(verify: Verifier, p: Policy, cfg: Config, run: seq<Label>, t: State)
    requires IdBinds(verify)
    requires Reaches(cfg, GatedNoReclaim(verify, p), Boot(EMPTY_DB), run, t)
    ensures forall f | f in t.db.pubkeys ::
              Out(t.db, f) == match t.db.pubkeys[f].applied
                              case Some(a) => TaggedBy(verify, a.eventId) - {f}
                              case None => {}
  {
    var body := (id: EventId) => TaggedBy(verify, id);
    forall u: State, l: Label | GatedNoReclaim(verify, p)(u, l) ensures GenuineNoReclaim(body)(u, l) {
      assert GatedRun(verify, p)(u, l);
      if l.Work? && l.act.FetchOk? {
        forall a | a in l.act.lists ensures Genuine(body, l.act.lists[a]) { GateAttests(verify, p, l.act.lists[a]); }
      } else if l.Work? && l.act.Recover? {
        GateAttests(verify, p, l.act.list);
      }
    }
    Weaken(cfg, GatedNoReclaim(verify, p), GenuineNoReclaim(body), Boot(EMPTY_DB), run, t);
    StoreMatchesWithoutAgeReclaim(body, cfg, EMPTY_DB, run, t);
    forall f | f in t.db.pubkeys
      ensures Out(t.db, f) == match t.db.pubkeys[f].applied
                              case Some(a) => TaggedBy(verify, a.eventId) - {f}
                              case None => {}
    {
      assert RowAgrees(body, t.db, f);
    }
  }

  // ------------------------------------------- one graph from one set of events

  /** The list of `a`'s newest event among `held`, if the gate lets it through. */
  ghost predicate Owed(verify: Verifier, gate: Gate, held: set<Event>, a: PubKey, list: FollowList) {
    list.follower == a && IsAnswer(verify, gate.(requested := {a}), held, list)
  }

  function AuthorsOf(held: set<Event>): set<PubKey> {
    set e | e in held :: e.author
  }

  ghost predicate IsOwed(verify: Verifier, gate: Gate, held: set<Event>, a: PubKey) {
    exists list :: Owed(verify, gate, held, a, list)
  }

  ghost function OwedMap(verify: Verifier, gate: Gate, held: set<Event>): map<PubKey, FollowList> {
    map a | a in AuthorsOf(held) && IsOwed(verify, gate, held, a) ::
      var list :| Owed(verify, gate, held, a, list); list
  }

  lemma OwedMapIsExact(verify: Verifier, gate: Gate, held: set<Event>, a: PubKey, list: FollowList)
    requires IdBinds(verify)
    ensures a in OwedMap(verify, gate, held) && OwedMap(verify, gate, held)[a] == list
            <==> Owed(verify, gate, held, a, list)
  {
    var owed := OwedMap(verify, gate, held);
    if Owed(verify, gate, held, a, list) {
      var e :| IsNewest(e, Candidates(verify, gate.(requested := {a}), held, a));
      assert IsOwed(verify, gate, held, a) && a in AuthorsOf(held);
    }
    if a in owed && Owed(verify, gate, held, a, list) {
      AnswerIsUnique(verify, gate.(requested := {a}), held, list, owed[a]);
    }
  }

  ghost predicate Serves(verify: Verifier, gate: Gate, held: set<Event>, authors: seq<PubKey>,
                         lists: map<PubKey, FollowList>, raw: set<Event>)
  {
    var batchGate := gate.(requested := ToSet(authors));
    && (forall a | a in authors ::
          Candidates(verify, batchGate, raw, a) == Candidates(verify, gate.(requested := {a}), held, a))
    && (forall list: FollowList | list.follower in authors ::
          (list.follower in lists && lists[list.follower] == list) <==> IsAnswer(verify, batchGate, raw, list))
  }

  /** `lists` is the gate's output for a batch whose raw union holds, for each of its authors,
      the accepted events within the clamp that `held` holds, and anything else besides. */
  ghost predicate GatedBatch(verify: Verifier, gate: Gate, held: set<Event>, authors: seq<PubKey>,
                             lists: map<PubKey, FollowList>)
  {
    exists raw :: Serves(verify, gate, held, authors, lists, raw)
  }

  lemma GatedBatchIsFixed(verify: Verifier, gate: Gate, held: set<Event>, authors: seq<PubKey>,
                          lists: map<PubKey, FollowList>)
    requires IdBinds(verify) && GatedBatch(verify, gate, held, authors, lists)
    requires forall a | a in lists :: lists[a].follower == a
    ensures ListsFrom(OwedMap(verify, gate, held), authors, lists)
  {
    var owed := OwedMap(verify, gate, held);
    var raw :| Serves(verify, gate, held, authors, lists, raw);
    forall a | a in authors ensures (a in lists <==> a in owed) && (a in lists ==> lists[a] == owed[a]) {
      if a in lists {
        OwedIffAnswered(verify, gate, held, authors, raw, lists[a]);
        OwedMapIsExact(verify, gate, held, a, lists[a]);
      }
      if a in owed {
        OwedMapIsExact(verify, gate, held, a, owed[a]);
        OwedIffAnswered(verify, gate, held, authors, raw, owed[a]);
      }
    }
  }

  lemma OwedIffAnswered(verify: Verifier, gate: Gate, held: set<Event>, authors: seq<PubKey>,
                        raw: set<Event>, list: FollowList)
    requires list.follower in authors
    requires Candidates(verify, gate.(requested := ToSet(authors)), raw, list.follower)
             == Candidates(verify, gate.(requested := {list.follower}), held, list.follower)
    ensures IsAnswer(verify, gate.(requested := ToSet(authors)), raw, list)
            <==> Owed(verify, gate, held, list.follower, list)
  {
  }

  /** Fetches may fail; those that do not hold what `held` holds. */
  ghost function GatedFixed(verify: Verifier, gate: Gate, held: set<Event>): (State, Label) -> bool {
    (s: State, l: Label) =>
      l.Work? && l.act.FetchOk? && l.w in s.workers ==>
        && GatedBatch(verify, gate, held, s.workers[l.w].todo, l.act.lists)
        && forall a | a in l.act.lists :: l.act.lists[a].follower == a
  }

  predicate NoFetchFails(l: Label) {
    l.Work? ==> !l.act.FetchErr?
  }

  ghost function GatedNeverFailing(verify: Verifier, gate: Gate, held: set<Event>): (State, Label) -> bool {
    (s: State, l: Label) => GatedFixed(verify, gate, held)(s, l) && NoFetchFails(l)
  }

  lemma GatedIsFixed(verify: Verifier, gate: Gate, held: set<Event>, u: State, l: Label)
    requires IdBinds(verify) && GatedFixed(verify, gate, held)(u, l)
    ensures FixedLists(OwedMap(verify, gate, held))(u, l)
  {
    if l.Work? && l.act.FetchOk? && l.w in u.workers {
      GatedBatchIsFixed(verify, gate, held, u.workers[l.w].todo, l.act.lists);
    }
  }

  lemma OwedAnswersOk(verify: Verifier, gate: Gate, held: set<Event>)
    ensures AnswersOk(OwedMap(verify, gate, held))
  {
    var owed := OwedMap(verify, gate, held);
    forall a | a in owed ensures owed[a].follower == a {
      assert Owed(verify, gate, held, a, owed[a]);
    }
  }

  /** From relay events to the graph, whatever fails: when the union of every batch that is fetched
      holds the same accepted events per author, the graph is sound at every moment of a crawl of
      empty tables, restarts included: no row but those reachable from the anchor over the authors'
      newest lists in `held`, and no edge but theirs. */
  lemma GraphOfFixedEvents(verify: Verifier, gate: Gate, held: set<Event>, cfg: Config, run: seq<Label>, t: State)
    requires IdBinds(verify) && cfg.mode.Crawl?
    requires Reaches(cfg, GatedFixed(verify, gate, held), Boot(EMPTY_DB), run, t)
    ensures IsSoundGraph(OwedMap(verify, gate, held), cfg.anchor, t.db)
    ensures cfg.batchSize >= 1 && t.driver.Finished? ==>
              (IsFinalGraph(OwedMap(verify, gate, held), cfg.anchor, t.db) <==>
               forall k :: !HasStatus(t.db, k, Failed))
  {
    var ans := OwedMap(verify, gate, held);
    OwedAnswersOk(verify, gate, held);
    forall u: State, l: Label | GatedFixed(verify, gate, held)(u, l) ensures FixedLists(ans)(u, l) {
      GatedIsFixed(verify, gate, held, u, l);
    }
    Weaken(cfg, GatedFixed(verify, gate, held), FixedLists(ans), Boot(EMPTY_DB), run, t);
    CrawlIsSound(ans, cfg, run, t);
    if cfg.batchSize >= 1 && t.driver.Finished? { CrawlIsFinalIff(ans, cfg, run, t); }
  }

  /** And when no fetch fails every finished crawl ends in the graph reachable from the anchor over
      those lists. */
  lemma CrawlOfFixedEvents(verify: Verifier, gate: Gate, held: set<Event>, cfg: Config, run: seq<Label>, t: State)
    requires IdBinds(verify) && cfg.mode.Crawl? && cfg.batchSize >= 1
    requires Reaches(cfg, GatedNeverFailing(verify, gate, held), Boot(EMPTY_DB), run, t) && t.driver.Finished?
    ensures IsFinalGraph(OwedMap(verify, gate, held), cfg.anchor, t.db)
  {
    var ans, ok := OwedMap(verify, gate, held), GatedNeverFailing(verify, gate, held);
    OwedAnswersOk(verify, gate, held);
    forall u: State, l: Label | ok(u, l) ensures FixedAnswers(ans)(u, l) {
      GatedIsFixed(verify, gate, held, u, l);
    }
    Weaken(cfg, ok, FixedAnswers(ans), Boot(EMPTY_DB), run, t);
    CrawlIsDeterministic(ans, cfg, run, t);
  }
}
