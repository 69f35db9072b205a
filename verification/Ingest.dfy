/** The validation gate: verify, match, dedup by id, newest wins, bounded followees. */
module Ingest {
  import opened Wrappers
  import opened Nostr

  /** `Event::verify` (id recomputation and signature) is a parameter. */
  type Verifier = Event -> bool

  /** The content behind a verified id. */
  ghost function Preimage(verify: Verifier, id: EventId): Content {
    if e: Event :| verify(e) && e.id == id then e.Signed() else Content(0, 0, 0, [])
  }

  /** A verified id stands for one content. */
  ghost predicate IdBinds(verify: Verifier) {
    forall e :: verify(e) ==> e.Signed() == Preimage(verify, e.id)
  }

  /** That is: two verified events with one id agree on author, kind, time and tags. */
  lemma IdBindsPairwise(verify: Verifier)
    ensures IdBinds(verify) <==>
            forall d, e :: verify(d) && verify(e) && d.id == e.id ==> d.Signed() == e.Signed()
  {
    if forall d, e :: verify(d) && verify(e) && d.id == e.id ==> d.Signed() == e.Signed() {
      forall e | verify(e) ensures e.Signed() == Preimage(verify, e.id) {
        var d: Event :| verify(d) && d.id == e.id && Preimage(verify, e.id) == d.Signed();
      }
    }
  }

  datatype Gate = Gate(kind: nat, requested: set<PubKey>, now: Timestamp, clamp: Timestamp, followCap: nat) {
    /** `now + clamp`, saturating at the largest `u64`. */
    function Cutoff(): Timestamp {
      Min(now + clamp, U64_LIMIT - 1)
    }
  }

  predicate Accept(verify: Verifier, gate: Gate, e: Event) {
    verify(e) && e.kind == gate.kind && e.author in gate.requested
  }

  // ------------------------------------------------------------ newest wins

  /** `a` compares greater than `b`: newer, or as new with a lower id. */
  predicate Greater(a: Event, b: Event) {
    a.createdAt > b.createdAt || (a.createdAt == b.createdAt && a.id < b.id)
  }

  /** One step of `max_by`, which keeps the last of equal maxima. */
  function MaxOf(best: Option<Event>, e: Event): Option<Event> {
    if best.Some? && Greater(best.value, e) then best else Some(e)
  }

  /** `pick_winner`. */
  function PickWinner(events: seq<Event>, cutoff: Timestamp): Option<Event> {
    if events == [] then None
    else
      var best, e := PickWinner(events[..|events| - 1], cutoff), events[|events| - 1];
      if e.createdAt > cutoff then best else MaxOf(best, e)
  }

  /** `w` is among `s`, nothing there is newer, and nothing as new has a lower id. */
  ghost predicate IsNewest(w: Event, s: set<Event>) {
    && w in s
    && forall e | e in s :: e.createdAt < w.createdAt || (e.createdAt == w.createdAt && w.id <= e.id)
  }

  lemma {:induction false} WinnerIsNewest(events: seq<Event>, cutoff: Timestamp)
    ensures match PickWinner(events, cutoff)
            case Some(w) => IsNewest(w, UpTo(ToSet(events), cutoff))
            case None => UpTo(ToSet(events), cutoff) == {}
  {
    if events != [] {
      var init, e := events[..|events| - 1], events[|events| - 1];
      WinnerIsNewest(init, cutoff);
      assert events == init + [e];
      assert ToSet(events) == ToSet(init) + {e};
      assert UpTo(ToSet(events), cutoff) == UpTo(ToSet(init), cutoff) + if e.createdAt <= cutoff then {e} else {};
    }
  }

  /** The better of two winners, the later one on a tie. */
  function Better(v: Option<Event>, w: Option<Event>): Option<Event> {
    if w.None? || (v.Some? && Greater(v.value, w.value)) then v else w
  }

  lemma {:induction false} WinnerOfUnion(s: seq<Event>, t: seq<Event>, cutoff: Timestamp)
    ensures PickWinner(s + t, cutoff) == Better(PickWinner(s, cutoff), PickWinner(t, cutoff))
  {
    if t == [] {
      assert s + t == s;
    } else {
      WinnerOfUnion(s, t[..|t| - 1], cutoff);
      assert (s + t)[..|s + t| - 1] == s + t[..|t| - 1];
    }
  }

  function ToSeq(w: Option<Event>): seq<Event> {
    if w.Some? then [w.value] else []
  }

  lemma WinnerOfOne(events: seq<Event>, cutoff: Timestamp)
    ensures PickWinner(ToSeq(PickWinner(events, cutoff)), cutoff) == PickWinner(events, cutoff)
  {
    WinnerIsNewest(events, cutoff);
    var w := PickWinner(events, cutoff);
    if w.Some? {
      assert w.value in UpTo(ToSet(events), cutoff);
      assert [w.value][..0] == [];
    }
  }

  /** The winner over a union of relays is the winner of the relays' winners. */
  lemma WinnerOfWinners(s: seq<Event>, t: seq<Event>, cutoff: Timestamp)
    ensures PickWinner(s + t, cutoff) ==
            PickWinner(ToSeq(PickWinner(s, cutoff)) + ToSeq(PickWinner(t, cutoff)), cutoff)
  {
    WinnerOfUnion(s, t, cutoff);
    WinnerOfUnion(ToSeq(PickWinner(s, cutoff)), ToSeq(PickWinner(t, cutoff)), cutoff);
    WinnerOfOne(s, cutoff);
    WinnerOfOne(t, cutoff);
  }

  // -------------------------------------------------------------- followees

  /** The first occurrences in `tags`, the author left out. */
  function FirstOccurrences(tags: seq<PubKey>, author: PubKey): seq<PubKey> {
    if tags == [] then []
    else
      var init, k := FirstOccurrences(tags[..|tags| - 1], author), tags[|tags| - 1];
      if k == author || k in init then init else init + [k]
  }

  lemma {:induction false} FirstOccurrencesDistinct(tags: seq<PubKey>, author: PubKey)
    ensures Distinct(FirstOccurrences(tags, author))
  {
    if tags != [] {
      FirstOccurrencesDistinct(tags[..|tags| - 1], author);
    }
  }

  lemma {:induction false} FirstOccurrencesHas(tags: seq<PubKey>, author: PubKey, k: PubKey)
    ensures k in FirstOccurrences(tags, author) <==> k in tags && k != author
  {
    if tags != [] {
      var init := tags[..|tags| - 1];
      FirstOccurrencesHas(init, author, k);
      FirstOccurrencesHas(init, author, tags[|tags| - 1]);
      assert tags == init + [tags[|tags| - 1]];
    }
  }

  lemma FirstOccurrencesAreTheTags(tags: seq<PubKey>, author: PubKey)
    ensures Distinct(FirstOccurrences(tags, author))
    ensures ToSet(FirstOccurrences(tags, author)) == ToSet(tags) - {author}
    ensures |FirstOccurrences(tags, author)| == |ToSet(tags) - {author}|
  {
    FirstOccurrencesDistinct(tags, author);
    forall k ensures k in ToSet(FirstOccurrences(tags, author)) <==> k in ToSet(tags) - {author} {
      FirstOccurrencesHas(tags, author, k);
    }
    DistinctSize(FirstOccurrences(tags, author));
  }

  /** `followee_pubkeys`: rejects the list when more than `cap` distinct others are tagged. */
  method FolloweePubkeys(event: Event, cap: nat) returns (r: Option<seq<PubKey>>)
    ensures r.Some? <==> |ToSet(event.tags) - {event.author}| <= cap
    ensures r.Some? ==> r.value == FirstOccurrences(event.tags, event.author)
    ensures r.Some? ==> Distinct(r.value) && ToSet(r.value) == ToSet(event.tags) - {event.author}
  {
    var seen: set<PubKey>, followees: seq<PubKey> := {}, [];
    for i := 0 to |event.tags|
      invariant followees == FirstOccurrences(event.tags[..i], event.author)
      invariant seen == ToSet(followees)
    {
      var k := event.tags[i];
      assert event.tags[..i + 1] == event.tags[..i] + [k];
      if k != event.author {
        if k !in seen {
          seen, followees := seen + {k}, followees + [k];
        }
      }
    }
    assert event.tags[..|event.tags|] == event.tags;
    FirstOccurrencesAreTheTags(event.tags, event.author);
    if |followees| > cap { return None; }
    return Some(followees);
  }

  // ---------------------------------------------------------------- the gate

  /** The accepted events of one author within the clamp. */
  function Candidates(verify: Verifier, gate: Gate, events: set<Event>, a: PubKey): set<Event> {
    set e | e in events && Accept(verify, gate, e) && e.author == a && e.createdAt <= gate.Cutoff()
  }

  function ListOf(e: Event): FollowList {
    FollowList(e.author, e.id, e.createdAt, FirstOccurrences(e.tags, e.author))
  }

  /** The gate's answer for the author of `list`: it stands for the newest candidate, which
      stays within the follow cap. */
  ghost predicate IsAnswer(verify: Verifier, gate: Gate, events: set<Event>, list: FollowList) {
    exists e :: IsNewest(e, Candidates(verify, gate, events, list.follower))
                && list == ListOf(e) && |list.followees| <= gate.followCap
  }

  lemma NewestHaveOneId(v: Event, w: Event, s: set<Event>)
    requires IsNewest(v, s) && IsNewest(w, s)
    ensures v.id == w.id && v.createdAt == w.createdAt
  {
  }

  /** Verified ids bind, so an author has at most one answer. */
  lemma AnswerIsUnique(verify: Verifier, gate: Gate, events: set<Event>, l: FollowList, m: FollowList)
    requires IdBinds(verify) && l.follower == m.follower
    requires IsAnswer(verify, gate, events, l) && IsAnswer(verify, gate, events, m)
    ensures l == m
  {
    var s := Candidates(verify, gate, events, l.follower);
    var d :| IsNewest(d, s) && l == ListOf(d);
    var e :| IsNewest(e, s) && m == ListOf(e);
    NewestHaveOneId(d, e, s);
  }

  /** The accepted events of one author, clamp aside. */
  function AcceptedOf(verify: Verifier, gate: Gate, events: set<Event>, a: PubKey): set<Event> {
    set e | e in events && Accept(verify, gate, e) && e.author == a
  }

  /** Only the set of the author's own accepted events matters: the rest of the batch, order,
      repetition, the split over relays and any number of rejected copies, of genuine ids
      too, change no answer. */
  lemma OnlyAcceptedEventsMatter(verify: Verifier, gate: Gate, gate': Gate,
                                 events: set<Event>, events': set<Event>, list: FollowList)
    requires gate' == gate.(requested := gate'.requested)
    requires AcceptedOf(verify, gate, events, list.follower) == AcceptedOf(verify, gate', events', list.follower)
    ensures IsAnswer(verify, gate, events, list) <==> IsAnswer(verify, gate', events', list)
  {
    var own := AcceptedOf(verify, gate, events, list.follower);
    var within := set e | e in own && e.createdAt <= gate.Cutoff();
    assert Candidates(verify, gate, events, list.follower) == within;
    assert Candidates(verify, gate', events', list.follower) == within;
  }

  predicate AcceptedFrom(verify: Verifier, gate: Gate, e: Event, a: PubKey) {
    Accept(verify, gate, e) && e.author == a
  }

  /** `group` is `a`'s accepted events among `events`, one per id. */
  ghost predicate IsGroup(verify: Verifier, gate: Gate, events: seq<Event>, a: PubKey, group: seq<Event>) {
    && (forall e | e in group :: e in events && AcceptedFrom(verify, gate, e, a))
    && (forall e | e in events && AcceptedFrom(verify, gate, e, a) :: HasId(group, e.id))
  }

  /** Deduplication by id after verification keeps a twin of every candidate. */
  lemma TwinInGroup(verify: Verifier, gate: Gate, events: seq<Event>, a: PubKey, group: seq<Event>, e: Event)
    returns (d: Event)
    requires IdBinds(verify) && IsGroup(verify, gate, events, a, group)
    requires e in Candidates(verify, gate, ToSet(events), a)
    ensures d in UpTo(ToSet(group), gate.Cutoff()) && d.id == e.id && d.createdAt == e.createdAt
  {
    assert AcceptedFrom(verify, gate, e, a);
    d :| d in group && d.id == e.id;
    assert AcceptedFrom(verify, gate, d, a);
    assert d.Signed() == Preimage(verify, e.id) == e.Signed();
  }

  /** The winner of a deduplicated group stands for the newest candidate of all. */
  lemma GroupWinner(verify: Verifier, gate: Gate, events: seq<Event>, a: PubKey, group: seq<Event>)
    requires IdBinds(verify) && IsGroup(verify, gate, events, a, group)
    ensures PickWinner(group, gate.Cutoff()).Some? ==>
              IsNewest(PickWinner(group, gate.Cutoff()).value, Candidates(verify, gate, ToSet(events), a))
    ensures PickWinner(group, gate.Cutoff()).None? ==> Candidates(verify, gate, ToSet(events), a) == {}
  {
    var winner := PickWinner(group, gate.Cutoff());
    var all := Candidates(verify, gate, ToSet(events), a);
    WinnerIsNewest(group, gate.Cutoff());
    if winner.Some? {
      assert AcceptedFrom(verify, gate, winner.value, a);
    }
    forall e | e in all
      ensures winner.Some?
      ensures e.createdAt < winner.value.createdAt
              || (e.createdAt == winner.value.createdAt && winner.value.id <= e.id)
    {
      var d := TwinInGroup(verify, gate, events, a, group, e);
    }
  }

  /** An event of `a` the gate lets through: verified, of the wanted kind, from a requested
      author, and no later than `now + clamp`, that second included. */
  predicate Passes(verify: Verifier, gate: Gate, e: Event, a: PubKey) {
    && verify(e) && e.kind == gate.kind && e.author == a && a in gate.requested
    && e.createdAt <= gate.now + gate.clamp
  }

  /** `list` stands for `e`: its author, id and time, and the others it tags, each once. */
  ghost predicate StandsFor(list: FollowList, e: Event) {
    && list.follower == e.author && list.eventId == e.id && list.createdAt == e.createdAt
    && Distinct(list.followees)
    && forall k :: k in list.followees <==> k in e.tags && k != e.author
  }

  /** An answer told in plain terms: it stands for an event that passes, any other that passes is
      older, or as old with no lower id, and it is within the follow cap. */
  lemma AnswerInPlainTerms(verify: Verifier, gate: Gate, events: seq<Event>, list: FollowList)
    requires IsAnswer(verify, gate, ToSet(events), list)
    ensures exists e :: e in events && Passes(verify, gate, e, list.follower) && StandsFor(list, e)
    ensures forall e | e in events && Passes(verify, gate, e, list.follower) ::
              e.createdAt < list.createdAt || (e.createdAt == list.createdAt && list.eventId <= e.id)
    ensures |list.followees| <= gate.followCap
  {
    var w :| IsNewest(w, Candidates(verify, gate, ToSet(events), list.follower)) && list == ListOf(w);
    FirstOccurrencesDistinct(w.tags, w.author);
    forall k ensures k in list.followees <==> k in w.tags && k != w.author {
      FirstOccurrencesHas(w.tags, w.author, k);
    }
    assert w in events && Passes(verify, gate, w, list.follower) && StandsFor(list, w);
    forall e | e in events && Passes(verify, gate, e, list.follower)
      ensures e.createdAt < list.createdAt || (e.createdAt == list.createdAt && list.eventId <= e.id)
    {
      assert e in Candidates(verify, gate, ToSet(events), list.follower);
    }
  }

  /** An author without an answer has no event that passes, or its newest ones tag too many. */
  lemma NoAnswerInPlainTerms(verify: Verifier, gate: Gate, events: seq<Event>, a: PubKey)
    requires IdBinds(verify)
    requires forall list: FollowList | list.follower == a :: !IsAnswer(verify, gate, ToSet(events), list)
    ensures || (forall e | e in events :: !Passes(verify, gate, e, a))
            || exists w :: && w in events && Passes(verify, gate, w, a)
                           && |ToSet(w.tags) - {a}| > gate.followCap
                           && forall e | e in events && Passes(verify, gate, e, a) ::
                                e.createdAt < w.createdAt || (e.createdAt == w.createdAt && w.id <= e.id)
  {
    var all := Candidates(verify, gate, ToSet(events), a);
    forall e | e in events ensures e in all <==> Passes(verify, gate, e, a) {}
    if all != {} {
      var w := NewestExists(all);
      FirstOccurrencesAreTheTags(w.tags, w.author);
      assert !IsAnswer(verify, gate, ToSet(events), ListOf(w));
      assert w in events && Passes(verify, gate, w, a);
    }
  }

  lemma {:induction false} NewestExists(s: set<Event>) returns (w: Event)
    requires s != {}
    ensures IsNewest(w, s)
    decreases s
  {
    w :| w in s;
    if s != {w} {
      var v := NewestExists(s - {w});
      if w.createdAt < v.createdAt || (w.createdAt == v.createdAt && v.id <= w.id) { w := v; }
    }
  }

  /** `ingest_events`: exactly one list per author that has an answer, and no other. Each stands for
      the newest event of its author that passes, lowest id on ties; an author is left out only if
      it has none or that one tags too many. */
  method IngestEvents(verify: Verifier, gate: Gate, events: seq<Event>) returns (out: seq<FollowList>)
    requires IdBinds(verify)
    ensures forall list :: list in out <==> IsAnswer(verify, gate, ToSet(events), list)
    ensures forall i, j | 0 <= i < j < |out| :: out[i].follower != out[j].follower
    ensures forall list | list in out ::
              exists e :: e in events && Passes(verify, gate, e, list.follower) && StandsFor(list, e)
    ensures forall list, e | list in out && e in events && Passes(verify, gate, e, list.follower) ::
              e.createdAt < list.createdAt || (e.createdAt == list.createdAt && list.eventId <= e.id)
    ensures forall list | list in out :: |list.followees| <= gate.followCap
  {
    var seen: set<EventId> := {};
    var byAuthor: map<PubKey, seq<Event>> := map[];
    for i := 0 to |events|
      invariant forall a | a in byAuthor :: IsGroup(verify, gate, events[..i], a, byAuthor[a])
      invariant forall e | e in events[..i] && Accept(verify, gate, e) :: e.author in byAuthor && e.id in seen
      invariant forall id | id in seen :: exists e :: e in events[..i] && Accept(verify, gate, e) && e.id == id
    {
      var event := events[i];
      assert events[..i + 1] == events[..i] + [event];
      if Accept(verify, gate, event) {
        ghost var was := byAuthor;
        if event.id !in seen {
          var group := if event.author in byAuthor then byAuthor[event.author] else [];
          seen := seen + {event.id};
          byAuthor := byAuthor[event.author := group + [event]];
          GroupGrows(verify, gate, events[..i], event, group);
        }
        forall a | a in byAuthor ensures IsGroup(verify, gate, events[..i + 1], a, byAuthor[a]) {
          if a in was && (a != event.author || byAuthor == was) {
            GroupKept(verify, gate, events[..i], event, a, was[a]);
          }
        }
      }
    }
    assert events[..|events|] == events;
    out := [];
    var todo := byAuthor.Keys;
    while todo != {}
      invariant todo <= byAuthor.Keys
      invariant forall list :: list in out ==> list.follower in byAuthor.Keys - todo
      invariant forall list: FollowList :: list.follower in byAuthor.Keys - todo ==>
                  (list in out <==> IsAnswer(verify, gate, ToSet(events), list))
      invariant forall i, j | 0 <= i < j < |out| :: out[i].follower != out[j].follower
      decreases todo
    {
      var a :| a in todo;
      todo := todo - {a};
      var made := Resolve(verify, gate, events, a, byAuthor[a]);
      out := out + made;
    }
    forall list | IsAnswer(verify, gate, ToSet(events), list) ensures list in out {
      var e :| IsNewest(e, Candidates(verify, gate, ToSet(events), list.follower));
      assert e in events;
    }
    forall list | list in out
      ensures exists e :: e in events && Passes(verify, gate, e, list.follower) && StandsFor(list, e)
      ensures forall e | e in events && Passes(verify, gate, e, list.follower) ::
                e.createdAt < list.createdAt || (e.createdAt == list.createdAt && list.eventId <= e.id)
      ensures |list.followees| <= gate.followCap
    {
      AnswerInPlainTerms(verify, gate, events, list);
    }
  }

  lemma GroupKept(verify: Verifier, gate: Gate, events: seq<Event>, e: Event, a: PubKey, group: seq<Event>)
    requires IsGroup(verify, gate, events, a, group)
    requires e.author != a || exists d :: d in group && d.id == e.id
    ensures IsGroup(verify, gate, events + [e], a, group)
  {
  }

  lemma GroupGrows(verify: Verifier, gate: Gate, events: seq<Event>, e: Event, group: seq<Event>)
    requires Accept(verify, gate, e)
    requires IsGroup(verify, gate, events, e.author, group)
    ensures IsGroup(verify, gate, events + [e], e.author, group + [e])
  {
  }

  /** The lists of one author: the winner's, unless nobody wins or it exceeds the cap. */
  method Resolve(verify: Verifier, gate: Gate, events: seq<Event>, a: PubKey, group: seq<Event>)
    returns (made: seq<FollowList>)
    requires IdBinds(verify) && IsGroup(verify, gate, events, a, group)
    ensures |made| <= 1 && forall list | list in made :: list.follower == a
    ensures forall list: FollowList | list.follower == a ::
              list in made <==> IsAnswer(verify, gate, ToSet(events), list)
  {
    GroupWinner(verify, gate, events, a, group);
    var winner := PickWinner(group, gate.Cutoff());
    if winner.None? { return []; }
    var followees := FolloweePubkeys(winner.value, gate.followCap);
    FirstOccurrencesAreTheTags(winner.value.tags, winner.value.author);
    var list := ListOf(winner.value);
    forall m: FollowList | m.follower == a && IsAnswer(verify, gate, ToSet(events), m)
      ensures m == list && followees.Some?
    {
      var e :| IsNewest(e, Candidates(verify, gate, ToSet(events), a)) && m == ListOf(e);
      NewestHaveOneId(e, winner.value, Candidates(verify, gate, ToSet(events), a));
    }
    if followees.None? { return []; }
    return [FollowList(winner.value.author, winner.value.id, winner.value.createdAt, followees.value)];
  }
}
