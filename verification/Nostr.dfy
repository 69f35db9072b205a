/** The nostr values that cross the crawler's module boundaries. */
module Nostr {

  /** A 32-byte x-only public key, read as a big-endian number. */
  type PubKey = nat

  /** A 32-byte event id, read as a big-endian number: byte order is number order. */
  type EventId = nat

  const U64_LIMIT := 0x1_0000_0000_0000_0000

  /** Seconds since the epoch, held by the source in a `u64`. */
  type Timestamp = t: int | 0 <= t < U64_LIMIT

  /** A relay event. `tags` are the keys of its well-formed p-tags in order; `sig` stands for
      whatever else two events with one id may differ in. */
  datatype Event = Event(
    id: EventId,
    author: PubKey,
    kind: nat,
    createdAt: Timestamp,
    tags: seq<PubKey>,
    sig: nat)
  {
    function Signed(): Content {
      Content(author, kind, createdAt, tags)
    }
  }

  predicate HasId(events: seq<Event>, id: EventId) {
    exists d | d in events :: d.id == id
  }

  /** The events no later than `until`, inclusively. */
  function UpTo(events: set<Event>, until: Timestamp): set<Event> {
    set e | e in events && e.createdAt <= until
  }

  /** What an event id is the hash of. */
  datatype Content = Content(author: PubKey, kind: nat, createdAt: Timestamp, tags: seq<PubKey>)

  /** The output of the ingest gate: the newest valid follow list of one author. */
  datatype FollowList = FollowList(
    follower: PubKey,
    eventId: EventId,
    createdAt: Timestamp,
    followees: seq<PubKey>)
}
