/** Notice classification and the capped exponential backoff, in the source's widths. */
module RateLimit {
  import opened Wrappers

  const U32_MAX := 0xFFFF_FFFF
  const U64_SIZE := 0x1_0000_0000_0000_0000
  const U128_SIZE := 0x1_0000_0000_0000_0000_0000_0000_0000_0000

  // --------------------------------------------------------------- schedule

  function Pow2(n: nat): nat {
    if n == 0 then 1 else 2 * Pow2(n - 1)
  }

  /** `u128::checked_shl`: no result from 128 on, and bits shifted out are lost. */
  function CheckedShl(x: nat, n: nat): Option<nat> {
    if n >= 128 then None else Some(x * Pow2(n) % U128_SIZE)
  }

  /** `backoff_delay_unjittered`; durations are counted in nanoseconds. */
  function Unjittered(failures: nat, base: nat, cap: nat): nat {
    if failures >= 64 then cap
    else
      var shifted := CheckedShl(base, failures);
      var scaled := Min(if shifted.Some? then shifted.value else U128_SIZE - 1, cap);
      Min(Min(scaled, U64_SIZE - 1), cap)
  }

  lemma {:induction false} Pow2Mono(m: nat, n: nat)
    requires m <= n
    ensures 1 <= Pow2(m) <= Pow2(n)
    decreases n
  {
    if m < n { Pow2Mono(m, n - 1); } else if n > 0 { Pow2Mono(n - 1, n - 1); }
  }

  lemma MulMono(a: nat, b: nat, c: nat, d: nat)
    requires a <= b && c <= d
    ensures a * c <= b * d
  {
    assert a * c <= b * c && b * c <= b * d;
  }

  lemma Pow2Next8(n: nat)
    ensures Pow2(n + 8) == 256 * Pow2(n)
  {
    assert Pow2(n + 4) == 2 * Pow2(n + 3) == 4 * Pow2(n + 2) == 8 * Pow2(n + 1) == 16 * Pow2(n);
    assert Pow2(n + 8) == 2 * Pow2(n + 7) == 4 * Pow2(n + 6) == 8 * Pow2(n + 5) == 16 * Pow2(n + 4);
  }

  lemma Pow2At63()
    ensures Pow2(63) == U64_SIZE / 2 && Pow2(64) == U64_SIZE
  {
    Pow2Next8(0);
    Pow2Next8(8);
    Pow2Next8(16);
    Pow2Next8(24);
    Pow2Next8(32);
    Pow2Next8(40);
    Pow2Next8(48);
    Pow2Next8(56);
    assert Pow2(64) == 2 * Pow2(63);
  }

  lemma ProductBelow(a: nat, b: nat, m: nat, n: nat)
    requires a < m && b <= n && n > 0
    ensures a * b < m * n
  {
    MulMono(a, a, b, n);
    assert a * n < m * n;
  }

  lemma WidthsFit()
    ensures U64_SIZE * U64_SIZE == U128_SIZE
  {
  }

  lemma ShiftBelow(failures: nat, base: nat)
    requires failures < 64 && base < U64_SIZE
    ensures base * Pow2(failures) < U64_SIZE * U64_SIZE
  {
    Pow2At63();
    Pow2Mono(failures, 64);
    ProductBelow(base, Pow2(failures), U64_SIZE, U64_SIZE);
  }

  /** Below 64 places no bit of a 64-bit base leaves 128 bits. */
  lemma ShiftKeepsBits(failures: nat, base: nat)
    requires failures < 64 && base < U64_SIZE
    ensures CheckedShl(base, failures) == Some(base * Pow2(failures))
  {
    ShiftBelow(failures, base);
    WidthsFit();
    SmallModulo(base * Pow2(failures), U128_SIZE);
  }

  lemma SmallModulo(x: nat, m: nat)
    requires x < m
    ensures x % m == x
  {
  }

  lemma ShiftPassesCap(failures: nat, base: nat)
    requires failures >= 64 && base >= 1
    ensures base * Pow2(failures) >= U64_SIZE
  {
    Pow2At63();
    Pow2Mono(64, failures);
    MulMono(1, base, Pow2(failures), Pow2(failures));
  }

  /** The shift computes min(base * 2^failures, cap) exactly when the base is positive, the
      count is below 64, or the cap is zero: past 64 a zero base jumps to the cap. */
  lemma ScheduleIsExactIff(failures: nat, base: nat, cap: nat)
    requires base < U64_SIZE && cap < U64_SIZE
    ensures (Unjittered(failures, base, cap) == Min(base * Pow2(failures), cap))
            <==> (base >= 1 || failures < 64 || cap == 0)
  {
    if failures < 64 {
      ShiftKeepsBits(failures, base);
    } else if base >= 1 {
      ShiftPassesCap(failures, base);
    }
  }

  /** The delay never shrinks with another failure, is positive, and stays at the cap. */
  lemma ScheduleGrows(m: nat, n: nat, base: nat, cap: nat)
    requires m <= n && 1 <= base < U64_SIZE && cap < U64_SIZE
    ensures Unjittered(m, base, cap) <= Unjittered(n, base, cap) <= cap
    ensures cap > 0 ==> Unjittered(m, base, cap) > 0
    ensures Unjittered(n, base, cap) == cap ==> Unjittered(n + 1, base, cap) == cap
  {
    ScheduleIsExactIff(m, base, cap);
    ScheduleIsExactIff(n, base, cap);
    ScheduleIsExactIff(n + 1, base, cap);
    Pow2Mono(m, n);
    Pow2Mono(n, n + 1);
    MulMono(base, base, Pow2(m), Pow2(n));
    MulMono(base, base, Pow2(n), Pow2(n + 1));
    MulMono(1, base, 1, Pow2(m));
  }

  /** `backoff_delay`: any jitter `draw` may give within the upper half. */
  function Jittered(failures: nat, base: nat, cap: nat, draw: nat): (d: nat)
    ensures Unjittered(failures, base, cap) / 2 <= d <= Unjittered(failures, base, cap)
  {
    var capped := Unjittered(failures, base, cap);
    var half := capped / 2;
    var span := capped - half;
    half + if span == 0 then 0 else draw % (span + 1)
  }

  /** The jitter reaches every delay from half the scheduled one to all of it, and no other. */
  lemma JitterIff(failures: nat, base: nat, cap: nat, d: nat)
    ensures (exists draw :: Jittered(failures, base, cap, draw) == d)
            <==> Unjittered(failures, base, cap) / 2 <= d <= Unjittered(failures, base, cap)
  {
    var capped := Unjittered(failures, base, cap);
    if capped / 2 <= d <= capped {
      SmallModulo(d - capped / 2, capped - capped / 2 + 1);
      assert Jittered(failures, base, cap, d - capped / 2) == d;
    }
  }

  // ---------------------------------------------------------------- notices

  datatype NoticeKind = RateLimited | Blocked | Other

  /** Unicode White_Space. */
  predicate IsSpace(c: char) {
    var n := c as int;
    9 <= n <= 13 || n == 0x20 || n == 0x85 || n == 0xA0 || n == 0x1680 || 0x2000 <= n <= 0x200A
    || n == 0x2028 || n == 0x2029 || n == 0x202F || n == 0x205F || n == 0x3000
  }

  /** Of these there are twenty-five. */
  lemma SpacesAre(c: char)
    ensures IsSpace(c) <==> c in SPACES
    ensures |SPACES| == 25 && Distinct(SPACES)
  {
  }

  const SPACES: string := "\U{9}\U{A}\U{B}\U{C}\U{D}\U{20}\U{85}\U{A0}\U{1680}"
    + "\U{2000}\U{2001}\U{2002}\U{2003}\U{2004}\U{2005}\U{2006}\U{2007}\U{2008}\U{2009}\U{200A}"
    + "\U{2028}\U{2029}\U{202F}\U{205F}\U{3000}"

  function BeforeColon(s: string): string {
    if s == [] || s[0] == ':' then [] else [s[0]] + BeforeColon(s[1..])
  }

  function TrimStart(s: string): string {
    if s != [] && IsSpace(s[0]) then TrimStart(s[1..]) else s
  }

  function TrimEnd(s: string): string {
    if s != [] && IsSpace(s[|s| - 1]) then TrimEnd(s[..|s| - 1]) else s
  }

  function Classify(message: string): NoticeKind {
    var prefix := TrimEnd(TrimStart(BeforeColon(message)));
    if prefix == "rate-limited" then RateLimited
    else if prefix == "blocked" || prefix == "restricted" then Blocked
    else Other
  }

  ghost predicate AllSpace(s: string) {
    forall c | c in s :: IsSpace(c)
  }

  ghost predicate Parses(message: string, before: string, word: string, after: string, rest: string) {
    && AllSpace(before) && AllSpace(after) && (rest == [] || rest[0] == ':')
    && message == before + word + after + rest
  }

  /** A keyword between spaces, then the end of the message or a colon and anything. */
  ghost predicate HasPrefix(message: string, word: string) {
    exists before, after, rest :: Parses(message, before, word, after, rest)
  }

  lemma {:induction false} BeforeColonSplit(s: string) returns (rest: string)
    ensures s == BeforeColon(s) + rest && (rest == [] || rest[0] == ':') && ':' !in BeforeColon(s)
  {
    if s == [] || s[0] == ':' {
      rest := s;
    } else {
      rest := BeforeColonSplit(s[1..]);
      assert s == [s[0]] + s[1..];
    }
  }

  lemma {:induction false} BeforeColonOf(p: string, rest: string)
    requires ':' !in p && (rest == [] || rest[0] == ':')
    ensures BeforeColon(p + rest) == p
  {
    if p == [] {
      assert p + rest == rest;
    } else {
      BeforeColonOf(p[1..], rest);
      assert (p + rest)[1..] == p[1..] + rest;
    }
  }

  lemma {:induction false} TrimStartSplit(s: string) returns (before: string)
    ensures AllSpace(before) && s == before + TrimStart(s)
  {
    if s != [] && IsSpace(s[0]) {
      var b := TrimStartSplit(s[1..]);
      before := [s[0]] + b;
      assert s == [s[0]] + s[1..] == [s[0]] + (b + TrimStart(s[1..])) == before + TrimStart(s);
    } else {
      before := [];
    }
  }

  lemma {:induction false} TrimEndSplit(s: string) returns (after: string)
    ensures AllSpace(after) && s == TrimEnd(s) + after
  {
    if s != [] && IsSpace(s[|s| - 1]) {
      var a := TrimEndSplit(s[..|s| - 1]);
      after := a + [s[|s| - 1]];
      assert s == s[..|s| - 1] + [s[|s| - 1]];
    } else {
      after := [];
      assert s == s + after;
    }
  }

  lemma {:induction false} TrimStartOf(before: string, s: string)
    requires AllSpace(before) && s != [] && !IsSpace(s[0])
    ensures TrimStart(before + s) == s
  {
    if before == [] {
      assert before + s == s;
    } else {
      assert before[0] in before;
      assert forall c | c in before[1..] :: c in before;
      TrimStartOf(before[1..], s);
      assert (before + s)[1..] == before[1..] + s;
    }
  }

  lemma {:induction false} TrimEndOf(s: string, after: string)
    requires AllSpace(after) && s != [] && !IsSpace(s[|s| - 1])
    ensures TrimEnd(s + after) == s
  {
    if after == [] {
      assert s + after == s;
    } else {
      assert after[|after| - 1] in after;
      TrimEndOf(s, after[..|after| - 1]);
      assert (s + after)[..|s + after| - 1] == s + after[..|after| - 1];
    }
  }

  /** A solid word: no colon, no space at either end. */
  ghost predicate Solid(word: string) {
    word != [] && ':' !in word && !IsSpace(word[0]) && !IsSpace(word[|word| - 1])
  }

  lemma TrimmedHasPrefix(message: string, word: string)
    requires TrimEnd(TrimStart(BeforeColon(message))) == word
    ensures HasPrefix(message, word)
  {
    var rest := BeforeColonSplit(message);
    var before := TrimStartSplit(BeforeColon(message));
    var after := TrimEndSplit(TrimStart(BeforeColon(message)));
    assert before + (word + after) + rest == before + word + after + rest;
    assert Parses(message, before, word, after, rest);
  }

  lemma PrefixIsTrimmed(message: string, word: string)
    requires Solid(word) && HasPrefix(message, word)
    ensures TrimEnd(TrimStart(BeforeColon(message))) == word
  {
    var before, after, rest :| Parses(message, before, word, after, rest);
    var head := before + word + after;
    assert ':' !in head;
    BeforeColonOf(head, rest);
    assert head == before + (word + after) && (word + after)[0] == word[0];
    TrimStartOf(before, word + after);
    TrimEndOf(word, after);
  }

  lemma PrefixIff(message: string, word: string)
    requires Solid(word)
    ensures TrimEnd(TrimStart(BeforeColon(message))) == word <==> HasPrefix(message, word)
  {
    if TrimEnd(TrimStart(BeforeColon(message))) == word { TrimmedHasPrefix(message, word); }
    if HasPrefix(message, word) { PrefixIsTrimmed(message, word); }
  }

  /** A message asks for backoff exactly when its prefix is the word `rate-limited`, and for
      a stop exactly when it is `blocked` or `restricted`. */
  lemma ClassifyIff(message: string)
    ensures Classify(message).RateLimited? <==> HasPrefix(message, "rate-limited")
    ensures Classify(message).Blocked? <==> HasPrefix(message, "blocked") || HasPrefix(message, "restricted")
  {
    PrefixIff(message, "rate-limited");
    PrefixIff(message, "blocked");
    PrefixIff(message, "restricted");
  }

  // --------------------------------------------------------------- registry

  /** min(base * 2^n, cap), but for a zero base the cap from 64 notices on. */
  function Scheduled(n: nat, base: nat, cap: nat): nat {
    if base == 0 && n >= 64 then cap else Min(base * Pow2(n), cap)
  }

  datatype Op = Notice(relay: string, message: string) | Succeeded(relay: string)

  /** Rate-limited notices from `relay` since its last success. */
  ghost function Notices(log: seq<Op>, relay: string): nat {
    if log == [] then 0
    else
      var before, op := Notices(log[..|log| - 1], relay), log[|log| - 1];
      if op.relay != relay then before
      else if op.Succeeded? then 0
      else if Classify(op.message).RateLimited? then before + 1
      else before
  }

  class RateLimiterRegistry {
    const base: nat
    const cap: nat
    var failures: map<string, nat>
    ghost var log: seq<Op>

    function FailureCount(relay: string): nat
      reads this`failures
    {
      if relay in failures then failures[relay] else 0
    }

    /** The counters, `u32` and saturating, count the notices since the last reset. */
    ghost predicate Valid()
      reads this
    {
      && base < U64_SIZE && cap < U64_SIZE
      && forall relay :: FailureCount(relay) == Min(Notices(log, relay), U32_MAX)
    }

    constructor (base: nat, cap: nat)
      requires base < U64_SIZE && cap < U64_SIZE
      ensures Valid() && this.base == base && this.cap == cap && log == []
    {
      this.base, this.cap, failures, log := base, cap, map[], [];
    }

    /** After n earlier notices the delay lies in the upper half of the n-th scheduled one. */
    method RecordNotice(relay: string, message: string, draw: nat) returns (delay: Option<nat>)
      requires Valid()
      modifies this
      ensures Valid() && log == old(log) + [Notice(relay, message)]
      ensures delay.Some? <==> HasPrefix(message, "rate-limited")
      ensures delay.Some? ==>
                var n := Notices(old(log), relay);
                var d := Scheduled(n, base, cap);
                Notices(log, relay) == n + 1 && d / 2 <= delay.value <= d
      ensures forall other | other != relay :: FailureCount(other) == old(FailureCount(other))
    {
      ClassifyIff(message);
      ghost var n := Notices(log, relay);
      log := log + [Notice(relay, message)];
      assert log[..|log| - 1] == old(log);
      if Classify(message).RateLimited? {
        var count := Min(FailureCount(relay) + 1, U32_MAX);
        failures := failures[relay := count];
        SaturatedIsCapped(n, base, cap);
        return Some(Jittered(count - 1, base, cap, draw));
      }
      return None;
    }

    method Reset(relay: string)
      requires Valid()
      modifies this
      ensures Valid() && log == old(log) + [Succeeded(relay)]
      ensures FailureCount(relay) == 0
      ensures forall other | other != relay :: FailureCount(other) == old(FailureCount(other))
    {
      failures := failures - {relay};
      log := log + [Succeeded(relay)];
      assert log[..|log| - 1] == old(log);
    }
  }

  /** A saturated counter changes nothing: the delay has long been the cap. */
  lemma SaturatedIsCapped(n: nat, base: nat, cap: nat)
    requires base < U64_SIZE && cap < U64_SIZE
    ensures Scheduled(n, base, cap) == Unjittered(Min(n, U32_MAX - 1), base, cap)
  {
    if base >= 1 || n < 64 {
      ScheduleIsExactIff(n, base, cap);
      ScheduleIsExactIff(Min(n, U32_MAX - 1), base, cap);
    }
  }
}
