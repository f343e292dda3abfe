/** Alert deduplication: `SETNX` with an expiry, over an explicit clock. */
module Dedup {
  import opened Common

  /** A `SETNX` call is answered, is lost before Redis sees it, or takes effect although the client sees an error. */
  datatype Outcome = Replied | LostBefore | LostAfter

  /** The expiry time of every key that was ever set; a key lives until the clock reaches it. */
  type Keys = map<string, int>

  predicate Live(keys: Keys, key: string, now: int) { key in keys && now < keys[key] }

  /** The keys after the call, and the reply: true when the call created the key. */
  function SetNx(keys: Keys, key: string, now: int, period: int, outcome: Outcome): (Keys, Option<bool>) {
    if outcome.LostBefore? then (keys, None)
    else
      var created := !Live(keys, key, now);
      (if created then keys[key := now + period] else keys, if outcome.Replied? then Some(created) else None)
  }

  const MINUTE: int := 60000

  class Redis {
    var keys: Keys

    constructor ()
      ensures keys == map[]
    {
      keys := map[];
    }

    method SetIfAbsent(key: string, now: int, period: int, outcome: Outcome) returns (reply: Option<bool>)
      modifies this
      ensures (keys, reply) == SetNx(old(keys), key, now, period, outcome)
    {
      if outcome.LostBefore? {
        return None;
      }
      var created := !Live(keys, key, now);
      if created {
        keys := keys[key := now + period];
      }
      return if outcome.Replied? then Some(created) else None;
    }
  }

  /** The settings of a deduplicator after `NewDeduplicator`. */
  datatype Settings = Settings(period: int, prefix: string)

  function NewSettings(period: int, prefix: string): (s: Settings)
    ensures s.period > 0 && s.prefix == prefix
    ensures s.period == if period > 0 then period else MINUTE
  {
    Settings(if period <= 0 then MINUTE else period, prefix)
  }

  /** The rule's window when it is positive, otherwise the configured period. */
  function EffectivePeriod(s: Settings, window: int): int { if window > 0 then window else s.period }

  datatype Call = Call(fingerprint: string, window: int, now: int, outcome: Outcome)

  function Decide(s: Settings, keys: Keys, c: Call): (Keys, Option<bool>) {
    SetNx(keys, s.prefix + c.fingerprint, c.now, EffectivePeriod(s, c.window), c.outcome)
  }

  class Deduplicator {
    const redis: Redis
    const settings: Settings

    constructor (redis: Redis, period: int, prefix: string)
      ensures this.redis == redis && settings == NewSettings(period, prefix)
    {
      this.redis, settings := redis, NewSettings(period, prefix);
    }

    method ShouldDispatch(c: Call) returns (reply: Option<bool>)
      modifies redis
      ensures (redis.keys, reply) == Decide(settings, old(redis.keys), c)
    {
      var key := settings.prefix + c.fingerprint;
      var period := settings.period;
      if c.window > 0 {
        period := c.window;
      }
      reply := redis.SetIfAbsent(key, c.now, period, c.outcome);
    }
  }

  // ------------------------------------------------------------ any interleaving of calls

  function KeysAfter(s: Settings, calls: seq<Call>): Keys {
    if calls == [] then map[]
    else Decide(s, KeysAfter(s, calls[..|calls| - 1]), calls[|calls| - 1]).0
  }

  /** Call `i` answers that its alert is to be dispatched. */
  predicate Dispatches(s: Settings, calls: seq<Call>, i: nat)
    requires i < |calls|
  {
    Decide(s, KeysAfter(s, calls[..i]), calls[i]).1 == Some(true)
  }

  lemma KeysAreSeparate(s: Settings, a: string, b: string)
    ensures s.prefix + a == s.prefix + b <==> a == b
  {
    assert (s.prefix + a)[|s.prefix|..] == a && (s.prefix + b)[|s.prefix|..] == b;
  }

  /** No call shortens the life of a key; calls for other fingerprints do not touch it at all. */
  lemma DecideNeverShortens(s: Settings, keys: Keys, c: Call, fingerprint: string)
    requires s.period > 0 && s.prefix + fingerprint in keys
    ensures var k, after := s.prefix + fingerprint, Decide(s, keys, c).0;
            k in after && keys[k] <= after[k] && (c.fingerprint != fingerprint ==> after[k] == keys[k])
  {
    KeysAreSeparate(s, c.fingerprint, fingerprint);
  }

  lemma {:induction false} KeyLivesOn(s: Settings, calls: seq<Call>, i: nat, n: nat)
    requires s.period > 0 && i < n <= |calls| && Dispatches(s, calls, i)
    ensures var k := s.prefix + calls[i].fingerprint;
            k in KeysAfter(s, calls[..n])
            && KeysAfter(s, calls[..n])[k] >= calls[i].now + EffectivePeriod(s, calls[i].window)
  {
    assert calls[..n][..n - 1] == calls[..n - 1];
    if n > i + 1 {
      KeyLivesOn(s, calls, i, n - 1);
      DecideNeverShortens(s, KeysAfter(s, calls[..n - 1]), calls[n - 1], calls[i].fingerprint);
    }
  }

  /** Two dispatches of one fingerprint are at least the earlier call's period apart, whatever was asked
      in between and however the windows changed. */
  lemma DispatchesAreSpaced(s: Settings, calls: seq<Call>, i: nat, j: nat)
    requires s.period > 0 && i < j < |calls|
    requires Dispatches(s, calls, i) && Dispatches(s, calls, j) && calls[i].fingerprint == calls[j].fingerprint
    ensures calls[j].now >= calls[i].now + EffectivePeriod(s, calls[i].window)
  {
    KeyLivesOn(s, calls, i, j);
  }

  /** The first call of a fingerprint that gets an answer dispatches, if none before it took effect. */
  lemma FirstCallDispatches(s: Settings, calls: seq<Call>, j: nat)
    requires j < |calls| && calls[j].outcome.Replied?
    requires forall i | 0 <= i < j && calls[i].fingerprint == calls[j].fingerprint :: calls[i].outcome.LostBefore?
    ensures Dispatches(s, calls, j)
  {
    UntouchedKey(s, calls, calls[j].fingerprint, j);
  }

  lemma {:induction false} UntouchedKey(s: Settings, calls: seq<Call>, fingerprint: string, n: nat)
    requires n <= |calls|
    requires forall i | 0 <= i < n && calls[i].fingerprint == fingerprint :: calls[i].outcome.LostBefore?
    ensures s.prefix + fingerprint !in KeysAfter(s, calls[..n])
  {
    if n > 0 {
      assert calls[..n][..n - 1] == calls[..n - 1];
      UntouchedKey(s, calls, fingerprint, n - 1);
      KeysAreSeparate(s, calls[n - 1].fingerprint, fingerprint);
    }
  }

  // ------------------------------------------------------------ exactly when a call dispatches

  /** Call `i` created the key of its fingerprint, whether or not the client heard of it. */
  predicate CreatesKey(s: Settings, calls: seq<Call>, i: nat)
    requires i < |calls|
  {
    !calls[i].outcome.LostBefore? && !Live(KeysAfter(s, calls[..i]), s.prefix + calls[i].fingerprint, calls[i].now)
  }

  /** The time until which call `i` keeps its fingerprint quiet: the rule's window, or the configured period. */
  function QuietUntil(s: Settings, c: Call): int { c.now + if c.window > 0 then c.window else s.period }

  lemma {:induction false} KeyIsThatOfLastCreator(s: Settings, calls: seq<Call>, fingerprint: string, n: nat)
    requires s.period > 0 && n <= |calls|
    ensures var keys, k := KeysAfter(s, calls[..n]), s.prefix + fingerprint;
            && (k in keys ==> exists i: nat | i < n ::
                  calls[i].fingerprint == fingerprint && CreatesKey(s, calls, i) && keys[k] == QuietUntil(s, calls[i]))
            && (forall i: nat | i < n && calls[i].fingerprint == fingerprint && CreatesKey(s, calls, i) ::
                  k in keys && QuietUntil(s, calls[i]) <= keys[k])
  {
    hide CreatesKey, KeysAfter;
    if n == 0 {
      NoKeysAtFirst(s, calls);
    } else {
      var c := calls[n - 1];
      KeyIsThatOfLastCreator(s, calls, fingerprint, n - 1);
      KeysAreSeparate(s, c.fingerprint, fingerprint);
      NextKeys(s, calls, n - 1);
    }
  }

  lemma NoKeysAtFirst(s: Settings, calls: seq<Call>)
    ensures KeysAfter(s, calls[..0]) == map[]
  {
  }

  lemma NextKeys(s: Settings, calls: seq<Call>, i: nat)
    requires i < |calls|
    ensures var keys, k := KeysAfter(s, calls[..i]), s.prefix + calls[i].fingerprint;
            && KeysAfter(s, calls[..i + 1]) == (if CreatesKey(s, calls, i) then keys[k := QuietUntil(s, calls[i])] else keys)
            && (CreatesKey(s, calls, i) ==> k !in keys || keys[k] <= calls[i].now)
  {
    assert calls[..i + 1][..i] == calls[..i];
  }

  /** A call dispatches if and only if it is answered and no earlier call that created the key of the fingerprint
      keeps it quiet; a call whose answer was lost counts, one whose time is over does not. */
  lemma DispatchesIff(s: Settings, calls: seq<Call>, n: nat)
    requires s.period > 0 && n < |calls|
    ensures Dispatches(s, calls, n)
       <==> && calls[n].outcome == Replied
            && forall i: nat | i < n && calls[i].fingerprint == calls[n].fingerprint && CreatesKey(s, calls, i) ::
                 QuietUntil(s, calls[i]) <= calls[n].now
  {
    hide CreatesKey, KeysAfter;
    KeyIsThatOfLastCreator(s, calls, calls[n].fingerprint, n);
  }

  // ------------------------------------------------------------ the rate bound

  /** Positions of dispatches of one fingerprint, in order, all within `length` from `start`. */
  ghost predicate DispatchesWithin(s: Settings, calls: seq<Call>, fingerprint: string, idx: seq<nat>,
        start: int, length: nat) {
    && (forall k | 0 <= k < |idx| ::
          && idx[k] < |calls| && calls[idx[k]].fingerprint == fingerprint && Dispatches(s, calls, idx[k])
          && start <= calls[idx[k]].now <= start + length)
    && (forall k, l | 0 <= k < l < |idx| :: idx[k] < idx[l])
  }

  lemma {:induction false} SpacedSum(s: Settings, calls: seq<Call>, fingerprint: string, idx: seq<nat>,
        start: int, length: nat,
                                     w: int, n: nat)
    requires s.period > 0 && w > 0 && forall c | c in calls :: EffectivePeriod(s, c.window) >= w
    requires DispatchesWithin(s, calls, fingerprint, idx, start, length) && n < |idx|
    ensures calls[idx[n]].now >= calls[idx[0]].now + n * w
  {
    hide Dispatches;
    if n > 0 {
      SpacedSum(s, calls, fingerprint, idx, start, length, w, n - 1);
      DispatchesAreSpaced(s, calls, idx[n - 1], idx[n]);
      assert calls[idx[n - 1]] in calls;
      assert n * w == (n - 1) * w + w;
    }
  }

  lemma MulMonotone(a: int, b: int, w: int)
    requires w >= 0
    ensures a <= b ==> a * w <= b * w
  {
  }

  lemma QuotientBound(n: nat, w: int, length: nat)
    requires w > 0 && n * w <= length
    ensures n <= length / w
  {
    var q := length / w;
    assert length == q * w + length % w;
    assert (q + 1) * w == q * w + w;
    MulMonotone(q + 1, n, w);
  }

  /** With every period in force at least `w`, at most `length / w + 1` alerts of one fingerprint are dispatched in any
      interval of that length, for every interleaving with other fingerprints and every change of windows. */
  lemma DispatchRateIsBounded(s: Settings, calls: seq<Call>, fingerprint: string, idx: seq<nat>, start: int,
        length: nat, w: int)
    requires s.period > 0 && w > 0 && forall c | c in calls :: EffectivePeriod(s, c.window) >= w
    requires DispatchesWithin(s, calls, fingerprint, idx, start, length)
    ensures |idx| <= length / w + 1
  {
    hide Dispatches;
    if idx != [] {
      SpacedSum(s, calls, fingerprint, idx, start, length, w, |idx| - 1);
      QuotientBound(|idx| - 1, w, length);
    }
  }
}
