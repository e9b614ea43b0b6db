/** The in-memory fixed-window rate limiter: one entry per key (route
    prefix and client address) counting the calls of the current window,
    and a periodic sweep that forgets windows that have run out. */
module RateLimiter {
  import opened Prelude

  datatype Entry = Entry(count: int, resetAt: int)

  /** `max` calls per `window` milliseconds, counted under `keyPrefix`. */
  datatype RateLimitOptions = RateLimitOptions(max: int, window: int, keyPrefix: Option<string>)

  datatype Decision = Decision(allowed: bool, remaining: int, resetAt: int)

  datatype StepResult = StepResult(decision: Decision, entries: map<string, Entry>)

  // The per-route configurations.
  const AiLimits: RateLimitOptions := RateLimitOptions(20, 60 * 1000, Some("ai"))
  const AiStrictLimits: RateLimitOptions := RateLimitOptions(5, 60 * 1000, Some("ai_strict"))
  const AuthLimits: RateLimitOptions := RateLimitOptions(10, 60 * 1000, Some("auth"))
  const AuthStrictLimits: RateLimitOptions := RateLimitOptions(5, 15 * 60 * 1000, Some("auth_strict"))
  const GeneralLimits: RateLimitOptions := RateLimitOptions(100, 60 * 1000, Some("general"))

  /** The prefix of the store key: the configured one, or "default" when it
      is absent or empty (both are falsy). */
  function KeyPrefix(opts: RateLimitOptions): (p: string)
    ensures p != ""
    ensures opts.keyPrefix.Some? && opts.keyPrefix.value != "" ==> p == opts.keyPrefix.value
    ensures opts.keyPrefix.None? || opts.keyPrefix.value == "" ==> p == "default"
  {
    if opts.keyPrefix.Some? && opts.keyPrefix.value != "" then opts.keyPrefix.value else "default"
  }

  /** The store key `prefix:ip`. */
  function RateLimitKey(ip: string, prefix: string): (k: string)
    ensures |k| == |prefix| + 1 + |ip|
    ensures k[..|prefix|] == prefix && k[|prefix|] == ':' && k[|prefix| + 1..] == ip
  {
    prefix + ":" + ip
  }

  /** With a prefix free of ':', the key determines prefix and address, so
      distinct routes or clients never share a window. */
  lemma KeyInjective(ip1: string, prefix1: string, ip2: string, prefix2: string)
    requires ':' !in prefix1 && ':' !in prefix2
    ensures RateLimitKey(ip1, prefix1) == RateLimitKey(ip2, prefix2) <==> ip1 == ip2 && prefix1 == prefix2
  {
    var k1, k2 := RateLimitKey(ip1, prefix1), RateLimitKey(ip2, prefix2);
    if k1 == k2 {
      assert k1[|prefix1|] == ':' && k2[|prefix2|] == ':';
      if |prefix1| != |prefix2| {
        assert false;
      }
      assert prefix1 == k1[..|prefix1|] == k2[..|prefix2|] == prefix2;
      assert ip1 == k1[|prefix1| + 1..] == k2[|prefix2| + 1..] == ip2;
    }
  }

  /** All configured prefixes are free of ':', so KeyInjective applies. */
  lemma ConfiguredPrefixesSeparate()
    ensures forall opts | opts in {AiLimits, AiStrictLimits, AuthLimits, AuthStrictLimits, GeneralLimits} ::
      ':' !in KeyPrefix(opts) && opts.max >= 1 && opts.window > 0
  {
  }

  /** One call of the limiter for `key` at `now`. */
  function Step(entries: map<string, Entry>, key: string, opts: RateLimitOptions, now: int): (r: StepResult)
    ensures key in r.entries
    // only the caller's entry is created or changed
    ensures forall k | k != key :: (k in r.entries <==> k in entries) && (k in entries ==> r.entries[k] == entries[k])
    // a missing or run-out window (strictly past its reset time) restarts with one call
    ensures key !in entries || now > entries[key].resetAt ==>
      r.entries[key] == Entry(1, now + opts.window) && r.decision == Decision(true, opts.max - 1, now + opts.window)
    // a window at its limit denies and stays as it was
    ensures key in entries && now <= entries[key].resetAt && entries[key].count >= opts.max ==>
      r.entries == entries && r.decision == Decision(false, 0, entries[key].resetAt)
    // otherwise the call is counted in the same window
    ensures key in entries && now <= entries[key].resetAt && entries[key].count < opts.max ==>
      r.entries[key] == Entry(entries[key].count + 1, entries[key].resetAt)
      && r.decision == Decision(true, opts.max - r.entries[key].count, entries[key].resetAt)
    // with max >= 1 a count in [1, max] stays there and an allowed call leaves 0 <= remaining < max
    ensures opts.max >= 1 && (key in entries ==> 1 <= entries[key].count <= opts.max) ==>
      1 <= r.entries[key].count <= opts.max
      && (r.decision.allowed ==> 0 <= r.decision.remaining < opts.max)
  {
    if key !in entries || now > entries[key].resetAt then
      var resetAt := now + opts.window;
      StepResult(Decision(true, opts.max - 1, resetAt), entries[key := Entry(1, resetAt)])
    else
      var entry := entries[key];
      if entry.count >= opts.max then
        StepResult(Decision(false, 0, entry.resetAt), entries)
      else
        var counted := entry.(count := entry.count + 1);
        StepResult(Decision(true, opts.max - counted.count, entry.resetAt), entries[key := counted])
  }

  /** A call at the very reset time still belongs to the old window. */
  lemma ResetInstantInOldWindow(entries: map<string, Entry>, key: string, opts: RateLimitOptions)
    requires key in entries && entries[key].count >= opts.max
    ensures !Step(entries, key, opts, entries[key].resetAt).decision.allowed
  {
  }

  /** Number of calls allowed when `key` is called at each of `times` in turn. */
  function AllowedIn(entries: map<string, Entry>, key: string, opts: RateLimitOptions, times: seq<int>): nat
    decreases |times|
  {
    if times == [] then 0
    else
      var s := Step(entries, key, opts, times[0]);
      (if s.decision.allowed then 1 else 0) + AllowedIn(s.entries, key, opts, times[1..])
  }

  /** Within a window (no call after its reset time), at most `max - count`
      further calls are allowed. */
  lemma {:induction false} WindowBudget(entries: map<string, Entry>, key: string, opts: RateLimitOptions, times: seq<int>)
    requires key in entries
    requires forall i :: 0 <= i < |times| ==> times[i] <= entries[key].resetAt
    ensures AllowedIn(entries, key, opts, times) <= if opts.max > entries[key].count then opts.max - entries[key].count else 0
    decreases |times|
  {
    if times != [] {
      var s := Step(entries, key, opts, times[0]);
      assert s.entries[key].resetAt == entries[key].resetAt;
      WindowBudget(s.entries, key, opts, times[1..]);
    }
  }

  /** A window opened by a call at `start` allows at most `max` calls in all,
      however the later calls up to its reset time are spread. */
  lemma AtMostMaxPerWindow(entries: map<string, Entry>, key: string, opts: RateLimitOptions, start: int, later: seq<int>)
    requires opts.max >= 1
    requires key !in entries || start > entries[key].resetAt
    requires forall i :: 0 <= i < |later| ==> later[i] <= start + opts.window
    ensures AllowedIn(entries, key, opts, [start] + later) <= opts.max
  {
    var s := Step(entries, key, opts, start);
    assert ([start] + later)[1..] == later;
    WindowBudget(s.entries, key, opts, later);
  }

  /** The entries the sweep keeps: those whose window has not run out. */
  function Swept(entries: map<string, Entry>, now: int): (r: map<string, Entry>)
    ensures forall k :: k in r <==> k in entries && !(now > entries[k].resetAt)
    ensures forall k :: k in r ==> r[k] == entries[k]
  {
    map k | k in entries && now <= entries[k].resetAt :: entries[k]
  }

  /** The sweep cannot be observed: sweeping at `sweptAt` and then calling
      at a later `now` decides exactly as calling without the sweep, and
      leaves the swept version of the unswept store. */
  lemma SweepCommutesWithStep(entries: map<string, Entry>, key: string, opts: RateLimitOptions, sweptAt: int, now: int)
    requires sweptAt <= now && opts.window >= 0
    ensures Step(Swept(entries, sweptAt), key, opts, now).decision == Step(entries, key, opts, now).decision
    ensures Step(Swept(entries, sweptAt), key, opts, now).entries == Swept(Step(entries, key, opts, now).entries, sweptAt)
  {
    var a := Step(Swept(entries, sweptAt), key, opts, now).entries;
    var b := Swept(Step(entries, key, opts, now).entries, sweptAt);
    assert forall k :: k in a <==> k in b;
    assert forall k :: k in a ==> a[k] == b[k];
  }

  /** The limiter's store. */
  class RateLimitStore {
    var entries: map<string, Entry>

    /** Every stored window has counted at least one call. */
    ghost predicate Valid()
      reads this
    {
      forall k :: k in entries ==> entries[k].count >= 1
    }

    constructor ()
      ensures Valid() && entries == map[]
    {
      entries := map[];
    }

    /** Counts a call from `ip` under `opts` at `now` and decides it. */
    method CheckRateLimit(ip: string, opts: RateLimitOptions, now: int) returns (d: Decision)
      requires Valid()
      modifies this
      ensures Valid()
      ensures StepResult(d, entries) == Step(old(entries), RateLimitKey(ip, KeyPrefix(opts)), opts, now)
    {
      var key := RateLimitKey(ip, KeyPrefix(opts));
      if key !in entries || now > entries[key].resetAt {
        var resetAt := now + opts.window;
        entries := entries[key := Entry(1, resetAt)];
        return Decision(true, opts.max - 1, resetAt);
      }
      var entry := entries[key];
      if entry.count >= opts.max {
        return Decision(false, 0, entry.resetAt);
      }
      entry := entry.(count := entry.count + 1);
      entries := entries[key := entry];
      d := Decision(true, opts.max - entry.count, entry.resetAt);
    }

    /** The periodic clean-up: deletes every entry whose window ran out
        strictly before `now`. */
    method Sweep(now: int)
      requires Valid()
      modifies this
      ensures Valid()
      ensures entries == Swept(old(entries), now)
    {
      var pending := entries.Keys;
      while pending != {}
        invariant pending <= entries.Keys <= old(entries).Keys
        invariant forall k :: k in old(entries) ==> (k in entries <==> k in pending || now <= old(entries)[k].resetAt)
        invariant forall k :: k in entries ==> entries[k] == old(entries)[k]
        decreases pending
      {
        var k :| k in pending;
        if now > entries[k].resetAt {
          entries := entries - {k};
        }
        pending := pending - {k};
      }
      assert entries.Keys == Swept(old(entries), now).Keys;
    }
  }
}
