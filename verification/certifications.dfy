/** Certification status and reminder scheduling of the certifications
    routes: the status a certification has at a given moment, the reminder
    offsets a provider's rules select, the reminder events materialized for
    an expiration date, and the store the route handlers change. */
module Certifications {
  import opened Prelude
  import Sorting

  type UserId = string

  datatype CertStatus = Active | ExpiringSoon | Expired | Missing

  datatype ReminderStatus = Scheduled | Sent | Failed

  datatype Channel = Email

  datatype Certification = Certification(
    id: nat,
    providerId: UserId,
    certificationTypeId: Option<string>,
    customName: Option<string>,
    issuedDate: Option<int>,
    expirationDate: Option<int>,
    status: CertStatus,
    notes: Option<string>)

  datatype ReminderRule = ReminderRule(id: nat, providerId: UserId, daysBeforeExpiration: int, enabled: bool)

  datatype ReminderEvent = ReminderEvent(certId: nat, scheduledFor: int, channel: Channel, status: ReminderStatus)

  datatype ApiError = NotFound | ValidationError | InternalError

  /** Largest number of whole days before expiration still reported as
      `expiring_soon`. */
  const ExpiringSoonDays: int := 30

  /** Offsets used when a provider has no enabled rule, and the offsets of
      the rules seeded for a provider's first certification. */
  const DefaultOffsets: seq<int> := [30, 7, 1]

  // ---------------------------------------------------------------------
  // Status
  // ---------------------------------------------------------------------

  /** Whole days from `now` until `exp`, rounded down (the divisor is
      positive, so Dafny's `/` is `Math.floor` of the quotient). */
  function DaysUntil(exp: int, now: int): int {
    (exp - now) / DayMs
  }

  lemma DaysUntilBounds(exp: int, now: int)
    ensures DaysUntil(exp, now) < 0 <==> exp < now
    ensures DaysUntil(exp, now) <= ExpiringSoonDays <==> exp < now + (ExpiringSoonDays + 1) * DayMs
  {
    var q := DaysUntil(exp, now);
    var x := exp - now;
    assert x == q * DayMs + x % DayMs && 0 <= x % DayMs < DayMs;
    if q < 0 {
      assert q * DayMs <= -DayMs;
    }
    if q > ExpiringSoonDays {
      assert q * DayMs >= (ExpiringSoonDays + 1) * DayMs;
    }
  }

  /** The status of a certification that expires at `exp` (if ever), seen
      at `now`. */
  function ComputeStatus(exp: Option<int>, now: int): (s: CertStatus)
    ensures s != Missing
    ensures exp.None? ==> s == Active
    ensures s == Expired <==> exp.Some? && exp.value < now
    ensures s == ExpiringSoon <==> exp.Some? && now <= exp.value < now + (ExpiringSoonDays + 1) * DayMs
    ensures s == Active <==> exp.None? || now + (ExpiringSoonDays + 1) * DayMs <= exp.value
  {
    match exp
    case None => Active
    case Some(e) =>
      DaysUntilBounds(e, now);
      var days := DaysUntil(e, now);
      if days < 0 then Expired
      else if days <= ExpiringSoonDays then ExpiringSoon
      else Active
  }

  // ---------------------------------------------------------------------
  // Rules and offsets
  // ---------------------------------------------------------------------

  /** The `daysBeforeExpiration` of every rule of `provider`, enabled or
      not, in store order. */
  function DaysOf(rules: seq<ReminderRule>, provider: UserId): (r: seq<int>)
    ensures |r| <= |rules|
  {
    if rules == [] then []
    else
      (if rules[0].providerId == provider then [rules[0].daysBeforeExpiration] else [])
      + DaysOf(rules[1..], provider)
  }

  /** DaysOf lists the offsets of the provider's rules, one per rule and
      position by position: its length is the count the seeding tests. */
  lemma {:induction false} DaysOfRules(rules: seq<ReminderRule>, provider: UserId)
    ensures |DaysOf(rules, provider)| == |RulesOf(rules, provider)|
    ensures forall k :: 0 <= k < |DaysOf(rules, provider)| ==>
      DaysOf(rules, provider)[k] == RulesOf(rules, provider)[k].daysBeforeExpiration
  {
    if rules != [] {
      DaysOfRules(rules[1..], provider);
      var x := rules[0];
      OffsetsPrepend(DaysOf(rules[1..], provider), RulesOf(rules[1..], provider), x, x.providerId == provider);
    }
  }

  /** Putting one rule (or none) in front of both lists keeps the offsets
      lined up with the rules. */
  lemma OffsetsPrepend(days: seq<int>, rs: seq<ReminderRule>, x: ReminderRule, keep: bool)
    requires |days| == |rs|
    requires forall k :: 0 <= k < |days| ==> days[k] == rs[k].daysBeforeExpiration
    ensures var d := (if keep then [x.daysBeforeExpiration] else []) + days;
            var r := (if keep then [x] else []) + rs;
            |d| == |r| && forall k :: 0 <= k < |d| ==> d[k] == r[k].daysBeforeExpiration
  {
  }

  /** The enabled rules of `provider`: each such rule as often as it is
      stored, and no other rule (the query fixes no order). */
  function EnabledRulesOf(rules: seq<ReminderRule>, provider: UserId): (r: seq<ReminderRule>)
    ensures forall x :: multiset(r)[x] == if x.providerId == provider && x.enabled then multiset(rules)[x] else 0
  {
    if rules == [] then []
    else
      assert rules == [rules[0]] + rules[1..];
      (if rules[0].providerId == provider && rules[0].enabled then [rules[0]] else [])
      + EnabledRulesOf(rules[1..], provider)
  }

  /** The offsets of the enabled rules of `provider`: one per enabled rule,
      duplicates included. */
  function EnabledOffsets(rules: seq<ReminderRule>, provider: UserId): (r: seq<int>)
    ensures |r| == |EnabledRulesOf(rules, provider)|
    ensures forall k :: 0 <= k < |r| ==> r[k] == EnabledRulesOf(rules, provider)[k].daysBeforeExpiration
  {
    if rules == [] then []
    else
      var x := rules[0];
      var rest := EnabledOffsets(rules[1..], provider);
      assert EnabledRulesOf(rules, provider)
          == (if x.providerId == provider && x.enabled then [x] else []) + EnabledRulesOf(rules[1..], provider);
      (if x.providerId == provider && x.enabled then [x.daysBeforeExpiration] else []) + rest
  }

  /** An offset is listed exactly when an enabled rule of `provider` has it. */
  lemma {:induction false} EnabledOffsetsMembers(rules: seq<ReminderRule>, provider: UserId)
    ensures forall d :: d in EnabledOffsets(rules, provider) <==>
      exists i :: 0 <= i < |rules| && rules[i].providerId == provider && rules[i].enabled
                  && rules[i].daysBeforeExpiration == d
  {
    if rules != [] {
      EnabledOffsetsMembers(rules[1..], provider);
      assert forall i :: 0 < i < |rules| ==> rules[i] == rules[1..][i - 1];
    }
  }

  /** Two enabled rules of `provider` with the same offset put that offset
      into the list twice. */
  lemma {:induction false} EnabledOffsetsRepeat(rules: seq<ReminderRule>, provider: UserId, i: nat, j: nat)
    requires i < j < |rules|
    requires rules[i].providerId == provider && rules[i].enabled
    requires rules[j].providerId == provider && rules[j].enabled
    requires rules[i].daysBeforeExpiration == rules[j].daysBeforeExpiration
    ensures multiset(EnabledOffsets(rules, provider))[rules[i].daysBeforeExpiration] >= 2
  {
    var d := rules[i].daysBeforeExpiration;
    var tail := rules[1..];
    assert tail[j - 1] == rules[j];
    if i == 0 {
      EnabledOffsetsMembers(tail, provider);
      assert d in EnabledOffsets(tail, provider);
      EnabledOffsetsCons(rules, provider, d, 2);
    } else {
      assert tail[i - 1] == rules[i];
      EnabledOffsetsRepeat(tail, provider, i - 1, j - 1);
      EnabledOffsetsCons(rules, provider, d, 2);
    }
  }

  lemma EnabledOffsetsUnfold(rules: seq<ReminderRule>, provider: UserId)
    requires rules != []
    ensures EnabledOffsets(rules, provider)
         == (if rules[0].providerId == provider && rules[0].enabled then [rules[0].daysBeforeExpiration] else [])
            + EnabledOffsets(rules[1..], provider)
  {
  }

  /** The offsets of all rules hold `d` at least as often as those of the
      rules after the first, and once more when the first is an enabled rule
      of `provider` with offset `d`. */
  lemma EnabledOffsetsCons(rules: seq<ReminderRule>, provider: UserId, d: int, n: nat)
    requires rules != [] && n >= 1
    requires || (rules[0].providerId == provider && rules[0].enabled && rules[0].daysBeforeExpiration == d
                 && multiset(EnabledOffsets(rules[1..], provider))[d] >= n - 1)
             || multiset(EnabledOffsets(rules[1..], provider))[d] >= n
    ensures multiset(EnabledOffsets(rules, provider))[d] >= n
  {
    EnabledOffsetsUnfold(rules, provider);
  }

  /** The offsets a reminder schedule uses: those of the provider's enabled
      rules, or the default triple when there is none. */
  function ReminderOffsets(rules: seq<ReminderRule>, provider: UserId): (r: seq<int>)
    ensures (exists i :: 0 <= i < |rules| && rules[i].providerId == provider && rules[i].enabled) ==>
      r == EnabledOffsets(rules, provider)
    ensures (forall i :: 0 <= i < |rules| ==> !(rules[i].providerId == provider && rules[i].enabled)) ==>
      r == DefaultOffsets
  {
    var enabled := EnabledOffsets(rules, provider);
    EnabledOffsetsMembers(rules, provider);
    if |enabled| > 0 then
      assert enabled[0] in enabled;
      enabled
    else
      assert forall i :: 0 <= i < |rules| && rules[i].providerId == provider && rules[i].enabled ==>
        rules[i].daysBeforeExpiration in enabled;
      DefaultOffsets
  }

  // ---------------------------------------------------------------------
  // Event materialization
  // ---------------------------------------------------------------------

  /** The reminder `days` whole days before `exp`, for certification `certId`. */
  function Reminder(certId: nat, exp: int, days: int): ReminderEvent {
    ReminderEvent(certId, exp - days * DayMs, Email, Scheduled)
  }

  /** One candidate reminder per offset, in offset order. */
  function CandidateEvents(certId: nat, offsets: seq<int>, exp: int): (r: seq<ReminderEvent>)
    ensures |r| == |offsets|
    ensures forall i :: 0 <= i < |offsets| ==> r[i] == Reminder(certId, exp, offsets[i])
  {
    seq(|offsets|, i requires 0 <= i < |offsets| => Reminder(certId, exp, offsets[i]))
  }

  /** The events of `events` that fall strictly after `now`, in order. */
  function FutureEvents(events: seq<ReminderEvent>, now: int): (r: seq<ReminderEvent>)
    ensures |r| <= |events|
    ensures forall e :: e in r <==> e in events && e.scheduledFor > now
    ensures forall e :: multiset(r)[e] == if e.scheduledFor > now then multiset(events)[e] else 0
  {
    if events == [] then []
    else
      assert events == [events[0]] + events[1..];
      (if events[0].scheduledFor > now then [events[0]] else []) + FutureEvents(events[1..], now)
  }

  /** The events a schedule for `certId` expiring at `exp` writes. */
  function PlannedEvents(certId: nat, offsets: seq<int>, exp: int, now: int): (r: seq<ReminderEvent>)
    ensures |r| <= |offsets|
    ensures forall e :: e in r ==> e.certId == certId && e.scheduledFor > now && e.channel == Email && e.status == Scheduled
  {
    FutureEvents(CandidateEvents(certId, offsets, exp), now)
  }

  /** An event is planned exactly when it is the reminder for one of the
      offsets and falls strictly after `now`: every planned event is a
      `scheduled` email for this certification, `days` days before `exp`. */
  lemma PlannedEventsExact(certId: nat, offsets: seq<int>, exp: int, now: int, e: ReminderEvent)
    ensures e in PlannedEvents(certId, offsets, exp, now) <==>
      exists d :: d in offsets && e == Reminder(certId, exp, d) && exp - d * DayMs > now
  {
    var cands := CandidateEvents(certId, offsets, exp);
    if e in PlannedEvents(certId, offsets, exp, now) {
      assert e in cands;
      var i :| 0 <= i < |cands| && cands[i] == e;
      assert offsets[i] in offsets;
    }
    if exists d :: d in offsets && e == Reminder(certId, exp, d) && exp - d * DayMs > now {
      var d :| d in offsets && e == Reminder(certId, exp, d) && exp - d * DayMs > now;
      var i :| 0 <= i < |offsets| && offsets[i] == d;
      assert cands[i] == e;
    }
  }

  lemma {:induction false} FutureEventsAll(events: seq<ReminderEvent>, now: int)
    requires forall k :: 0 <= k < |events| ==> events[k].scheduledFor > now
    ensures FutureEvents(events, now) == events
  {
    if events != [] {
      FutureEventsAll(events[1..], now);
    }
  }

  /** When every candidate lies in the future, nothing is dropped: the
      `k`-th planned event is the reminder for the `k`-th offset. The code
      does not deduplicate, so equal offsets give equal events. */
  lemma PlannedEventsAllFuture(certId: nat, offsets: seq<int>, exp: int, now: int)
    requires forall k :: 0 <= k < |offsets| ==> exp - offsets[k] * DayMs > now
    ensures |PlannedEvents(certId, offsets, exp, now)| == |offsets|
    ensures forall k :: 0 <= k < |offsets| ==>
      PlannedEvents(certId, offsets, exp, now)[k] == Reminder(certId, exp, offsets[k])
  {
    FutureEventsAll(CandidateEvents(certId, offsets, exp), now);
  }

  /** The reminders differ exactly when their offsets do. */
  lemma ReminderInjective(certId: nat, exp: int, d1: int, d2: int)
    ensures Reminder(certId, exp, d1) == Reminder(certId, exp, d2) <==> d1 == d2
  {
    if d1 != d2 {
      assert d1 * DayMs != d2 * DayMs;
    }
  }

  /** A reminder is a candidate as many times as its offset is listed. */
  lemma {:induction false} CandidateCount(certId: nat, offsets: seq<int>, exp: int, d: int)
    ensures multiset(CandidateEvents(certId, offsets, exp))[Reminder(certId, exp, d)] == multiset(offsets)[d]
  {
    if offsets != [] {
      CandidateHeadCount(certId, offsets, exp, d);
      assert offsets == [offsets[0]] + offsets[1..];
      assert multiset(offsets)[d] == multiset([offsets[0]])[d] + multiset(offsets[1..])[d];
      CandidateCount(certId, offsets[1..], exp, d);
    }
  }

  lemma CandidateHeadCount(certId: nat, offsets: seq<int>, exp: int, d: int)
    requires offsets != []
    ensures multiset(CandidateEvents(certId, offsets, exp))[Reminder(certId, exp, d)]
         == (if offsets[0] == d then 1 else 0) + multiset(CandidateEvents(certId, offsets[1..], exp))[Reminder(certId, exp, d)]
  {
    var e := Reminder(certId, exp, d);
    CandidateEventsCons(certId, offsets, exp);
    ReminderInjective(certId, exp, offsets[0], d);
    assert multiset([Reminder(certId, exp, offsets[0])])[e] == if offsets[0] == d then 1 else 0;
  }

  lemma CandidateEventsCons(certId: nat, offsets: seq<int>, exp: int)
    requires offsets != []
    ensures CandidateEvents(certId, offsets, exp)
         == [Reminder(certId, exp, offsets[0])] + CandidateEvents(certId, offsets[1..], exp)
  {
    var tail := CandidateEvents(certId, offsets[1..], exp);
    assert forall k :: 0 <= k < |tail| ==> tail[k] == Reminder(certId, exp, offsets[k + 1]);
  }

  /** The code does not deduplicate: the reminder `d` days before `exp` is
      written once per listed offset `d` when it lies after `now`, and not
      at all otherwise. */
  lemma PlannedCount(certId: nat, offsets: seq<int>, exp: int, now: int, d: int)
    ensures multiset(PlannedEvents(certId, offsets, exp, now))[Reminder(certId, exp, d)]
         == if exp - d * DayMs > now then multiset(offsets)[d] else 0
  {
    CandidateCount(certId, offsets, exp, d);
  }

  /** Two enabled rules of a provider with the same offset make one schedule
      write the same reminder twice, whatever the other rules are. */
  lemma DuplicateRulesDuplicateEvents(rules: seq<ReminderRule>, provider: UserId, i: nat, j: nat,
                                      certId: nat, exp: int, now: int)
    requires i < j < |rules|
    requires rules[i].providerId == provider && rules[i].enabled
    requires rules[j].providerId == provider && rules[j].enabled
    requires rules[i].daysBeforeExpiration == rules[j].daysBeforeExpiration
    requires exp - rules[i].daysBeforeExpiration * DayMs > now
    ensures var e := Reminder(certId, exp, rules[i].daysBeforeExpiration);
      multiset(PlannedEvents(certId, ReminderOffsets(rules, provider), exp, now))[e] >= 2
  {
    EnabledOffsetsRepeat(rules, provider, i, j);
    PlannedCount(certId, ReminderOffsets(rules, provider), exp, now, rules[i].daysBeforeExpiration);
  }

  ghost predicate NoDuplicates<T>(s: seq<T>) {
    forall i, j :: 0 <= i < j < |s| ==> s[i] != s[j]
  }

  lemma {:induction false} EnabledOffsetsWithin(rules: seq<ReminderRule>, provider: UserId)
    ensures forall d :: d in EnabledOffsets(rules, provider) ==> d in DaysOf(rules, provider)
  {
    if rules != [] {
      EnabledOffsetsWithin(rules[1..], provider);
    }
  }

  lemma {:induction false} EnabledOffsetsDistinct(rules: seq<ReminderRule>, provider: UserId)
    requires NoDuplicates(DaysOf(rules, provider))
    ensures NoDuplicates(EnabledOffsets(rules, provider))
  {
    if rules != [] {
      var x := rules[0];
      var days := DaysOf(rules, provider);
      var rest := DaysOf(rules[1..], provider);
      if x.providerId == provider {
        assert days == [x.daysBeforeExpiration] + rest;
        assert forall k :: 0 <= k < |rest| ==> rest[k] == days[k + 1];
        EnabledOffsetsDistinct(rules[1..], provider);
        EnabledOffsetsWithin(rules[1..], provider);
        forall k | 0 <= k < |rest| ensures rest[k] != x.daysBeforeExpiration {
          assert days[0] != days[k + 1];
        }
        if x.enabled {
          NoDuplicatesCons(x.daysBeforeExpiration, EnabledOffsets(rules[1..], provider));
        }
      } else {
        assert days == rest;
        EnabledOffsetsDistinct(rules[1..], provider);
      }
    }
  }

  lemma NoDuplicatesCons<T>(a: T, s: seq<T>)
    requires a !in s && NoDuplicates(s)
    ensures NoDuplicates([a] + s)
  {
    var t := [a] + s;
    forall i, j | 0 <= i < j < |t| ensures t[i] != t[j] {
      assert t[j] == s[j - 1];
      if i > 0 {
        assert t[i] == s[i - 1];
      }
    }
  }

  lemma {:induction false} FutureEventsKeepDistinct(events: seq<ReminderEvent>, now: int)
    requires NoDuplicates(events)
    ensures NoDuplicates(FutureEvents(events, now))
  {
    if events != [] {
      assert forall k :: 0 <= k < |events[1..]| ==> events[1..][k] == events[k + 1];
      FutureEventsKeepDistinct(events[1..], now);
      assert events[0] !in events[1..];
    }
  }

  /** Distinct offsets give distinct candidate reminders. */
  lemma CandidateEventsDistinct(certId: nat, offsets: seq<int>, exp: int)
    requires NoDuplicates(offsets)
    ensures NoDuplicates(CandidateEvents(certId, offsets, exp))
  {
    var cands := CandidateEvents(certId, offsets, exp);
    forall i, j | 0 <= i < j < |cands| ensures cands[i] != cands[j] {
      assert cands[i].scheduledFor == exp - offsets[i] * DayMs;
      assert cands[j].scheduledFor == exp - offsets[j] * DayMs;
      assert offsets[i] != offsets[j];
    }
  }

  lemma DefaultOffsetsDistinct()
    ensures NoDuplicates(DefaultOffsets) && NoDuplicates<int>([])
  {
  }

  lemma SeededOffsetsDistinct(rules: seq<ReminderRule>, provider: UserId)
    requires DaysOf(rules, provider) == [] || DaysOf(rules, provider) == DefaultOffsets
    ensures NoDuplicates(ReminderOffsets(rules, provider))
  {
    DefaultOffsetsDistinct();
    var days := DaysOf(rules, provider);
    assert NoDuplicates(days) by {
      if days != [] {
        assert days == DefaultOffsets;
      }
    }
    if exists i :: 0 <= i < |rules| && rules[i].providerId == provider && rules[i].enabled {
      EnabledOffsetsDistinct(rules, provider);
      assert ReminderOffsets(rules, provider) == EnabledOffsets(rules, provider);
    } else {
      assert ReminderOffsets(rules, provider) == DefaultOffsets;
    }
  }

  /** A provider whose rules are none or exactly the seeded 30/7/1 triple
      (the only rules the modelled routes ever create) gets at most one
      reminder per offset from one schedule. This rests on the store, not
      on the scheduler: the scheduler itself does not deduplicate (see
      DuplicateRulesDuplicateEvents). */
  lemma SeededRulesGiveDistinctReminders(rules: seq<ReminderRule>, provider: UserId, certId: nat, exp: int, now: int)
    requires DaysOf(rules, provider) == [] || DaysOf(rules, provider) == DefaultOffsets
    ensures NoDuplicates(PlannedEvents(certId, ReminderOffsets(rules, provider), exp, now))
  {
    SeededOffsetsDistinct(rules, provider);
    CandidateEventsDistinct(certId, ReminderOffsets(rules, provider), exp);
    FutureEventsKeepDistinct(CandidateEvents(certId, ReminderOffsets(rules, provider), exp), now);
  }

  /** Switching rules off narrows the schedule while one rule stays on:
      with the seeded triple, turning off 30 and 7 leaves only the 1-day
      reminder. */
  lemma LastRuleOnNarrows(firstId: nat, provider: UserId)
    ensures var seeded := DefaultRules(firstId, provider);
      ReminderOffsets(seeded[0 := seeded[0].(enabled := false)][1 := seeded[1].(enabled := false)], provider) == [1]
  {
    var seeded := DefaultRules(firstId, provider);
    var a, b := seeded[0].(enabled := false), seeded[1].(enabled := false);
    assert seeded[0 := a][1 := b] == [a, b, seeded[2]];
    OneRuleLeft(a, b, seeded[2], provider);
  }

  /** Turning off all three seeded rules brings the 30/7/1 fallback back
      (compare LastRuleOnNarrows), so a provider cannot switch reminders
      off through the toggles. */
  lemma AllRulesOffFallsBack(firstId: nat, provider: UserId)
    ensures var seeded := DefaultRules(firstId, provider);
      var allOff := seeded[0 := seeded[0].(enabled := false)][1 := seeded[1].(enabled := false)]
                          [2 := seeded[2].(enabled := false)];
      ReminderOffsets(allOff, provider) == DefaultOffsets
  {
    var seeded := DefaultRules(firstId, provider);
    var a, b, c := seeded[0].(enabled := false), seeded[1].(enabled := false), seeded[2].(enabled := false);
    assert seeded[0 := a][1 := b][2 := c] == [a, b, c];
    NoRuleLeft(a, b, c, provider);
  }

  lemma OneRuleLeft(a: ReminderRule, b: ReminderRule, c: ReminderRule, provider: UserId)
    requires !a.enabled && !b.enabled && c.enabled && c.providerId == provider
    ensures ReminderOffsets([a, b, c], provider) == [c.daysBeforeExpiration]
  {
    EnabledOffsetsUnfold([c], provider);
    EnabledOffsetsUnfold([b, c], provider);
    EnabledOffsetsUnfold([a, b, c], provider);
    assert [a, b, c][1..] == [b, c] && [b, c][1..] == [c] && [c][1..] == [];
    assert [a, b, c][2] == c;
  }

  lemma NoRuleLeft(a: ReminderRule, b: ReminderRule, c: ReminderRule, provider: UserId)
    requires !a.enabled && !b.enabled && !c.enabled
    ensures ReminderOffsets([a, b, c], provider) == DefaultOffsets
  {
  }

  // ---------------------------------------------------------------------
  // Request bodies
  // ---------------------------------------------------------------------

  datatype CreateInput = CreateInput(
    certificationTypeId: Option<string>,
    customName: Option<string>,
    issuedDate: Option<DateTimeText>,
    expirationDate: Option<DateTimeText>,
    notes: Option<string>)

  /** The body of a rule toggle: none at all, or an object whose `enabled`
      may be absent. */
  datatype ToggleBody = NoBody | ToggleBody(enabled: Option<bool>)

  datatype UpdateInput = UpdateInput(
    certificationTypeId: Field<string>,
    customName: Field<string>,
    issuedDate: Field<DateTimeText>,
    expirationDate: Field<DateTimeText>,
    notes: Field<string>)

  predicate IsHexDigit(c: char) {
    '0' <= c <= '9' || 'a' <= c <= 'f' || 'A' <= c <= 'F'
  }

  /** The 8-4-4-4-12 hexadecimal shape of a UUID. */
  predicate IsUuid(s: string) {
    |s| == 36
    && (forall i :: 0 <= i < 36 && i != 8 && i != 13 && i != 18 && i != 23 ==> IsHexDigit(s[i]))
    && s[8] == '-' && s[13] == '-' && s[18] == '-' && s[23] == '-'
  }

  /** 1..200 characters, counted as JavaScript counts a string's length. */
  predicate ValidName(n: string) { 1 <= Utf16Length(n) <= 200 }

  /** At most 2000 characters, counted as JavaScript counts them. */
  predicate ValidNotes(n: string) { Utf16Length(n) <= 2000 }

  /** A custom name of 101 emoji has 101 characters but 202 UTF-16 code
      units, so it is rejected. */
  lemma AstralNameTooLong()
    ensures var name := seq(101, _ => '\U{1F600}');
      |name| == 101 && !ValidName(name)
  {
    Utf16LengthAstral(seq(101, _ => '\U{1F600}'));
  }

  /** The create schema: each present field well formed, and a type or a
      custom name given. */
  predicate CreateInputValid(input: CreateInput)
    // an accepted body names a type or a custom name, and its strings fit
    ensures CreateInputValid(input) ==>
      && (input.certificationTypeId.Some? || input.customName.Some?)
      && (input.customName.Some? ==> 1 <= |input.customName.value| <= 200)
      && (input.notes.Some? ==> |input.notes.value| <= 2000)
    // a custom name of up to 100 characters alone is enough
    ensures (&& input.certificationTypeId.None? && input.customName.Some? && 1 <= |input.customName.value| <= 100
             && input.issuedDate.None? && input.expirationDate.None? && input.notes.None?) ==> CreateInputValid(input)
  {
    && (input.certificationTypeId.Some? ==> IsUuid(input.certificationTypeId.value))
    && (input.customName.Some? ==> ValidName(input.customName.value))
    && (input.issuedDate.Some? ==> input.issuedDate.value.DateTime?)
    && (input.expirationDate.Some? ==> input.expirationDate.value.DateTime?)
    && (input.notes.Some? ==> ValidNotes(input.notes.value))
    && (input.certificationTypeId.Some? || input.customName.Some?)
  }

  /** The update schema: each given field well formed; nothing is required. */
  predicate UpdateInputValid(input: UpdateInput)
    ensures UpdateInputValid(input) ==>
      && (input.customName.Given? ==> 1 <= |input.customName.value| <= 200)
      && (input.notes.Given? ==> |input.notes.value| <= 2000)
    // nothing is required: a body that sets no field, or only clears fields, is accepted
    ensures (&& !input.certificationTypeId.Given? && !input.customName.Given? && !input.issuedDate.Given?
             && !input.expirationDate.Given? && !input.notes.Given?) ==> UpdateInputValid(input)
  {
    && (input.certificationTypeId.Given? ==> IsUuid(input.certificationTypeId.value))
    && (input.customName.Given? ==> ValidName(input.customName.value))
    && (input.issuedDate.Given? ==> input.issuedDate.value.DateTime?)
    && (input.expirationDate.Given? ==> input.expirationDate.value.DateTime?)
    && (input.notes.Given? ==> ValidNotes(input.notes.value))
  }

  function DateOf(d: Option<DateTimeText>): Option<int> {
    if d.Some? && d.value.DateTime? then Some(d.value.ms) else None
  }

  /** The certification a valid create request stores. Empty notes are
      falsy and stored as null. */
  function NewCertification(id: nat, provider: UserId, input: CreateInput, now: int): (c: Certification)
    ensures c.id == id && c.providerId == provider
    ensures c.certificationTypeId == input.certificationTypeId && c.customName == input.customName
    ensures c.issuedDate == DateOf(input.issuedDate)
    ensures c.expirationDate == DateOf(input.expirationDate)
    ensures c.status == ComputeStatus(c.expirationDate, now)
    ensures c.notes.Some? <==> input.notes.Some? && input.notes.value != ""
    ensures c.notes.Some? ==> c.notes == input.notes
  {
    var exp := DateOf(input.expirationDate);
    var notes := if input.notes == Some("") then None else input.notes;
    Certification(id, provider, input.certificationTypeId, input.customName,
                  DateOf(input.issuedDate), exp, ComputeStatus(exp, now), notes)
  }

  /** The date an update leaves in force: the stored one when the field is
      omitted, none when it is null, the given one otherwise. */
  function EffectiveDate(stored: Option<int>, given: Field<DateTimeText>): (r: Option<int>)
    ensures given.Omitted? ==> r == stored
    ensures given.Null? ==> r.None?
    ensures given.Given? && given.value.DateTime? ==> r == Some(given.value.ms)
  {
    match given
    case Omitted => stored
    case Null => None
    case Given(d) => if d.DateTime? then Some(d.ms) else None
  }

  /** A field after an update: kept when omitted, cleared by null, replaced
      by a given value. */
  function Overwrite<T>(old_: Option<T>, f: Field<T>): (r: Option<T>)
    ensures f.Omitted? ==> r == old_
    ensures f.Null? ==> r.None?
    ensures f.Given? ==> r == Some(f.value)
  {
    match f
    case Omitted => old_
    case Null => None
    case Given(v) => Some(v)
  }

  /** The certification after a valid update: omitted fields keep their
      value, null clears, given values replace; the status is recomputed
      from the effective expiration date. */
  function ApplyUpdate(c: Certification, input: UpdateInput, now: int): (r: Certification)
    requires UpdateInputValid(input)
    ensures r.id == c.id && r.providerId == c.providerId
    ensures r.status == ComputeStatus(r.expirationDate, now)
    ensures input.certificationTypeId.Omitted? ==> r.certificationTypeId == c.certificationTypeId
    ensures input.certificationTypeId.Null? ==> r.certificationTypeId.None?
    ensures input.certificationTypeId.Given? ==> r.certificationTypeId == Some(input.certificationTypeId.value)
    ensures input.customName.Omitted? ==> r.customName == c.customName
    ensures input.customName.Null? ==> r.customName.None?
    ensures input.customName.Given? ==> r.customName == Some(input.customName.value)
    ensures input.issuedDate.Omitted? ==> r.issuedDate == c.issuedDate
    ensures input.issuedDate.Null? ==> r.issuedDate.None?
    ensures input.issuedDate.Given? ==> r.issuedDate == Some(input.issuedDate.value.ms)
    ensures input.expirationDate.Omitted? ==> r.expirationDate == c.expirationDate
    ensures input.expirationDate.Null? ==> r.expirationDate.None?
    ensures input.expirationDate.Given? ==> r.expirationDate == Some(input.expirationDate.value.ms)
    ensures input.notes.Omitted? ==> r.notes == c.notes
    ensures input.notes.Null? ==> r.notes.None?
    ensures input.notes.Given? ==> r.notes == Some(input.notes.value)
  {
    var exp := EffectiveDate(c.expirationDate, input.expirationDate);
    Certification(c.id, c.providerId,
                  Overwrite(c.certificationTypeId, input.certificationTypeId),
                  Overwrite(c.customName, input.customName),
                  EffectiveDate(c.issuedDate, input.issuedDate),
                  exp, ComputeStatus(exp, now),
                  Overwrite(c.notes, input.notes))
  }

  /** The update schema has no "type or name" refinement, so a valid update
      can leave a certification with neither. */
  lemma UpdateCanClearBothNames(c: Certification, now: int)
    ensures var u := UpdateInput(Null, Null, Omitted, Omitted, Omitted);
      UpdateInputValid(u)
      && ApplyUpdate(c, u, now).certificationTypeId.None?
      && ApplyUpdate(c, u, now).customName.None?
  {
  }

  /** True when an update must replace the certification's `scheduled`
      events: the date was supplied, is not null and lies in the future. */
  predicate Reschedules(input: UpdateInput, exp: Option<int>, now: int)
    ensures input.expirationDate.Omitted? ==> !Reschedules(input, exp, now)
    ensures exp.None? || exp.value <= now ==> !Reschedules(input, exp, now)
  {
    !input.expirationDate.Omitted? && exp.Some? && exp.value > now
  }

  /** Applied to the updated certification, an update rebuilds the
      reminders exactly when it gives a new expiration date after `now`;
      clearing the date or leaving it out keeps them. */
  lemma RescheduleIffNewFutureDate(c: Certification, input: UpdateInput, now: int)
    requires UpdateInputValid(input)
    ensures Reschedules(input, ApplyUpdate(c, input, now).expirationDate, now) <==>
      input.expirationDate.Given? && input.expirationDate.value.ms > now
  {
    var r := ApplyUpdate(c, input, now);
    if input.expirationDate.Given? {
      assert r.expirationDate == Some(input.expirationDate.value.ms);
    }
  }

  /** The events left after deleting the `scheduled` events of `certId`. */
  function DropScheduled(events: seq<ReminderEvent>, certId: nat): (r: seq<ReminderEvent>)
    ensures forall e :: multiset(r)[e] == (if e.certId == certId && e.status == Scheduled then 0 else multiset(events)[e])
  {
    if events == [] then []
    else
      assert events == [events[0]] + events[1..];
      (if events[0].certId == certId && events[0].status == Scheduled then [] else [events[0]])
      + DropScheduled(events[1..], certId)
  }

  // ---------------------------------------------------------------------
  // Listing
  // ---------------------------------------------------------------------

  datatype Summary = Summary(total: nat, active: nat, expiringSoon: nat, expired: nat, missing: nat)

  datatype CertificationList = CertificationList(certifications: seq<Certification>, summary: Summary)

  /** How many certifications of `cs` have status `s`. */
  function CountStatus(cs: seq<Certification>, s: CertStatus): (n: nat)
    ensures n <= |cs|
    ensures n == 0 <==> forall c :: c in cs ==> c.status != s
    ensures n == |cs| <==> forall c :: c in cs ==> c.status == s
  {
    if cs == [] then 0
    else (if cs[0].status == s then 1 else 0) + CountStatus(cs[1..], s)
  }

  /** Every certification has exactly one of the four statuses, so the four
      counts add up to the length of the list. */
  lemma {:induction false} CountsPartition(cs: seq<Certification>)
    ensures CountStatus(cs, Active) + CountStatus(cs, ExpiringSoon)
            + CountStatus(cs, Expired) + CountStatus(cs, Missing) == |cs|
  {
    if cs != [] {
      CountsPartition(cs[1..]);
    }
  }

  lemma {:induction false} CountMissingRecomputed(cs: seq<Certification>, now: int)
    requires forall k :: 0 <= k < |cs| ==> cs[k].status == ComputeStatus(cs[k].expirationDate, now)
    ensures CountStatus(cs, Missing) == 0
  {
    if cs != [] {
      CountMissingRecomputed(cs[1..], now);
    }
  }

  /** The status filter of the list query: absent or empty means no filter,
      an unknown value is rejected by the database. */
  function StatusFilter(query: Option<string>): (r: Result<Option<CertStatus>, ApiError>)
    ensures r == Ok(None) <==> query.None? || query.value == ""
    ensures r == Ok(Some(Active)) <==> query == Some("active")
    ensures r == Ok(Some(ExpiringSoon)) <==> query == Some("expiring_soon")
    ensures r == Ok(Some(Expired)) <==> query == Some("expired")
    ensures r == Ok(Some(Missing)) <==> query == Some("missing")
    ensures r.Err? ==> r.error == InternalError
  {
    if query.None? || query.value == "" then Ok(None)
    else if query.value == "active" then Ok(Some(Active))
    else if query.value == "expiring_soon" then Ok(Some(ExpiringSoon))
    else if query.value == "expired" then Ok(Some(Expired))
    else if query.value == "missing" then Ok(Some(Missing))
    else Err(InternalError)
  }

  /** `c` belongs to `provider` and its STORED status passes the filter. */
  predicate Matches(c: Certification, provider: UserId, filter: Option<CertStatus>) {
    c.providerId == provider && (filter.None? || c.status == filter.value)
  }

  /** Certifications of `provider` whose STORED status passes the filter. */
  function Selected(certs: seq<Certification>, provider: UserId, filter: Option<CertStatus>): (r: seq<Certification>)
    ensures forall c :: multiset(r)[c] == if Matches(c, provider, filter) then multiset(certs)[c] else 0
  {
    if certs == [] then []
    else
      assert certs == [certs[0]] + certs[1..];
      (if Matches(certs[0], provider, filter) then [certs[0]] else [])
      + Selected(certs[1..], provider, filter)
  }

  function Recomputed(cs: seq<Certification>, now: int): (r: seq<Certification>)
    ensures |r| == |cs|
    ensures forall k :: 0 <= k < |cs| ==> r[k] == cs[k].(status := ComputeStatus(cs[k].expirationDate, now))
  {
    seq(|cs|, k requires 0 <= k < |cs| => cs[k].(status := ComputeStatus(cs[k].expirationDate, now)))
  }

  /** The list response for `provider`: the selected certifications with
      their status recomputed at `now`, and counts of each status. */
  function ListResponse(certs: seq<Certification>, provider: UserId, filter: Option<CertStatus>, now: int)
    : (r: CertificationList)
    // one entry per selected certification, with its status recomputed
    ensures |r.certifications| == |Selected(certs, provider, filter)|
    ensures forall k :: 0 <= k < |r.certifications| ==>
      r.certifications[k] == Selected(certs, provider, filter)[k].(status := ComputeStatus(r.certifications[k].expirationDate, now))
    ensures r.summary.total == |r.certifications|
    ensures r.summary.active == CountStatus(r.certifications, Active)
    ensures r.summary.expiringSoon == CountStatus(r.certifications, ExpiringSoon)
    ensures r.summary.expired == CountStatus(r.certifications, Expired)
    ensures r.summary.missing == CountStatus(r.certifications, Missing) == 0
    ensures r.summary.total == r.summary.active + r.summary.expiringSoon + r.summary.expired + r.summary.missing
  {
    var updated := Recomputed(Selected(certs, provider, filter), now);
    CountsPartition(updated);
    CountMissingRecomputed(updated, now);
    CertificationList(updated, Summary(|updated|, CountStatus(updated, Active), CountStatus(updated, ExpiringSoon),
                                       CountStatus(updated, Expired), CountStatus(updated, Missing)))
  }

  // ---------------------------------------------------------------------
  // Lookups
  // ---------------------------------------------------------------------

  /** Index of the first certification with this id owned by `provider`. */
  function FindCert(certs: seq<Certification>, id: nat, provider: UserId): (r: Option<nat>)
    ensures r.Some? ==> r.value < |certs| && certs[r.value].id == id && certs[r.value].providerId == provider
    ensures r.None? ==> forall k :: 0 <= k < |certs| ==> !(certs[k].id == id && certs[k].providerId == provider)
  {
    if certs == [] then None
    else if certs[0].id == id && certs[0].providerId == provider then Some(0)
    else
      var rest := FindCert(certs[1..], id, provider);
      if rest.Some? then Some(rest.value + 1) else None
  }

  /** Index of the first rule with this id owned by `provider`. */
  function FindRule(rules: seq<ReminderRule>, id: nat, provider: UserId): (r: Option<nat>)
    ensures r.Some? ==> r.value < |rules| && rules[r.value].id == id && rules[r.value].providerId == provider
    ensures r.None? ==> forall k :: 0 <= k < |rules| ==> !(rules[k].id == id && rules[k].providerId == provider)
  {
    if rules == [] then None
    else if rules[0].id == id && rules[0].providerId == provider then Some(0)
    else
      var rest := FindRule(rules[1..], id, provider);
      if rest.Some? then Some(rest.value + 1) else None
  }

  /** The events of one certification, in store order. */
  function EventsOf(events: seq<ReminderEvent>, certId: nat): (r: seq<ReminderEvent>)
    ensures forall e :: e in r <==> e in events && e.certId == certId
    ensures forall e :: multiset(r)[e] == if e.certId == certId then multiset(events)[e] else 0
  {
    if events == [] then []
    else
      assert events == [events[0]] + events[1..];
      (if events[0].certId == certId then [events[0]] else []) + EventsOf(events[1..], certId)
  }

  /** The rules of one provider, in store order. */
  function RulesOf(rules: seq<ReminderRule>, provider: UserId): (r: seq<ReminderRule>)
    ensures forall x :: x in r <==> x in rules && x.providerId == provider
    ensures forall x :: multiset(r)[x] == if x.providerId == provider then multiset(rules)[x] else 0
  {
    if rules == [] then []
    else
      assert rules == [rules[0]] + rules[1..];
      (if rules[0].providerId == provider then [rules[0]] else []) + RulesOf(rules[1..], provider)
  }

  // ---------------------------------------------------------------------
  // Store invariants and the facts that keep them
  // ---------------------------------------------------------------------

  function CertIds(certs: seq<Certification>): set<nat> {
    set k | 0 <= k < |certs| :: certs[k].id
  }

  ghost predicate CertIdsFresh(certs: seq<Certification>, nextId: nat) {
    && (forall k :: 0 <= k < |certs| ==> certs[k].id < nextId)
    && (forall i, j :: 0 <= i < j < |certs| ==> certs[i].id != certs[j].id)
  }

  ghost predicate RuleIdsFresh(rules: seq<ReminderRule>, nextId: nat) {
    && (forall k :: 0 <= k < |rules| ==> rules[k].id < nextId)
    && (forall i, j :: 0 <= i < j < |rules| ==> rules[i].id != rules[j].id)
  }

  /** Every reminder event belongs to a stored certification. */
  ghost predicate EventsReferTo(events: seq<ReminderEvent>, certs: seq<Certification>) {
    forall k :: 0 <= k < |events| ==> events[k].certId in CertIds(certs)
  }

  /** Every provider has no rules or exactly the seeded 30/7/1 triple. */
  ghost predicate RulesSeeded(rules: seq<ReminderRule>) {
    forall p :: DaysOf(rules, p) == [] || DaysOf(rules, p) == DefaultOffsets
  }

  lemma {:induction false} DaysOfAppend(a: seq<ReminderRule>, b: seq<ReminderRule>, provider: UserId)
    ensures DaysOf(a + b, provider) == DaysOf(a, provider) + DaysOf(b, provider)
  {
    if a == [] {
      assert a + b == b;
    } else {
      var h := if a[0].providerId == provider then [a[0].daysBeforeExpiration] else [];
      assert (a + b)[0] == a[0];
      assert (a + b)[1..] == a[1..] + b;
      assert DaysOf(a + b, provider) == h + DaysOf(a[1..] + b, provider);
      assert DaysOf(a, provider) == h + DaysOf(a[1..], provider);
      DaysOfAppend(a[1..], b, provider);
      assert h + (DaysOf(a[1..], provider) + DaysOf(b, provider))
          == (h + DaysOf(a[1..], provider)) + DaysOf(b, provider);
    }
  }

  lemma {:induction false} DaysOfIgnoresEnabled(rules: seq<ReminderRule>, k: nat, enabled: bool, provider: UserId)
    requires k < |rules|
    ensures DaysOf(rules[k := rules[k].(enabled := enabled)], provider) == DaysOf(rules, provider)
  {
    if k > 0 {
      assert rules[k := rules[k].(enabled := enabled)][1..] == rules[1..][k - 1 := rules[k].(enabled := enabled)];
      DaysOfIgnoresEnabled(rules[1..], k - 1, enabled, provider);
    }
  }

  /** The three rules seeded for a provider's first certification. */
  function DefaultRules(firstId: nat, provider: UserId): seq<ReminderRule> {
    [ReminderRule(firstId, provider, 30, true),
     ReminderRule(firstId + 1, provider, 7, true),
     ReminderRule(firstId + 2, provider, 1, true)]
  }

  lemma DefaultRulesDays(firstId: nat, provider: UserId, q: UserId)
    ensures DaysOf(DefaultRules(firstId, provider), q) == if q == provider then DefaultOffsets else []
  {
    var r := DefaultRules(firstId, provider);
    assert r[1..][1..][1..] == [];
    assert DaysOf(r[1..][1..], q) == if q == provider then [1] else [];
    assert DaysOf(r[1..], q) == if q == provider then [7, 1] else [];
  }

  /** Seeding the default rules for a provider that has none keeps every
      provider's rules none or the default triple. */
  lemma SeedingKeepsRulesSeeded(rules: seq<ReminderRule>, firstId: nat, provider: UserId)
    requires RulesSeeded(rules) && DaysOf(rules, provider) == []
    ensures RulesSeeded(rules + DefaultRules(firstId, provider))
  {
    forall p ensures DaysOf(rules + DefaultRules(firstId, provider), p) == [] ||
                     DaysOf(rules + DefaultRules(firstId, provider), p) == DefaultOffsets {
      DaysOfAppend(rules, DefaultRules(firstId, provider), p);
      DefaultRulesDays(firstId, provider, p);
    }
  }

  lemma SeedingKeepsRuleIdsFresh(rules: seq<ReminderRule>, certs: seq<Certification>, nextId: nat, provider: UserId)
    requires RuleIdsFresh(rules, nextId) && CertIdsFresh(certs, nextId)
    ensures RuleIdsFresh(rules + DefaultRules(nextId, provider), nextId + 3)
    ensures CertIdsFresh(certs, nextId + 3)
  {
  }

  /** Storing a certification under the next id keeps the ids fresh. */
  lemma AppendCertKeepsInvariants(certs: seq<Certification>, rules: seq<ReminderRule>, events: seq<ReminderEvent>,
                                  c: Certification, nextId: nat)
    requires CertIdsFresh(certs, nextId) && RuleIdsFresh(rules, nextId) && EventsReferTo(events, certs)
    requires c.id == nextId
    ensures CertIdsFresh(certs + [c], nextId + 1) && RuleIdsFresh(rules, nextId + 1)
    ensures EventsReferTo(events, certs + [c])
    ensures c.id !in CertIds(certs) && c.id in CertIds(certs + [c])
  {
    var all := certs + [c];
    assert all[|certs|] == c;
    forall x | x in CertIds(certs) ensures x in CertIds(all) {
      var i :| 0 <= i < |certs| && certs[i].id == x;
      assert all[i].id == x;
    }
  }

  lemma ReplaceCertKeepsInvariants(certs: seq<Certification>, events: seq<ReminderEvent>, k: nat, c: Certification, nextId: nat)
    requires k < |certs| && c.id == certs[k].id
    requires CertIdsFresh(certs, nextId) && EventsReferTo(events, certs)
    ensures CertIdsFresh(certs[k := c], nextId)
    ensures CertIds(certs[k := c]) == CertIds(certs)
    ensures EventsReferTo(events, certs[k := c])
  {
    var all := certs[k := c];
    forall x | x in CertIds(certs) ensures x in CertIds(all) {
      var i :| 0 <= i < |certs| && certs[i].id == x;
      assert all[i].id == x;
    }
  }

  lemma PlannedEventsBelong(certId: nat, offsets: seq<int>, exp: int, now: int)
    ensures forall e :: e in PlannedEvents(certId, offsets, exp, now) ==> e.certId == certId
  {
    forall e | e in PlannedEvents(certId, offsets, exp, now) ensures e.certId == certId {
      PlannedEventsExact(certId, offsets, exp, now, e);
    }
  }

  lemma AppendEventsKeepRefs(events: seq<ReminderEvent>, added: seq<ReminderEvent>, certs: seq<Certification>, certId: nat)
    requires EventsReferTo(events, certs) && certId in CertIds(certs)
    requires forall e :: e in added ==> e.certId == certId
    ensures EventsReferTo(events + added, certs)
  {
    forall k | 0 <= k < |events + added| ensures (events + added)[k].certId in CertIds(certs) {
      if k >= |events| {
        assert (events + added)[k] == added[k - |events|];
      }
    }
  }

  lemma DropScheduledKeepsRefs(events: seq<ReminderEvent>, certs: seq<Certification>, certId: nat)
    requires EventsReferTo(events, certs)
    ensures EventsReferTo(DropScheduled(events, certId), certs)
  {
    var kept := DropScheduled(events, certId);
    forall j | 0 <= j < |kept| ensures kept[j].certId in CertIds(certs) {
      assert multiset(kept)[kept[j]] > 0;
      assert kept[j] in events;
    }
  }

  lemma DeleteCertKeepsInvariants(certs: seq<Certification>, events: seq<ReminderEvent>, k: nat, nextId: nat)
    requires k < |certs|
    requires CertIdsFresh(certs, nextId) && EventsReferTo(events, certs)
    ensures CertIdsFresh(certs[..k] + certs[k + 1..], nextId)
    ensures EventsReferTo(DropEventsOf(events, certs[k].id), certs[..k] + certs[k + 1..])
  {
    var remaining := certs[..k] + certs[k + 1..];
    RemoveCertKeepsIds(certs, k, nextId);
    var kept := DropEventsOf(events, certs[k].id);
    forall j | 0 <= j < |kept| ensures kept[j].certId in CertIds(remaining) {
      assert multiset(kept)[kept[j]] > 0;
      assert kept[j].certId != certs[k].id && kept[j] in events;
    }
  }

  /** Removing the certification at `k` keeps the ids fresh and every other
      id stored. */
  lemma RemoveCertKeepsIds(certs: seq<Certification>, k: nat, nextId: nat)
    requires k < |certs| && CertIdsFresh(certs, nextId)
    ensures CertIdsFresh(certs[..k] + certs[k + 1..], nextId)
    ensures forall x :: x in CertIds(certs) && x != certs[k].id ==> x in CertIds(certs[..k] + certs[k + 1..])
  {
    var remaining := certs[..k] + certs[k + 1..];
    assert forall i :: 0 <= i < |remaining| ==> remaining[i] == if i < k then certs[i] else certs[i + 1];
    forall x | x in CertIds(certs) && x != certs[k].id ensures x in CertIds(remaining) {
      var i :| 0 <= i < |certs| && certs[i].id == x;
      if i < k {
        assert remaining[i] == certs[i];
      } else {
        assert remaining[i - 1] == certs[i];
      }
    }
  }

  lemma SetEnabledKeepsInvariants(rules: seq<ReminderRule>, k: nat, enabled: bool, nextId: nat)
    requires k < |rules|
    requires RuleIdsFresh(rules, nextId) && RulesSeeded(rules)
    ensures RuleIdsFresh(rules[k := rules[k].(enabled := enabled)], nextId)
    ensures RulesSeeded(rules[k := rules[k].(enabled := enabled)])
  {
    var updated := rules[k := rules[k].(enabled := enabled)];
    forall p ensures DaysOf(updated, p) == DaysOf(rules, p) {
      DaysOfIgnoresEnabled(rules, k, enabled, p);
    }
    assert forall j :: 0 <= j < |rules| ==> updated[j].id == rules[j].id;
  }

  /** The events left after the cascade deletes those of `certId`. */
  function DropEventsOf(events: seq<ReminderEvent>, certId: nat): (r: seq<ReminderEvent>)
    ensures forall e :: multiset(r)[e] == if e.certId == certId then 0 else multiset(events)[e]
  {
    if events == [] then []
    else
      assert events == [events[0]] + events[1..];
      (if events[0].certId == certId then [] else [events[0]]) + DropEventsOf(events[1..], certId)
  }

  // ---------------------------------------------------------------------
  // The store
  // ---------------------------------------------------------------------

  /** Certifications, reminder rules and reminder events, as the route
      handlers read and write them. */
  class CertStore {
    var certs: seq<Certification>
    var rules: seq<ReminderRule>
    var events: seq<ReminderEvent>
    var nextId: nat

    /** Ids are fresh and unique, every event belongs to a stored
        certification, and every provider's rules are none or the seeded
        30/7/1 triple (no modelled route creates any other rule). */
    ghost predicate Valid()
      reads this
    {
      && CertIdsFresh(certs, nextId)
      && RuleIdsFresh(rules, nextId)
      && EventsReferTo(events, certs)
      && RulesSeeded(rules)
    }

    constructor ()
      ensures Valid()
      ensures certs == [] && rules == [] && events == []
    {
      certs, rules, events, nextId := [], [], [], 0;
    }

    /** Materializes the reminders of `certId`, which expires at `exp`: the
        planned events of the provider's offsets are appended; nothing is
        written when none lies in the future. */
    method CreateDefaultReminderEvents(certId: nat, providerId: UserId, exp: int, now: int)
      requires Valid() && certId in CertIds(certs)
      modifies this`events
      ensures Valid()
      ensures events == old(events) + PlannedEvents(certId, ReminderOffsets(rules, providerId), exp, now)
    {
      var planned := PlannedEvents(certId, ReminderOffsets(rules, providerId), exp, now);
      PlannedEventsBelong(certId, ReminderOffsets(rules, providerId), exp, now);
      AppendEventsKeepRefs(events, planned, certs, certId);
      events := events + planned;
    }

    /** Stores `cert` under the next free id. */
    method InsertCertification(cert: Certification)
      requires Valid() && cert.id == nextId
      modifies this`certs, this`nextId
      ensures Valid()
      ensures certs == old(certs) + [cert] && nextId == old(nextId) + 1
      ensures cert.id !in CertIds(old(certs)) && cert.id in CertIds(certs)
    {
      AppendCertKeepsInvariants(certs, rules, events, cert, nextId);
      certs, nextId := certs + [cert], nextId + 1;
    }

    /** Seeds the default 30/7/1 rules, all enabled, for a provider that has
        no rule yet. */
    method SeedDefaultRules(provider: UserId)
      requires Valid() && DaysOf(rules, provider) == []
      modifies this`rules, this`nextId
      ensures Valid()
      ensures rules == old(rules) + DefaultRules(old(nextId), provider) && nextId == old(nextId) + 3
    {
      SeedingKeepsRulesSeeded(rules, nextId, provider);
      SeedingKeepsRuleIdsFresh(rules, certs, nextId, provider);
      rules, nextId := rules + DefaultRules(nextId, provider), nextId + 3;
    }

    /** Schedules the reminders of the stored `cert` when it expires after
        `now`; writes nothing otherwise. */
    method ScheduleReminders(cert: Certification, provider: UserId, now: int)
      requires Valid() && cert.id in CertIds(certs)
      modifies this`events
      ensures Valid()
      ensures events == old(events) +
        (var exp := cert.expirationDate;
         if exp.Some? && exp.value > now then PlannedEvents(cert.id, ReminderOffsets(rules, provider), exp.value, now)
         else [])
    {
      if cert.expirationDate.Some? && cert.expirationDate.value > now {
        CreateDefaultReminderEvents(cert.id, provider, cert.expirationDate.value, now);
      }
    }

    /** Stores `cert` under the next free id and schedules its reminders
        when it expires after `now`. */
    method InsertAndSchedule(cert: Certification, provider: UserId, now: int)
      requires Valid() && cert.id == nextId
      modifies this`certs, this`nextId, this`events
      ensures Valid()
      ensures certs == old(certs) + [cert] && cert.id !in CertIds(old(certs)) && nextId == old(nextId) + 1
      ensures events == old(events) +
        (var exp := cert.expirationDate;
         if exp.Some? && exp.value > now then PlannedEvents(cert.id, ReminderOffsets(rules, provider), exp.value, now)
         else [])
    {
      InsertCertification(cert);
      ScheduleReminders(cert, provider, now);
    }

    /** Stores `cert` under the next free id, schedules its reminders when
        it expires after `now`, then seeds the default rules if the provider
        had none. */
    method AddCertification(cert: Certification, provider: UserId, now: int)
      requires Valid() && cert.id == nextId
      modifies this
      ensures Valid()
      ensures certs == old(certs) + [cert] && cert.id !in CertIds(old(certs))
      ensures events == old(events) +
        (var exp := cert.expirationDate;
         if exp.Some? && exp.value > now then PlannedEvents(cert.id, ReminderOffsets(old(rules), provider), exp.value, now)
         else [])
      ensures rules == old(rules) +
        (if |DaysOf(old(rules), provider)| == 0 then DefaultRules(old(nextId) + 1, provider) else [])
    {
      InsertAndSchedule(cert, provider, now);
      if |DaysOf(rules, provider)| == 0 {
        SeedDefaultRules(provider);
      }
    }

    /** POST: validate, store the certification with its computed status,
        schedule reminders when it expires in the future, then seed the
        default rules if the provider had none. */
    method CreateCertification(provider: UserId, input: CreateInput, now: int) returns (r: Result<Certification, ApiError>)
      requires Valid()
      modifies this
      ensures Valid()
      ensures !CreateInputValid(input) ==>
        r == Err(ValidationError) && certs == old(certs) && rules == old(rules) && events == old(events)
      ensures CreateInputValid(input) ==>
        && r == Ok(NewCertification(old(nextId), provider, input, now))
        && certs == old(certs) + [r.value]
        && r.value.id !in CertIds(old(certs))
        && events == old(events) +
             (var exp := r.value.expirationDate;
              if exp.Some? && exp.value > now
              then PlannedEvents(r.value.id, ReminderOffsets(old(rules), provider), exp.value, now)
              else [])
        && rules == old(rules) +
             (if |DaysOf(old(rules), provider)| == 0 then DefaultRules(old(nextId) + 1, provider) else [])
    {
      if !CreateInputValid(input) {
        return Err(ValidationError);
      }
      var cert := NewCertification(nextId, provider, input, now);
      AddCertification(cert, provider, now);
      r := Ok(cert);
    }

    /** GET list: the provider's certifications whose stored status matches
        the query, with status recomputed at `now`, and the summary. */
    function ListCertifications(provider: UserId, statusQuery: Option<string>, now: int)
      : (r: Result<CertificationList, ApiError>)
      reads this
      ensures r.Err? <==> StatusFilter(statusQuery).Err?
      ensures r.Err? ==> r.error == InternalError
      ensures r.Ok? ==> r.value == ListResponse(certs, provider, StatusFilter(statusQuery).value, now)
    {
      match StatusFilter(statusQuery)
      case Err(e) => Err(e)
      case Ok(filter) => Ok(ListResponse(certs, provider, filter, now))
    }

    /** GET one: the certification with its status recomputed at `now` and
        its reminder events by ascending `scheduledFor`. */
    function GetCertification(provider: UserId, id: nat, now: int)
      : (r: Result<(Certification, seq<ReminderEvent>), ApiError>)
      reads this
      ensures r.Err? <==> forall k :: 0 <= k < |certs| ==> !(certs[k].id == id && certs[k].providerId == provider)
      ensures r.Err? ==> r.error == NotFound
      ensures r.Ok? ==>
        && r.value.0.id == id && r.value.0.providerId == provider
        && r.value.0 == certs[FindCert(certs, id, provider).value].(status := ComputeStatus(r.value.0.expirationDate, now))
        && r.value.0.status == ComputeStatus(r.value.0.expirationDate, now)
        && Sorting.SortedBy(r.value.1, (e: ReminderEvent) => e.scheduledFor)
        && multiset(r.value.1) == multiset(EventsOf(events, id))
    {
      match FindCert(certs, id, provider)
      case None => Err(NotFound)
      case Some(k) =>
        var c := certs[k];
        Ok((c.(status := ComputeStatus(c.expirationDate, now)),
            Sorting.SortBy(EventsOf(events, id), (e: ReminderEvent) => e.scheduledFor)))
    }

    /** PUT: look the certification up (404 first), validate, write the
        updated fields and recomputed status, and when the date was
        supplied and lies in the future replace its `scheduled` events. */
    method UpdateCertification(provider: UserId, id: nat, input: UpdateInput, now: int)
      returns (r: Result<Certification, ApiError>)
      requires Valid()
      modifies this`certs, this`events
      ensures Valid()
      ensures rules == old(rules)
      ensures FindCert(old(certs), id, provider).None? ==>
        r == Err(NotFound) && certs == old(certs) && events == old(events)
      ensures FindCert(old(certs), id, provider).Some? && !UpdateInputValid(input) ==>
        r == Err(ValidationError) && certs == old(certs) && events == old(events)
      ensures FindCert(old(certs), id, provider).Some? && UpdateInputValid(input) ==>
        var k := FindCert(old(certs), id, provider).value;
        var c := ApplyUpdate(old(certs)[k], input, now);
        && r == Ok(c)
        && certs == old(certs)[k := c]
        && events == if Reschedules(input, c.expirationDate, now)
                     then DropScheduled(old(events), id)
                          + PlannedEvents(id, ReminderOffsets(rules, provider), c.expirationDate.value, now)
                     else old(events)
    {
      var found := FindCert(certs, id, provider);
      if found.None? {
        return Err(NotFound);
      }
      if !UpdateInputValid(input) {
        return Err(ValidationError);
      }
      var k := found.value;
      var c := ApplyUpdate(certs[k], input, now);
      ReplaceCertKeepsInvariants(certs, events, k, c, nextId);
      certs := certs[k := c];
      if Reschedules(input, c.expirationDate, now) {
        DropScheduledKeepsRefs(events, certs, id);
        events := DropScheduled(events, id);
        assert certs[k].id == id;
        CreateDefaultReminderEvents(id, provider, c.expirationDate.value, now);
      }
      r := Ok(c);
    }

    /** DELETE: remove the certification; its reminder events go with it
        (the foreign key cascades). */
    method DeleteCertification(provider: UserId, id: nat) returns (r: Result<bool, ApiError>)
      requires Valid()
      modifies this`certs, this`events
      ensures Valid()
      ensures rules == old(rules)
      ensures FindCert(old(certs), id, provider).None? ==>
        r == Err(NotFound) && certs == old(certs) && events == old(events)
      ensures FindCert(old(certs), id, provider).Some? ==>
        var k := FindCert(old(certs), id, provider).value;
        && r == Ok(true)
        && certs == old(certs)[..k] + old(certs)[k + 1..]
        && (forall e :: multiset(events)[e] == if e.certId == id then 0 else multiset(old(events))[e])
    {
      var found := FindCert(certs, id, provider);
      if found.None? {
        return Err(NotFound);
      }
      var k := found.value;
      assert certs[k].id == id;
      RemoveCertAt(k);
      r := Ok(true);
    }

    /** Removes the certification at index `k` together with its events. */
    method RemoveCertAt(k: nat)
      requires Valid() && k < |certs|
      modifies this`certs, this`events
      ensures Valid()
      ensures certs == old(certs)[..k] + old(certs)[k + 1..]
      ensures forall e :: multiset(events)[e] == if e.certId == old(certs)[k].id then 0 else multiset(old(events))[e]
    {
      var id := certs[k].id;
      DeleteCertKeepsInvariants(certs, events, k, nextId);
      var kept := DropEventsOf(events, id);
      assert forall e: ReminderEvent :: multiset(kept)[e] == if e.certId == id then 0 else multiset(events)[e];
      certs, events := certs[..k] + certs[k + 1..], kept;
    }

    /** GET rules: the provider's rules by descending offset. */
    function ListRules(provider: UserId): (r: seq<ReminderRule>)
      reads this
      ensures multiset(r) == multiset(RulesOf(rules, provider))
      ensures forall x :: x in r <==> x in rules && x.providerId == provider
      ensures forall i, j :: 0 <= i < j < |r| ==> r[i].daysBeforeExpiration >= r[j].daysBeforeExpiration
    {
      var sorted := Sorting.SortBy(RulesOf(rules, provider), (x: ReminderRule) => -x.daysBeforeExpiration);
      assert forall x :: x in sorted <==> x in multiset(sorted);
      assert forall x :: x in RulesOf(rules, provider) <==> x in multiset(RulesOf(rules, provider));
      sorted
    }

    /** PUT rule: set `enabled` on the provider's rule with this id; a
        missing `enabled` leaves the rule as it was. Reminder events are
        not touched. */
    method SetRuleEnabled(provider: UserId, id: nat, body: ToggleBody) returns (r: Result<ReminderRule, ApiError>)
      requires Valid()
      modifies this`rules
      ensures Valid()
      // destructuring a missing body fails before the lookup
      ensures body.NoBody? ==> r == Err(InternalError) && rules == old(rules)
      ensures body.ToggleBody? && FindRule(old(rules), id, provider).None? ==> r == Err(NotFound) && rules == old(rules)
      ensures body.ToggleBody? && FindRule(old(rules), id, provider).Some? ==>
        var k := FindRule(old(rules), id, provider).value;
        var x := old(rules)[k].(enabled := if body.enabled.Some? then body.enabled.value else old(rules)[k].enabled);
        r == Ok(x) && rules == old(rules)[k := x]
    {
      if body.NoBody? {
        return Err(InternalError);
      }
      var enabled := body.enabled;
      var found := FindRule(rules, id, provider);
      if found.None? {
        return Err(NotFound);
      }
      var k := found.value;
      var x := rules[k].(enabled := if enabled.Some? then enabled.value else rules[k].enabled);
      SetEnabledKeepsInvariants(rules, k, x.enabled, nextId);
      rules := rules[k := x];
      r := Ok(x);
    }
  }
}
