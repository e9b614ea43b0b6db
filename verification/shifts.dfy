/** The shift log of a caregiver: shifts move from `Active` to `Completed`,
    events are appended to an owned, active shift, and shifts are listed
    newest first, one at a time, or by an inclusive range of UTC days. */
module Shifts {
  import opened Prelude
  import Sorting

  type UserId = string

  datatype ShiftStatus = Active | Completed

  datatype Shift = Shift(id: nat, userId: UserId, status: ShiftStatus, startedAt: int, endedAt: Option<int>)

  datatype ShiftEvent = ShiftEvent(
    id: nat, shiftId: nat, userId: UserId, eventType: string, description: string, occurredAt: int)

  /** A shift as the routes return it, with its events included. */
  datatype ShiftWithEvents = ShiftWithEvents(shift: Shift, events: seq<ShiftEvent>)

  /** The body of an add-event request; an absent field is `None`. */
  datatype EventInput = EventInput(eventType: Option<string>, description: Option<string>, occurredAt: Option<DateTimeText>)

  datatype ShiftError =
    | NotFound            // 404
    | Forbidden           // 403
    | ShiftAlreadyActive  // 409
    | ShiftNotActive      // 400
    | ShiftAlreadyEnded   // 400
    | ValidationError     // 400
    | InternalError       // 500: the store rejects an invalid date

  /** Number of shifts the list route returns at most. */
  const ListLimit: nat := 50

  // ── Request validation ──────────────────────────────────────────────────

  /** type: 1..100 characters, description: 1..2000, occurredAt: an ISO
      timestamp when present. Lengths are JavaScript string lengths. */
  predicate EventInputValid(input: EventInput)
    ensures EventInputValid(input) ==>
      && input.eventType.Some? && 1 <= |input.eventType.value| <= 100
      && input.description.Some? && 1 <= |input.description.value| <= 2000
    // short enough type and description, without a timestamp, are accepted
    ensures (&& input.eventType.Some? && 1 <= |input.eventType.value| <= 50
             && input.description.Some? && 1 <= |input.description.value| <= 1000
             && input.occurredAt.None?) ==> EventInputValid(input)
  {
    && input.eventType.Some? && 1 <= Utf16Length(input.eventType.value) <= 100
    && input.description.Some? && 1 <= Utf16Length(input.description.value) <= 2000
    && (input.occurredAt.Some? ==> input.occurredAt.value.DateTime?)
  }

  /** The event an accepted body creates; `occurredAt` defaults to `now`. */
  function NewEvent(id: nat, shiftId: nat, userId: UserId, input: EventInput, now: int): (e: ShiftEvent)
    requires EventInputValid(input)
    ensures e.id == id && e.shiftId == shiftId && e.userId == userId
    ensures e.eventType == input.eventType.value && e.description == input.description.value
    ensures 1 <= |e.eventType| <= 100 && 1 <= |e.description| <= 2000
    ensures e.occurredAt == if input.occurredAt.Some? then input.occurredAt.value.ms else now
  {
    ShiftEvent(id, shiftId, userId, input.eventType.value, input.description.value,
               if input.occurredAt.Some? then input.occurredAt.value.ms else now)
  }

  predicate IsDigit(c: char) {
    '0' <= c <= '9'
  }

  /** Matches `^\d{4}-\d{2}-\d{2}$`. */
  predicate IsDateString(s: string)
    ensures IsDateString(s) ==> |s| == 10 && forall c :: c in s ==> IsDigit(c) || c == '-'
  {
    && |s| == 10
    && s[4] == '-' && s[7] == '-'
    && (forall i :: 0 <= i < 10 && i != 4 && i != 7 ==> IsDigit(s[i]))
  }

  function DigitValue(c: char): (n: int)
    requires IsDigit(c)
    ensures 0 <= n <= 9
  {
    c as int - '0' as int
  }

  function DigitChar(n: int): (c: char)
    requires 0 <= n <= 9
    ensures IsDigit(c) && DigitValue(c) == n
  {
    ('0' as int + n) as char
  }

  datatype CalendarDate = CalendarDate(year: int, month: int, day: int)

  /** Fields that fit the four and two digits of `YYYY-MM-DD`. */
  predicate Printable(d: CalendarDate) {
    0 <= d.year <= 9999 && 0 <= d.month <= 99 && 0 <= d.day <= 99
  }

  /** `d` written as `YYYY-MM-DD`, with leading zeros. */
  function FormatDate(d: CalendarDate): (s: string)
    requires Printable(d)
  {
    [DigitChar(d.year / 1000), DigitChar(d.year / 100 % 10), DigitChar(d.year / 10 % 10), DigitChar(d.year % 10), '-',
     DigitChar(d.month / 10), DigitChar(d.month % 10), '-',
     DigitChar(d.day / 10), DigitChar(d.day % 10)]
  }

  /** Decimal digits read back from the number they make. */
  lemma DecimalDigits(a: int, b: int, c: int, e: int)
    requires 0 <= a <= 9 && 0 <= b <= 9 && 0 <= c <= 9 && 0 <= e <= 9
    ensures var n := 1000 * a + 100 * b + 10 * c + e;
      n / 1000 == a && n / 100 % 10 == b && n / 10 % 10 == c && n % 10 == e
    ensures (10 * c + e) / 10 == c && (10 * c + e) % 10 == e
  {
    var n := 1000 * a + 100 * b + 10 * c + e;
    assert n / 10 == 100 * a + 10 * b + c;
    assert n / 100 == 10 * a + b;
  }

  /** A number below 10000 is made of its four decimal digits. */
  lemma DecimalRecompose(n: int)
    requires 0 <= n <= 9999
    ensures 1000 * (n / 1000) + 100 * (n / 100 % 10) + 10 * (n / 10 % 10) + n % 10 == n
    ensures n <= 99 ==> 10 * (n / 10) + n % 10 == n
  {
    var q1, q2, q3 := n / 10, n / 100, n / 1000;
    assert n == 10 * q1 + n % 10;
    assert q1 / 10 == q2;
    assert q1 == 10 * q2 + q1 % 10;
    assert q2 / 10 == q3;
    assert q2 == 10 * q3 + q2 % 10;
  }

  /** The year, month and day fields of a `YYYY-MM-DD` string: the date
      that, written back with leading zeros, is the string itself. */
  function DateFields(s: string): (d: CalendarDate)
    requires IsDateString(s)
    ensures Printable(d) && FormatDate(d) == s
  {
    var d := CalendarDate(
      1000 * DigitValue(s[0]) + 100 * DigitValue(s[1]) + 10 * DigitValue(s[2]) + DigitValue(s[3]),
      10 * DigitValue(s[5]) + DigitValue(s[6]),
      10 * DigitValue(s[8]) + DigitValue(s[9]));
    DecimalDigits(DigitValue(s[0]), DigitValue(s[1]), DigitValue(s[2]), DigitValue(s[3]));
    DecimalDigits(0, 0, DigitValue(s[5]), DigitValue(s[6]));
    DecimalDigits(0, 0, DigitValue(s[8]), DigitValue(s[9]));
    assert forall i :: 0 <= i < 10 && i != 4 && i != 7 ==> DigitChar(DigitValue(s[i])) == s[i];
    d
  }

  /** Every date that fits the format is written as a date string and read
      back unchanged. */
  lemma FormatDateParses(d: CalendarDate)
    requires Printable(d)
    ensures IsDateString(FormatDate(d)) && DateFields(FormatDate(d)) == d
  {
    DecimalRecompose(d.year);
    DecimalRecompose(d.month);
    DecimalRecompose(d.day);
  }

  /** The day number (days since 1970-01-01) that the date string denotes
      once a UTC time of day is appended, or `None` when the resulting
      timestamp is an invalid date: a month outside 1..12 or a day outside
      1..31. A day past the end of its month runs on into the next one. */
  function DayNumber(s: string): (r: Option<int>)
    requires IsDateString(s)
    ensures r.Some? <==> 1 <= DateFields(s).month <= 12 && 1 <= DateFields(s).day <= 31
    ensures r.Some? ==> r.value == DaysFromCivil(DateFields(s).year, DateFields(s).month, DateFields(s).day)
  {
    var d := DateFields(s);
    if 1 <= d.month <= 12 && 1 <= d.day <= 31 then Some(DaysFromCivil(d.year, d.month, d.day)) else None
  }

  /** The date string of a calendar date denotes that date's civil day,
      when its month and day are in range, and is invalid otherwise. */
  lemma DayNumberOfDate(d: CalendarDate)
    requires Printable(d)
    ensures IsDateString(FormatDate(d))
    ensures DayNumber(FormatDate(d)).Some? <==> 1 <= d.month <= 12 && 1 <= d.day <= 31
    ensures DayNumber(FormatDate(d)).Some? ==> DayNumber(FormatDate(d)).value == DaysFromCivil(d.year, d.month, d.day)
  {
    FormatDateParses(d);
  }

  /** The literal `1970-01-01` is the epoch day. */
  lemma EpochString()
    ensures IsDateString("1970-01-01") && DayNumber("1970-01-01") == Some(0)
  {
    assert IsDateString("1970-01-01");
    assert DateFields("1970-01-01") == CalendarDate(1970, 1, 1);
    CivilEpoch();
  }

  /** The instant range `[first 00:00:00.000, last 23:59:59.999]` holds
      exactly the instants whose UTC day lies in `first..last`. */
  lemma WholeDays(first: int, last: int, t: int)
    ensures first * DayMs <= t <= last * DayMs + DayMs - 1 <==> first <= t / DayMs <= last
  {
    var q := t / DayMs;
    assert q * DayMs <= t < q * DayMs + DayMs;
    if first <= q {
      assert first * DayMs <= q * DayMs;
    } else {
      assert first * DayMs >= q * DayMs + DayMs;
    }
    if q <= last {
      assert q * DayMs <= last * DayMs;
    } else {
      assert q * DayMs >= last * DayMs + DayMs;
    }
  }

  // ── Queries over the stored rows ────────────────────────────────────────

  /** Index of the shift with this id. */
  function FindShift(shifts: seq<Shift>, id: nat): (r: Option<nat>)
    ensures r.Some? ==> r.value < |shifts| && shifts[r.value].id == id
    ensures r.Some? ==> forall k :: 0 <= k < r.value ==> shifts[k].id != id
    ensures r.None? ==> forall k :: 0 <= k < |shifts| ==> shifts[k].id != id
  {
    if shifts == [] then None
    else if shifts[0].id == id then Some(0)
    else
      var rest := FindShift(shifts[1..], id);
      if rest.Some? then Some(rest.value + 1) else None
  }

  /** Index of the user's active shift, if there is one. */
  function ActiveShiftOf(shifts: seq<Shift>, user: UserId): (r: Option<nat>)
    ensures r.Some? ==> r.value < |shifts| && shifts[r.value].userId == user && shifts[r.value].status == Active
    ensures r.None? <==> forall k :: 0 <= k < |shifts| ==> !(shifts[k].userId == user && shifts[k].status == Active)
  {
    if shifts == [] then None
    else if shifts[0].userId == user && shifts[0].status == Active then Some(0)
    else
      var rest := ActiveShiftOf(shifts[1..], user);
      if rest.Some? then Some(rest.value + 1) else None
  }

  /** The guards shared by the single-shift routes: 404 when no shift has
      this id, 403 when it belongs to another user, else its index. */
  function OwnedShift(shifts: seq<Shift>, user: UserId, id: nat): (r: Result<nat, ShiftError>)
    ensures r.Ok? ==> r.value < |shifts| && shifts[r.value].id == id && shifts[r.value].userId == user
    ensures r.Err? ==> r.error == NotFound || r.error == Forbidden
    ensures r == Err(NotFound) <==> forall k :: 0 <= k < |shifts| ==> shifts[k].id != id
    ensures r == Err(Forbidden) ==> exists k :: 0 <= k < |shifts| && shifts[k].id == id && shifts[k].userId != user
  {
    match FindShift(shifts, id)
    case None => Err(NotFound)
    case Some(k) => if shifts[k].userId != user then Err(Forbidden) else Ok(k)
  }

  /** The events of one shift, in store order. */
  function EventsOf(events: seq<ShiftEvent>, shiftId: nat): (r: seq<ShiftEvent>)
    ensures forall e :: e in r <==> e in events && e.shiftId == shiftId
    ensures forall e :: multiset(r)[e] == if e.shiftId == shiftId then multiset(events)[e] else 0
  {
    if events == [] then []
    else
      assert events == [events[0]] + events[1..];
      (if events[0].shiftId == shiftId then [events[0]] else []) + EventsOf(events[1..], shiftId)
  }

  /** One step of EventsOf on a non-empty store. */
  lemma EventsOfUnfold(events: seq<ShiftEvent>, shiftId: nat)
    requires events != []
    ensures EventsOf(events, shiftId)
      == (if events[0].shiftId == shiftId then [events[0]] else []) + EventsOf(events[1..], shiftId)
  {
  }

  /** The induction step of EventsOfAppend: the head of `events` goes in
      front of both sides. */
  lemma EventsOfAppendStep(events: seq<ShiftEvent>, extra: seq<ShiftEvent>, shiftId: nat)
    requires events != []
    requires EventsOf(events[1..] + extra, shiftId) == EventsOf(events[1..], shiftId) + EventsOf(extra, shiftId)
    ensures EventsOf(events + extra, shiftId) == EventsOf(events, shiftId) + EventsOf(extra, shiftId)
  {
    var head := if events[0].shiftId == shiftId then [events[0]] else [];
    var rest, tail := EventsOf(events[1..], shiftId), EventsOf(extra, shiftId);
    ConsAppend(events, extra);
    EventsOfUnfold(events + extra, shiftId);
    EventsOfUnfold(events, shiftId);
    AppendAssoc(head, rest, tail);
  }

  lemma ConsAppend<T>(s: seq<T>, t: seq<T>)
    requires s != []
    ensures (s + t)[0] == s[0] && (s + t)[1..] == s[1..] + t
  {
  }

  lemma AppendAssoc<T>(a: seq<T>, b: seq<T>, c: seq<T>)
    ensures a + (b + c) == (a + b) + c
  {
  }

  lemma {:induction false} EventsOfAppend(events: seq<ShiftEvent>, extra: seq<ShiftEvent>, shiftId: nat)
    ensures EventsOf(events + extra, shiftId) == EventsOf(events, shiftId) + EventsOf(extra, shiftId)
  {
    if events == [] {
      assert events + extra == extra;
    } else {
      EventsOfAppend(events[1..], extra, shiftId);
      EventsOfAppendStep(events, extra, shiftId);
    }
  }

  /** The user's shifts whose start lies in `[lo, hi]`, in store order. */
  function StartedWithin(shifts: seq<Shift>, user: UserId, lo: int, hi: int): (r: seq<Shift>)
    ensures forall s :: s in r <==> s in shifts && s.userId == user && lo <= s.startedAt <= hi
    ensures forall s :: multiset(r)[s] == if s.userId == user && lo <= s.startedAt <= hi then multiset(shifts)[s] else 0
  {
    if shifts == [] then []
    else
      assert shifts == [shifts[0]] + shifts[1..];
      var s := shifts[0];
      (if s.userId == user && lo <= s.startedAt <= hi then [s] else []) + StartedWithin(shifts[1..], user, lo, hi)
  }

  /** All shifts of the user, in store order. */
  function ShiftsOf(shifts: seq<Shift>, user: UserId): (r: seq<Shift>)
    ensures forall s :: s in r <==> s in shifts && s.userId == user
    ensures forall s :: multiset(r)[s] == if s.userId == user then multiset(shifts)[s] else 0
  {
    if shifts == [] then []
    else
      assert shifts == [shifts[0]] + shifts[1..];
      (if shifts[0].userId == user then [shifts[0]] else []) + ShiftsOf(shifts[1..], user)
  }

  /** Attaches to each shift its events. */
  function WithEvents(list: seq<Shift>, events: seq<ShiftEvent>): (r: seq<ShiftWithEvents>)
    ensures |r| == |list|
    ensures forall i :: 0 <= i < |r| ==> r[i] == ShiftWithEvents(list[i], EventsOf(events, list[i].id))
  {
    seq(|list|, i requires 0 <= i < |list| => ShiftWithEvents(list[i], EventsOf(events, list[i].id)))
  }

  /** The shifts of a response, without their events. */
  function ShiftsIn(list: seq<ShiftWithEvents>): (r: seq<Shift>)
    ensures |r| == |list|
    ensures forall i :: 0 <= i < |r| ==> r[i] == list[i].shift
  {
    seq(|list|, i requires 0 <= i < |list| => list[i].shift)
  }

  /** Attaching events keeps the shifts, one response entry per shift. */
  lemma WithEventsShifts(list: seq<Shift>, events: seq<ShiftEvent>)
    ensures ShiftsIn(WithEvents(list, events)) == list
  {
  }

  /** The rows of `list`, newest first. */
  function NewestFirst(list: seq<Shift>): (r: seq<Shift>)
    ensures |r| == |list|
    ensures multiset(r) == multiset(list)
    ensures forall s :: s in r <==> s in list
    ensures forall i, j :: 0 <= i < j < |r| ==> r[i].startedAt >= r[j].startedAt
  {
    var sorted := Sorting.SortBy(list, (s: Shift) => -s.startedAt);
    assert forall s :: s in sorted <==> s in multiset(sorted);
    assert forall s :: s in list <==> s in multiset(list);
    sorted
  }

  /** The first `ListLimit` rows of a list sorted newest first are sorted
      newest first, and every row cut off started no later than each row
      kept. */
  lemma NewestKept(sorted: seq<Shift>)
    requires forall i, j :: 0 <= i < j < |sorted| ==> sorted[i].startedAt >= sorted[j].startedAt
    ensures var t := Sorting.Take(sorted, ListLimit);
      && (forall i :: 0 <= i < |t| ==> t[i] in sorted)
      && (forall i, j :: 0 <= i < j < |t| ==> t[i].startedAt >= t[j].startedAt)
      && (forall s :: s in sorted && s !in t ==>
            |t| == ListLimit && forall i :: 0 <= i < |t| ==> s.startedAt <= t[i].startedAt)
  {
    var t := Sorting.Take(sorted, ListLimit);
    assert forall i :: 0 <= i < |t| ==> t[i] == sorted[i];
    forall s | s in sorted && s !in t
      ensures |t| == ListLimit && forall i :: 0 <= i < |t| ==> s.startedAt <= t[i].startedAt
    {
      var j :| 0 <= j < |sorted| && sorted[j] == s;
      if j < ListLimit {
        assert false;
      }
    }
  }

  /** The user's newest shifts, at most `ListLimit`, newest first. */
  function Newest(shifts: seq<Shift>, user: UserId): (r: seq<Shift>)
    ensures |r| == if |ShiftsOf(shifts, user)| < ListLimit then |ShiftsOf(shifts, user)| else ListLimit
    ensures forall i :: 0 <= i < |r| ==> r[i] in shifts && r[i].userId == user
    ensures multiset(r) <= multiset(ShiftsOf(shifts, user))
    ensures forall i, j :: 0 <= i < j < |r| ==> r[i].startedAt >= r[j].startedAt
    // a shift of the user that is left out started no later than every one kept
    ensures forall s :: s in shifts && s.userId == user && s !in r ==>
      |r| == ListLimit && forall i :: 0 <= i < |r| ==> s.startedAt <= r[i].startedAt
  {
    var sorted := NewestFirst(ShiftsOf(shifts, user));
    NewestKept(sorted);
    Sorting.Take(sorted, ListLimit)
  }

  /** `s` is a shift of `user` started on one of the UTC days `first..last`. */
  predicate StartedOn(s: Shift, user: UserId, first: int, last: int) {
    s.userId == user && first <= s.startedAt / DayMs <= last
  }

  lemma WholeDaysAll(first: int, last: int)
    ensures forall t :: first * DayMs <= t <= last * DayMs + DayMs - 1 <==> first <= t / DayMs <= last
  {
    forall t ensures first * DayMs <= t <= last * DayMs + DayMs - 1 <==> first <= t / DayMs <= last {
      WholeDays(first, last, t);
    }
  }

  /** The user's shifts started on the UTC days `first..last`, oldest first. */
  function StartedOnDays(shifts: seq<Shift>, user: UserId, first: int, last: int): (r: seq<Shift>)
    ensures forall s :: multiset(r)[s] == if StartedOn(s, user, first, last) then multiset(shifts)[s] else 0
    ensures forall s :: s in r <==> s in shifts && StartedOn(s, user, first, last)
    ensures forall i, j :: 0 <= i < j < |r| ==> r[i].startedAt <= r[j].startedAt
  {
    var within := StartedWithin(shifts, user, first * DayMs, last * DayMs + DayMs - 1);
    WholeDaysAll(first, last);
    Sorting.SortBy(within, (s: Shift) => s.startedAt)
  }

  /** The user's shifts started on the UTC days `first..last`, oldest
      first, each with its events. */
  function ShiftsOnDays(shifts: seq<Shift>, events: seq<ShiftEvent>, user: UserId, first: int, last: int)
    : (r: seq<ShiftWithEvents>)
    ensures forall i :: 0 <= i < |r| ==>
      && r[i].shift in shifts && r[i].shift.userId == user
      && first <= r[i].shift.startedAt / DayMs <= last
      && r[i].events == EventsOf(events, r[i].shift.id)
    ensures forall s :: multiset(ShiftsIn(r))[s] == if StartedOn(s, user, first, last) then multiset(shifts)[s] else 0
    ensures forall i, j :: 0 <= i < j < |r| ==> r[i].shift.startedAt <= r[j].shift.startedAt
  {
    var list := StartedOnDays(shifts, user, first, last);
    WithEventsShifts(list, events);
    WithEvents(list, events)
  }

  /** The user's newest shifts, at most `ListLimit`, newest first, each
      with its events. */
  function NewestListing(shifts: seq<Shift>, events: seq<ShiftEvent>, user: UserId): (r: seq<ShiftWithEvents>)
    ensures |r| == if |ShiftsOf(shifts, user)| < ListLimit then |ShiftsOf(shifts, user)| else ListLimit
    ensures forall i :: 0 <= i < |r| ==>
      r[i].shift in shifts && r[i].shift.userId == user && r[i].events == EventsOf(events, r[i].shift.id)
    ensures multiset(ShiftsIn(r)) <= multiset(ShiftsOf(shifts, user))
    ensures forall i, j :: 0 <= i < j < |r| ==> r[i].shift.startedAt >= r[j].shift.startedAt
    // a shift of the user that is left out started no later than every one returned
    ensures forall s :: s in shifts && s.userId == user && s !in ShiftsIn(r) ==>
      |r| == ListLimit && forall i :: 0 <= i < |r| ==> s.startedAt <= r[i].shift.startedAt
  {
    var list := Newest(shifts, user);
    WithEventsShifts(list, events);
    WithEvents(list, events)
  }

  // ── Store invariants and how the transitions keep them ─────────────────

  ghost predicate IdsFresh(shifts: seq<Shift>, events: seq<ShiftEvent>, nextId: nat) {
    && (forall i :: 0 <= i < |shifts| ==> shifts[i].id < nextId)
    && (forall i, j :: 0 <= i < j < |shifts| ==> shifts[i].id != shifts[j].id)
    && (forall i :: 0 <= i < |events| ==> events[i].id < nextId)
    && (forall i, j :: 0 <= i < j < |events| ==> events[i].id != events[j].id)
  }

  /** No user has two active shifts. */
  ghost predicate OneActivePerUser(shifts: seq<Shift>) {
    forall i, j :: 0 <= i < j < |shifts| && shifts[i].status == Active && shifts[j].status == Active ==>
      shifts[i].userId != shifts[j].userId
  }

  /** A shift has an end time exactly when it is completed. */
  ghost predicate EndedWhenCompleted(shifts: seq<Shift>) {
    forall i :: 0 <= i < |shifts| ==> (shifts[i].status == Completed <==> shifts[i].endedAt.Some?)
  }

  /** Every event lies on a stored shift of the event's own user. */
  ghost predicate EventsOnOwnShifts(shifts: seq<Shift>, events: seq<ShiftEvent>) {
    forall e :: e in events ==> exists s :: s in shifts && s.id == e.shiftId && s.userId == e.userId
  }

  ghost predicate StoreInvariant(shifts: seq<Shift>, events: seq<ShiftEvent>, nextId: nat) {
    && IdsFresh(shifts, events, nextId)
    && OneActivePerUser(shifts)
    && EndedWhenCompleted(shifts)
    && EventsOnOwnShifts(shifts, events)
  }

  /** The shift completed at `now`. */
  function Ended(s: Shift, now: int): (r: Shift)
    ensures r.id == s.id && r.userId == s.userId && r.startedAt == s.startedAt
    ensures r.status == Completed && r.endedAt == Some(now)
  {
    s.(status := Completed, endedAt := Some(now))
  }

  /** Starting a shift for a user without an active one keeps the
      invariant. */
  lemma StartKeepsInvariant(shifts: seq<Shift>, events: seq<ShiftEvent>, nextId: nat, user: UserId, now: int)
    requires StoreInvariant(shifts, events, nextId)
    requires ActiveShiftOf(shifts, user).None?
    ensures StoreInvariant(shifts + [Shift(nextId, user, Active, now, None)], events, nextId + 1)
  {
    var after := shifts + [Shift(nextId, user, Active, now, None)];
    assert forall i :: 0 <= i < |shifts| ==> after[i] == shifts[i];
    assert OneActivePerUser(after);
    assert IdsFresh(after, events, nextId + 1);
    forall e | e in events
      ensures exists x :: x in after && x.id == e.shiftId && x.userId == e.userId
    {
      var x :| x in shifts && x.id == e.shiftId && x.userId == e.userId;
      assert x in after;
    }
  }

  /** The shift just started is the user's active shift. */
  lemma StartedIsActive(shifts: seq<Shift>, s: Shift)
    requires ActiveShiftOf(shifts, s.userId).None? && s.status == Active
    ensures ActiveShiftOf(shifts + [s], s.userId) == Some(|shifts|)
  {
    var after := shifts + [s];
    assert after[|shifts|] == s;
    assert forall i :: 0 <= i < |shifts| ==> after[i] == shifts[i];
  }

  /** Ending an active shift keeps the invariant and leaves its user with
      no active shift, so that user may start again. */
  lemma EndKeepsInvariant(shifts: seq<Shift>, events: seq<ShiftEvent>, nextId: nat, k: nat, now: int)
    requires StoreInvariant(shifts, events, nextId)
    requires k < |shifts| && shifts[k].status == Active
    ensures StoreInvariant(shifts[k := Ended(shifts[k], now)], events, nextId)
    ensures ActiveShiftOf(shifts[k := Ended(shifts[k], now)], shifts[k].userId).None?
  {
    var after := shifts[k := Ended(shifts[k], now)];
    forall e | e in events
      ensures exists x :: x in after && x.id == e.shiftId && x.userId == e.userId
    {
      var x :| x in shifts && x.id == e.shiftId && x.userId == e.userId;
      var i :| 0 <= i < |shifts| && shifts[i] == x;
      assert after[i] in after;
    }
  }

  /** Appending an event on an owned shift keeps the invariant, and every
      other shift's event list stays exactly as it was. */
  lemma AddEventKeepsInvariant(shifts: seq<Shift>, events: seq<ShiftEvent>, nextId: nat, k: nat, e: ShiftEvent)
    requires StoreInvariant(shifts, events, nextId)
    requires k < |shifts| && e.shiftId == shifts[k].id && e.userId == shifts[k].userId && e.id == nextId
    ensures StoreInvariant(shifts, events + [e], nextId + 1)
    ensures forall i :: 0 <= i < |shifts| && i != k ==> EventsOf(events + [e], shifts[i].id) == EventsOf(events, shifts[i].id)
  {
    assert shifts[k] in shifts;
    forall i | 0 <= i < |shifts| && i != k
      ensures EventsOf(events + [e], shifts[i].id) == EventsOf(events, shifts[i].id)
    {
      EventsOfOtherShift(events, e, shifts[i].id);
    }
  }

  /** An event for an active shift leaves the events of every completed
      shift as they were. */
  lemma CompletedEventsKept(shifts: seq<Shift>, events: seq<ShiftEvent>, k: nat, e: ShiftEvent)
    requires k < |shifts| && shifts[k].status == Active && e.shiftId == shifts[k].id
    requires forall i, j :: 0 <= i < j < |shifts| ==> shifts[i].id != shifts[j].id
    ensures forall s :: s in shifts && s.status == Completed ==> EventsOf(events + [e], s.id) == EventsOf(events, s.id)
  {
    forall s | s in shifts && s.status == Completed
      ensures EventsOf(events + [e], s.id) == EventsOf(events, s.id)
    {
      var i :| 0 <= i < |shifts| && shifts[i] == s;
      assert i != k;
      assert s.id != e.shiftId by {
        if i < k {
          assert shifts[i].id != shifts[k].id;
        } else {
          assert shifts[k].id != shifts[i].id;
        }
      }
      EventsOfOtherShift(events, e, s.id);
    }
  }

  /** An event appended for another shift leaves this shift's events alone. */
  lemma EventsOfOtherShift(events: seq<ShiftEvent>, e: ShiftEvent, shiftId: nat)
    requires e.shiftId != shiftId
    ensures EventsOf(events + [e], shiftId) == EventsOf(events, shiftId)
  {
    EventsOfAppend(events, [e], shiftId);
    EventsOfUnfold([e], shiftId);
    assert [e][1..] == [];
    assert EventsOf(events, shiftId) + [] == EventsOf(events, shiftId);
  }

  /** After an end, the same request finds the same, now completed shift. */
  lemma EndAgainRefused(shifts: seq<Shift>, user: UserId, id: nat, now: int)
    requires OwnedShift(shifts, user, id).Ok?
    ensures var k := OwnedShift(shifts, user, id).value;
      OwnedShift(shifts[k := Ended(shifts[k], now)], user, id) == Ok(k)
      && shifts[k := Ended(shifts[k], now)][k].status != Active
  {
    var k := OwnedShift(shifts, user, id).value;
    assert FindShift(shifts, id) == Some(k);
    var after := shifts[k := Ended(shifts[k], now)];
    assert after[k].id == id && after[k].userId == user;
    var f := FindShift(after, id);
    if f.value != k {
      assert false;
    }
  }

  // ── The store ───────────────────────────────────────────────────────────

  class ShiftStore {
    var shifts: seq<Shift>
    var events: seq<ShiftEvent>
    var nextId: nat

    ghost predicate Valid()
      reads this
    {
      StoreInvariant(shifts, events, nextId)
    }

    constructor ()
      ensures Valid() && shifts == [] && events == []
    {
      shifts, events, nextId := [], [], 0;
    }

    /** POST /start: refused while the user has an active shift; otherwise
        one new active shift, started now, with no events. */
    method StartShift(user: UserId, now: int) returns (r: Result<ShiftWithEvents, ShiftError>)
      requires Valid()
      modifies this`shifts, this`nextId
      ensures Valid()
      ensures ActiveShiftOf(old(shifts), user).Some? ==>
        r == Err(ShiftAlreadyActive) && shifts == old(shifts) && nextId == old(nextId)
      ensures ActiveShiftOf(old(shifts), user).None? ==>
        var s := Shift(old(nextId), user, Active, now, None);
        && r == Ok(ShiftWithEvents(s, []))
        && shifts == old(shifts) + [s] && nextId == old(nextId) + 1
        && ActiveShiftOf(shifts, user) == Some(|old(shifts)|)
    {
      if ActiveShiftOf(shifts, user).Some? {
        return Err(ShiftAlreadyActive);
      }
      var s := Shift(nextId, user, Active, now, None);
      StartKeepsInvariant(shifts, events, nextId, user, now);
      StartedIsActive(shifts, s);
      shifts, nextId := shifts + [s], nextId + 1;
      r := Ok(ShiftWithEvents(s, []));
    }

    /** POST /:shiftId/events: 404, then 403, then SHIFT_NOT_ACTIVE, then
        body validation; only then is the event appended. */
    method AddEvent(user: UserId, shiftId: nat, input: EventInput, now: int) returns (r: Result<ShiftEvent, ShiftError>)
      requires Valid()
      modifies this`events, this`nextId
      ensures Valid()
      ensures var g := OwnedShift(shifts, user, shiftId);
        if g.Err? then r == Err(g.error)
        else if shifts[g.value].status != Active then r == Err(ShiftNotActive)
        else if !EventInputValid(input) then r == Err(ValidationError)
        else r == Ok(NewEvent(old(nextId), shiftId, user, input, now))
      ensures r.Ok? ==> events == old(events) + [r.value] && nextId == old(nextId) + 1
      ensures r.Err? ==> events == old(events) && nextId == old(nextId)
      // the events of a completed shift never change
      ensures forall s :: s in shifts && s.status == Completed ==> EventsOf(events, s.id) == EventsOf(old(events), s.id)
    {
      var g := OwnedShift(shifts, user, shiftId);
      if g.Err? {
        return Err(g.error);
      }
      var k := g.value;
      if shifts[k].status != Active {
        return Err(ShiftNotActive);
      }
      if !EventInputValid(input) {
        return Err(ValidationError);
      }
      var e := NewEvent(nextId, shiftId, user, input, now);
      AppendEvent(k, e);
      r := Ok(e);
    }

    /** Stores `e`, an event of the active shift at index `k`, under the
        next id. */
    method AppendEvent(k: nat, e: ShiftEvent)
      requires Valid()
      requires k < |shifts| && shifts[k].status == Active
      requires e.shiftId == shifts[k].id && e.userId == shifts[k].userId && e.id == nextId
      modifies this`events, this`nextId
      ensures Valid()
      ensures events == old(events) + [e] && nextId == old(nextId) + 1
      ensures forall s :: s in shifts && s.status == Completed ==> EventsOf(events, s.id) == EventsOf(old(events), s.id)
    {
      AddEventKeepsInvariant(shifts, events, nextId, k, e);
      CompletedEventsKept(shifts, events, k, e);
      events, nextId := events + [e], nextId + 1;
    }

    /** POST /:shiftId/end: 404, then 403, then SHIFT_ALREADY_ENDED for a
        completed shift; otherwise the shift is completed at `now`. */
    method EndShift(user: UserId, shiftId: nat, now: int) returns (r: Result<ShiftWithEvents, ShiftError>)
      requires Valid()
      modifies this`shifts
      ensures Valid()
      ensures var g := OwnedShift(old(shifts), user, shiftId);
        if g.Err? then r == Err(g.error) && shifts == old(shifts)
        else if old(shifts)[g.value].status != Active then r == Err(ShiftAlreadyEnded) && shifts == old(shifts)
        else
          && shifts == old(shifts)[g.value := Ended(old(shifts)[g.value], now)]
          && r == Ok(ShiftWithEvents(shifts[g.value], EventsOf(events, shiftId)))
          && ActiveShiftOf(shifts, user).None?
    {
      var g := OwnedShift(shifts, user, shiftId);
      if g.Err? {
        return Err(g.error);
      }
      var k := g.value;
      if shifts[k].status != Active {
        return Err(ShiftAlreadyEnded);
      }
      EndKeepsInvariant(shifts, events, nextId, k, now);
      shifts := shifts[k := Ended(shifts[k], now)];
      r := Ok(ShiftWithEvents(shifts[k], EventsOf(events, shiftId)));
    }

    /** GET /: the user's newest shifts, at most `ListLimit`, newest first,
        each with its events. */
    function ListShifts(user: UserId): (r: seq<ShiftWithEvents>)
      reads this
      ensures r == NewestListing(shifts, events, user)
    {
      NewestListing(shifts, events, user)
    }

    /** GET /active: the user's active shift, if any. */
    function GetActiveShift(user: UserId): (r: Option<ShiftWithEvents>)
      reads this
      ensures r.None? <==> forall s :: s in shifts ==> !(s.userId == user && s.status == Active)
      ensures r.Some? ==>
        r.value.shift in shifts && r.value.shift.userId == user && r.value.shift.status == Active
        && r.value.events == EventsOf(events, r.value.shift.id)
    {
      match ActiveShiftOf(shifts, user)
      case None => None
      case Some(k) => Some(ShiftWithEvents(shifts[k], EventsOf(events, shifts[k].id)))
    }

    /** GET /:shiftId: 404, then 403, else the shift with its events. */
    function GetShift(user: UserId, shiftId: nat): (r: Result<ShiftWithEvents, ShiftError>)
      reads this
      ensures r.Err? <==> OwnedShift(shifts, user, shiftId).Err?
      ensures r.Err? ==> r.error == OwnedShift(shifts, user, shiftId).error
      ensures r.Ok? ==>
        r.value.shift in shifts && r.value.shift.id == shiftId && r.value.shift.userId == user
        && r.value.events == EventsOf(events, shiftId)
    {
      match OwnedShift(shifts, user, shiftId)
      case Err(e) => Err(e)
      case Ok(k) => Ok(ShiftWithEvents(shifts[k], EventsOf(events, shiftId)))
    }

    /** GET /:shiftId/events: 404, then 403, else the shift's events by
        ascending `occurredAt`. */
    function GetShiftEvents(user: UserId, shiftId: nat): (r: Result<seq<ShiftEvent>, ShiftError>)
      reads this
      ensures r.Err? <==> OwnedShift(shifts, user, shiftId).Err?
      ensures r.Err? ==> r.error == OwnedShift(shifts, user, shiftId).error
      ensures r.Ok? ==>
        && multiset(r.value) == multiset(EventsOf(events, shiftId))
        && forall i, j :: 0 <= i < j < |r.value| ==> r.value[i].occurredAt <= r.value[j].occurredAt
    {
      match OwnedShift(shifts, user, shiftId)
      case Err(e) => Err(e)
      case Ok(_) => Ok(Sorting.SortBy(EventsOf(events, shiftId), (e: ShiftEvent) => e.occurredAt))
    }

    /** GET /weekly-range: both bounds must be `YYYY-MM-DD`; the user's
        shifts whose start lies between the first millisecond of `weekStart`
        and the last millisecond of `weekEnd` (UTC), oldest first. */
    function WeeklyRange(user: UserId, weekStart: Option<string>, weekEnd: Option<string>)
      : (r: Result<seq<ShiftWithEvents>, ShiftError>)
      reads this
      ensures r == Err(ValidationError) <==>
        !(weekStart.Some? && IsDateString(weekStart.value) && weekEnd.Some? && IsDateString(weekEnd.value))
      ensures r == Err(InternalError) <==>
        && weekStart.Some? && IsDateString(weekStart.value) && weekEnd.Some? && IsDateString(weekEnd.value)
        && (DayNumber(weekStart.value).None? || DayNumber(weekEnd.value).None?)
      ensures r.Ok? <==>
        && weekStart.Some? && IsDateString(weekStart.value) && weekEnd.Some? && IsDateString(weekEnd.value)
        && DayNumber(weekStart.value).Some? && DayNumber(weekEnd.value).Some?
      ensures r.Ok? ==>
        r.value == ShiftsOnDays(shifts, events, user, DayNumber(weekStart.value).value, DayNumber(weekEnd.value).value)
    {
      if !(weekStart.Some? && IsDateString(weekStart.value) && weekEnd.Some? && IsDateString(weekEnd.value)) then
        Err(ValidationError)
      else if DayNumber(weekStart.value).None? || DayNumber(weekEnd.value).None? then
        Err(InternalError)
      else
        Ok(ShiftsOnDays(shifts, events, user, DayNumber(weekStart.value).value, DayNumber(weekEnd.value).value))
    }
  }
}
