/** Slot generation and availability: the half-hour slots between 07:00 and
    17:00 in the business's reference time zone (America/Denver), minus those
    already past today, each marked unavailable when a busy calendar event
    overlaps it. */
module Calendar {
  import opened Fields
  import opened Records
  import Holidays

  const OpenHour: int := 7
  const CloseHour: int := 17
  const SlotMinutes: int := 30
  const SlotsPerDay: int := 20  // (CloseHour - OpenHour) * 60 / SlotMinutes

  /** The reference zone's UTC offset in minutes on each local date (for example
      -420 in winter and -360 in summer); how it is looked up is not modelled. */
  type ZoneOffset = Day -> int

  /** The current instant and the reference zone's current local date. */
  datatype Clock = Clock(now: Instant, today: Day)

  /** The bounds of an existing calendar event, as instants. */
  datatype BusyEvent = BusyEvent(start: Instant, end: Instant)

  /** An event as the remote calendar lists it: with bounds that parse to instants,
      with bounds that parse to an invalid date (every comparison with them is false),
      or without a `start` or `end` object, so that reading its bounds throws. */
  datatype ListedEvent = Timed(busy: BusyEvent) | UnparsedTimes | Untimed

  /** The remote calendar read for the day: its listed events, or a failure of any kind. */
  datatype EventsRead = Read(events: seq<ListedEvent>) | ReadFailed

  /** The instant at local minute-of-day `minuteOfDay` on local date `date`. */
  function LocalToInstant(offset: ZoneOffset, date: Day, minuteOfDay: int): Instant
  {
    date * MinutesPerDay + minuteOfDay - offset(date)
  }

  /** The local minute-of-day that instant `t` shows on local date `date`. */
  function LocalMinuteOfDay(offset: ZoneOffset, date: Day, t: Instant): int
  {
    t + offset(date) - date * MinutesPerDay
  }

  /** The i-th half-hour boundary of the business window on `date`. */
  function SlotStart(offset: ZoneOffset, date: Day, i: int): Instant
  {
    LocalToInstant(offset, date, OpenHour * 60 + i * SlotMinutes)
  }

  function SlotAt(offset: ZoneOffset, date: Day, i: int): TimeSlot
  {
    TimeSlot(SlotStart(offset, date, i), SlotStart(offset, date, i) + SlotMinutes, true)
  }

  /** Every slot of the business window on `date`, in order: what generation
      yields when no slot is in the past. */
  function FullDay(offset: ZoneOffset, date: Day): seq<TimeSlot>
  {
    seq(SlotsPerDay, i => SlotAt(offset, date, i))
  }

  predicate StartsAscending(xs: seq<TimeSlot>)
  {
    forall i, j :: 0 <= i < j < |xs| ==> xs[i].start < xs[j].start
  }

  /** A slot is dropped when its date is today and it starts at or before now. */
  predicate IsPast(clock: Clock, date: Day, s: TimeSlot)
  {
    date == clock.today && s.start <= clock.now
  }

  /** The slots of `xs` that are not past, in order. */
  function Upcoming(clock: Clock, date: Day, xs: seq<TimeSlot>): seq<TimeSlot>
    decreases |xs|
  {
    if xs == [] then []
    else
      var last := xs[|xs| - 1];
      Upcoming(clock, date, xs[..|xs| - 1]) + (if IsPast(clock, date, last) then [] else [last])
  }

  /** The full day has twenty half-hour slots, from 07:00 to 16:30 local, each thirty
      minutes long, aligned to the half hour inside the window, in ascending order. */
  lemma FullDayShape(offset: ZoneOffset, date: Day)
    ensures var full := FullDay(offset, date);
      && |full| == 20
      && LocalMinuteOfDay(offset, date, full[0].start) == 7 * 60
      && LocalMinuteOfDay(offset, date, full[|full| - 1].start) == 16 * 60 + 30
      && StartsAscending(full)
      && (forall i :: 0 <= i < |full| ==> full[i].end == full[i].start + SlotMinutes && full[i].available)
      && (forall i :: 0 <= i < |full| ==>
            OpenHour * 60 <= LocalMinuteOfDay(offset, date, full[i].start) < CloseHour * 60 &&
            LocalMinuteOfDay(offset, date, full[i].start) % SlotMinutes == 0)
  {
    var full := FullDay(offset, date);
    forall i | 0 <= i < |full|
      ensures LocalMinuteOfDay(offset, date, full[i].start) == OpenHour * 60 + i * SlotMinutes
      ensures (OpenHour * 60 + i * SlotMinutes) % SlotMinutes == 0
    {
      assert OpenHour * 60 + i * SlotMinutes == (14 + i) * SlotMinutes;
    }
  }

  /** Outside today nothing is dropped. */
  lemma {:induction false} UpcomingNotToday(clock: Clock, date: Day, xs: seq<TimeSlot>)
    requires date != clock.today
    ensures Upcoming(clock, date, xs) == xs
    decreases |xs|
  {
    if xs != [] {
      UpcomingNotToday(clock, date, xs[..|xs| - 1]);
      assert xs[..|xs| - 1] + [xs[|xs| - 1]] == xs;
    }
  }

  /** Filtering keeps exactly the slots that are not past: it drops no future slot
      and keeps no past one, and the kept slots come from the input. */
  lemma {:induction false} UpcomingMembers(clock: Clock, date: Day, xs: seq<TimeSlot>)
    ensures forall s :: s in Upcoming(clock, date, xs) <==> s in xs && !IsPast(clock, date, s)
    decreases |xs|
  {
    if xs != [] {
      var init := xs[..|xs| - 1];
      UpcomingMembers(clock, date, init);
      assert xs == init + [xs[|xs| - 1]];
    }
  }

  /** On slots in ascending start order the kept slots form a suffix. */
  lemma {:induction false} UpcomingIsSuffix(clock: Clock, date: Day, xs: seq<TimeSlot>) returns (k: nat)
    requires StartsAscending(xs)
    ensures k <= |xs| && Upcoming(clock, date, xs) == xs[k..]
    decreases |xs|
  {
    if xs == [] {
      k := 0;
    } else {
      var init := xs[..|xs| - 1];
      var last := xs[|xs| - 1];
      assert StartsAscending(init);
      var k' := UpcomingIsSuffix(clock, date, init);
      if IsPast(clock, date, last) {
        UpcomingMembers(clock, date, init);
        assert forall s :: s in init ==> IsPast(clock, date, s);
        assert Upcoming(clock, date, init) == [];
        k := |xs|;
      } else {
        k := k';
        assert init[k'..] + [last] == xs[k'..];
      }
    }
  }

  /** Every suffix of the full day keeps its slot shape and order. */
  lemma FullDaySuffixShape(offset: ZoneOffset, date: Day, k: nat)
    requires k <= SlotsPerDay
    ensures var slots := FullDay(offset, date)[k..];
      && (forall i :: 0 <= i < |slots| ==> slots[i].end == slots[i].start + SlotMinutes && slots[i].available)
      && (forall i :: 0 <= i < |slots| ==>
            OpenHour * 60 <= LocalMinuteOfDay(offset, date, slots[i].start) < CloseHour * 60 &&
            LocalMinuteOfDay(offset, date, slots[i].start) % SlotMinutes == 0)
      && StartsAscending(slots)
  {
    var full := FullDay(offset, date);
    FullDayShape(offset, date);
    assert forall i :: 0 <= i < |full[k..]| ==> full[k..][i] == full[k + i];
  }

  /** What generation promises about the slots it keeps on `date`. */
  lemma UpcomingFullDayProperties(offset: ZoneOffset, clock: Clock, date: Day)
    ensures var slots := Upcoming(clock, date, FullDay(offset, date));
      && (date != clock.today ==> slots == FullDay(offset, date))
      && (exists k :: 0 <= k <= SlotsPerDay && slots == FullDay(offset, date)[k..])
      && (date == clock.today ==> forall i :: 0 <= i < |slots| ==> slots[i].start > clock.now)
      && (forall i :: 0 <= i < |slots| ==> slots[i].end == slots[i].start + SlotMinutes && slots[i].available)
      && (forall i :: 0 <= i < |slots| ==>
            OpenHour * 60 <= LocalMinuteOfDay(offset, date, slots[i].start) < CloseHour * 60 &&
            LocalMinuteOfDay(offset, date, slots[i].start) % SlotMinutes == 0)
      && StartsAscending(slots)
  {
    var full := FullDay(offset, date);
    var slots := Upcoming(clock, date, full);
    FullDaySuffixShape(offset, date, 0);
    assert full[0..] == full;
    var k := UpcomingIsSuffix(clock, date, full);
    FullDaySuffixShape(offset, date, k);
    if date != clock.today {
      UpcomingNotToday(clock, date, full);
    } else {
      UpcomingAfterNow(offset, clock, date);
    }
  }

  /** Today, every kept slot starts after now. */
  lemma UpcomingAfterNow(offset: ZoneOffset, clock: Clock, date: Day)
    requires date == clock.today
    ensures var slots := Upcoming(clock, date, FullDay(offset, date));
      forall i :: 0 <= i < |slots| ==> slots[i].start > clock.now
  {
    var slots := Upcoming(clock, date, FullDay(offset, date));
    UpcomingMembers(clock, date, FullDay(offset, date));
    assert forall i :: 0 <= i < |slots| ==> slots[i] in slots;
  }

  /** `generateTimeSlots`: for each hour 07 … 16 and minute 0, 30, the local slot on
      `date`; when `date` is today, a slot starting at or before now is skipped. */
  method GenerateTimeSlots(offset: ZoneOffset, clock: Clock, date: Day) returns (slots: seq<TimeSlot>)
    ensures slots == Upcoming(clock, date, FullDay(offset, date))
    ensures date != clock.today ==> slots == FullDay(offset, date)
    ensures exists k :: 0 <= k <= SlotsPerDay && slots == FullDay(offset, date)[k..]
    ensures date == clock.today ==> forall i :: 0 <= i < |slots| ==> slots[i].start > clock.now
    ensures forall i :: 0 <= i < |slots| ==> slots[i].end == slots[i].start + SlotMinutes && slots[i].available
    ensures forall i :: 0 <= i < |slots| ==>
      OpenHour * 60 <= LocalMinuteOfDay(offset, date, slots[i].start) < CloseHour * 60 &&
      LocalMinuteOfDay(offset, date, slots[i].start) % SlotMinutes == 0
    ensures StartsAscending(slots)
  {
    slots := CollectSlots(offset, clock, date);
    UpcomingFullDayProperties(offset, clock, date);
  }

  /** The two nested loops of `generateTimeSlots`. */
  method CollectSlots(offset: ZoneOffset, clock: Clock, date: Day) returns (slots: seq<TimeSlot>)
    ensures slots == Upcoming(clock, date, FullDay(offset, date))
  {
    slots := [];
    var hour := OpenHour;
    while hour < CloseHour
      invariant OpenHour <= hour <= CloseHour
      invariant slots == Upcoming(clock, date, FullDay(offset, date)[..(hour - OpenHour) * 2])
    {
      slots := CollectHour(offset, clock, date, hour, slots);
      hour := hour + 1;
    }
    assert FullDay(offset, date)[..SlotsPerDay] == FullDay(offset, date);
  }

  /** The inner loop for one hour: its :00 and :30 slots, each kept unless past. */
  method CollectHour(offset: ZoneOffset, clock: Clock, date: Day, hour: int, before: seq<TimeSlot>)
    returns (slots: seq<TimeSlot>)
    requires OpenHour <= hour < CloseHour
    requires before == Upcoming(clock, date, FullDay(offset, date)[..(hour - OpenHour) * 2])
    ensures slots == Upcoming(clock, date, FullDay(offset, date)[..(hour - OpenHour) * 2 + 2])
  {
    ghost var full := FullDay(offset, date);
    slots := before;
    ghost var index := (hour - OpenHour) * 2;
    var minute := 0;
    while minute < 60
      invariant minute == 0 || minute == SlotMinutes || minute == 60
      invariant hour * 60 + minute == OpenHour * 60 + index * SlotMinutes
      invariant slots == Upcoming(clock, date, full[..index])
    {
      slots := CollectSlot(offset, clock, date, hour * 60 + minute, index, slots);
      minute := minute + SlotMinutes;
      index := index + 1;
    }
  }

  /** One pass of the inner loop: the slot at local minute `minuteOfDay`, the
      `index`-th of the day, is kept unless it is past. */
  method CollectSlot(offset: ZoneOffset, clock: Clock, date: Day, minuteOfDay: int, ghost index: int,
                     before: seq<TimeSlot>)
    returns (slots: seq<TimeSlot>)
    requires 0 <= index < SlotsPerDay && minuteOfDay == OpenHour * 60 + index * SlotMinutes
    requires before == Upcoming(clock, date, FullDay(offset, date)[..index])
    ensures slots == Upcoming(clock, date, FullDay(offset, date)[..index + 1])
  {
    var start := LocalToInstant(offset, date, minuteOfDay);
    var slot := TimeSlot(start, start + SlotMinutes, true);
    FullDayAt(offset, date, index);
    UpcomingSnoc(clock, date, FullDay(offset, date), index);
    var isPast := false;
    if date == clock.today {
      isPast := start <= clock.now;
    }
    slots := before;
    if !isPast {
      slots := slots + [slot];
    }
  }

  lemma FullDayAt(offset: ZoneOffset, date: Day, i: int)
    requires 0 <= i < SlotsPerDay
    ensures FullDay(offset, date)[i] ==
      TimeSlot(LocalToInstant(offset, date, OpenHour * 60 + i * SlotMinutes),
               LocalToInstant(offset, date, OpenHour * 60 + i * SlotMinutes) + SlotMinutes, true)
  {
  }

  /** Filtering one more slot appends it exactly when it is not past. */
  lemma UpcomingSnoc(clock: Clock, date: Day, xs: seq<TimeSlot>, k: nat)
    requires k < |xs|
    ensures Upcoming(clock, date, xs[..k + 1]) ==
      Upcoming(clock, date, xs[..k]) + (if IsPast(clock, date, xs[k]) then [] else [xs[k]])
  {
    assert xs[..k + 1][..k] == xs[..k];
  }

  /** A slot and an event overlap when each starts before the other ends; an event
      that only touches a slot's boundary does not. */
  predicate Overlaps(s: TimeSlot, e: BusyEvent)
  {
    s.start < e.end && s.end > e.start
  }

  /** A listed event blocks a slot when its bounds parse and overlap the slot. */
  predicate Blocks(s: TimeSlot, e: ListedEvent)
  {
    e.Timed? && Overlaps(s, e.busy)
  }

  /** Checking slot `s` against `events` throws when the scan reaches an event
      without bounds before it finds one that blocks the slot. */
  predicate Throws(s: TimeSlot, events: seq<ListedEvent>)
  {
    exists k :: 0 <= k < |events| && events[k].Untimed? && forall j :: 0 <= j < k ==> !Blocks(s, events[j])
  }

  /** The `existingEvents.some(...)` test for one slot: whether some event blocks it,
      or `None` when the scan throws first. */
  function SomeEventBlocks(s: TimeSlot, events: seq<ListedEvent>): (r: Option<bool>)
    ensures r.None? <==> Throws(s, events)
    ensures r.Some? ==> (r.value <==> exists k :: 0 <= k < |events| && Blocks(s, events[k]))
  {
    if events == [] then Some(false)
    else if events[0].Untimed? then None
    else if Blocks(s, events[0]) then
      Some(true)
    else
      var rest := SomeEventBlocks(s, events[1..]);
      ThrowsPastHead(s, events);
      assert forall k :: 0 < k < |events| ==> events[k] == events[1..][k - 1];
      rest
  }

  /** Past a head event that neither blocks nor throws, the scan behaves as on the tail. */
  lemma ThrowsPastHead(s: TimeSlot, events: seq<ListedEvent>)
    requires events != [] && !events[0].Untimed? && !Blocks(s, events[0])
    ensures Throws(s, events) <==> Throws(s, events[1..])
  {
    var tail := events[1..];
    assert forall k :: 0 < k < |events| ==> events[k] == tail[k - 1];
    if Throws(s, events) {
      var k :| 0 <= k < |events| && events[k].Untimed? && forall j :: 0 <= j < k ==> !Blocks(s, events[j]);
      assert k > 0;
      assert tail[k - 1].Untimed? && forall j :: 0 <= j < k - 1 ==> !Blocks(s, tail[j]);
    }
    if Throws(s, tail) {
      var k :| 0 <= k < |tail| && tail[k].Untimed? && forall j :: 0 <= j < k ==> !Blocks(s, tail[j]);
      assert events[k + 1].Untimed? && forall j :: 0 <= j < k + 1 ==> !Blocks(s, events[j]);
    }
  }

  /** The conflict marking of `getAvailableTimeSlots`: `None` when checking some slot
      throws; otherwise each slot keeps its bounds and is available exactly when no
      listed event blocks it. */
  function MarkAvailability(slots: seq<TimeSlot>, events: seq<ListedEvent>): (r: Option<seq<TimeSlot>>)
    ensures r.None? <==> exists i :: 0 <= i < |slots| && Throws(slots[i], events)
    ensures r.Some? ==> |r.value| == |slots|
    ensures r.Some? ==> forall i :: 0 <= i < |slots| ==>
      r.value[i].start == slots[i].start && r.value[i].end == slots[i].end
    ensures r.Some? ==> forall i :: 0 <= i < |slots| ==>
      (r.value[i].available <==> forall k :: 0 <= k < |events| ==> !Blocks(slots[i], events[k]))
  {
    if exists i :: 0 <= i < |slots| && SomeEventBlocks(slots[i], events).None? then None
    else
      Some(seq(|slots|, i requires 0 <= i < |slots| =>
        slots[i].(available := match SomeEventBlocks(slots[i], events) case Some(b) => !b case None => true)))
  }

  /** The fallback mapping `{ ...slot, available: true }`. */
  function AllAvailable(slots: seq<TimeSlot>): (r: seq<TimeSlot>)
    ensures |r| == |slots|
    ensures forall i :: 0 <= i < |r| ==> r[i].start == slots[i].start && r[i].end == slots[i].end && r[i].available
  {
    seq(|slots|, i requires 0 <= i < |slots| => slots[i].(available := true))
  }

  /** The failure path of `getAvailableTimeSlots`: re-check the date, then offer every
      generated slot as available. */
  method FallbackSlots(table: Holidays.HolidayTable, offset: ZoneOffset, clock: Clock, date: Day)
    returns (slots: seq<TimeSlot>)
    ensures !Holidays.IsBusinessDay(table, date) ==> slots == []
    ensures Holidays.IsBusinessDay(table, date) ==> slots == Upcoming(clock, date, FullDay(offset, date))
    ensures forall i :: 0 <= i < |slots| ==> slots[i].available
  {
    if !Holidays.IsBusinessDay(table, date) {
      return [];
    }
    var generated := GenerateTimeSlots(offset, clock, date);
    slots := AllAvailable(generated);
    assert slots == generated;
  }

  /** `getAvailableTimeSlots`: no slots on a non-business day; otherwise the generated
      slots, marked against the remote calendar's events, or all offered as available
      when the calendar read fails. */
  method GetAvailableTimeSlots(table: Holidays.HolidayTable, offset: ZoneOffset, clock: Clock, date: Day,
                               read: EventsRead)
    returns (slots: seq<TimeSlot>)
    ensures !Holidays.IsBusinessDay(table, date) ==> slots == []
    ensures Holidays.IsBusinessDay(table, date) && read.ReadFailed? ==>
      slots == Upcoming(clock, date, FullDay(offset, date)) &&
      forall i :: 0 <= i < |slots| ==> slots[i].available
    ensures Holidays.IsBusinessDay(table, date) && read.Read? ==>
      var generated := Upcoming(clock, date, FullDay(offset, date));
      (exists i :: 0 <= i < |generated| && Throws(generated[i], read.events)) ==>
        slots == generated && forall i :: 0 <= i < |slots| ==> slots[i].available
    ensures Holidays.IsBusinessDay(table, date) && read.Read? ==>
      var generated := Upcoming(clock, date, FullDay(offset, date));
      (forall i :: 0 <= i < |generated| ==> !Throws(generated[i], read.events)) ==>
      && |slots| == |generated|
      && (forall i :: 0 <= i < |slots| ==> slots[i].start == generated[i].start && slots[i].end == generated[i].end)
      && (forall i :: 0 <= i < |slots| ==>
            (slots[i].available <==> forall k :: 0 <= k < |read.events| ==> !Blocks(generated[i], read.events[k])))
  {
    if !Holidays.IsBusinessDay(table, date) {
      return [];
    }
    match read {
      case ReadFailed =>
        slots := FallbackSlots(table, offset, clock, date);
      case Read(events) =>
        var generated := GenerateTimeSlots(offset, clock, date);
        var marked := MarkAvailability(generated, events);
        if marked.None? {
          slots := FallbackSlots(table, offset, clock, date);
        } else {
          slots := marked.value;
        }
    }
  }

  /** When every listed event has bounds, no slot's check throws, so the marking
      always completes and the fallback is never taken for that read. */
  lemma BoundedEventsNeverThrow(slots: seq<TimeSlot>, events: seq<ListedEvent>)
    requires forall k :: 0 <= k < |events| ==> !events[k].Untimed?
    ensures MarkAvailability(slots, events).Some?
  {
  }

  /** An event without bounds is harmless for a slot that an earlier event already
      blocks: the scan stops at the first blocking event. */
  lemma BlockingEventShieldsLaterUntimed(s: TimeSlot, e: BusyEvent)
    requires Overlaps(s, e)
    ensures SomeEventBlocks(s, [Timed(e), Untimed]) == Some(true)
    ensures SomeEventBlocks(s, [Untimed, Timed(e)]).None?
  {
  }

  /** A busy event spanning exactly one slot of the day blocks that slot and no other:
      neighbouring slots only touch its boundaries. */
  lemma ExactEventBlocksOnlyItsSlot(offset: ZoneOffset, date: Day, i: int, j: int)
    requires 0 <= i < SlotsPerDay && 0 <= j < SlotsPerDay
    ensures var full := FullDay(offset, date);
      var marked := MarkAvailability(full, [Timed(BusyEvent(full[i].start, full[i].end))]);
      marked.Some? && (marked.value[j].available <==> i != j)
  {
    var full := FullDay(offset, date);
    assert full[j].start - full[i].start == (j - i) * SlotMinutes;
  }
}
