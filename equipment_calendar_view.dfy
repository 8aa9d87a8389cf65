/** The travel calendar of src/components/EquipmentCalendarView.tsx: which
    trips are under way at a selected instant, and the list of days that
    carry a trip. Calendar dates are day numbers (the local midnight that
    `parseISO` gives for an ISO date); an instant is a day number and the
    milliseconds elapsed since that day's midnight. */
module EquipmentCalendarView {
  import opened EquipmentTypes
  import opened Seqs

  const MillisPerDay: int := 86_400_000

  type DayMillis = m: int | 0 <= m < MillisPerDay

  /** A local date-time: `millis` milliseconds after the midnight of `day`. */
  datatype Instant = Instant(day: int, millis: DayMillis)

  /** The instant on the time line, in milliseconds; JavaScript compares
      `Date` objects by this value. */
  function Ticks(t: Instant): int {
    t.day * MillisPerDay + t.millis
  }

  function Midnight(day: int): Instant {
    Instant(day, 0)
  }

  /** A trip, with its start and end dates already parsed to day numbers. */
  datatype TravelEvent = TravelEvent(
    id: string,
    userName: string,
    userAvatar: string,
    destination: string,
    startDay: int,
    endDay: int,
    purpose: string,
    equipments: seq<Equipment>)

  /** `date >= startDate && date <= endDate`, both bounds being midnights. */
  predicate Covers(e: TravelEvent, date: Instant) {
    Ticks(Midnight(e.startDay)) <= Ticks(date) <= Ticks(Midnight(e.endDay))
  }

  /** Read by calendar days: an instant is covered from the midnight of the
      first day up to and including the midnight of the last day, and no later. */
  lemma CoversByDay(e: TravelEvent, date: Instant)
    ensures Covers(e, date) <==>
      e.startDay <= date.day && (date.day < e.endDay || (date.day == e.endDay && date.millis == 0))
  {
  }

  /** The day before the first day and the day after the last day are never
      covered, at any time of day; a trip that ends before it starts covers
      nothing. */
  lemma OutsideRangeNotCovered(e: TravelEvent, m: DayMillis, date: Instant)
    ensures !Covers(e, Instant(e.startDay - 1, m))
    ensures !Covers(e, Instant(e.endDay + 1, m))
    ensures e.endDay < e.startDay ==> !Covers(e, date)
  {
    CoversByDay(e, Instant(e.startDay - 1, m));
    CoversByDay(e, Instant(e.endDay + 1, m));
    CoversByDay(e, date);
  }

  /** `getEventsForDate(date)`: the trips covering `date`, in list order. */
  function EventsForDate(events: seq<TravelEvent>, date: Instant): (r: seq<TravelEvent>)
    ensures forall e :: e in r <==> e in events && Covers(e, date)
    ensures IsSubseq(r, events)
  {
    Filter(e => Covers(e, date), events)
  }

  /** The days `lo`, `lo + 1`, ..., `hi` in ascending order; none when `hi < lo`. */
  function DayRange(lo: int, hi: int): (days: seq<int>)
    ensures |days| == if hi < lo then 0 else hi - lo + 1
    ensures forall k :: 0 <= k < |days| ==> days[k] == lo + k
    decreases hi - lo + 1
  {
    if hi < lo then [] else DayRange(lo, hi - 1) + [hi]
  }

  /** The number of days a trip spans: `max(0, end - start + 1)`. */
  function SpanLength(e: TravelEvent): nat {
    if e.endDay < e.startDay then 0 else e.endDay - e.startDay + 1
  }

  /** The days of every trip, trip after trip, each trip's days ascending;
      overlapping trips repeat their shared days. */
  function EventDays(events: seq<TravelEvent>): seq<int> {
    if events == [] then []
    else
      var last := events[|events| - 1];
      EventDays(events[..|events| - 1]) + DayRange(last.startDay, last.endDay)
  }

  function TotalSpan(events: seq<TravelEvent>): nat {
    if events == [] then 0 else TotalSpan(events[..|events| - 1]) + SpanLength(events[|events| - 1])
  }

  /** `getAllEventDates()`: for each trip, a day cursor walks from the first
      day while it is not past the last day, pushing every day it visits. */
  method GetAllEventDates(events: seq<TravelEvent>) returns (dates: seq<int>)
    ensures dates == EventDays(events)
  {
    dates := [];
    var i := 0;
    while i < |events|
      invariant 0 <= i <= |events|
      invariant dates == EventDays(events[..i])
    {
      var event := events[i];
      var d := event.startDay;
      while d <= event.endDay
        invariant event.startDay <= d && (d <= event.endDay + 1 || d == event.startDay)
        invariant dates == EventDays(events[..i]) + DayRange(event.startDay, d - 1)
      {
        dates := dates + [d];
        d := d + 1;
      }
      assert events[..i + 1][..i] == events[..i];
      i := i + 1;
    }
    assert events[..|events|] == events;
  }

  /** The list holds one entry per day of each trip, duplicates included. */
  lemma {:induction false} EventDaysLength(events: seq<TravelEvent>)
    ensures |EventDays(events)| == TotalSpan(events)
  {
    if events != [] {
      EventDaysLength(events[..|events| - 1]);
    }
  }

  /** A day is listed exactly when some trip's range holds it. */
  lemma {:induction false} EventDaysMembership(events: seq<TravelEvent>, d: int)
    ensures d in EventDays(events) <==> exists e :: e in events && e.startDay <= d <= e.endDay
  {
    if events != [] {
      var init, last := events[..|events| - 1], events[|events| - 1];
      EventDaysMembership(init, d);
      var range := DayRange(last.startDay, last.endDay);
      assert d in range <==> last.startDay <= d <= last.endDay by {
        if last.startDay <= d <= last.endDay {
          assert range[d - last.startDay] == d;
        }
      }
      assert events == init + [last];
      if exists e :: e in events && e.startDay <= d <= e.endDay {
        var e :| e in events && e.startDay <= d <= e.endDay;
        if e != last {
          assert e in init;
        }
      }
    }
  }

  /** The two views agree: a day is marked on the calendar exactly when
      selecting that day (at midnight) lists at least one trip. */
  lemma MarkedIffHasEvents(events: seq<TravelEvent>, d: int)
    ensures d in EventDays(events) <==> EventsForDate(events, Midnight(d)) != []
  {
    EventDaysMembership(events, d);
    var r := EventsForDate(events, Midnight(d));
    if d in EventDays(events) {
      var e :| e in events && e.startDay <= d <= e.endDay;
      CoversByDay(e, Midnight(d));
      assert e in r;
    }
    if r != [] {
      var e := r[0];
      assert e in r;
      CoversByDay(e, Midnight(d));
    }
  }

  /** The days of two lists of trips, one after the other, are the days of
      the first list followed by those of the second. */
  lemma {:induction false} EventDaysConcat(a: seq<TravelEvent>, b: seq<TravelEvent>)
    ensures EventDays(a + b) == EventDays(a) + EventDays(b)
    decreases |b|
  {
    if b == [] {
      assert a + b == a;
    } else {
      var init := b[..|b| - 1];
      assert (a + b)[..|a + b| - 1] == a + init;
      assert (a + b)[|a + b| - 1] == b[|b| - 1];
      EventDaysConcat(a, init);
    }
  }

  /** A trip that ends before it starts adds no day to the list, wherever
      it stands among the others. */
  lemma BackwardTripAddsNothing(before: seq<TravelEvent>, e: TravelEvent, after: seq<TravelEvent>)
    requires e.endDay < e.startDay
    ensures EventDays(before + [e] + after) == EventDays(before + after)
  {
    EventDaysConcat(before + [e], after);
    EventDaysConcat(before, after);
    assert (before + [e])[..|before|] == before;
  }

  /** Overlapping trips are not merged: trips over days 15-17 and 16 give
      four entries, day 16 twice. */
  lemma OverlapKeepsDuplicates(a: TravelEvent, b: TravelEvent)
    requires a.startDay == 15 && a.endDay == 17 && b.startDay == 16 && b.endDay == 16
    ensures EventDays([a, b]) == [15, 16, 17, 16]
  {
    assert [a, b][..1] == [a];
    assert [a][..0] == [];
    var first := DayRange(15, 17);
    assert first[0] == 15 && first[1] == 16 && first[2] == 17;
    assert EventDays([a]) == [] + first;
    var second := DayRange(16, 16);
    assert second[0] == 16;
    assert EventDays([a, b]) == EventDays([a]) + second;
  }
}
