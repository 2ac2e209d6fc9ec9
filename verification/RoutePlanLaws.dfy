/** What the route scheduler promises: how days are shared out, how the stops are laid out, and when padding a
    day keeps its times in order. */
module RoutePlanLaws {
  import opened Wrappers
  import opened Sequences
  import opened Clock
  import opened Numbers
  import opened Plan
  import opened RoutePlan
  import Validator

  // ---------- sharing out the days ----------

  /** A stop that is not the last never gets more days than the nights it asks for. */
  lemma {:induction false} NightsAreNotExceeded(stops: seq<Stop>, days: int, k: nat)
    requires k < |stops| - 1 && HasNights(stops[k])
    ensures |DayCounts(stops, days)| == |stops|
    ensures DayCounts(stops, days)[k] <= stops[k].nights.value
  {
    AllocationIsComplete(stops, days);
    if k > 0 {
      NightsAreNotExceeded(stops[1..], days - CountFor(stops[0], days, |stops| - 1), k - 1);
    }
  }

  function NightsBefore(stops: seq<Stop>): int {
    if |stops| <= 1 then 0
    else (if HasNights(stops[0]) then stops[0].nights.value else 0) + NightsBefore(stops[1..])
  }

  lemma {:induction false} NightsCover(stops: seq<Stop>)
    requires stops != [] && forall k :: 0 <= k < |stops| - 1 ==> HasNights(stops[k])
    ensures NightsBefore(stops) >= |stops| - 1
  {
    if |stops| > 1 {
      NightsCover(stops[1..]);
    }
  }

  /** When every stop before the last asks for nights and a day is left for the last, all get what they ask. */
  lemma {:induction false} NightsAreHonoured(stops: seq<Stop>, days: int)
    requires stops != [] && forall k :: 0 <= k < |stops| - 1 ==> HasNights(stops[k])
    requires NightsBefore(stops) < days
    ensures |DayCounts(stops, days)| == |stops|
    ensures forall k :: 0 <= k < |stops| - 1 ==> stops[k].nights == Some(DayCounts(stops, days)[k])
    ensures DayCounts(stops, days)[|stops| - 1] == days - NightsBefore(stops)
  {
    AllocationIsComplete(stops, days);
    if |stops| > 1 {
      var nights := stops[0].nights.value;
      NightsCover(stops[1..]);
      assert CountFor(stops[0], days, |stops| - 1) == nights;
      NightsAreHonoured(stops[1..], days - nights);
    }
  }

  lemma {:induction false} EvenSplit(stops: seq<Stop>, days: int, k: nat, q: nat)
    requires k < |stops| && forall j :: 0 <= j < |stops| ==> !HasNights(stops[j])
    requires q >= 1 && |stops| * q <= days <= |stops| * q + |stops|
    ensures |DayCounts(stops, days)| == |stops|
    ensures q <= DayCounts(stops, days)[k] <= q + 1
  {
    AllocationIsComplete(stops, days);
    var n := |stops|;
    if n == 1 {
      assert 1 * q == q;
    } else {
      var count := CountFor(stops[0], days, n - 1);
      ShareIsEven(days, n, q);
      assert n * q == (n - 1) * q + q;
      if k > 0 {
        EvenSplit(stops[1..], days - count, k - 1, q);
      }
    }
  }

  /** Taking an even share leaves the rest evenly shareable. */
  lemma ShareIsEven(days: int, n: nat, q: nat)
    requires n >= 2 && q >= 1 && n * q <= days <= n * q + n
    ensures days / n == if days == n * q + n then q + 1 else q
    ensures n * q == (n - 1) * q + q
  {
    if days == n * q + n {
      DivModUnique(days, n, q + 1, 0);
    } else {
      DivModUnique(days, n, q, days - n * q);
    }
  }

  /** With no nights asked for and a day for every stop, no stop gets over one day more than another. */
  lemma DaysAreSharedEvenly(stops: seq<Stop>, days: int, j: nat, k: nat)
    requires j < |stops| <= days && k < |stops|
    requires forall i :: 0 <= i < |stops| ==> !HasNights(stops[i])
    ensures |DayCounts(stops, days)| == |stops|
    ensures DayCounts(stops, days)[j] <= DayCounts(stops, days)[k] + 1
  {
    var n := |stops|;
    var q := days / n;
    assert days == n * q + days % n && q >= 1;
    EvenSplit(stops, days, j, q);
    EvenSplit(stops, days, k, q);
  }

  /** What a stop before the last gets of the `remaining` days when `after` stops follow: the nights it asks for, as far
      as a day is left for each stop behind it, or else the whole part of an even share; at least one day. */
  ghost predicate IsShare(stop: Stop, remaining: int, after: nat, count: int) {
    if stop.nights.Some? && stop.nights.value > 0 then
      && 1 <= count <= stop.nights.value && (count > 1 ==> count + after <= remaining)
      && (count < stop.nights.value ==> count + 1 + after > remaining)
    else
      && count >= 1 && (count > 1 ==> count * (after + 1) <= remaining)
      && remaining < (count + 1) * (after + 1)
  }

  /** Each stop takes its share of what the stops before it leave, and the last takes the rest. */
  lemma {:induction false} SharesAre(stops: seq<Stop>, days: int, k: nat)
    requires k < |stops|
    ensures |DayCounts(stops, days)| == |stops|
    ensures var counts := DayCounts(stops, days);
            var remaining := days - DaysAllocated(counts[..k]);
            if k == |stops| - 1 then counts[k] == Max(1, remaining) else IsShare(stops[k], remaining, |stops| - 1 - k, counts[k])
  {
    var counts, first := DayCounts(stops, days), CountFor(stops[0], days, |stops| - 1);
    AllocationIsComplete(stops, days);
    if |stops| > 1 {
      ShareOf(stops[0], days, |stops| - 1);
    }
    if k == 0 {
      assert counts[..0] == [];
    } else {
      SharesAre(stops[1..], days - first, k - 1);
      OthersShare(stops, days, k);
      assert stops[1..][k - 1] == stops[k];
      hide IsShare, DayCounts, DaysAllocated, CountFor;
    }
  }

  lemma OthersShare(stops: seq<Stop>, days: int, k: nat)
    requires 0 < k < |stops|
    ensures |DayCounts(stops, days)| == |stops| && |DayCounts(stops[1..], days - CountFor(stops[0], days, |stops| - 1))| == |stops| - 1
    ensures var counts, first := DayCounts(stops, days), CountFor(stops[0], days, |stops| - 1);
            var later := DayCounts(stops[1..], days - first);
            counts[k] == later[k - 1] && DaysAllocated(counts[..k]) == first + DaysAllocated(later[..k - 1])
  {
    var counts, first := DayCounts(stops, days), CountFor(stops[0], days, |stops| - 1);
    var later := DayCounts(stops[1..], days - first);
    AllocationIsComplete(stops, days);
    AllocationIsComplete(stops[1..], days - first);
    assert counts == [first] + later;
    hide DayCounts, CountFor;
    assert counts[..k] == [first] + later[..k - 1];
    TotalOfConcat([first], later[..k - 1]);
    assert DaysAllocated([first]) == first + DaysAllocated([]);
  }

  lemma ShareOf(stop: Stop, remaining: int, after: nat)
    requires after > 0
    ensures IsShare(stop, remaining, after, CountFor(stop, remaining, after))
  {
    if !HasNights(stop) {
      var n := after + 1;
      var q := remaining / n;
      assert remaining == q * n + remaining % n;
      assert (q + 1) * n == q * n + n;
      if q < 1 {
        assert CountFor(stop, remaining, after) == 1;
        assert remaining < n by {
          if remaining >= n {
            QuotientFits(remaining, n);
          }
        }
      }
    }
  }

  // ---------- the layout ----------

  /** One day of travel order to the next: another day at the same stop, or the first day of the next. */
  predicate Follows(counts: seq<nat>, a: Slot, b: Slot)
    requires a.stop < |counts|
  {
    || (b == Slot(a.stop, a.index + 1) && b.index < counts[a.stop])
    || (b == Slot(a.stop + 1, 0) && a.index + 1 == counts[a.stop])
  }

  ghost predicate Walk(counts: seq<nat>, slots: seq<Slot>) {
    && (forall d :: 0 <= d < |slots| ==> slots[d].stop < |counts|)
    && (slots != [] ==> slots[0] == Slot(0, 0))
    && (forall d :: 0 < d < |slots| ==> Follows(counts, slots[d - 1], slots[d]))
  }

  lemma {:induction false} SlotsAreAWalk(counts: seq<nat>, s: nat)
    requires s <= |counts| && forall k :: 0 <= k < |counts| ==> counts[k] >= 1
    ensures Walk(counts, SlotsBefore(counts, s))
    ensures s > 0 ==> SlotsBefore(counts, s) != []
    ensures s > 0 ==> var slots := SlotsBefore(counts, s); slots[|slots| - 1] == Slot(s - 1, counts[s - 1] - 1)
  {
    if s > 0 {
      SlotsAreAWalk(counts, s - 1);
      SlotsAtAre(s - 1, counts[s - 1]);
      var before, now := SlotsBefore(counts, s - 1), SlotsAt(s - 1, counts[s - 1]);
      var slots := before + now;
      forall d | 0 < d < |slots|
        ensures Follows(counts, slots[d - 1], slots[d])
      {
        if d < |before| {
          assert slots[d - 1] == before[d - 1] && slots[d] == before[d];
        } else {
          assert slots[d] == now[d - |before|];
        }
      }
    }
  }

  predicate IsArrival(slot: Slot) {
    slot.index == 0
  }

  /** Every stop on a walk is entered exactly once, so the arrivals number the stops reached. */
  lemma {:induction false} ArrivalsCountStops(counts: seq<nat>, slots: seq<Slot>)
    requires Walk(counts, slots) && slots != []
    ensures Count(slots, IsArrival) == slots[|slots| - 1].stop + 1
  {
    var last := |slots| - 1;
    var front := slots[..last];
    assert slots == front + [slots[last]];
    CountConcat(front, [slots[last]], IsArrival);
    if last > 0 {
      ArrivalsCountStops(counts, front);
      assert Follows(counts, slots[last - 1], slots[last]);
    }
  }

  lemma WalkPrefix(counts: seq<nat>, slots: seq<Slot>, n: nat)
    requires Walk(counts, slots)
    ensures Walk(counts, Take(slots, n))
  {
  }

  /** With no more stops than days the whole walk is used; otherwise each stop gets one day. */
  lemma {:induction false} OneEach(counts: seq<nat>, s: nat)
    requires s <= |counts| && forall k :: 0 <= k < |counts| ==> counts[k] == 1
    ensures |SlotsBefore(counts, s)| == s
    ensures forall d :: 0 <= d < s ==> SlotsBefore(counts, s)[d] == Slot(d, 0)
  {
    if s > 0 {
      OneEach(counts, s - 1);
      SlotsAtAre(s - 1, 1);
    }
  }

  lemma {:induction false} TightAllocation(counts: seq<nat>)
    requires DaysAllocated(counts) == |counts| && forall k :: 0 <= k < |counts| ==> counts[k] >= 1
    ensures forall k :: 0 <= k < |counts| ==> counts[k] == 1
  {
    if counts != [] {
      AtLeastOneEach(counts[1..]);
      TightAllocation(counts[1..]);
    }
  }

  lemma {:induction false} AtLeastOneEach(counts: seq<nat>)
    requires forall k :: 0 <= k < |counts| ==> counts[k] >= 1
    ensures DaysAllocated(counts) >= |counts|
  {
    if counts != [] {
      AtLeastOneEach(counts[1..]);
    }
  }

  lemma RouteSlotsWalk(trip: Trip)
    requires trip.stops != []
    ensures var counts := DayCounts(trip.stops, Max(1, trip.days));
            Walk(counts, RouteSlots(trip)) && |counts| == |trip.stops|
  {
    var counts := DayCounts(trip.stops, Max(1, trip.days));
    AllocationIsComplete(trip.stops, Max(1, trip.days));
    SlotsAreAWalk(counts, |counts|);
    WalkPrefix(counts, SlotsBefore(counts, |counts|), Max(0, trip.days));
  }

  lemma LastStopReached(trip: Trip)
    requires trip.stops != [] && trip.days >= 1
    ensures RouteSlots(trip) != []
    ensures RouteSlots(trip)[|RouteSlots(trip)| - 1].stop + 1 == Min(trip.days, |trip.stops|)
  {
    hide DayCounts, DaysAllocated, Walk;
    var counts := DayCounts(trip.stops, trip.days);
    AllocationIsComplete(trip.stops, trip.days);
    SlotsBeforeFit(counts, |counts|);
    assert counts[..|counts|] == counts;
    var slots := SlotsBefore(counts, |counts|);
    if trip.days >= |trip.stops| {
      SlotsAreAWalk(counts, |counts|);
      assert RouteSlots(trip) == slots;
    } else {
      TightAllocation(counts);
      OneEach(counts, |counts|);
    }
  }

  predicate IsTransferDay(day: PlanDay) {
    day.transferDay
  }

  lemma {:induction false} TransferDaysAreArrivals(days: seq<PlanDay>, slots: seq<Slot>)
    requires |days| == |slots| && forall d :: 0 <= d < |days| ==> days[d].transferDay == IsArrival(slots[d])
    ensures Count(days, IsTransferDay) == Count(slots, IsArrival)
  {
    if days != [] {
      TransferDaysAreArrivals(days[1..], slots[1..]);
    }
  }

  ghost predicate LaidOut(trip: Trip, slots: seq<Slot>, days: seq<PlanDay>) {
    && |days| == |slots|
    && SlotsFit(trip, slots)
    && forall d :: 0 <= d < |days| ==>
         && days[d].number == d + 1
         && days[d].date == (match trip.start case Some(date) => Some(date + d) case None => None)
         && days[d].stop == Some(trip.stops[slots[d].stop].id)
         && days[d].transferDay == IsArrival(slots[d])
  }

  /** A route itinerary has exactly the requested days, numbered 1..n on consecutive dates; it walks the stops in
      route order in unbroken runs, and its transfer days are as many as the smaller of days and stops. */
  lemma RouteLayout(trip: Trip)
    requires trip.stops != [] && trip.days >= 1
    ensures |RouteItinerary(trip)| == trip.days
    ensures LaidOut(trip, RouteSlots(trip), RouteItinerary(trip))
    ensures Walk(DayCounts(trip.stops, trip.days), RouteSlots(trip))
    ensures Count(RouteItinerary(trip), IsTransferDay) == Min(trip.days, |trip.stops|)
  {
    hide StopItems, Walk;
    RouteSlotsFit(trip);
    RouteSlotsWalk(trip);
    LastStopReached(trip);
    ArrivalsCountStops(DayCounts(trip.stops, trip.days), RouteSlots(trip));
    TransferDaysAreArrivals(RouteItinerary(trip), RouteSlots(trip));
  }

  // ---------- padding a day ----------

  function Base(items: seq<PlanItem>): int
    requires items != [] && CanPad(items)
  {
    FormatOfParse(LastTime(items));
    ToMinutes(LastTime(items)).value
  }

  function PadMinutes(base: int, k: nat): int {
    Min(23 * 60, base + 90 * (k + 1))
  }

  lemma PadItemTime(index: nat, time: string, destination: string)
    ensures PadItem(index, time, destination).time == time && PadItem(index, time, destination).endTime == None
  {
  }

  lemma BaseOfLast(items: seq<PlanItem>, item: PlanItem, m: nat)
    requires m < MINUTES_PER_DAY && item.time == Format(m) && item.endTime == None
    ensures CanPad(items + [item]) && Base(items + [item]) == m
  {
    ParseOfFormat(m);
    assert LastTime(items + [item]) == Format(m);
  }

  lemma BaseInDay(items: seq<PlanItem>)
    requires items != [] && CanPad(items)
    ensures 0 <= Base(items) < MINUTES_PER_DAY
    ensures NextTime(items) == Format(PadMinutes(Base(items), 0))
  {
    FormatOfParse(LastTime(items));
    LooseOnClock(LastTime(items));
    hide ReadLoosely, ToMinutes;
  }

  lemma OnePaddedIs(items: seq<PlanItem>, destination: string)
    requires items != [] && CanPad(items)
    ensures 0 <= Base(items) < MINUTES_PER_DAY
    ensures var padded := OnePadded(items, destination);
            && padded == items + [PadItem(|items|, Format(PadMinutes(Base(items), 0)), destination)]
            && padded != [] && CanPad(padded) && Base(padded) == PadMinutes(Base(items), 0)
  {
    BaseInDay(items);
    var item := PadItem(|items|, NextTime(items), destination);
    PadItemTime(|items|, NextTime(items), destination);
    hide Base, PadItem, Format, NextTime, CanPad;
    BaseOfLast(items, item, PadMinutes(Base(items), 0));
  }

  /** Padding keeps what is there; item after item it steps 90 minutes on, and stops at 23:00. */
  lemma {:induction false} PaddedIs(items: seq<PlanItem>, destination: string, target: nat)
    requires items != [] && CanPad(items)
    ensures 0 <= Base(items) < MINUTES_PER_DAY
    ensures |Padded(items, destination, target)| == Max(|items|, target)
    ensures items <= Padded(items, destination, target)
    ensures forall i :: |items| <= i < target ==>
              Padded(items, destination, target)[i] == PadItem(i, Format(PadMinutes(Base(items), i - |items|)), destination)
    decreases target - |items|
  {
    hide PadItem, Format, Base, OnePadded, CanPad;
    OnePaddedIs(items, destination);
    if |items| < target {
      var padded := OnePadded(items, destination);
      PaddedIs(padded, destination, target);
      forall i | |items| <= i < target
        ensures Padded(items, destination, target)[i] == PadItem(i, Format(PadMinutes(Base(items), i - |items|)), destination)
      {
        if i > |items| {
          assert PadMinutes(Base(padded), i - |padded|) == PadMinutes(Base(items), i - |items|);
        } else {
          assert Padded(padded, destination, target)[i] == padded[i];
        }
      }
    }
  }

  /** The text the time of the next item is read from: the last item's end, or its start when it has none. */
  ghost predicate GoesOnFrom(items: seq<PlanItem>, from: string) {
    && items != []
    && var last := items[|items| - 1];
       if last.endTime.Some? && last.endTime.value != "" then from == last.endTime.value else from == last.time
  }

  ghost predicate HasLetterAt(s: string, i: nat) {
    i < |s| && 'a' <= s[i] <= 'z'
  }

  /** No minutes behind the colon, or a letter where a digit of the time should be. */
  ghost predicate IsNoTime(s: string) {
    |s| <= 3 || HasLetterAt(s, 0) || HasLetterAt(s, 1) || HasLetterAt(s, 3) || HasLetterAt(s, 4)
  }

  /** Item by item: even places rest, odd ones are activities, for nothing, in steps of 90 minutes held at 23:00. */
  lemma PadsAre(items: seq<PlanItem>, destination: string, target: nat, from: string, k: nat)
    requires GoesOnFrom(items, from) && IsClock(from) && |items| <= k < target
    ensures |Padded(items, destination, target)| == target && ToMinutes(from).Some?
    ensures var item := Padded(items, destination, target)[k];
            var minutes := ToMinutes(from).value + 90 * (k - |items| + 1);
            && item.time == (if minutes <= 1380 then Format(minutes) else Format(1380))
            && item.endTime == None && item.transfer == None
            && item.kind == (if k % 2 == 0 then "rest" else "activity")
            && item.name == (if k % 2 == 0 then "Buffer time in " else "Short local stop in ") + destination
            && item.cost == Some(Estimate(Some(0.0), Some(if k % 2 == 0 then "other" else "activity")))
  {
    FormatOfParse(from);
    hide Format, Padded, ToMinutes, IsClock;
    PaddedIs(items, destination, target);
  }

  lemma {:induction false} PaddedExtends(items: seq<PlanItem>, destination: string, target: nat)
    ensures items <= Padded(items, destination, target)
    ensures |Padded(items, destination, target)| == Max(|items|, target)
    decreases target - |items|
  {
    hide PadItem, NextTime;
    if |items| < target {
      PaddedExtends(OnePadded(items, destination), destination, target);
    }
  }

  lemma LetterIsUnread(from: string)
    requires IsNoTime(from)
    ensures ReadLoosely(from).None?
  {
    var hour := from[..Min(2, |from|)];
    var minute := from[Min(3, |from|)..Min(5, |from|)];
    if |from| <= 3 {
      assert minute == "";
    } else if HasLetterAt(from, 0) {
      assert hour[0] == from[0];
    } else if HasLetterAt(from, 1) {
      assert hour[1] == from[1];
    } else if HasLetterAt(from, 3) {
      assert minute[0] == from[3];
    } else {
      assert minute[1] == from[4];
    }
  }

  lemma NextTimeIs(items: seq<PlanItem>, from: string)
    requires items != [] ==> GoesOnFrom(items, from)
    ensures items == [] ==> NextTime(items) == "10:00"
    ensures items != [] && IsNoTime(from) ==> NextTime(items) == "11:30"
  {
    if items != [] && IsNoTime(from) {
      LetterIsUnread(from);
      hide ReadLoosely;
      assert Format(690) == "11:30";
    }
  }

  /** The first pad of an empty day is at 10:00, and at 11:30 when no time can be read off the last item. */
  lemma FirstPadIs(items: seq<PlanItem>, destination: string, target: nat, from: string)
    requires |items| < target && (items != [] ==> GoesOnFrom(items, from))
    ensures |Padded(items, destination, target)| == target && items <= Padded(items, destination, target)
    ensures items == [] ==> Padded(items, destination, target)[0].time == "10:00"
    ensures items != [] && IsNoTime(from) ==>
              Padded(items, destination, target)[|items|].time == "11:30"
  {
    PaddedExtends(items, destination, target);
    PaddedExtends(OnePadded(items, destination), destination, target);
    NextTimeIs(items, from);
    var item := PadItem(|items|, NextTime(items), destination);
    PadItemTime(|items|, NextTime(items), destination);
    hide NextTime, PadItem, Padded;
    assert Padded(items, destination, target)[|items|] == item by {
      assert OnePadded(items, destination)[|items|] == item;
    }
  }

  lemma FormatOrder(m: nat, n: nat)
    requires m < MINUTES_PER_DAY && n < MINUTES_PER_DAY
    ensures Less(Format(m), Format(n)) <==> m < n
  {
    ParseOfFormat(m);
    ParseOfFormat(n);
    OrderAgrees(Format(m), Format(n));
  }

  /** The first new item starts after the last old one, and 23:00 is not reached before the last new one. */
  ghost predicate RoomToPad(start: int, base: int, count: nat) {
    && start < Min(23 * 60, base + 90)
    && (count >= 2 ==> base + 90 * (count - 1) < 23 * 60)
  }

  /** Padding a day whose times are in order keeps them in order exactly when there is room. */
  lemma PaddingKeepsOrder(items: seq<PlanItem>, destination: string, target: nat)
    requires items != [] && CanPad(items) && IsClock(items[|items| - 1].time)
    requires Validator.StrictlyLater(items) && |items| < target
    ensures ToMinutes(items[|items| - 1].time).Some?
    ensures Validator.StrictlyLater(Padded(items, destination, target)) <==>
            RoomToPad(ToMinutes(items[|items| - 1].time).value, Base(items), target - |items|)
  {
    hide Format, Padded, Base, ToMinutes, IsClock, CanPad, RoomToPad, Validator.StrictlyLater;
    PaddedTimes(items, destination, target);
    FormatOfParse(items[|items| - 1].time);
    BaseInDay(items);
    PaddedOrder(items, Padded(items, destination, target), Base(items), ToMinutes(items[|items| - 1].time).value);
  }

  lemma PaddedTimes(items: seq<PlanItem>, destination: string, target: nat)
    requires items != [] && CanPad(items)
    ensures |Padded(items, destination, target)| == Max(|items|, target)
    ensures items <= Padded(items, destination, target)
    ensures forall i :: |items| <= i < target ==>
              Padded(items, destination, target)[i].time == Format(PadMinutes(Base(items), i - |items|))
  {
    PaddedIs(items, destination, target);
    hide Format, Padded, Base, PadItem, CanPad;
    forall i | |items| <= i < target
      ensures Padded(items, destination, target)[i].time == Format(PadMinutes(Base(items), i - |items|))
    {
      PadItemTime(i, Format(PadMinutes(Base(items), i - |items|)), destination);
    }
  }

  lemma PaddedOrder(items: seq<PlanItem>, padded: seq<PlanItem>, base: nat, start: nat)
    requires items != [] && items <= padded && |items| < |padded| && Validator.StrictlyLater(items)
    requires start < MINUTES_PER_DAY && items[|items| - 1].time == Format(start)
    requires forall i :: |items| <= i < |padded| ==> padded[i].time == Format(PadMinutes(base, i - |items|))
    ensures Validator.StrictlyLater(padded) <==> RoomToPad(start, base, |padded| - |items|)
  {
    if RoomToPad(start, base, |padded| - |items|) {
      PaddedInOrder(items, padded, base, start);
    } else if Validator.StrictlyLater(padded) {
      PaddedOutOfOrder(items, padded, base, start);
    }
  }

  lemma PaddedOutOfOrder(items: seq<PlanItem>, padded: seq<PlanItem>, base: nat, start: nat)
    requires items != [] && items <= padded && |items| < |padded| && Validator.StrictlyLater(padded)
    requires start < MINUTES_PER_DAY && items[|items| - 1].time == Format(start)
    requires forall i :: |items| <= i < |padded| ==> padded[i].time == Format(PadMinutes(base, i - |items|))
    ensures RoomToPad(start, base, |padded| - |items|)
  {
    hide Format;
    var size, target := |items|, |padded|;
    FormatOrder(start, PadMinutes(base, 0));
    assert Less(padded[size - 1].time, padded[size].time);
    if target - size >= 2 {
      FormatOrder(PadMinutes(base, target - 2 - size), PadMinutes(base, target - 1 - size));
      assert Less(padded[target - 2].time, padded[target - 1].time);
    }
  }

  lemma PaddedInOrder(items: seq<PlanItem>, padded: seq<PlanItem>, base: nat, start: nat)
    requires items != [] && items <= padded && |items| < |padded| && Validator.StrictlyLater(items)
    requires start < MINUTES_PER_DAY && items[|items| - 1].time == Format(start)
    requires forall i :: |items| <= i < |padded| ==> padded[i].time == Format(PadMinutes(base, i - |items|))
    requires RoomToPad(start, base, |padded| - |items|)
    ensures Validator.StrictlyLater(padded)
  {
    hide Format, Less;
    var size := |items|;
    forall i, j | 0 <= i < j < |padded|
      ensures Less(padded[i].time, padded[j].time)
    {
      if j < size {
        assert padded[i] == items[i] && padded[j] == items[j];
      } else if i >= size {
        FormatOrder(PadMinutes(base, i - size), PadMinutes(base, j - size));
      } else {
        FormatOrder(start, PadMinutes(base, j - size));
        if i < size - 1 {
          assert Less(items[i].time, items[size - 1].time);
          Validator.LessIsTransitive(items[i].time, Format(start), padded[j].time);
        }
      }
    }
  }
}
