/** The mock generator: how a route's days are divided among its stops and laid out, and the templates used
    when there is no route. */
module RoutePlan {
  import opened Wrappers
  import opened Sequences
  import opened Text
  import opened Clock
  import opened Numbers
  import opened Itinerary
  import opened Plan

  /** A missing city is the empty text. */
  datatype Stop = Stop(id: string, destination: string, city: string, nights: Option<int>)

  /** Missing texts are empty. */
  datatype Leg = Leg(
    fromId: string,
    toId: string,
    fromName: string,
    toName: string,
    mode: string,
    duration: Option<nat>,
    distance: Option<real>,
    cost: Option<Estimate>,
    notes: string
  )

  /** English items keep the wording they are built with; other languages draw it from a table. */
  datatype Language = English | Translated(names: seq<string>, note: string)

  datatype Weather = Weather(rainChance: int, maxCelsius: real)

  datatype Interests = Interests(history: bool, food: bool, hiddenGems: bool)

  datatype Trip = Trip(
    days: int,
    start: Option<int>,
    pace: Pace,
    destination: string,
    interests: Interests,
    weather: seq<Weather>,
    stops: seq<Stop>,
    legs: seq<Leg>,
    origin: string,
    preferredMode: string,
    styles: seq<string>,
    language: Language
  )

  // ---------- dividing the days ----------

  predicate HasNights(stop: Stop) {
    stop.nights.Some? && stop.nights.value > 0
  }

  /** The days a stop gets when `remaining` days are left for it and the `after` stops behind it. */
  function CountFor(stop: Stop, remaining: int, after: nat): (count: nat)
    ensures count >= 1
  {
    if after == 0 then Max(1, remaining)
    else if HasNights(stop) then Min(stop.nights.value, Max(1, remaining - after))
    else Max(1, remaining / (after + 1))
  }

  function DayCounts(stops: seq<Stop>, remaining: int): seq<nat> {
    if stops == [] then []
    else
      var count := CountFor(stops[0], remaining, |stops| - 1);
      [count] + DayCounts(stops[1..], remaining - count)
  }

  function DaysAllocated(counts: seq<nat>): nat {
    if counts == [] then 0 else counts[0] + DaysAllocated(counts[1..])
  }

  /** `_route_stop_day_counts`. */
  method StopDayCounts(stops: seq<Stop>, days: int) returns (counts: seq<nat>)
    requires stops != []
    ensures counts == DayCounts(stops, Max(1, days))
  {
    hide DayCounts, CountFor;
    var remaining := Max(1, days);
    counts := [];
    for k := 0 to |stops|
      invariant counts + DayCounts(stops[k..], remaining) == DayCounts(stops, Max(1, days))
    {
      var remainingStops := |stops| - k;
      var count := CountAt(stops[k], remaining, remainingStops);
      DayCountsNext(stops, k, remaining);
      Regroup(counts, [count], DayCounts(stops[k + 1..], remaining - count));
      counts := counts + [count];
      remaining := remaining - count;
    }
    NoDayCounts(remaining);
    assert stops[|stops|..] == [] && counts + [] == counts;
    AllocationIsComplete(stops, Max(1, days));
    counts := TopUp(counts, days);
  }

  method CountAt(stop: Stop, remaining: int, remainingStops: nat) returns (count: nat)
    requires remainingStops >= 1
    ensures count == CountFor(stop, remaining, remainingStops - 1)
  {
    if remainingStops <= 1 {
      count := Max(1, remaining);
    } else if HasNights(stop) {
      count := Min(Max(1, stop.nights.value), Max(1, remaining - remainingStops + 1));
    } else {
      count := Max(1, remaining / remainingStops);
    }
  }

  lemma DayCountsNext(stops: seq<Stop>, k: nat, remaining: int)
    requires k < |stops|
    ensures var count := CountFor(stops[k], remaining, |stops| - k - 1);
            DayCounts(stops[k..], remaining) == [count] + DayCounts(stops[k + 1..], remaining - count)
  {
    assert stops[k..][1..] == stops[k + 1..];
  }

  lemma NoDayCounts(remaining: int)
    ensures DayCounts([], remaining) == []
  {
  }

  /** The closing correction of `_route_stop_day_counts`: days nobody got go to the last stop. */
  method TopUp(counts: seq<nat>, days: int) returns (r: seq<nat>)
    requires counts != []
    ensures DaysAllocated(counts) >= days ==> r == counts
    ensures DaysAllocated(counts) < days ==>
              r == counts[|counts| - 1 := counts[|counts| - 1] + (days - DaysAllocated(counts))]
  {
    var sum := 0;
    for k := 0 to |counts|
      invariant sum == DaysAllocated(counts[..k])
    {
      TotalNext(counts, k);
      sum := sum + counts[k];
    }
    assert counts[..|counts|] == counts;
    r := counts;
    if sum < days {
      r := counts[|counts| - 1 := counts[|counts| - 1] + (days - sum)];
    }
  }

  lemma {:induction false} TotalOfConcat(a: seq<nat>, b: seq<nat>)
    ensures DaysAllocated(a + b) == DaysAllocated(a) + DaysAllocated(b)
  {
    if a == [] {
      assert a + b == b;
    } else {
      assert (a + b)[1..] == a[1..] + b;
      TotalOfConcat(a[1..], b);
    }
  }

  lemma TotalNext(counts: seq<nat>, k: nat)
    requires k < |counts|
    ensures DaysAllocated(counts[..k + 1]) == DaysAllocated(counts[..k]) + counts[k]
  {
    assert counts[..k + 1] == counts[..k] + [counts[k]];
    TotalOfConcat(counts[..k], [counts[k]]);
  }

  /** Every stop gets a day and the counts add up to the days there are, or to one day a stop when that is
      more; so the closing correction never finds a day left over. */
  lemma {:induction false} AllocationIsComplete(stops: seq<Stop>, days: int)
    requires stops != []
    ensures |DayCounts(stops, days)| == |stops|
    ensures DaysAllocated(DayCounts(stops, days)) == Max(days, |stops|)
    ensures forall k :: 0 <= k < |stops| ==> DayCounts(stops, days)[k] >= 1
  {
    if |stops| > 1 {
      var count := CountFor(stops[0], days, |stops| - 1);
      CountLeavesEnough(stops[0], days, |stops| - 1);
      AllocationIsComplete(stops[1..], days - count);
      assert ([count] + DayCounts(stops[1..], days - count))[1..] == DayCounts(stops[1..], days - count);
    } else {
      assert DayCounts(stops[1..], days - CountFor(stops[0], days, 0)) == [];
    }
  }

  lemma CountLeavesEnough(stop: Stop, remaining: int, after: nat)
    requires after > 0
    ensures remaining > after ==> remaining - CountFor(stop, remaining, after) >= after
    ensures remaining <= after + 1 ==> CountFor(stop, remaining, after) == 1
  {
    if remaining > after && !HasNights(stop) {
      QuotientFits(remaining, after + 1);
    }
  }

  // ---------- the items of a day ----------

  function StopName(stop: Stop): string {
    if stop.city != "" then stop.city else stop.destination
  }

  function FindLeg(legs: seq<Leg>, fromId: string, toId: string): Option<Leg> {
    if legs == [] then None
    else if legs[0].fromId == fromId && legs[0].toId == toId then Some(legs[0])
    else FindLeg(legs[1..], fromId, toId)
  }

  /** `_route_leg_for_stop`. */
  function LegForStop(trip: Trip, s: nat): Option<Leg>
    requires s < |trip.stops|
  {
    FindLeg(trip.legs, if s == 0 then "origin" else trip.stops[s - 1].id, trip.stops[s].id)
  }

  /** What the schemas make of a transport mode: a known one, or `other`. */
  function KnownMode(mode: string): string {
    if mode in TRANSPORT_MODES then mode else "other"
  }

  /** Hundredths of the currency per kilometre. */
  function RateOf(mode: string): nat {
    if mode == "bus" then 8
    else if mode == "train" then 12
    else if mode == "flight" then 15
    else if mode == "boat" || mode == "ferry" then 20
    else if mode == "car" || mode == "rental_car" then 18
    else if mode == "public_transport" then 10
    else 0
  }

  /** `_route_transfer_cost`. */
  function TransferCost(leg: Option<Leg>, mode: string): Estimate {
    if leg.Some? && leg.value.cost.Some? then leg.value.cost.value
    else
      Estimate(Some(EstimatedFare(match leg case Some(l) => l.distance case None => None, mode) as real), Some("transport"))
  }

  function EstimatedFare(distance: Option<real>, mode: string): int {
    RoundHalfEven(FareCents(if distance.Some? && distance.value > 0.0 then distance.value else 100.0, mode))
  }

  /** A flight costs at least 50. */
  function FareCents(km: real, mode: string): real {
    var cents := km * RateOf(mode) as real;
    if mode == "flight" && cents < 5000.0 then 5000.0 else cents
  }

  /** The arrival: `duration` minutes after 09:00, a missing or zero duration counting as 90, the hour held at 23. */
  function ArrivalTime(duration: Option<nat>): string {
    var minutes := if duration.Some? && duration.value > 0 then duration.value else 90;
    TwoDigits(Min(9 + minutes / 60, 23)) + ":" + TwoDigits(minutes % 60)
  }

  const VERIFY := "Verify schedules before travel."

  function TransferMode(trip: Trip, s: nat): string
    requires s < |trip.stops|
  {
    match LegForStop(trip, s) case Some(l) => l.mode case None => trip.preferredMode
  }

  /** Where the transfer to a stop goes, by name. */
  function ToName(trip: Trip, s: nat): string
    requires s < |trip.stops|
  {
    var leg := LegForStop(trip, s);
    if leg.Some? && leg.value.toName != "" then leg.value.toName else StopName(trip.stops[s])
  }

  function TransferItem(trip: Trip, s: nat): PlanItem
    requires s < |trip.stops|
  {
    var leg := LegForStop(trip, s);
    var mode := TransferMode(trip, s);
    var fromName := if leg.Some? && leg.value.fromName != "" then leg.value.fromName
                    else if s > 0 then StopName(trip.stops[s - 1])
                    else if trip.origin != "" then trip.origin
                    else "Origin";
    var note := if leg.Some? && leg.value.notes != "" then leg.value.notes + " " + VERIFY
                else VERIFY + " This is not a booking or live ticket price.";
    var cost := TransferCost(leg, mode);
    PlanItem("09:00", Some(ArrivalTime(match leg case Some(l) => l.duration case None => None)), "transfer",
             mode + " from " + fromName + " to " + ToName(trip, s), Some(note),
             Some(KnownMode(mode)), Some(Transfer(KnownMode(mode), Some(cost))), Some(cost))
  }

  function Simple(time: string, kind: string, name: string, note: string, cents: real, category: string): PlanItem {
    PlanItem(time, None, kind, name, Some(note), None, None, Some(Estimate(Some(cents), Some(category))))
  }

  const HIKING_NOTE := "Keep hiking plans conservative and verify local maps; this is not GPS navigation."
  const CAMPING_NOTE := "Check campsite availability separately; no reservation is confirmed."
  const ISLAND_NOTE := "Ferry and boat times are approximate; verify schedules locally."
  const LIGHT_NOTE := "Keep the first local activity light so the route stays realistic after transfers."

  /** `_route_style_note`. */
  function StyleNote(styles: seq<string>): string {
    if "hiking" in styles then HIKING_NOTE
    else if "camping" in styles then CAMPING_NOTE
    else if "island_hopping" in styles then ISLAND_NOTE
    else LIGHT_NOTE
  }

  const MEAL_NOTE := "Keep this flexible around arrival, check-in, and local opening hours."
  const DINNER_NOTE := "A simple local dinner recommendation; verify hours before going."

  function StayItems(trip: Trip, s: nat, first: string, second: string, third: string): seq<PlanItem>
    requires s < |trip.stops|
  {
    var name := StopName(trip.stops[s]);
    [Simple(first, "food", "Local meal in " + name, MEAL_NOTE, 1600.0, "food"),
     Simple(second, "activity", name + " orientation walk", StyleNote(trip.styles), 0.0, "activity"),
     Simple(third, "food", "Dinner near " + name + " center", DINNER_NOTE, 2400.0, "food")]
  }

  /** `_route_items_for_day`. */
  function RouteItems(trip: Trip, s: nat, transferDay: bool): seq<PlanItem>
    requires s < |trip.stops|
  {
    if transferDay then [TransferItem(trip, s)] + StayItems(trip, s, "13:00", "15:30", "19:00")
    else StayItems(trip, s, "09:30", "12:30", "16:00")
  }

  /** The time the next item is placed after: the end of the last one, or its start when it has no end. */
  function LastTime(items: seq<PlanItem>): string
    requires items != []
  {
    var last := items[|items| - 1];
    match last.endTime case Some(e) => if e == "" then last.time else e case None => last.time
  }

  /** Every time the generator writes down is well-formed. */
  predicate CanPad(items: seq<PlanItem>) {
    items != [] ==> IsClock(LastTime(items))
  }

  /** Python's `int()` on at most two characters. */
  function ParseUpToTwo(s: string): Option<int> {
    if |s| == 2 then ParseTwo(s[0], s[1])
    else if |s| == 1 && IsDigit(s[0]) then Some(DigitValue(s[0]))
    else None
  }

  /** The minutes `_next_route_time` reads: whatever stands in third place, and in however short a text. */
  function ReadLoosely(raw: string): Option<int> {
    match (ParseUpToTwo(raw[..Min(2, |raw|)]), ParseUpToTwo(raw[Min(3, |raw|)..Min(5, |raw|)]))
    case (Some(hour), Some(minute)) => Some(hour * 60 + minute)
    case _ => None
  }

  /** Hours and minutes with two digits each; negative hours keep their sign. */
  function FormatLoosely(minutes: int): string
    requires minutes < MINUTES_PER_DAY
  {
    if minutes >= 0 then Format(minutes) else "-" + Decimal(-(minutes / 60)) + ":" + TwoDigits(minutes % 60)
  }

  /** `_next_route_time`. */
  function NextTime(items: seq<PlanItem>): string {
    if items == [] then "10:00"
    else
      var minutes := match ReadLoosely(LastTime(items)) case Some(m) => m case None => 600;
      FormatLoosely(Min(23 * 60, minutes + 90))
  }

  lemma LooseOnClock(raw: string)
    requires IsClock(raw)
    ensures ReadLoosely(raw) == ToMinutes(raw)
  {
    assert raw[..2] == [raw[0], raw[1]] && raw[3..5] == [raw[3], raw[4]];
  }

  const BUFFER_NOTE := "Leave this block flexible for check-in, weather, or route delays."
  const SHORT_STOP_NOTE := "A low-pressure activity that can be skipped if travel runs late."

  function PadItem(index: nat, time: string, destination: string): PlanItem {
    if index % 2 == 0 then
      Simple(time, "rest", "Buffer time in " + destination,
             BUFFER_NOTE, 0.0, "other")
    else
      Simple(time, "activity", "Short local stop in " + destination,
             SHORT_STOP_NOTE, 0.0, "activity")
  }

  function OnePadded(items: seq<PlanItem>, destination: string): seq<PlanItem> {
    items + [PadItem(|items|, NextTime(items), destination)]
  }

  function Padded(items: seq<PlanItem>, destination: string, target: nat): seq<PlanItem>
    decreases target - |items|
  {
    if |items| >= target then items else Padded(OnePadded(items, destination), destination, target)
  }

  /** `_pad_route_items`. */
  method PadRouteItems(given: seq<PlanItem>, destination: string, target: nat) returns (items: seq<PlanItem>)
    ensures items == Padded(given, destination, target)
  {
    items := given;
    while |items| < target
      invariant Padded(items, destination, target) == Padded(given, destination, target)
    {
      var index := |items|;
      var nextTime := NextTime(items);
      if index % 2 == 0 {
        items := items + [Simple(nextTime, "rest", "Buffer time in " + destination,
                                 BUFFER_NOTE, 0.0, "other")];
      } else {
        items := items + [Simple(nextTime, "activity", "Short local stop in " + destination,
                                 SHORT_STOP_NOTE, 0.0, "activity")];
      }
    }
  }

  /** `_localize_mock_items`. */
  function Localized(items: seq<PlanItem>, language: Language, destination: string): seq<PlanItem> {
    match language
    case English => items
    case Translated(names, note) =>
      if names == [] then items
      else
        seq(|items|, i requires 0 <= i < |items| =>
          items[i].(name := names[i % |names|] + " \U{2014} " + destination, note := Some(note)))
  }

  function CategoryOf(kind: string): string {
    if kind == "food" then "food"
    else if kind == "transport" || kind == "transfer" then "transport"
    else if kind == "activity" then "activity"
    else if kind == "place" then "ticket"
    else "other"
  }

  /** `_finalize_item_costs`. */
  function Finalized(items: seq<PlanItem>): seq<PlanItem> {
    seq(|items|, i requires 0 <= i < |items| => FinalItem(items[i]))
  }

  function FinalItem(item: PlanItem): PlanItem {
    match item.cost
    case Some(Estimate(cents, category)) =>
      if category == None || category == Some("other") then
        item.(cost := Some(Estimate(cents, Some(CategoryOf(item.kind)))))
      else item
    case None => item
  }

  lemma RouteItemsCanBePadded(trip: Trip, s: nat, transferDay: bool)
    requires s < |trip.stops|
    ensures CanPad(RouteItems(trip, s, transferDay))
  {
    hide TransferItem;
  }

  /** All the items of a day at a stop, before the day is cut to the pace. */
  function StopItems(trip: Trip, s: nat, transferDay: bool): seq<PlanItem>
    requires s < |trip.stops|
  {
    var destination := trip.stops[s].destination;
    Finalized(Localized(Padded(RouteItems(trip, s, transferDay), destination, ItemsPerDay(trip.pace)),
                        trip.language, destination))
  }

  // ---------- laying out the days ----------

  /** A day of the layout: which stop, and which day at that stop. */
  datatype Slot = Slot(stop: nat, index: nat)

  function DateOf(trip: Trip, number: int): Option<int> {
    match trip.start case Some(date) => Some(date + number - 1) case None => None
  }

  function RouteDay(trip: Trip, slot: Slot, number: int): PlanDay
    requires slot.stop < |trip.stops|
  {
    var stop, transferDay := trip.stops[slot.stop], slot.index == 0;
    PlanDay(number, DateOf(trip, number), (if transferDay then "Transfer to " else "Explore ") + StopName(stop),
            Some(stop.id), transferDay, Take(StopItems(trip, slot.stop, transferDay), ItemsPerDay(trip.pace)))
  }

  function SlotsAt(s: nat, count: nat): seq<Slot> {
    if count == 0 then [] else SlotsAt(s, count - 1) + [Slot(s, count - 1)]
  }

  /** The days of the first `s` stops, in travel order. */
  function SlotsBefore(counts: seq<nat>, s: nat): seq<Slot>
    requires s <= |counts|
  {
    if s == 0 then [] else SlotsBefore(counts, s - 1) + SlotsAt(s - 1, counts[s - 1])
  }

  predicate SlotsFit(trip: Trip, slots: seq<Slot>) {
    forall d :: 0 <= d < |slots| ==> slots[d].stop < |trip.stops|
  }

  function DaysOf(trip: Trip, slots: seq<Slot>): seq<PlanDay>
    requires SlotsFit(trip, slots)
  {
    seq(|slots|, d requires 0 <= d < |slots| => RouteDay(trip, slots[d], d + 1))
  }

  function FlexibleDay(trip: Trip, number: int): PlanDay
    requires trip.stops != []
  {
    var stop := trip.stops[|trip.stops| - 1];
    var items := [Simple("10:00", "activity", "Flexible morning in " + StopName(stop),
                         "Use this as buffer time if previous transfers run late.", 0.0, "activity")];
    var padded := Padded(items, stop.destination, ItemsPerDay(trip.pace));
    PlanDay(number, DateOf(trip, number), "Flexible final day in " + StopName(stop), Some(stop.id), false,
            Take(Finalized(Localized(padded, trip.language, stop.destination)), ItemsPerDay(trip.pace)))
  }

  function Filled(trip: Trip, days: seq<PlanDay>): seq<PlanDay>
    requires trip.stops != []
    decreases trip.days - |days|
  {
    if |days| >= trip.days then days else Filled(trip, days + [FlexibleDay(trip, |days| + 1)])
  }

  /** The closing loop of `_generate_route_itinerary`. */
  method FillDays(trip: Trip, given: seq<PlanDay>) returns (days: seq<PlanDay>)
    requires trip.stops != []
    ensures days == Filled(trip, given)
  {
    hide FlexibleDay;
    days := given;
    while |days| < trip.days
      invariant Filled(trip, days) == Filled(trip, given)
      decreases trip.days - |days|
    {
      days := days + [FlexibleDay(trip, |days| + 1)];
    }
  }

  function RouteSlots(trip: Trip): seq<Slot> {
    var counts := DayCounts(trip.stops, Max(1, trip.days));
    Take(SlotsBefore(counts, |counts|), Max(0, trip.days))
  }

  /** The slots, cut to the length of the trip, are all there is: no flexible day is ever appended. */
  function RouteItinerary(trip: Trip): seq<PlanDay> {
    RouteSlotsFit(trip);
    DaysOf(trip, RouteSlots(trip))
  }

  lemma {:induction false} SlotsAtAre(s: nat, count: nat)
    ensures |SlotsAt(s, count)| == count
    ensures forall k :: 0 <= k < count ==> SlotsAt(s, count)[k] == Slot(s, k)
  {
    if count > 0 {
      SlotsAtAre(s, count - 1);
    }
  }

  lemma {:induction false} SlotsBeforeFit(counts: seq<nat>, s: nat)
    requires s <= |counts|
    ensures |SlotsBefore(counts, s)| == DaysAllocated(counts[..s])
    ensures forall d :: 0 <= d < |SlotsBefore(counts, s)| ==> SlotsBefore(counts, s)[d].stop < s
  {
    if s > 0 {
      SlotsBeforeFit(counts, s - 1);
      SlotsAtAre(s - 1, counts[s - 1]);
      TotalNext(counts, s - 1);
    }
  }

  lemma RouteSlotsFit(trip: Trip)
    ensures SlotsFit(trip, RouteSlots(trip))
    ensures trip.stops != [] ==> |RouteSlots(trip)| == Max(0, trip.days)
  {
    var counts := DayCounts(trip.stops, Max(1, trip.days));
    SlotsBeforeFit(counts, |counts|);
    assert counts[..|counts|] == counts;
    if trip.stops != [] {
      AllocationIsComplete(trip.stops, Max(1, trip.days));
    }
  }

  /** `_generate_route_itinerary`. */
  method GenerateRouteItinerary(trip: Trip) returns (days: seq<PlanDay>)
    ensures days == RouteItinerary(trip)
  {
    hide RouteDay, Filled;
    days := [];
    if trip.stops == [] {
      assert DayCounts(trip.stops, Max(1, trip.days)) == [];
      return;
    }
    var counts := StopDayCounts(trip.stops, trip.days);
    AllocationIsComplete(trip.stops, Max(1, trip.days));
    ghost var length := Max(0, trip.days);
    for s := 0 to |trip.stops|
      invariant SlotsFit(trip, SlotsBefore(counts, s))
      invariant days == DaysOf(trip, Take(SlotsBefore(counts, s), length))
    {
      hide DaysOf;
      SlotsBeforeFit(counts, s + 1);
      days := AppendStopDays(trip, days, SlotsBefore(counts, s), s, counts[s]);
      if |days| >= trip.days {
        LaterStopsAreCut(counts, s + 1, |counts|, length);
        break;
      }
    }
    RouteSlotsFit(trip);
    FilledIsLongEnough(trip, days);
    days := FillDays(trip, days);
  }

  lemma FilledIsLongEnough(trip: Trip, days: seq<PlanDay>)
    requires trip.stops != [] && |days| >= trip.days
    ensures Filled(trip, days) == days
  {
  }

  /** The inner loop of `_generate_route_itinerary`: the days at one stop, as far as the trip goes. */
  method AppendStopDays(trip: Trip, given: seq<PlanDay>, ghost before: seq<Slot>, s: nat, count: nat)
    returns (days: seq<PlanDay>)
    requires s < |trip.stops| && SlotsFit(trip, before)
    requires given == DaysOf(trip, Take(before, Max(0, trip.days)))
    ensures SlotsFit(trip, before + SlotsAt(s, count))
    ensures days == DaysOf(trip, Take(before + SlotsAt(s, count), Max(0, trip.days)))
  {
    hide RouteDay, DaysOf, SlotsAt;
    SlotsAtAre(s, 0);
    SlotsAtAre(s, count);
    days := given;
    assert before + SlotsAt(s, 0) == before;
    for k := 0 to count
      invariant SlotsFit(trip, before + SlotsAt(s, k))
      invariant days == DaysOf(trip, Take(before + SlotsAt(s, k), Max(0, trip.days)))
    {
      DaysOfLength(trip, Take(before + SlotsAt(s, k), Max(0, trip.days)));
      if |days| >= trip.days {
        LaterDaysAreCut(before, s, k, count, Max(0, trip.days));
        break;
      }
      NextSlot(trip, before, s, k, Max(0, trip.days));
      days := days + [RouteDay(trip, Slot(s, k), |days| + 1)];
    }
  }

  lemma LaterDaysAreCut(before: seq<Slot>, s: nat, k: nat, count: nat, length: nat)
    requires k <= count && |before + SlotsAt(s, k)| >= length
    ensures Take(before + SlotsAt(s, count), length) == Take(before + SlotsAt(s, k), length)
  {
    SlotsAtAre(s, k);
    SlotsAtAre(s, count);
  }

  lemma {:induction false} LaterStopsAreCut(counts: seq<nat>, s: nat, t: nat, length: nat)
    requires s <= t <= |counts| && |SlotsBefore(counts, s)| >= length
    ensures |SlotsBefore(counts, t)| >= length
    ensures Take(SlotsBefore(counts, t), length) == Take(SlotsBefore(counts, s), length)
    decreases t
  {
    if s < t {
      LaterStopsAreCut(counts, s, t - 1, length);
    }
  }

  lemma DaysOfLength(trip: Trip, slots: seq<Slot>)
    requires SlotsFit(trip, slots)
    ensures |DaysOf(trip, slots)| == |slots|
  {
  }

  lemma NextSlot(trip: Trip, before: seq<Slot>, s: nat, k: nat, length: nat)
    requires s < |trip.stops| && SlotsFit(trip, before + SlotsAt(s, k))
    requires |before + SlotsAt(s, k)| < length
    ensures SlotsFit(trip, before + SlotsAt(s, k + 1))
    ensures DaysOf(trip, Take(before + SlotsAt(s, k + 1), length)) ==
              DaysOf(trip, before + SlotsAt(s, k)) + [RouteDay(trip, Slot(s, k), |before + SlotsAt(s, k)| + 1)]
  {
    hide RouteDay;
    Regroup(before, SlotsAt(s, k), [Slot(s, k)]);
  }
}
