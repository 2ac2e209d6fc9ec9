/** The days the generator builds, item by item, said from the trip: which leg a transfer takes and what it costs, what
    stands at each place of a route, template or grounded day, and what the weather changes. */
module GeneratedDays {
  import opened Wrappers
  import opened Sequences
  import opened Text
  import opened Clock
  import opened Numbers
  import opened Itinerary
  import opened Plan
  import opened RoutePlan
  import opened RoutePlanLaws
  import opened Grounding
  import opened Generator

  // ---------- transfers ----------

  ghost predicate IsCalled(stop: Stop, name: string) {
    if stop.city != "" then name == stop.city else name == stop.destination
  }

  /** The first leg that leads to the stop, when there is one. */
  ghost predicate IsLegTo(trip: Trip, s: nat, leg: Option<Leg>)
    requires s < |trip.stops|
  {
    match leg
    case None => forall k: nat :: !LeadsTo(trip, s, k)
    case Some(l) => exists k: nat :: IsFirstLegTo(trip, s, k) && trip.legs[k] == l
  }

  /** The nearest whole number, the even one of two. */
  ghost predicate IsRounded(n: real, x: real) {
    n == n.Floor as real && x - 0.5 <= n <= x + 0.5 && (n - x == 0.5 || x - n == 0.5 ==> n.Floor % 2 == 0)
  }

  /** Cents per kilometre. */
  ghost predicate IsRate(mode: string, rate: nat) {
    && (mode == "bus" ==> rate == 8) && (mode == "public_transport" ==> rate == 10) && (mode == "train" ==> rate == 12)
    && (mode == "flight" ==> rate == 15) && (mode == "car" || mode == "rental_car" ==> rate == 18)
    && (mode == "boat" || mode == "ferry" ==> rate == 20)
    && (rate != 0 ==> mode in ["bus", "public_transport", "train", "flight", "car", "rental_car", "boat", "ferry"])
  }

  /** The distance, 100 km when it is unknown, at the rate of the mode; at least 50.00 for a flight. */
  ghost predicate IsFare(cents: real, distance: Option<real>, mode: string) {
    exists rate: nat ::
      && IsRate(mode, rate)
      && var full := (if distance.Some? && distance.value > 0.0 then distance.value else 100.0) * rate as real;
         IsRounded(cents, if mode == "flight" && full < 5000.0 then 5000.0 else full)
  }

  /** As long after 09:00 as the leg takes, 90 minutes when that is unknown; hours past 23 count as 23. */
  ghost predicate IsArrivalTime(end: string, duration: Option<nat>) {
    var minutes := if duration == None || duration == Some(0) then 90 else duration.value;
    var hour := 9 + minutes / 60;
    IsClock(end) && ToMinutes(end) == Some(60 * (if hour > 23 then 23 else hour) + minutes % 60)
  }

  lemma RoundedIs(x: real)
    ensures IsRounded(RoundHalfEven(x) as real, x)
  {
    RoundHalfEvenIsNearest(x);
  }

  lemma FareIs(distance: Option<real>, mode: string)
    ensures IsFare(EstimatedFare(distance, mode) as real, distance, mode)
  {
    hide RateOf, IsRate, RoundHalfEven, IsRounded;
    RoundedIs(FareCents(if distance.Some? && distance.value > 0.0 then distance.value else 100.0, mode));
    RateIs(mode);
  }

  lemma RateIs(mode: string)
    ensures IsRate(mode, RateOf(mode))
  {
  }

  lemma HourAndMinute(hour: nat, minute: nat)
    requires hour < 24 && minute < 60
    ensures 60 * hour + minute < MINUTES_PER_DAY
    ensures (60 * hour + minute) / 60 == hour && (60 * hour + minute) % 60 == minute
    ensures Format(60 * hour + minute) == TwoDigits(hour) + ":" + TwoDigits(minute)
  {
    hide TwoDigits;
  }

  lemma ArrivalTimeIs(duration: Option<nat>)
    ensures IsArrivalTime(ArrivalTime(duration), duration)
  {
    hide IsClock, ToMinutes, TwoDigits, Format;
    var minutes := if duration.Some? && duration.value > 0 then duration.value else 90;
    var hour, minute := Min(9 + minutes / 60, 23), minutes % 60;
    HourAndMinute(hour, minute);
    ParseOfFormat(60 * hour + minute);
  }

  /** The mode the schemas know, every other one being `other`. */
  ghost predicate IsKnown(mode: string, known: string) {
    if mode in TRANSPORT_MODES then known == mode else known == "other"
  }

  ghost predicate ComesFrom(trip: Trip, s: nat, leg: Option<Leg>, name: string)
    requires s < |trip.stops|
  {
    if leg.Some? && leg.value.fromName != "" then name == leg.value.fromName
    else if s > 0 then IsCalled(trip.stops[s - 1], name)
    else if trip.origin != "" then name == trip.origin
    else name == "Origin"
  }

  ghost predicate GoesTo(trip: Trip, s: nat, leg: Option<Leg>, name: string)
    requires s < |trip.stops|
  {
    if leg.Some? && leg.value.toName != "" then name == leg.value.toName else IsCalled(trip.stops[s], name)
  }

  /** The leg's own price, or else an estimated fare. */
  ghost predicate IsPrice(leg: Option<Leg>, mode: string, price: Estimate) {
    if leg.Some? && leg.value.cost.Some? then price == leg.value.cost.value
    else
      && price.category == Some("transport") && price.cents.Some?
      && IsFare(price.cents.value, if leg.Some? then leg.value.distance else None, mode)
  }

  /** A transfer by the given leg; without one, by the preferred mode, between the stops' names, at a fare for 100 km. */
  ghost predicate IsTransferBy(trip: Trip, s: nat, leg: Option<Leg>, item: PlanItem)
    requires s < |trip.stops|
  {
    var mode := if leg.Some? then leg.value.mode else trip.preferredMode;
    && item.time == "09:00" && item.kind == "transfer"
    && item.endTime.Some? && IsArrivalTime(item.endTime.value, if leg.Some? then leg.value.duration else None)
    && (exists a, b :: ComesFrom(trip, s, leg, a) && GoesTo(trip, s, leg, b) && item.name == mode + " from " + a + " to " + b)
    && item.note == Some(if leg.Some? && leg.value.notes != "" then leg.value.notes + " " + VERIFY
                         else VERIFY + " This is not a booking or live ticket price.")
    && item.transportMode.Some? && IsKnown(mode, item.transportMode.value)
    && item.cost.Some? && IsPrice(leg, mode, item.cost.value)
    && item.transfer == Some(Transfer(item.transportMode.value, item.cost))
  }

  lemma LegIs(trip: Trip, s: nat)
    requires s < |trip.stops|
    ensures IsLegTo(trip, s, LegForStop(trip, s))
  {
    hide LegForStop, LegPriced;
    LegForStopIsFirst(trip, s);
  }

  lemma PriceIs(leg: Option<Leg>, mode: string)
    ensures IsPrice(leg, mode, TransferCost(leg, mode))
  {
    FareIs(match leg case Some(l) => l.distance case None => None, mode);
    hide IsFare, EstimatedFare;
  }

  lemma KnownIs(mode: string)
    ensures IsKnown(mode, KnownMode(mode))
  {
    hide TRANSPORT_MODES;
  }

  lemma TransferIsBy(trip: Trip, s: nat)
    requires s < |trip.stops|
    ensures IsLegTo(trip, s, LegForStop(trip, s)) && IsTransferBy(trip, s, LegForStop(trip, s), TransferItem(trip, s))
  {
    hide LegForStop, IsLegTo, IsArrivalTime, ArrivalTime, IsPrice, TransferCost, IsKnown, KnownMode, VERIFY;
    hide ComesFrom, GoesTo, StopName;
    LegIs(trip, s);
    var leg := LegForStop(trip, s);
    ArrivalTimeIs(match leg case Some(l) => l.duration case None => None);
    PriceIs(leg, TransferMode(trip, s));
    KnownIs(TransferMode(trip, s));
    TransferNames(trip, s);
  }

  lemma TransferNames(trip: Trip, s: nat)
    requires s < |trip.stops|
    ensures var leg := LegForStop(trip, s);
            exists a, b :: ComesFrom(trip, s, leg, a) && GoesTo(trip, s, leg, b)
                           && TransferItem(trip, s).name == TransferMode(trip, s) + " from " + a + " to " + b
  {
    hide LegForStop, ArrivalTime, TransferCost, KnownMode, VERIFY;
    var leg := LegForStop(trip, s);
    var a := if leg.Some? && leg.value.fromName != "" then leg.value.fromName
             else if s > 0 then StopName(trip.stops[s - 1])
             else if trip.origin != "" then trip.origin
             else "Origin";
    assert ComesFrom(trip, s, leg, a) && GoesTo(trip, s, leg, ToName(trip, s));
  }

  // ---------- the items of a route day ----------

  /** An item without an end and without a transfer. */
  ghost predicate IsBlock(item: PlanItem, time: string, kind: string, name: string, note: string, cents: real, category: string) {
    && item.time == time && item.endTime == None && item.kind == kind && item.name == name && item.note == Some(note)
    && item.transportMode == None && item.transfer == None && item.cost == Some(Estimate(Some(cents), Some(category)))
  }

  /** What stands at a place of a day at a stop before it is worded for the language: on a transfer day the transfer,
      a meal, a walk, a dinner and a buffer; on any other a meal, a walk, a dinner, a short stop and a buffer. */
  ghost predicate IsRouteItem(trip: Trip, s: nat, transferDay: bool, i: nat, item: PlanItem)
    requires s < |trip.stops|
  {
    var destination := trip.stops[s].destination;
    var at := if transferDay then i - 1 else i;
    exists name :: IsCalled(trip.stops[s], name) &&
      if at == -1 then exists leg :: IsLegTo(trip, s, leg) && IsTransferBy(trip, s, leg, item)
      else if at == 0 then
        IsBlock(item, if transferDay then "13:00" else "09:30", "food", "Local meal in " + name, MEAL_NOTE, 1600.0, "food")
      else if at == 1 then
        IsBlock(item, if transferDay then "15:30" else "12:30", "activity", name + " orientation walk",
                if "hiking" in trip.styles then HIKING_NOTE else if "camping" in trip.styles then CAMPING_NOTE
                else if "island_hopping" in trip.styles then ISLAND_NOTE else LIGHT_NOTE, 0.0, "activity")
      else if at == 2 then
        IsBlock(item, if transferDay then "19:00" else "16:00", "food", "Dinner near " + name + " center", DINNER_NOTE, 2400.0, "food")
      else if i == 3 then
        IsBlock(item, "17:30", "activity", "Short local stop in " + destination, SHORT_STOP_NOTE, 0.0, "activity")
      else
        IsBlock(item, if transferDay then "20:30" else "19:00", "rest", "Buffer time in " + destination, BUFFER_NOTE, 0.0, "other")
  }

  /** Other languages than English overwrite the name, from their table in turn, and the note. */
  ghost predicate IsWorded(language: Language, destination: string, i: nat, before: PlanItem, after: PlanItem) {
    if language.Translated? && language.names != [] then
      after == before.(name := language.names[i % |language.names|] + " \U{2014} " + destination, note := Some(language.note))
    else after == before
  }

  /** A cost without a category, or under `other`, is filed by the item's kind. */
  ghost predicate IsFiled(before: PlanItem, after: PlanItem) {
    if before.cost.Some? && (before.cost.value.category == None || before.cost.value.category == Some("other")) then
      && after == before.(cost := after.cost) && after.cost.Some? && after.cost.value.cents == before.cost.value.cents
      && after.cost.value.category.Some?
      && var category := after.cost.value.category.value;
         && (before.kind == "food" || before.kind == "activity" ==> category == before.kind)
         && (before.kind == "transfer" || before.kind == "transport" ==> category == "transport")
         && (before.kind == "place" ==> category == "ticket")
         && (before.kind !in ["food", "activity", "transfer", "transport", "place"] ==> category == "other")
    else after == before
  }

  ghost predicate IsFinished(language: Language, destination: string, i: nat, before: PlanItem, after: PlanItem) {
    exists worded :: IsWorded(language, destination, i, before, worded) && IsFiled(worded, after)
  }

  lemma FinalIsFiled(item: PlanItem)
    ensures IsFiled(item, FinalItem(item))
  {
  }

  lemma FinishedAt(items: seq<PlanItem>, language: Language, destination: string, i: nat)
    requires i < |items|
    ensures var finished := Finalized(Localized(items, language, destination));
            |finished| == |items| && IsFinished(language, destination, i, items[i], finished[i])
  {
    hide FinalItem, IsFiled;
    var localized := Localized(items, language, destination);
    FinalIsFiled(localized[i]);
    assert IsWorded(language, destination, i, items[i], localized[i]);
  }

  lemma StayItemIs(trip: Trip, s: nat, transferDay: bool, i: nat)
    requires s < |trip.stops| && i < |RouteItems(trip, s, transferDay)|
    ensures |RouteItems(trip, s, transferDay)| == if transferDay then 4 else 3
    ensures IsRouteItem(trip, s, transferDay, i, RouteItems(trip, s, transferDay)[i])
  {
    hide TransferItem, MEAL_NOTE, DINNER_NOTE, HIKING_NOTE, CAMPING_NOTE, ISLAND_NOTE, LIGHT_NOTE, StopName, IsLegTo, IsTransferBy;
    NameIs(trip.stops[s]);
    if transferDay && i == 0 {
      TransferIsBy(trip, s);
    }
  }

  lemma NameIs(stop: Stop)
    ensures IsCalled(stop, StopName(stop))
  {
  }

  lemma PadTimes()
    ensures Format(1230) == "20:30" && Format(1050) == "17:30" && Format(1140) == "19:00"
  {
    ReadsAs("20:30", 2, 0, 3, 0);
    ReadsAs("17:30", 1, 7, 3, 0);
    ReadsAs("19:00", 1, 9, 0, 0);
    FormatOfParse("20:30");
    FormatOfParse("17:30");
    FormatOfParse("19:00");
    hide IsClock, ToMinutes, Format;
  }

  lemma LastRouteTime(trip: Trip, s: nat, transferDay: bool)
    requires s < |trip.stops|
    ensures var items := RouteItems(trip, s, transferDay);
            && |items| == (if transferDay then 4 else 3) && LastTime(items) == if transferDay then "19:00" else "16:00"
  {
    hide TransferItem, StyleNote, StopName;
  }

  lemma RouteBase(trip: Trip, s: nat, transferDay: bool)
    requires s < |trip.stops|
    ensures var items := RouteItems(trip, s, transferDay);
            items != [] && CanPad(items) && Base(items) == if transferDay then 1140 else 960
  {
    LastRouteTime(trip, s, transferDay);
    ReadsAs("19:00", 1, 9, 0, 0);
    ReadsAs("16:00", 1, 6, 0, 0);
    hide RouteItems, LastTime, IsClock, ToMinutes;
  }

  lemma PadItemIs(trip: Trip, s: nat, transferDay: bool, i: nat, time: string)
    requires s < |trip.stops| && (if transferDay then i == 4 else 3 <= i < 5)
    requires time == if transferDay then "20:30" else if i == 3 then "17:30" else "19:00"
    ensures IsRouteItem(trip, s, transferDay, i, PadItem(i, time, trip.stops[s].destination))
  {
    NameIs(trip.stops[s]);
    hide IsLegTo, IsTransferBy, HIKING_NOTE, CAMPING_NOTE, ISLAND_NOTE, LIGHT_NOTE, MEAL_NOTE, DINNER_NOTE, StopName, BUFFER_NOTE, SHORT_STOP_NOTE;
  }

  lemma PaddedItemIs(trip: Trip, s: nat, transferDay: bool, i: nat)
    requires s < |trip.stops| && i < ItemsPerDay(trip.pace)
    ensures var padded := Padded(RouteItems(trip, s, transferDay), trip.stops[s].destination, ItemsPerDay(trip.pace));
            i < |padded| && IsRouteItem(trip, s, transferDay, i, padded[i])
  {
    hide RouteItems, PadItem, Padded, Base, CanPad, IsRouteItem, LastTime, Format;
    var items := RouteItems(trip, s, transferDay);
    var destination, size := trip.stops[s].destination, ItemsPerDay(trip.pace);
    LastRouteTime(trip, s, transferDay);
    RouteBase(trip, s, transferDay);
    PaddedIs(items, destination, size);
    PadTimes();
    var padded := Padded(items, destination, size);
    if i < |items| {
      StayItemIs(trip, s, transferDay, i);
      assert padded[i] == items[i];
    } else {
      PadItemIs(trip, s, transferDay, i, Format(PadMinutes(Base(items), i - |items|)));
    }
  }

  /** How many items a day has at a pace. */
  ghost predicate IsDayLength(pace: Pace, n: nat) {
    (pace == Relaxed ==> n == 3) && (pace == Balanced ==> n == 4) && (pace == Intensive ==> n == 5)
  }

  ghost predicate IsRouteDay(trip: Trip, slot: Slot, day: PlanDay)
    requires slot.stop < |trip.stops|
  {
    && (exists name :: IsCalled(trip.stops[slot.stop], name)
                       && day.title == (if slot.index == 0 then "Transfer to " else "Explore ") + name)
    && IsDayLength(trip.pace, |day.items|)
    && forall i :: 0 <= i < |day.items| ==> IsRouteDayItem(trip, slot, i, day.items[i])
  }

  ghost predicate IsRouteDayItem(trip: Trip, slot: Slot, i: nat, item: PlanItem)
    requires slot.stop < |trip.stops|
  {
    exists base :: IsRouteItem(trip, slot.stop, slot.index == 0, i, base)
                   && IsFinished(trip.language, trip.stops[slot.stop].destination, i, base, item)
  }

  lemma RouteDayIs(trip: Trip, slot: Slot, number: int)
    requires slot.stop < |trip.stops|
    ensures IsRouteDay(trip, slot, RouteDay(trip, slot, number))
  {
    hide Padded, RouteItems, Finalized, Localized, IsRouteItem, IsFinished, StopName;
    NameIs(trip.stops[slot.stop]);
    var day, destination := RouteDay(trip, slot, number), trip.stops[slot.stop].destination;
    var padded := Padded(RouteItems(trip, slot.stop, slot.index == 0), destination, ItemsPerDay(trip.pace));
    PaddedItemIs(trip, slot.stop, slot.index == 0, ItemsPerDay(trip.pace) - 1);
    FinishedAt(padded, trip.language, destination, 0);
    assert |day.items| == ItemsPerDay(trip.pace);
    forall i | 0 <= i < ItemsPerDay(trip.pace)
      ensures IsRouteDayItem(trip, slot, i, day.items[i])
    {
      PaddedItemIs(trip, slot.stop, slot.index == 0, i);
      FinishedAt(padded, trip.language, destination, i);
    }
  }

  /** Every day of a route itinerary, item by item. */
  lemma RouteDaysAre(trip: Trip)
    requires trip.stops != [] && trip.days >= 1
    ensures |RouteItinerary(trip)| == |RouteSlots(trip)| == trip.days && SlotsFit(trip, RouteSlots(trip))
    ensures forall d :: 0 <= d < trip.days ==> IsRouteDay(trip, RouteSlots(trip)[d], RouteItinerary(trip)[d])
  {
    RouteSlotsFit(trip);
    hide RouteSlots, RouteDay, IsRouteDay;
    forall d | 0 <= d < trip.days
      ensures IsRouteDay(trip, RouteSlots(trip)[d], RouteItinerary(trip)[d])
    {
      RouteDayIs(trip, RouteSlots(trip)[d], d + 1);
    }
  }

  /** The transfer as it stands in the day: only the category of its cost may have been filed. */
  ghost predicate ShowsTransfer(trip: Trip, s: nat, leg: Option<Leg>, item: PlanItem)
    requires s < |trip.stops|
  {
    exists base :: IsTransferBy(trip, s, leg, base) && IsFiled(base, item)
  }

  lemma LegsAgree(trip: Trip, s: nat, leg: Option<Leg>, k: nat)
    requires s < |trip.stops| && IsLegTo(trip, s, leg) && IsFirstLegTo(trip, s, k)
    ensures k < |trip.legs| && leg == Some(trip.legs[k])
  {
  }

  lemma NoLegsAgree(trip: Trip, s: nat, leg: Option<Leg>)
    requires s < |trip.stops| && IsLegTo(trip, s, leg) && forall k: nat :: !LeadsTo(trip, s, k)
    ensures leg == None
  {
  }

  lemma FirstItemShows(trip: Trip, slot: Slot, item: PlanItem) returns (leg: Option<Leg>)
    requires slot.stop < |trip.stops| && slot.index == 0 && trip.language == English && IsRouteDayItem(trip, slot, 0, item)
    ensures IsLegTo(trip, slot.stop, leg) && ShowsTransfer(trip, slot.stop, leg, item)
  {
    hide IsLegTo, IsTransferBy, IsFiled, IsBlock;
    var base :| IsRouteItem(trip, slot.stop, true, 0, base)
                && IsFinished(English, trip.stops[slot.stop].destination, 0, base, item);
    leg :| IsLegTo(trip, slot.stop, leg) && IsTransferBy(trip, slot.stop, leg, base);
  }

  /** A transfer day of an English route starts with the transfer by the first leg that leads to its stop; only when
      none does are mode, names, price and arrival the defaults. */
  lemma TransferOfDay(trip: Trip, d: nat)
    requires trip.stops != [] && d < trip.days && trip.language == English
    ensures d < |RouteItinerary(trip)| && d < |RouteSlots(trip)| && RouteSlots(trip)[d].stop < |trip.stops|
    ensures RouteItinerary(trip)[d].transferDay ==>
              var items, s := RouteItinerary(trip)[d].items, RouteSlots(trip)[d].stop;
              && items != []
              && (forall k: nat :: IsFirstLegTo(trip, s, k) ==> ShowsTransfer(trip, s, Some(trip.legs[k]), items[0]))
              && ((forall k: nat :: !LeadsTo(trip, s, k)) ==> ShowsTransfer(trip, s, None, items[0]))
  {
    hide RouteSlots, Walk, IsLegTo, LeadsTo, ShowsTransfer, IsRouteDayItem, RouteItinerary, DayCounts;
    RouteDaysAre(trip);
    RouteLayout(trip);
    var slot, day := RouteSlots(trip)[d], RouteItinerary(trip)[d];
    if day.transferDay {
      assert IsRouteDayItem(trip, slot, 0, day.items[0]);
      var leg := FirstItemShows(trip, slot, day.items[0]);
      forall k: nat | IsFirstLegTo(trip, slot.stop, k)
        ensures k < |trip.legs| && leg == Some(trip.legs[k])
      {
        LegsAgree(trip, slot.stop, leg, k);
      }
      if forall k: nat :: !LeadsTo(trip, slot.stop, k) {
        NoLegsAgree(trip, slot.stop, leg);
      }
    }
  }

  // ---------- template days ----------

  datatype DayPart = AtMorning | AtSecond | AtLunch | AtAfternoon | AtEvening

  /** What a day of this pace holds at a place, and when. */
  ghost predicate IsPlanned(pace: Pace, i: nat, part: DayPart, time: string) {
    match pace
    case Relaxed =>
      if i == 0 then part == AtMorning && time == "10:00"
      else if i == 1 then part == AtLunch && time == "13:00"
      else part == AtAfternoon && time == "16:30"
    case Balanced =>
      if i == 0 then part == AtMorning && time == "09:00"
      else if i == 1 then part == AtLunch && time == "12:30"
      else if i == 2 then part == AtAfternoon && time == "15:30"
      else part == AtEvening && time == "19:00"
    case Intensive =>
      if i == 0 then part == AtMorning && time == "08:30"
      else if i == 1 then part == AtSecond && time == "11:00"
      else if i == 2 then part == AtLunch && time == "13:00"
      else if i == 3 then part == AtAfternoon && time == "15:30"
      else part == AtEvening && time == "20:00"
  }

  ghost predicate IsWord(item: PlanItem, time: string, kind: string, w: Wording, cents: real) {
    IsBlock(item, time, kind, w.name, w.note, cents, "other")
  }

  /** The prices of the parts of a day, and how the interests change them. */
  ghost predicate IsDayPart(interests: Interests, prose: Prose, part: DayPart, time: string, item: PlanItem) {
    match part
    case AtMorning => IsWord(item, time, "place", prose.morning, if interests.history then 1800.0 else 0.0)
    case AtSecond => IsWord(item, time, "activity", prose.second, 1200.0)
    case AtLunch => IsWord(item, time, "food", prose.lunch, 1500.0)
    case AtAfternoon =>
      IsWord(item, time, "activity", prose.afternoon,
             if interests.hiddenGems then 500.0 else if interests.history then 1600.0 else 800.0)
    case AtEvening =>
      IsWord(item, time, if interests.food then "food" else "activity", prose.evening, if interests.food then 2400.0 else 0.0)
  }

  /** Rain of 60% or more sends the first item indoors; else heat of 32 degrees or more adds a note to the third. */
  ghost predicate IsUnderWeather(weather: seq<Weather>, number: nat, i: nat, before: PlanItem, after: PlanItem) {
    var known := 1 <= number <= |weather|;
    var rainy := known && weather[number - 1].rainChance >= 60;
    var hot := known && !rainy && weather[number - 1].maxCelsius >= 32.0;
    if rainy && i == 0 then IsBlock(after, before.time, "place", "Indoor museum or covered market",
                                   "Rain is likely, so start indoors and keep outdoor stops as backups.", 1600.0, "other")
    else if hot && i == 2 then
      before.note.Some? && after == before.(note := Some(Strip(before.note.value
                                                                    + " High heat expected; avoid long outdoor walks at midday.")))
    else after == before
  }

  ghost predicate IsTemplateItem(trip: Trip, prose: Prose, number: nat, i: nat, item: PlanItem) {
    exists part, time, plain, adapted ::
      && IsPlanned(trip.pace, i, part, time) && IsDayPart(trip.interests, prose, part, time, plain)
      && IsUnderWeather(trip.weather, number, i, plain, adapted)
      && IsFinished(trip.language, trip.destination, i, adapted, item)
  }

  lemma PlannedAt(trip: Trip, prose: Prose, i: nat) returns (part: DayPart, time: string)
    requires i < ItemsPerDay(trip.pace)
    ensures IsPlanned(trip.pace, i, part, time)
    ensures IsDayPart(trip.interests, prose, part, time, TemplateItems(trip, prose)[i])
  {
    time := TimesFor(ItemsPerDay(trip.pace))[i];
    match trip.pace {
      case Relaxed => part := if i == 0 then AtMorning else if i == 1 then AtLunch else AtAfternoon;
      case Balanced =>
        part := if i == 0 then AtMorning else if i == 1 then AtLunch else if i == 2 then AtAfternoon else AtEvening;
      case Intensive =>
        part := if i == 0 then AtMorning else if i == 1 then AtSecond else if i == 2 then AtLunch
                else if i == 3 then AtAfternoon else AtEvening;
    }
    PartIsDayPart(trip, prose, part, time);
    hide IsDayPart, Morning, Second, Lunch, Afternoon, Evening;
  }

  lemma PartIsDayPart(trip: Trip, prose: Prose, part: DayPart, time: string)
    ensures var item := match part
                        case AtMorning => Morning(time, trip, prose)
                        case AtSecond => Second(time, prose)
                        case AtLunch => Lunch(time, prose)
                        case AtAfternoon => Afternoon(time, trip, prose)
                        case AtEvening => Evening(time, trip, prose);
            IsDayPart(trip.interests, prose, part, time, item)
  {
  }

  lemma WeatherIs(trip: Trip, items: seq<PlanItem>, number: nat, i: nat)
    requires |items| >= 3 && i < |items| && number >= 1 && forall j :: 0 <= j < |items| ==> items[j].note.Some?
    ensures var adapted := WithWeather(items, WeatherOn(trip, number));
            |adapted| == |items| && IsUnderWeather(trip.weather, number, i, items[i], adapted[i])
  {
    hide Strip;
  }

  lemma PartsHaveNotes(trip: Trip, prose: Prose)
    ensures forall i :: 0 <= i < |TemplateItems(trip, prose)| ==> TemplateItems(trip, prose)[i].note.Some?
  {
    forall i | 0 <= i < |TemplateItems(trip, prose)|
      ensures TemplateItems(trip, prose)[i].note.Some?
    {
      var part, time := PlannedAt(trip, prose, i);
      hide TemplateItems, IsPlanned;
    }
  }

  /** A day from the templates, item by item. */
  lemma TemplateDayIs(trip: Trip, prose: Prose, number: nat)
    requires number >= 1
    ensures var day := TemplateDay(trip, prose, number);
            && day.number == number && day.title == prose.title && IsDayLength(trip.pace, |day.items|)
            && forall i :: 0 <= i < |day.items| ==> IsTemplateItem(trip, prose, number, i, day.items[i])
  {
    hide TemplateItems, WithWeather, WeatherOn, Finalized, Localized, IsPlanned, IsDayPart, IsUnderWeather, IsFinished;
    var day, items := TemplateDay(trip, prose, number), TemplateItems(trip, prose);
    var adapted := WithWeather(items, WeatherOn(trip, number));
    PartsHaveNotes(trip, prose);
    WeatherIs(trip, items, number, 0);
    FinishedAt(adapted, trip.language, trip.destination, 0);
    forall i | 0 <= i < |items|
      ensures IsTemplateItem(trip, prose, number, i, day.items[i])
    {
      var part, time := PlannedAt(trip, prose, i);
      WeatherIs(trip, items, number, i);
      FinishedAt(adapted, trip.language, trip.destination, i);
    }
  }

  // ---------- grounded days ----------

  ghost predicate IsSafe(place: Place) {
    place.rainFriendly == Some(true) || place.outdoor == Some(false)
  }

  /** On a day with 60% rain or more the rain-safe places, in their order, when there are any; else all of them. */
  ghost predicate AreCandidates(weather: seq<Weather>, number: nat, places: seq<Place>, candidates: seq<Place>) {
    if 1 <= number <= |weather| && weather[number - 1].rainChance >= 60 && exists k :: 0 <= k < |places| && IsSafe(places[k])
    then candidates == Filter(places, IsSafe)
    else candidates == places
  }

  ghost predicate IsGroundedTime(size: nat, i: nat, time: string) {
    if size == 3 then time == (if i == 0 then "10:00" else if i == 1 then "13:00" else "16:30")
    else if size == 4 then time == (if i == 0 then "09:00" else if i == 1 then "12:30" else if i == 2 then "15:30" else "19:00")
    else time == (if i == 0 then "08:30" else if i == 1 then "11:00" else if i == 2 then "13:00" else if i == 3 then "15:30" else "20:00")
  }

  /** How long a visit takes, where that is known. */
  ghost predicate IsVisitLength(place: Place, length: string) {
    if place.duration.None? then length == ""
    else exists number :: IsNumeral(number, place.duration.value)
                          && length == " Typical visit: about " + number + " minutes."
  }

  /** The category, then the length of a visit, and whether the place is outdoors and whether it is good in rain. */
  ghost predicate IsVisitNote(place: Place, note: string) {
    exists length ::
      && IsVisitLength(place, length)
      && note == "Grounded in curated knowledge as a " + place.category + "." + length
              + (if place.outdoor == Some(true) then " Outdoor; check weather before going." else "")
              + (if place.rainFriendly == Some(true) then " Suitable as a rain-friendly option." else "")
  }

  ghost predicate IsVisit(place: Place, time: string, item: PlanItem) {
    && item.time == time && item.endTime == None && item.name == place.name
    && item.kind == (if place.category == "restaurant" || place.category == "cafe" || place.category == "market" then "food"
                     else "place")
    && item.note.Some? && IsVisitNote(place, item.note.value) && item.transportMode == None && item.transfer == None
    && item.cost == Some(Estimate(Some(0.0), Some(if item.kind == "food" then "food" else "ticket")))
  }

  /** The item takes its turn in the rotation through the candidates, which goes on from day to day. */
  ghost predicate IsGroundedItem(trip: Trip, places: seq<Place>, number: nat, size: nat, i: nat, item: PlanItem) {
    exists candidates, time, turn: nat ::
      && AreCandidates(trip.weather, number, places, candidates) && IsGroundedTime(size, i, time)
      && turn < |candidates| && IsTurn((number - 1) * size + i, |candidates|, turn)
      && IsVisit(candidates[turn], time, item)
  }

  /** `turn` is what is left of `t` after full rounds. */
  ghost predicate IsTurn(t: int, n: nat, turn: nat) {
    turn < n && exists rounds :: t == rounds * n + turn
  }

  lemma {:induction false} SameFilter(places: seq<Place>)
    ensures Filter(places, RainSafe) == Filter(places, IsSafe)
  {
    if places != [] {
      SameFilter(places[1..]);
    }
  }

  lemma CandidatesAre(trip: Trip, number: nat, places: seq<Place>)
    requires number >= 1
    ensures AreCandidates(trip.weather, number, places, Candidates(places, RainyOn(trip, number)))
  {
    SameFilter(places);
    FilterMembers(places, RainSafe);
    var safe := Filter(places, RainSafe);
    assert forall k :: 0 <= k < |places| && IsSafe(places[k]) ==> places[k] in safe;
    if safe != [] {
      assert safe[0] in safe;
    }
  }

  lemma VisitLengthIs(place: Place) returns (length: string)
    ensures IsVisitLength(place, length)
    ensures length == match place.duration
                      case Some(m) => " Typical visit: about " + Decimal(m) + " minutes."
                      case None => ""
  {
    length := "";
    if place.duration.Some? {
      DecimalIsNumeral(place.duration.value);
      hide Decimal, IsNumeral;
      length := " Typical visit: about " + Decimal(place.duration.value) + " minutes.";
    }
  }

  lemma VisitNoteIs(place: Place)
    ensures IsVisitNote(place, GroundedNote(place))
  {
    var length := VisitLengthIs(place);
    hide Decimal, IsVisitLength;
  }

  lemma VisitIs(place: Place, time: string)
    ensures IsVisit(place, time, FinalItem(GroundedItem(place, time)))
  {
    VisitNoteIs(place);
    hide GroundedNote, IsVisitNote;
  }

  lemma TurnIs(t: nat, n: nat)
    requires n > 0
    ensures IsTurn(t, n, t % n)
  {
    assert t == t / n * n + t % n;
  }

  lemma GroundedTimeIs(size: nat, i: nat)
    requires 3 <= size <= 5 && i < size
    ensures IsGroundedTime(size, i, TimesFor(size)[i])
  {
  }

  /** A grounded day, item by item. */
  lemma GroundedDayIs(trip: Trip, places: seq<Place>, prose: Prose, number: nat)
    requires places != [] && number >= 1
    ensures var day := GroundedDay(trip, places, prose, number);
            && day.number == number && day.title == prose.title && IsDayLength(trip.pace, |day.items|)
            && forall i :: 0 <= i < |day.items| ==> IsGroundedItem(trip, places, number, |day.items|, i, day.items[i])
  {
    hide Candidates, RainyOn, TimesFor, FinalItem, GroundedItem, AreCandidates, IsGroundedTime, IsTurn, IsVisit;
    var size, candidates := ItemsPerDay(trip.pace), Candidates(places, RainyOn(trip, number));
    var day := GroundedDay(trip, places, prose, number);
    CandidatesAre(trip, number, places);
    forall i | 0 <= i < size
      ensures IsGroundedItem(trip, places, number, size, i, day.items[i])
    {
      var turn := Pick(|candidates|, size, number, i);
      TurnIs((number - 1) * size + i, |candidates|);
      GroundedTimeIs(size, i);
      VisitIs(candidates[turn], TimesFor(size)[i]);
    }
  }

  // ---------- the whole plan ----------

  ghost predicate IsPlainDay(trip: Trip, places: seq<Place>, prose: Prose, number: nat, day: PlanDay) {
    && day.number == number && day.title == prose.title && IsDayLength(trip.pace, |day.items|)
    && day.date == (match trip.start case Some(date) => Some(date + number - 1) case None => None)
    && forall i :: 0 <= i < |day.items| ==>
         if places == [] then IsTemplateItem(trip, prose, number, i, day.items[i])
         else IsGroundedItem(trip, places, number, |day.items|, i, day.items[i])
  }

  lemma PlainDayIs(trip: Trip, places: seq<Place>, prose: Prose, number: nat)
    requires number >= 1
    ensures IsPlainDay(trip, places, prose, number, PlainDay(trip, places, prose, number))
  {
    DatedDay(trip, places, prose, number);
    hide TemplateDay, GroundedDay, IsTemplateItem, IsGroundedItem, IsDayLength;
    if places == [] {
      TemplateDayIs(trip, prose, number);
    } else {
      GroundedDayIs(trip, places, prose, number);
    }
  }

  lemma DatedDay(trip: Trip, places: seq<Place>, prose: Prose, number: nat)
    requires number >= 1
    ensures PlainDay(trip, places, prose, number).date
         == match trip.start case Some(date) => Some(date + number - 1) case None => None
  {
    hide GroundedItems, TemplateItems, WithWeather, Finalized, Localized;
  }

  /** Without a route of several stops each day is made from the places, or from the templates when there are none. */
  lemma PlainDaysOf(trip: Trip, places: seq<Place>, prose: int -> Prose)
    requires |trip.stops| <= 1
    ensures var days := GeneratedPlan(trip, places, prose);
            && |days| == (if trip.days < 0 then 0 else trip.days)
            && forall d :: 0 <= d < |days| ==> IsPlainDay(trip, places, prose(d + 1), d + 1, days[d])
  {
    hide PlainDays, PlainDay, RouteItinerary, IsPlainDay;
    var days := GeneratedPlan(trip, places, prose);
    PlainDaysAre(trip, places, prose, if trip.days < 0 then 0 else trip.days);
    forall d | 0 <= d < |days|
      ensures IsPlainDay(trip, places, prose(d + 1), d + 1, days[d])
    {
      PlainDayIs(trip, places, prose(d + 1), d + 1);
    }
  }
  /** A route of several stops is generated by route. */
  lemma RouteDaysOf(trip: Trip, places: seq<Place>, prose: int -> Prose)
    requires |trip.stops| > 1 && trip.days >= 1
    ensures var days := GeneratedPlan(trip, places, prose);
            && |days| == |RouteSlots(trip)| == trip.days && SlotsFit(trip, RouteSlots(trip))
            && forall d :: 0 <= d < |days| ==> IsRouteDay(trip, RouteSlots(trip)[d], days[d])
  {
    hide RouteItinerary, RouteSlots, IsRouteDay;
    RouteDaysAre(trip);
  }
}
