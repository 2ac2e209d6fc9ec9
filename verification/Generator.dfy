/** `MockItineraryGenerator.generate`, and the verdict `ItineraryValidator` gives on whatever it builds. */
module Generator {
  import opened Wrappers
  import opened Sequences
  import opened Text
  import opened Clock
  import opened Numbers
  import opened Itinerary
  import opened Plan
  import opened RoutePlan
  import opened RoutePlanLaws
  import opened Grounding
  import opened Validator

  // ---------- template days ----------

  datatype Wording = Wording(name: string, note: string)

  /** The texts of one day, as its interests, language and destination select them. */
  datatype Prose = Prose(
    title: string,
    morning: Wording,
    second: Wording,
    lunch: Wording,
    afternoon: Wording,
    evening: Wording
  )

  /** An item built with a bare amount. */
  function Bare(time: string, kind: string, wording: Wording, cents: real): PlanItem {
    Simple(time, kind, wording.name, wording.note, cents, "other")
  }

  function Morning(time: string, trip: Trip, prose: Prose): PlanItem {
    Bare(time, "place", prose.morning, if trip.interests.history then 1800.0 else 0.0)
  }

  function Second(time: string, prose: Prose): PlanItem {
    Bare(time, "activity", prose.second, 1200.0)
  }

  function Lunch(time: string, prose: Prose): PlanItem {
    Bare(time, "food", prose.lunch, 1500.0)
  }

  function Afternoon(time: string, trip: Trip, prose: Prose): PlanItem {
    Bare(time, "activity", prose.afternoon,
         if trip.interests.hiddenGems then 500.0 else if trip.interests.history then 1600.0 else 800.0)
  }

  function Evening(time: string, trip: Trip, prose: Prose): PlanItem {
    if trip.interests.food then Bare(time, "food", prose.evening, 2400.0)
    else Bare(time, "activity", prose.evening, 0.0)
  }

  function TemplateItems(trip: Trip, prose: Prose): (items: seq<PlanItem>)
    ensures |items| == ItemsPerDay(trip.pace)
  {
    var at := TimesFor(ItemsPerDay(trip.pace));
    match trip.pace
    case Relaxed =>
      [Morning(at[0], trip, prose), Lunch(at[1], prose), Afternoon(at[2], trip, prose)]
    case Balanced =>
      [Morning(at[0], trip, prose), Lunch(at[1], prose), Afternoon(at[2], trip, prose), Evening(at[3], trip, prose)]
    case Intensive =>
      [Morning(at[0], trip, prose), Second(at[1], prose), Lunch(at[2], prose), Afternoon(at[3], trip, prose),
       Evening(at[4], trip, prose)]
  }

  function WeatherOn(trip: Trip, number: int): Option<Weather> {
    if 1 <= number <= |trip.weather| then Some(trip.weather[number - 1]) else None
  }

  const INDOORS := "Indoor museum or covered market"
  const RAIN_NOTE := "Rain is likely, so start indoors and keep outdoor stops as backups."
  const HEAT_NOTE := " High heat expected; avoid long outdoor walks at midday."

  /** `_apply_weather`. */
  function WithWeather(items: seq<PlanItem>, weather: Option<Weather>): seq<PlanItem> {
    match weather
    case None => items
    case Some(w) =>
      if items == [] then items
      else if w.rainChance >= 60 then items[0 := Bare(items[0].time, "place", Wording(INDOORS, RAIN_NOTE), 1600.0)]
      else if w.maxCelsius >= 32.0 then
        var midday := if |items| > 2 then 2 else |items| - 1;
        items[midday := items[midday].(note := Some(Strip(NoteOf(items[midday]) + HEAT_NOTE)))]
      else items
  }

  function TemplateDay(trip: Trip, prose: Prose, number: int): PlanDay {
    var items := WithWeather(TemplateItems(trip, prose), WeatherOn(trip, number));
    PlanDay(number, DateOf(trip, number), prose.title, None, false,
            Finalized(Localized(items, trip.language, trip.destination)))
  }

  predicate RainyOn(trip: Trip, number: int) {
    match WeatherOn(trip, number) case Some(w) => w.rainChance >= 60 case None => false
  }

  function GroundedDay(trip: Trip, places: seq<Place>, prose: Prose, number: int): PlanDay
    requires places != [] && number >= 1
  {
    PlanDay(number, DateOf(trip, number), prose.title, None, false,
            Finalized(GroundedItems(places, RainyOn(trip, number), trip.pace, number)))
  }

  // ---------- generate ----------

  function PlainDay(trip: Trip, places: seq<Place>, prose: Prose, number: int): PlanDay
    requires number >= 1
  {
    if places != [] then GroundedDay(trip, places, prose, number) else TemplateDay(trip, prose, number)
  }

  function PlainDays(trip: Trip, places: seq<Place>, prose: int -> Prose, days: nat): seq<PlanDay> {
    if days == 0 then [] else PlainDays(trip, places, prose, days - 1) + [PlainDay(trip, places, prose(days), days)]
  }

  function GeneratedPlan(trip: Trip, places: seq<Place>, prose: int -> Prose): seq<PlanDay> {
    if |trip.stops| > 1 then RouteItinerary(trip) else PlainDays(trip, places, prose, Max(0, trip.days))
  }

  /** `generate`: by route when it has more than one stop, else day by day from places or templates. */
  method Generate(trip: Trip, places: seq<Place>, prose: int -> Prose) returns (days: seq<PlanDay>)
    ensures days == GeneratedPlan(trip, places, prose)
  {
    if |trip.stops| > 1 {
      days := GenerateRouteItinerary(trip);
      return;
    }
    hide PlainDay;
    days := [];
    for number := 1 to Max(0, trip.days) + 1
      invariant days == PlainDays(trip, places, prose, number - 1)
    {
      days := days + [PlainDay(trip, places, prose(number), number)];
    }
  }

  // ---------- what the schemas guarantee of a request ----------

  predicate GoodWording(w: Wording) {
    NonBlank(w.name) && NonBlank(w.note)
  }

  predicate GoodProse(p: Prose) {
    && NonBlank(p.title) && GoodWording(p.morning) && GoodWording(p.second) && GoodWording(p.lunch)
    && GoodWording(p.afternoon) && GoodWording(p.evening)
  }

  predicate GoodLanguage(language: Language) {
    match language
    case English => true
    case Translated(names, note) => NonBlank(note) && forall i :: 0 <= i < |names| ==> NonBlank(names[i])
  }

  predicate CostIsValid(cost: Option<Estimate>) {
    cost.Some? && cost.value.cents.Some? ==> cost.value.cents.value >= 0.0
  }

  predicate LegsAreValid(legs: seq<Leg>) {
    forall i :: 0 <= i < |legs| ==> CostIsValid(legs[i].cost)
  }

  // ---------- items that pass on their own ----------

  predicate ReadyTransfer(item: PlanItem) {
    && item.transfer.Some? && item.transfer.value.mode in TRANSPORT_MODES
    && (item.transportMode.Some? ==> item.transportMode.value in TRANSPORT_MODES)
    && item.cost.Some?
  }

  /** Everything the validator asks of one item, but for the category of a transfer's cost. */
  predicate Ready(item: PlanItem) {
    && item.kind in ITEM_TYPES && IsClock(item.time)
    && (item.endTime.Some? ==> IsClock(item.endTime.value))
    && NonBlank(item.name) && NonBlank(NoteOf(item)) && item.note.Some?
    && CentsOf(item) >= 0.0
    && (item.kind == "transfer" ==> ReadyTransfer(item))
  }

  predicate AllReady(items: seq<PlanItem>) {
    forall i :: 0 <= i < |items| ==> Ready(items[i])
  }

  /** A transfer priced as transport, as nothing in particular, or not categorised. */
  predicate PricedAsTransport(cost: Option<Estimate>) {
    cost.Some? && cost.value.category.Some? ==>
      cost.value.category.value == "transport" || cost.value.category.value == "other"
  }

  lemma FinalIsWellFormed(item: PlanItem)
    requires Ready(item)
    ensures WellFormed(FinalItem(item), true) <==> (item.kind == "transfer" ==> PricedAsTransport(item.cost))
    ensures FinalItem(item).time == item.time && FinalItem(item).kind == item.kind
  {
    hide Strip, IsClock;
    FinalKeeps(item);
    if item.kind == "transfer" {
      FinalTransfer(item);
    }
  }

  lemma FinalKeeps(item: PlanItem)
    ensures var f := FinalItem(item);
            && f == item.(cost := f.cost)
            && CentsOf(f) == CentsOf(item) && (f.cost.Some? <==> item.cost.Some?)
  {
  }

  lemma FinalTransfer(item: PlanItem)
    requires item.kind == "transfer" && ReadyTransfer(item)
    ensures GoodTransfer(FinalItem(item)) <==> PricedAsTransport(item.cost)
  {
  }

  lemma LocalizedIsReady(items: seq<PlanItem>, language: Language, destination: string)
    requires AllReady(items) && GoodLanguage(language)
    ensures var localized := Localized(items, language, destination);
            && |localized| == |items| && AllReady(localized)
            && forall i :: 0 <= i < |items| ==>
                 localized[i].time == items[i].time && localized[i].kind == items[i].kind && localized[i].cost == items[i].cost
  {
    hide Strip, IsClock;
    match language {
      case English =>
      case Translated(names, note) =>
        if names != [] {
          forall i | 0 <= i < |items|
            ensures NonBlank(names[i % |names|] + " \U{2014} " + destination)
          {
            NonBlankPrefix(names[i % |names|], " \U{2014} ");
            NonBlankPrefix(names[i % |names|] + " \U{2014} ", destination);
          }
        }
    }
  }

  /** Ready items with times in order make a day the validator can only fault for its transfers or names. */
  lemma FinishedItems(items: seq<PlanItem>, language: Language, destination: string)
    requires AllReady(items) && GoodLanguage(language) && StrictlyLater(items)
    ensures var finished := Finalized(Localized(items, language, destination));
            && |finished| == |items| && StrictlyLater(finished)
            && forall i :: 0 <= i < |items| ==>
                 (WellFormed(finished[i], true) <==> (items[i].kind == "transfer" ==> PricedAsTransport(items[i].cost)))
  {
    LocalizedIsReady(items, language, destination);
    var localized := Localized(items, language, destination);
    hide Ready, WellFormed, Localized, FinalItem;
    forall i | 0 <= i < |items|
      ensures WellFormed(FinalItem(localized[i]), true) <==>
              (items[i].kind == "transfer" ==> PricedAsTransport(items[i].cost))
      ensures FinalItem(localized[i]).time == items[i].time
    {
      FinalIsWellFormed(localized[i]);
    }
  }

  // ---------- template and grounded days ----------

  lemma BareIsReady(time: string, kind: string, w: Wording, cents: real)
    requires IsClock(time) && kind in ["place", "food", "activity"] && GoodWording(w) && cents >= 0.0
    ensures Ready(Bare(time, kind, w, cents)) && Bare(time, kind, w, cents).time == time
    ensures Bare(time, kind, w, cents).kind == kind
  {
    hide Strip, IsClock;
  }

  predicate NoTransfers(items: seq<PlanItem>) {
    forall i :: 0 <= i < |items| ==> items[i].kind != "transfer"
  }

  predicate At(items: seq<PlanItem>, times: seq<string>) {
    |items| == |times| && forall i :: 0 <= i < |items| ==> items[i].time == times[i]
  }

  ghost predicate Ascending(times: seq<string>) {
    forall i, j :: 0 <= i < j < |times| ==> Less(times[i], times[j])
  }

  predicate Reads(times: seq<string>, minutes: seq<nat>) {
    |times| == |minutes| && forall i :: 0 <= i < |times| ==> IsClock(times[i]) && ToMinutes(times[i]) == Some(minutes[i])
  }

  lemma AscendingByMinutes(times: seq<string>, minutes: seq<nat>)
    requires Reads(times, minutes)
    requires forall i, j :: 0 <= i < j < |minutes| ==> minutes[i] < minutes[j]
    ensures Ascending(times)
  {
    forall i, j | 0 <= i < j < |times|
      ensures Less(times[i], times[j])
    {
      OrderAgrees(times[i], times[j]);
    }
  }

  lemma AtAscending(items: seq<PlanItem>, times: seq<string>)
    requires At(items, times) && Ascending(times)
    ensures StrictlyLater(items)
  {
  }

  lemma ThreeTimesAscend()
    ensures Reads(TimesFor(3), [600, 780, 990])
  {
    ReadsAs("10:00", 1, 0, 0, 0);
    ReadsAs("13:00", 1, 3, 0, 0);
    ReadsAs("16:30", 1, 6, 3, 0);
    hide IsClock, ToMinutes;
  }

  lemma FourTimesAscend()
    ensures Reads(TimesFor(4), [540, 750, 930, 1140])
  {
    ReadsAs("09:00", 0, 9, 0, 0);
    ReadsAs("12:30", 1, 2, 3, 0);
    ReadsAs("15:30", 1, 5, 3, 0);
    ReadsAs("19:00", 1, 9, 0, 0);
    hide IsClock, ToMinutes;
  }

  lemma FiveTimesAscend()
    ensures Reads(TimesFor(5), [510, 660, 780, 930, 1200])
  {
    ReadsAs("08:30", 0, 8, 3, 0);
    ReadsAs("11:00", 1, 1, 0, 0);
    ReadsAs("13:00", 1, 3, 0, 0);
    ReadsAs("15:30", 1, 5, 3, 0);
    ReadsAs("20:00", 2, 0, 0, 0);
    hide IsClock, ToMinutes;
  }

  lemma TimesAscend(size: nat)
    requires 3 <= size <= 5
    ensures Ascending(TimesFor(size)) && forall i :: 0 <= i < size ==> IsClock(TimesFor(size)[i])
  {
    hide IsClock, ToMinutes, TimesFor, Ascending;
    if size == 3 {
      ThreeTimesAscend();
      AscendingByMinutes(TimesFor(3), [600, 780, 990]);
    } else if size == 4 {
      FourTimesAscend();
      AscendingByMinutes(TimesFor(4), [540, 750, 930, 1140]);
    } else {
      FiveTimesAscend();
      AscendingByMinutes(TimesFor(5), [510, 660, 780, 930, 1200]);
    }
  }

  predicate ReadyAt(item: PlanItem, time: string) {
    Ready(item) && item.time == time && item.kind != "transfer"
  }

  lemma PartsAreReady(time: string, trip: Trip, prose: Prose)
    requires IsClock(time) && GoodProse(prose)
    ensures ReadyAt(Morning(time, trip, prose), time) && ReadyAt(Lunch(time, prose), time)
    ensures ReadyAt(Second(time, prose), time)
    ensures ReadyAt(Afternoon(time, trip, prose), time) && ReadyAt(Evening(time, trip, prose), time)
  {
    hide Ready, Bare, GoodWording, IsClock;
    BareIsReady(time, "place", prose.morning, if trip.interests.history then 1800.0 else 0.0);
    BareIsReady(time, "food", prose.lunch, 1500.0);
    BareIsReady(time, "activity", prose.second, 1200.0);
    BareIsReady(time, "activity", prose.afternoon,
                if trip.interests.hiddenGems then 500.0 else if trip.interests.history then 1600.0 else 800.0);
    BareIsReady(time, "food", prose.evening, 2400.0);
    BareIsReady(time, "activity", prose.evening, 0.0);
  }

  lemma TemplateIsReady(trip: Trip, prose: Prose, i: nat)
    requires GoodProse(prose) && i < ItemsPerDay(trip.pace)
    ensures ReadyAt(TemplateItems(trip, prose)[i], TimesFor(ItemsPerDay(trip.pace))[i])
  {
    hide ReadyAt, GoodProse, IsClock, Morning, Lunch, Second, Afternoon, Evening, TimesFor, Ascending;
    var times := TimesFor(ItemsPerDay(trip.pace));
    TimesAscend(ItemsPerDay(trip.pace));
    PartsAreReady(times[i], trip, prose);
    var items := TemplateItems(trip, prose);
    match trip.pace {
      case Relaxed =>
        assert items == [Morning(times[0], trip, prose), Lunch(times[1], prose), Afternoon(times[2], trip, prose)];
      case Balanced =>
        assert items[0] == Morning(times[0], trip, prose) && items[1] == Lunch(times[1], prose);
        assert items[2] == Afternoon(times[2], trip, prose) && items[3] == Evening(times[3], trip, prose);
      case Intensive =>
        assert items[0] == Morning(times[0], trip, prose) && items[1] == Second(times[1], prose);
        assert items[2] == Lunch(times[2], prose) && items[3] == Afternoon(times[3], trip, prose);
        assert items[4] == Evening(times[4], trip, prose);
    }
  }

  lemma WeatherKeepsReady(items: seq<PlanItem>, weather: Option<Weather>, i: nat)
    requires i < |items| && ReadyAt(items[i], items[i].time)
    ensures |WithWeather(items, weather)| == |items|
    ensures ReadyAt(WithWeather(items, weather)[i], items[i].time)
  {
    hide IsClock, Strip, Bare;
    RainItemIsReady(items[0].time);
    if i == 0 {
      NonBlankPrefix(NoteOf(items[0]), HEAT_NOTE);
      StrippedStaysNonBlank(NoteOf(items[0]) + HEAT_NOTE);
    } else {
      NonBlankPrefix(NoteOf(items[i]), HEAT_NOTE);
      StrippedStaysNonBlank(NoteOf(items[i]) + HEAT_NOTE);
    }
  }

  lemma RainItemIsReady(time: string)
    ensures IsClock(time) ==> ReadyAt(Bare(time, "place", Wording(INDOORS, RAIN_NOTE), 1600.0), time)
  {
    NonBlankAt(INDOORS, |INDOORS| - 1);
    NonBlankAt(RAIN_NOTE, |RAIN_NOTE| - 1);
    hide IsClock, Strip, Bare, Ready;
    if IsClock(time) {
      BareIsReady(time, "place", Wording(INDOORS, RAIN_NOTE), 1600.0);
    }
  }

  /** A day of well-formed items in order can only be faulted for its names. */
  lemma PlainDayVerdict(day: PlanDay, number: int, size: nat)
    requires day.number == number && NonBlank(day.title) && |day.items| == size
    requires StrictlyLater(day.items)
    ensures DayAcceptable(day, number, size, true) <==>
            DistinctNames(day.items) && forall i :: 0 <= i < size ==> WellFormed(day.items[i], true)
  {
  }

  lemma TemplateDayVerdict(trip: Trip, prose: Prose, number: int)
    requires GoodProse(prose) && GoodLanguage(trip.language)
    ensures var day := TemplateDay(trip, prose, number);
            DayAcceptable(day, number, ItemsPerDay(trip.pace), true) <==> DistinctNames(day.items)
  {
    var adapted := WithWeather(TemplateItems(trip, prose), WeatherOn(trip, number));
    var times := TimesFor(ItemsPerDay(trip.pace));
    AdaptedIsReady(trip, prose, number);
    TimesAscend(ItemsPerDay(trip.pace));
    hide TemplateItems, WithWeather, TimesFor, Ready, WellFormed, Ascending, StrictlyLater, DistinctNames, Strip;
    hide Finalized, Localized, IsClock, GoodProse;
    AtAscending(adapted, times);
    FinishedItems(adapted, trip.language, trip.destination);
    PlainDayVerdict(TemplateDay(trip, prose, number), number, ItemsPerDay(trip.pace));
  }

  lemma AdaptedIsReady(trip: Trip, prose: Prose, number: int)
    requires GoodProse(prose)
    ensures NonBlank(prose.title)
    ensures var adapted := WithWeather(TemplateItems(trip, prose), WeatherOn(trip, number));
            AllReady(adapted) && NoTransfers(adapted) && At(adapted, TimesFor(ItemsPerDay(trip.pace)))
  {
    var items, weather := TemplateItems(trip, prose), WeatherOn(trip, number);
    var adapted := WithWeather(items, weather);
    var times := TimesFor(ItemsPerDay(trip.pace));
    hide TemplateItems, WithWeather, WeatherOn, TimesFor, Ready, Strip;
    TemplateIsReady(trip, prose, 0);
    WeatherKeepsReady(items, weather, 0);
    forall i | 0 <= i < |items|
      ensures ReadyAt(adapted[i], times[i])
    {
      TemplateIsReady(trip, prose, i);
      WeatherKeepsReady(items, weather, i);
    }
  }

  // ---------- grounded days ----------

  lemma GroundedItemVerdict(place: Place, time: string)
    requires IsClock(time)
    ensures var item := FinalItem(GroundedItem(place, time));
            item.time == time && item.name == place.name && (WellFormed(item, true) <==> NonBlank(place.name))
  {
    var item := GroundedItem(place, time);
    GroundedNoteIsNonBlank(place);
    hide IsClock, Strip, GroundedNote;
    FinalKeeps(item);
    if NonBlank(place.name) {
      FinalIsWellFormed(item);
    }
  }

  lemma GroundedNoteIsNonBlank(place: Place)
    ensures NonBlank(GroundedNote(place))
  {
    NonBlankAt(GroundedNote(place), 0);
  }

  ghost predicate NamesNonBlank(items: seq<PlanItem>) {
    forall i :: 0 <= i < |items| ==> NonBlank(items[i].name)
  }

  lemma GroundedDayVerdict(trip: Trip, places: seq<Place>, prose: Prose, number: int)
    requires places != [] && number >= 1 && NonBlank(prose.title)
    ensures var day := GroundedDay(trip, places, prose, number);
            DayAcceptable(day, number, ItemsPerDay(trip.pace), true) <==>
            DistinctNames(day.items) && NamesNonBlank(day.items)
  {
    var size := ItemsPerDay(trip.pace);
    var chosen := DayPlaces(Candidates(places, RainyOn(trip, number)), size, number);
    var day := GroundedDay(trip, places, prose, number);
    var times := TimesFor(size);
    TimesAscend(size);
    hide Candidates, DayPlaces, TimesFor, WellFormed, Ascending, StrictlyLater, DistinctNames, Strip, FinalItem, GroundedItem;
    forall i | 0 <= i < size
      ensures day.items[i].time == times[i] && (WellFormed(day.items[i], true) <==> NonBlank(day.items[i].name))
    {
      GroundedItemVerdict(chosen[i], times[i]);
    }
    AtAscending(day.items, times);
    PlainDayVerdict(day, number, size);
  }

  // ---------- route days ----------

  lemma ArrivalIsClock(duration: Option<nat>)
    ensures IsClock(ArrivalTime(duration))
  {
    var minutes := if duration.Some? && duration.value > 0 then duration.value else 90;
    ParseOfFormat(60 * Min(9 + minutes / 60, 23) + minutes % 60);
  }

  lemma ModeIsKnown(mode: string)
    ensures KnownMode(mode) in TRANSPORT_MODES
  {
    assert TRANSPORT_MODES[11] == "other";
  }

  lemma RoundsToNonNegative(x: real)
    requires x >= 0.0
    ensures RoundHalfEven(x) >= 0
  {
  }

  lemma TransferCostIsValid(leg: Option<Leg>, mode: string)
    requires leg.Some? ==> CostIsValid(leg.value.cost)
    ensures CostIsValid(Some(TransferCost(leg, mode)))
    ensures PricedAsTransport(Some(TransferCost(leg, mode))) <==> (leg.Some? ==> PricedAsTransport(leg.value.cost))
  {
    hide EstimatedFare;
    EstimatedFareIsNatural(match leg case Some(l) => l.distance case None => None, mode);
  }

  lemma EstimatedFareIsNatural(distance: Option<real>, mode: string)
    ensures EstimatedFare(distance, mode) >= 0
  {
    hide RateOf, RoundHalfEven;
    var km := if distance.Some? && distance.value > 0.0 then distance.value else 100.0;
    FareIsNonNegative(km, RateOf(mode) as real);
    RoundsToNonNegative(FareCents(km, mode));
  }

  lemma FareIsNonNegative(km: real, rate: real)
    requires km >= 0.0 && rate >= 0.0
    ensures km * rate >= 0.0
  {
  }

  /** The leg at `k` leads from the stop before, or from the origin, to the stop. */
  ghost predicate LeadsTo(trip: Trip, s: nat, k: nat)
    requires s < |trip.stops|
  {
    && k < |trip.legs|
    && trip.legs[k].fromId == (if s == 0 then "origin" else trip.stops[s - 1].id)
    && trip.legs[k].toId == trip.stops[s].id
  }

  ghost predicate IsFirstLegTo(trip: Trip, s: nat, k: nat)
    requires s < |trip.stops|
  {
    LeadsTo(trip, s, k) && forall j: nat :: j < k ==> !LeadsTo(trip, s, j)
  }

  /** The leg into the stop, the first of several, is priced as transport, or carries no price of its own. */
  ghost predicate LegPriced(trip: Trip, s: nat)
    requires s < |trip.stops|
  {
    forall k: nat :: IsFirstLegTo(trip, s, k) ==> PricedAsTransport(trip.legs[k].cost)
  }

  lemma {:induction false} FoundLegIsFirst(legs: seq<Leg>, fromId: string, toId: string) returns (k: nat)
    ensures match FindLeg(legs, fromId, toId)
            case None => forall j :: 0 <= j < |legs| ==> legs[j].fromId != fromId || legs[j].toId != toId
            case Some(leg) =>
              && k < |legs| && legs[k] == leg && leg.fromId == fromId && leg.toId == toId
              && forall j :: 0 <= j < k ==> legs[j].fromId != fromId || legs[j].toId != toId
  {
    k := 0;
    if legs != [] && !(legs[0].fromId == fromId && legs[0].toId == toId) {
      k := FoundLegIsFirst(legs[1..], fromId, toId);
      assert forall j :: 0 < j < |legs| ==> legs[j] == legs[1..][j - 1];
      k := k + 1;
    }
  }

  /** The leg the code finds for a stop is the first that leads there. */
  lemma LegForStopIsFirst(trip: Trip, s: nat)
    requires s < |trip.stops|
    ensures match LegForStop(trip, s)
            case None => forall k: nat :: !LeadsTo(trip, s, k)
            case Some(leg) => exists k: nat :: IsFirstLegTo(trip, s, k) && trip.legs[k] == leg
    ensures LegPriced(trip, s) <==> (LegForStop(trip, s).Some? ==> PricedAsTransport(LegForStop(trip, s).value.cost))
  {
    hide PricedAsTransport;
    var k := FoundLegIsFirst(trip.legs, if s == 0 then "origin" else trip.stops[s - 1].id, trip.stops[s].id);
    if LegForStop(trip, s).Some? {
      assert IsFirstLegTo(trip, s, k);
      assert forall j: nat :: IsFirstLegTo(trip, s, j) ==> j == k;
    }
  }

  lemma TransferName(mode: string, rest: string)
    ensures NonBlank(mode + " from " + rest)
  {
    assert (mode + " from " + rest)[|mode| + 1] == 'f';
    NonBlankAt(mode + " from " + rest, |mode| + 1);
  }

  lemma VerifyNote(notes: string)
    ensures NonBlank(notes + " " + VERIFY)
    ensures NonBlank(VERIFY + " This is not a booking or live ticket price.")
  {
    assert (notes + " " + VERIFY)[|notes| + 1] == 'V';
    NonBlankAt(notes + " " + VERIFY, |notes| + 1);
    NonBlankAt(VERIFY + " This is not a booking or live ticket price.", 0);
  }

  lemma TransferItemParts(trip: Trip, s: nat) returns (mode: string, names: string, notes: string)
    requires s < |trip.stops|
    ensures var item := TransferItem(trip, s);
            var cost := TransferCost(LegForStop(trip, s), mode);
            && item.time == "09:00" && item.kind == "transfer" && item.name == mode + " from " + names
            && item.endTime == Some(ArrivalTime(match LegForStop(trip, s) case Some(l) => l.duration case None => None))
            && (item.note == Some(notes + " " + VERIFY) || item.note == Some(VERIFY + " This is not a booking or live ticket price."))
            && item.transportMode == Some(KnownMode(mode)) && item.transfer == Some(Transfer(KnownMode(mode), Some(cost)))
            && item.cost == Some(cost)
  {
    hide ArrivalTime, TransferCost, KnownMode, LegForStop, StopName;
    var leg := LegForStop(trip, s);
    mode := TransferMode(trip, s);
    var fromName := if leg.Some? && leg.value.fromName != "" then leg.value.fromName
                    else if s > 0 then StopName(trip.stops[s - 1])
                    else if trip.origin != "" then trip.origin
                    else "Origin";
    names := fromName + " to " + ToName(trip, s);
    notes := if leg.Some? then leg.value.notes else "";
    assert mode + " from " + fromName + " to " + ToName(trip, s) == mode + " from " + names;
  }

  lemma TransferItemIsReady(trip: Trip, s: nat)
    requires s < |trip.stops| && LegsAreValid(trip.legs)
    ensures var item := TransferItem(trip, s);
            && Ready(item) && item.time == "09:00" && item.kind == "transfer"
            && (PricedAsTransport(item.cost) <==> LegPriced(trip, s))
  {
    hide TransferItem, ArrivalTime, TransferCost, KnownMode, IsClock, Strip, LegForStop, FindLeg;
    var leg := LegForStop(trip, s);
    LegForStopIsFirst(trip, s);
    var mode, names, notes := TransferItemParts(trip, s);
    ArrivalIsClock(match leg case Some(l) => l.duration case None => None);
    ReadsAs("09:00", 0, 9, 0, 0);
    ModeIsKnown(mode);
    TransferName(mode, names);
    VerifyNote(notes);
    TransferCostIsValid(leg, mode);
    TransferIsAKind();
    hide PricedAsTransport, VERIFY, TRANSPORT_MODES, ITEM_TYPES;
  }

  lemma TransferIsAKind()
    ensures "transfer" in ITEM_TYPES
  {
    assert ITEM_TYPES[4] == "transfer";
  }

  predicate IsPlainKind(kind: string) {
    kind in ITEM_TYPES && kind != "transfer"
  }

  lemma PlainKinds()
    ensures IsPlainKind("food") && IsPlainKind("activity") && IsPlainKind("rest")
  {
    assert ITEM_TYPES[1] == "food" && ITEM_TYPES[2] == "activity" && ITEM_TYPES[5] == "rest";
  }

  lemma SimpleIsReady(time: string, kind: string, name: string, note: string, cents: real, category: string)
    requires IsClock(time) && IsPlainKind(kind) && NonBlank(name) && NonBlank(note) && cents >= 0.0
    ensures ReadyAt(Simple(time, kind, name, note, cents, category), time)
  {
    hide Strip, IsClock;
  }

  lemma PadIsReady(index: nat, time: string, destination: string)
    requires IsClock(time)
    ensures ReadyAt(PadItem(index, time, destination), time)
  {
    PlainKinds();
    hide ReadyAt, IsClock, Strip, IsPlainKind;
    NonBlankAt(BUFFER_NOTE, |BUFFER_NOTE| - 1);
    NonBlankAt(SHORT_STOP_NOTE, |SHORT_STOP_NOTE| - 1);
    NonBlankAt("Buffer time in " + destination, 0);
    NonBlankAt("Short local stop in " + destination, 0);
    if index % 2 == 0 {
      SimpleIsReady(time, "rest", "Buffer time in " + destination, BUFFER_NOTE, 0.0, "other");
    } else {
      SimpleIsReady(time, "activity", "Short local stop in " + destination, SHORT_STOP_NOTE, 0.0, "activity");
    }
  }

  lemma StyleNoteIsNonBlank(styles: seq<string>)
    ensures NonBlank(StyleNote(styles))
  {
    hide Strip;
    if "hiking" in styles {
      NonBlankAt(HIKING_NOTE, |HIKING_NOTE| - 1);
    } else if "camping" in styles {
      NonBlankAt(CAMPING_NOTE, |CAMPING_NOTE| - 1);
    } else if "island_hopping" in styles {
      NonBlankAt(ISLAND_NOTE, |ISLAND_NOTE| - 1);
    } else {
      NonBlankAt(LIGHT_NOTE, |LIGHT_NOTE| - 1);
    }
  }

  // ---------- the items of a route day ----------

  function RouteTimes(transferDay: bool): seq<string> {
    if transferDay then ["09:00", "13:00", "15:30", "19:00"] else ["09:30", "12:30", "16:00"]
  }

  lemma TransferTimes()
    ensures Reads(RouteTimes(true), [540, 780, 930, 1140])
  {
    ReadsAs("09:00", 0, 9, 0, 0);
    ReadsAs("13:00", 1, 3, 0, 0);
    ReadsAs("15:30", 1, 5, 3, 0);
    ReadsAs("19:00", 1, 9, 0, 0);
    hide IsClock, ToMinutes;
  }

  lemma StayTimes()
    ensures Reads(RouteTimes(false), [570, 750, 960])
  {
    ReadsAs("09:30", 0, 9, 3, 0);
    ReadsAs("12:30", 1, 2, 3, 0);
    ReadsAs("16:00", 1, 6, 0, 0);
    hide IsClock, ToMinutes;
  }

  lemma RouteTimesAscend(transferDay: bool)
    ensures Ascending(RouteTimes(transferDay))
    ensures forall i :: 0 <= i < |RouteTimes(transferDay)| ==> IsClock(RouteTimes(transferDay)[i])
    ensures ToMinutes(RouteTimes(transferDay)[|RouteTimes(transferDay)| - 1]) == Some(if transferDay then 1140 else 960)
  {
    hide IsClock, ToMinutes, RouteTimes, Ascending;
    if transferDay {
      TransferTimes();
      AscendingByMinutes(RouteTimes(true), [540, 780, 930, 1140]);
    } else {
      StayTimes();
      AscendingByMinutes(RouteTimes(false), [570, 750, 960]);
    }
  }

  /** Apart from a transfer, a route day holds items that pass on their own. */
  ghost predicate RouteReady(trip: Trip, s: nat, item: PlanItem, first: bool)
    requires s < |trip.stops|
  {
    && Ready(item)
    && (item.kind == "transfer" <==> first)
    && (item.kind == "transfer" ==> (PricedAsTransport(item.cost) <==> LegPriced(trip, s)))
  }

  lemma StopNamesAreNonBlank(name: string)
    ensures NonBlank("Local meal in " + name) && NonBlank(name + " orientation walk")
    ensures NonBlank("Dinner near " + name + " center")
    ensures NonBlank(MEAL_NOTE) && NonBlank(DINNER_NOTE)
  {
    hide Strip;
    NonBlankAt("Local meal in " + name, 0);
    NonBlankAt(name + " orientation walk", |name| + 1);
    NonBlankAt("Dinner near " + name + " center", 0);
    NonBlankAt(MEAL_NOTE, |MEAL_NOTE| - 1);
    NonBlankAt(DINNER_NOTE, |DINNER_NOTE| - 1);
  }

  lemma StayItemsAreReady(trip: Trip, s: nat, first: string, second: string, third: string)
    requires s < |trip.stops| && IsClock(first) && IsClock(second) && IsClock(third)
    ensures var items := StayItems(trip, s, first, second, third);
            && |items| == 3 && ReadyAt(items[0], first) && ReadyAt(items[1], second) && ReadyAt(items[2], third)
            && items[2].endTime == None
  {
    var name := StopName(trip.stops[s]);
    StopNamesAreNonBlank(name);
    StyleNoteIsNonBlank(trip.styles);
    PlainKinds();
    hide Strip, IsClock, ReadyAt, StyleNote, StopName, IsPlainKind;
    SimpleIsReady(first, "food", "Local meal in " + name, MEAL_NOTE, 1600.0, "food");
    SimpleIsReady(second, "activity", name + " orientation walk", StyleNote(trip.styles), 0.0, "activity");
    SimpleIsReady(third, "food", "Dinner near " + name + " center", DINNER_NOTE, 2400.0, "food");
  }

  lemma RouteItemsAreReady(trip: Trip, s: nat, transferDay: bool)
    requires s < |trip.stops| && LegsAreValid(trip.legs)
    ensures var items := RouteItems(trip, s, transferDay);
            && At(items, RouteTimes(transferDay)) && items[|items| - 1].endTime == None
            && forall i :: 0 <= i < |items| ==> RouteReady(trip, s, items[i], transferDay && i == 0)
  {
    RouteTimesAscend(transferDay);
    hide Ready, IsClock, TransferItem, StayItems, LegPriced, PricedAsTransport, LegsAreValid;
    var times := RouteTimes(transferDay);
    if transferDay {
      assert times[1] == "13:00" && times[2] == "15:30" && times[3] == "19:00";
      TransferItemIsReady(trip, s);
      StayItemsAreReady(trip, s, "13:00", "15:30", "19:00");
    } else {
      assert times[0] == "09:30" && times[1] == "12:30" && times[2] == "16:00";
      StayItemsAreReady(trip, s, "09:30", "12:30", "16:00");
    }
  }

  /** Padded to the pace, a route day still has its times in order and items that pass on their own. */
  lemma PaddedDayIsReady(trip: Trip, s: nat, transferDay: bool)
    requires s < |trip.stops| && LegsAreValid(trip.legs)
    ensures CanPad(RouteItems(trip, s, transferDay))
    ensures var padded := Padded(RouteItems(trip, s, transferDay), trip.stops[s].destination, ItemsPerDay(trip.pace));
            && |padded| >= ItemsPerDay(trip.pace) && StrictlyLater(padded)
            && forall i :: 0 <= i < |padded| ==> RouteReady(trip, s, padded[i], transferDay && i == 0)
  {
    hide RouteItems, Padded, RouteReady, CanPad, PadItem, Format, StrictlyLater;
    var items := RouteItems(trip, s, transferDay);
    var destination, size := trip.stops[s].destination, ItemsPerDay(trip.pace);
    RouteItemsCanBePadded(trip, s, transferDay);
    RouteItemsAreReady(trip, s, transferDay);
    PaddedIs(items, destination, size);
    PaddedDayIsInOrder(trip, s, transferDay);
    var padded := Padded(items, destination, size);
    forall i | 0 <= i < |padded|
      ensures RouteReady(trip, s, padded[i], transferDay && i == 0)
    {
      if i < |items| {
        assert padded[i] == items[i];
      } else {
        PadIsRouteReady(trip, s, i, PadMinutes(Base(items), i - |items|), destination);
      }
    }
  }

  /** What padding a route day starts from. */
  lemma RouteDayBase(trip: Trip, s: nat, transferDay: bool)
    requires s < |trip.stops| && LegsAreValid(trip.legs)
    ensures var items := RouteItems(trip, s, transferDay);
            && |items| == (if transferDay then 4 else 3) && CanPad(items) && StrictlyLater(items)
            && IsClock(items[|items| - 1].time) && Base(items) == (if transferDay then 1140 else 960)
            && ToMinutes(items[|items| - 1].time) == Some(Base(items))
  {
    var items := RouteItems(trip, s, transferDay);
    RouteItemsCanBePadded(trip, s, transferDay);
    RouteItemsAreReady(trip, s, transferDay);
    RouteTimesAscend(transferDay);
    AtAscending(items, RouteTimes(transferDay));
    LastTimeOf(items, RouteTimes(transferDay));
    assert |items| == if transferDay then 4 else 3;
    hide RouteItems, RouteTimes, RouteReady, CanPad, IsClock, ToMinutes, Base, Ascending, StrictlyLater, LastTime;
  }

  lemma PaddedDayIsInOrder(trip: Trip, s: nat, transferDay: bool)
    requires s < |trip.stops| && LegsAreValid(trip.legs)
    ensures CanPad(RouteItems(trip, s, transferDay))
    ensures StrictlyLater(Padded(RouteItems(trip, s, transferDay), trip.stops[s].destination, ItemsPerDay(trip.pace)))
  {
    hide RouteItems, CanPad, IsClock, ToMinutes, Base, StrictlyLater, OnePadded, LegsAreValid;
    var items := RouteItems(trip, s, transferDay);
    var destination, size := trip.stops[s].destination, ItemsPerDay(trip.pace);
    RouteDayBase(trip, s, transferDay);
    if |items| < size {
      PaddingKeepsOrder(items, destination, size);
    }
  }

  lemma LastTimeOf(items: seq<PlanItem>, times: seq<string>)
    requires items != [] && CanPad(items) && At(items, times) && items[|items| - 1].endTime == None
    ensures Base(items) == (FormatOfParse(LastTime(items)); ToMinutes(times[|times| - 1]).value)
    ensures LastTime(items) == times[|times| - 1] && IsClock(items[|items| - 1].time)
  {
  }

  lemma PadIsRouteReady(trip: Trip, s: nat, index: nat, minutes: nat, destination: string)
    requires s < |trip.stops| && minutes < MINUTES_PER_DAY
    ensures RouteReady(trip, s, PadItem(index, Format(minutes), destination), false)
  {
    hide Ready, Format, PadItem, IsClock;
    ParseOfFormat(minutes);
    PadIsReady(index, Format(minutes), destination);
  }

  lemma StopItemsVerdict(trip: Trip, s: nat, transferDay: bool)
    requires s < |trip.stops| && LegsAreValid(trip.legs) && GoodLanguage(trip.language)
    ensures var items := StopItems(trip, s, transferDay);
            && |items| >= ItemsPerDay(trip.pace) && StrictlyLater(items)
            && forall i :: 0 <= i < |items| ==>
                 (WellFormed(items[i], true) <==> (transferDay && i == 0 ==> LegPriced(trip, s)))
  {
    hide Padded, RouteItems, Ready, WellFormed, LegPriced, PricedAsTransport, StrictlyLater, CanPad, Finalized, Localized;
    hide LegsAreValid, GoodLanguage;
    PaddedDayIsReady(trip, s, transferDay);
    var destination := trip.stops[s].destination;
    var padded := Padded(RouteItems(trip, s, transferDay), destination, ItemsPerDay(trip.pace));
    assert AllReady(padded);
    FinishedItems(padded, trip.language, destination);
    forall i | 0 <= i < |padded|
      ensures padded[i].kind == "transfer" <==> transferDay && i == 0
      ensures padded[i].kind == "transfer" ==> (PricedAsTransport(padded[i].cost) <==> LegPriced(trip, s))
    {
      assert RouteReady(trip, s, padded[i], transferDay && i == 0);
    }
  }

  lemma RouteDayVerdict(trip: Trip, slot: Slot, number: int)
    requires slot.stop < |trip.stops| && LegsAreValid(trip.legs) && GoodLanguage(trip.language)
    ensures var day := RouteDay(trip, slot, number);
            DayAcceptable(day, number, ItemsPerDay(trip.pace), true) <==>
            DistinctNames(day.items) && (IsArrival(slot) ==> LegPriced(trip, slot.stop))
  {
    var size := ItemsPerDay(trip.pace);
    var all := StopItems(trip, slot.stop, slot.index == 0);
    var day := RouteDay(trip, slot, number);
    StopItemsVerdict(trip, slot.stop, slot.index == 0);
    RouteTitles(StopName(trip.stops[slot.stop]));
    hide StopItems, WellFormed, LegPriced, DistinctNames, NonBlank, StopName;
    CutVerdict(all, size, slot.index == 0, LegPriced(trip, slot.stop));
    hide StrictlyLater;
    assert day.items == all[..size];
    PlainDayVerdict(day, number, size);
  }

  lemma RouteTitles(name: string)
    ensures NonBlank("Transfer to " + name) && NonBlank("Explore " + name)
  {
    hide Strip;
    NonBlankAt("Transfer to " + name, 0);
    NonBlankAt("Explore " + name, 0);
  }

  /** Cutting a day short keeps its order and the verdict on its items. */
  lemma CutVerdict(all: seq<PlanItem>, size: nat, transferDay: bool, priced: bool)
    requires 0 < size <= |all| && StrictlyLater(all)
    requires forall i :: 0 <= i < |all| ==> (WellFormed(all[i], true) <==> (transferDay && i == 0 ==> priced))
    ensures StrictlyLater(all[..size])
    ensures (forall i :: 0 <= i < size ==> WellFormed(all[..size][i], true)) <==> (transferDay ==> priced)
  {
    hide WellFormed;
    assert all[..size][0] == all[0];
  }

  // ---------- the verdict on a whole itinerary ----------

  function TermsOf(trip: Trip, budget: Option<real>): Terms {
    Terms(trip.days, trip.pace, budget)
  }

  ghost predicate NamesDistinctEachDay(days: seq<PlanDay>) {
    forall d :: 0 <= d < |days| ==> DistinctNames(days[d].items)
  }

  /** On a walk every stop up to the last reached has its arrival, and no other stop occurs. */
  lemma {:induction false} ArrivalAt(counts: seq<nat>, slots: seq<Slot>, s: nat) returns (d: nat)
    requires Walk(counts, slots) && slots != [] && s <= slots[|slots| - 1].stop
    ensures d < |slots| && slots[d] == Slot(s, 0)
  {
    var last := |slots| - 1;
    if slots[last] == Slot(s, 0) {
      d := last;
    } else {
      assert last > 0 && Follows(counts, slots[last - 1], slots[last]);
      d := ArrivalAt(counts, slots[..last], s);
    }
  }

  lemma {:induction false} NoStopBeyondLast(counts: seq<nat>, slots: seq<Slot>, d: nat)
    requires Walk(counts, slots) && d < |slots|
    ensures slots[d].stop <= slots[|slots| - 1].stop
    decreases |slots|
  {
    var last := |slots| - 1;
    if d < last {
      NoStopBeyondLast(counts, slots[..last], d);
      assert Follows(counts, slots[last - 1], slots[last]);
    }
  }

  /** Every leg the trip travels is priced as transport or not priced. */
  ghost predicate LegsPriced(trip: Trip) {
    forall s :: 0 <= s < Min(trip.days, |trip.stops|) ==> LegPriced(trip, s)
  }

  lemma LegsPricedBySlots(trip: Trip)
    requires trip.stops != [] && trip.days >= 1
    ensures SlotsFit(trip, RouteSlots(trip))
    ensures LegsPriced(trip) <==>
            forall d :: 0 <= d < |RouteSlots(trip)| && IsArrival(RouteSlots(trip)[d]) ==> LegPriced(trip, RouteSlots(trip)[d].stop)
  {
    RouteSlotsFit(trip);
    RouteSlotsWalk(trip);
    LastStopReached(trip);
    var counts, slots := DayCounts(trip.stops, trip.days), RouteSlots(trip);
    hide LegPriced, RouteSlots, DayCounts, Walk;
    forall d | 0 <= d < |slots|
      ensures slots[d].stop < Min(trip.days, |trip.stops|)
    {
      NoStopBeyondLast(counts, slots, d);
    }
    if forall d :: 0 <= d < |slots| && IsArrival(slots[d]) ==> LegPriced(trip, slots[d].stop) {
      forall s | 0 <= s < Min(trip.days, |trip.stops|)
        ensures LegPriced(trip, s)
      {
        var d := ArrivalAt(counts, slots, s);
        assert IsArrival(slots[d]);
      }
    }
  }

  /** Whatever the days, the pace and the stops, the validator accepts a generated route itinerary exactly when
      the legs it travels are priced as transport, no day repeats a name and the total fits the budget. */
  lemma RouteVerdict(trip: Trip, budget: Option<real>)
    requires trip.stops != [] && trip.days >= 1 && LegsAreValid(trip.legs) && GoodLanguage(trip.language)
    ensures var days := RouteItinerary(trip);
            Fault(TermsOf(trip, budget), days, true) == None <==>
            LegsPriced(trip) && NamesDistinctEachDay(days) && !Exceeds(TermsOf(trip, budget), days)
  {
    var days := RouteItinerary(trip);
    AcceptsExactlyTheAcceptable(TermsOf(trip, budget), days, true);
    LegsPricedBySlots(trip);
    RouteDaysVerdict(trip);
    hide RouteSlots, DistinctNames, LegPriced, Exceeds, Fault, DayAcceptable, LegsPriced, RouteDay, IsArrival, ItemsPerDay;
  }

  lemma RouteDaysVerdict(trip: Trip)
    requires trip.stops != [] && trip.days >= 1 && LegsAreValid(trip.legs) && GoodLanguage(trip.language)
    ensures |RouteItinerary(trip)| == |RouteSlots(trip)| == trip.days && SlotsFit(trip, RouteSlots(trip))
    ensures forall d :: 0 <= d < trip.days ==>
              (DayAcceptable(RouteItinerary(trip)[d], d + 1, ItemsPerDay(trip.pace), true) <==>
               DistinctNames(RouteItinerary(trip)[d].items)
               && (IsArrival(RouteSlots(trip)[d]) ==> LegPriced(trip, RouteSlots(trip)[d].stop)))
  {
    RouteSlotsFit(trip);
    hide RouteSlots, DistinctNames, LegPriced, DayAcceptable, RouteDay, IsArrival, LegsAreValid, GoodLanguage;
    forall d | 0 <= d < trip.days
      ensures DayAcceptable(RouteItinerary(trip)[d], d + 1, ItemsPerDay(trip.pace), true) <==>
              DistinctNames(RouteItinerary(trip)[d].items)
              && (IsArrival(RouteSlots(trip)[d]) ==> LegPriced(trip, RouteSlots(trip)[d].stop))
    {
      RouteDayVerdict(trip, RouteSlots(trip)[d], d + 1);
    }
  }

  lemma {:induction false} PlainDaysAre(trip: Trip, places: seq<Place>, prose: int -> Prose, days: nat)
    ensures |PlainDays(trip, places, prose, days)| == days
    ensures forall d :: 0 <= d < days ==>
              PlainDays(trip, places, prose, days)[d] == PlainDay(trip, places, prose(d + 1), d + 1)
  {
    hide PlainDay;
    if days > 0 {
      PlainDaysAre(trip, places, prose, days - 1);
    }
  }

  lemma PlainPlan(trip: Trip, places: seq<Place>, prose: int -> Prose)
    requires trip.days >= 1 && |trip.stops| <= 1
    ensures GeneratedPlan(trip, places, prose) == PlainDays(trip, places, prose, trip.days)
  {
    hide PlainDays, RouteItinerary;
  }

  /** A template itinerary can only fail for a repeated name or the budget. */
  lemma TemplateVerdict(trip: Trip, prose: int -> Prose, budget: Option<real>)
    requires trip.days >= 1 && GoodLanguage(trip.language) && |trip.stops| <= 1
    requires forall n :: 1 <= n <= trip.days ==> GoodProse(prose(n))
    ensures var days := GeneratedPlan(trip, [], prose);
            Fault(TermsOf(trip, budget), days, true) == None <==>
            NamesDistinctEachDay(days) && !Exceeds(TermsOf(trip, budget), days)
  {
    PlainPlan(trip, [], prose);
    TemplateDaysVerdict(trip, prose);
    AcceptsExactlyTheAcceptable(TermsOf(trip, budget), PlainDays(trip, [], prose, trip.days), true);
    hide GeneratedPlan, PlainDays, DistinctNames, Exceeds, Fault, DayAcceptable, GoodProse, GoodLanguage, ItemsPerDay;
  }

  lemma TemplateDaysVerdict(trip: Trip, prose: int -> Prose)
    requires trip.days >= 1 && GoodLanguage(trip.language)
    requires forall n :: 1 <= n <= trip.days ==> GoodProse(prose(n))
    ensures var days := PlainDays(trip, [], prose, trip.days);
            && |days| == trip.days
            && forall d :: 0 <= d < |days| ==>
                 (DayAcceptable(days[d], d + 1, ItemsPerDay(trip.pace), true) <==> DistinctNames(days[d].items))
  {
    var days := PlainDays(trip, [], prose, trip.days);
    PlainDaysAre(trip, [], prose, trip.days);
    hide PlainDays, TemplateDay, DistinctNames, DayAcceptable, GoodProse, GoodLanguage;
    forall d | 0 <= d < |days|
      ensures DayAcceptable(days[d], d + 1, ItemsPerDay(trip.pace), true) <==> DistinctNames(days[d].items)
    {
      TemplateDayVerdict(trip, prose(d + 1), d + 1);
    }
  }

  /** A grounded itinerary costs nothing, so it can only fail for a blank or a repeated place name. */
  lemma GroundedVerdict(trip: Trip, places: seq<Place>, prose: int -> Prose, budget: Option<real>)
    requires trip.days >= 1 && |trip.stops| <= 1 && places != []
    requires forall n :: 1 <= n <= trip.days ==> NonBlank(prose(n).title)
    ensures var days := GeneratedPlan(trip, places, prose);
            Fault(TermsOf(trip, budget), days, true) == None <==>
            NamesDistinctEachDay(days) && forall d :: 0 <= d < |days| ==> NamesNonBlank(days[d].items)
  {
    hide GeneratedPlan, PlainDays, DistinctNames, NamesNonBlank, Exceeds, Fault, DayAcceptable, NonBlank, ItemsPerDay;
    hide PlanTotal;
    var days := PlainDays(trip, places, prose, trip.days);
    GroundedDaysAreFree(trip, places, prose, trip.days);
    FreeIsWithinBudget(TermsOf(trip, budget), days);
    GroundedDaysVerdict(trip, places, prose);
    AcceptsExactlyTheAcceptable(TermsOf(trip, budget), days, true);
    PlainPlan(trip, places, prose);
  }

  lemma FreeIsWithinBudget(terms: Terms, days: seq<PlanDay>)
    requires PlanTotal(days) == 0.0
    ensures !Exceeds(terms, days)
  {
    DaysCostWhatIsSpent(days);
    hide PlanTotal, Sum;
  }

  lemma GroundedDaysVerdict(trip: Trip, places: seq<Place>, prose: int -> Prose)
    requires trip.days >= 1 && places != []
    requires forall n :: 1 <= n <= trip.days ==> NonBlank(prose(n).title)
    ensures var days := PlainDays(trip, places, prose, trip.days);
            && |days| == trip.days
            && forall d :: 0 <= d < |days| ==>
                 (DayAcceptable(days[d], d + 1, ItemsPerDay(trip.pace), true) <==>
                  DistinctNames(days[d].items) && NamesNonBlank(days[d].items))
  {
    var days := PlainDays(trip, places, prose, trip.days);
    PlainDaysAre(trip, places, prose, trip.days);
    hide PlainDays, GroundedDay, DistinctNames, NamesNonBlank, DayAcceptable, NonBlank;
    forall d | 0 <= d < |days|
      ensures DayAcceptable(days[d], d + 1, ItemsPerDay(trip.pace), true) <==>
              DistinctNames(days[d].items) && NamesNonBlank(days[d].items)
    {
      GroundedDayVerdict(trip, places, prose(d + 1), d + 1);
    }
  }

  lemma {:induction false} FreeItems(items: seq<PlanItem>)
    requires forall i :: 0 <= i < |items| ==> CentsOf(items[i]) == 0.0
    ensures Sum(items, CentsOf) == 0.0
  {
    if items != [] {
      FreeItems(items[1..]);
    }
  }

  lemma GroundedDayIsFree(trip: Trip, places: seq<Place>, prose: Prose, number: int)
    requires places != [] && number >= 1
    ensures DayTotal(GroundedDay(trip, places, prose, number)) == 0.0
  {
    var items := GroundedItems(places, RainyOn(trip, number), trip.pace, number);
    hide DayPlaces, Candidates, FinalItem, GroundedNote;
    forall i | 0 <= i < |items|
      ensures CentsOf(FinalItem(items[i])) == 0.0
    {
      FinalKeeps(items[i]);
    }
    FreeItems(Finalized(items));
  }

  lemma {:induction false} GroundedDaysAreFree(trip: Trip, places: seq<Place>, prose: int -> Prose, days: nat)
    requires places != []
    ensures PlanTotal(PlainDays(trip, places, prose, days)) == 0.0
  {
    hide GroundedDay, TemplateDay;
    if days > 0 {
      GroundedDaysAreFree(trip, places, prose, days - 1);
      var day := GroundedDay(trip, places, prose(days), days);
      GroundedDayIsFree(trip, places, prose(days), days);
      SumConcat(PlainDays(trip, places, prose, days - 1), [day], DayTotal);
    }
  }
}
