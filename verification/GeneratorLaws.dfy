/** What reaches the reader of a generated itinerary: translated names never repeat within a day, and grounded
    items come in the order of one rotation. */
module GeneratorLaws {
  import opened Wrappers
  import opened Sequences
  import opened Text
  import opened Itinerary
  import opened Plan
  import opened RoutePlan
  import opened Grounding
  import opened Validator
  import opened Generator

  // ---------- names from a table ----------

  /** A table as the source has one per language: at least one name for every item of a day, without blanks
      around them, no two the same in lower case. */
  ghost predicate GoodTable(language: Language) {
    && language.Translated? && NonBlank(language.note) && |language.names| >= 5
    && (forall i :: 0 <= i < |language.names| ==> language.names[i] != "" && Trimmed(language.names[i]))
    && (forall i, j :: 0 <= i < j < |language.names| ==> Lower(language.names[i]) != Lower(language.names[j]))
  }

  lemma GoodTableIsGood(language: Language)
    requires GoodTable(language)
    ensures GoodLanguage(language)
  {
    forall i | 0 <= i < |language.names|
      ensures NonBlank(language.names[i])
    {
      NonBlankAt(language.names[i], 0);
    }
  }

  /** Stripping a table name with a destination behind it leaves the name in front. */
  lemma TitledNameKey(name: string, destination: string) returns (tail: string)
    requires name != "" && Trimmed(name)
    ensures Lower(Strip(name + " \U{2014} " + destination)) == Lower(name) + Lower(" " + tail)
    ensures tail == Strip("\U{2014} " + destination)
  {
    hide Strip, Lower, Trimmed, Blank;
    var after: string;
    tail, after := DestinationTail(destination);
    assert name + " \U{2014} " + destination == (name + " ") + ("\U{2014} " + destination);
    assert (name + " ") + (tail + after) == (name + " " + tail) + after;
    EndsOf(name, " ", tail);
    StripOfPadded(name + " " + tail, after);
    assert name + " " + tail == name + (" " + tail);
    LowerOfConcat(name, " " + tail);
  }

  lemma DestinationTail(destination: string) returns (tail: string, after: string)
    ensures "\U{2014} " + destination == tail + after
    ensures tail == Strip("\U{2014} " + destination) && tail != "" && Trimmed(tail) && Blank(after)
  {
    var rest := "\U{2014} " + destination;
    assert rest[0] == '\U{2014}';
    NonBlankAt(rest, 0);
    hide Strip;
    tail := Strip(rest);
    var before: string;
    before, after := StripSplits(rest);
    assert rest == before + (tail + after);
    BlankFront(before, tail + after);
    assert before + tail == tail;
  }

  lemma BlankFront(before: string, rest: string)
    ensures before != "" && Blank(before) ==> IsSpace((before + rest)[0])
  {
    assert before != "" ==> (before + rest)[0] == before[0];
  }

  lemma EndsOf(a: string, middle: string, b: string)
    requires a != "" && Trimmed(a) && b != "" && Trimmed(b)
    ensures a + middle + b != "" && Trimmed(a + middle + b)
  {
    var s := a + middle + b;
    assert s[0] == a[0] && s[|s| - 1] == b[|b| - 1];
  }

  lemma SameTailSameName(a: string, b: string, tail: string)
    requires a + tail == b + tail
    ensures a == b
  {
    assert |a| == |b|;
    assert (a + tail)[..|a|] == a && (b + tail)[..|b|] == b;
  }

  lemma TableNamesDiffer(a: string, b: string, destination: string)
    requires a != "" && Trimmed(a) && b != "" && Trimmed(b) && Lower(a) != Lower(b)
    ensures Lower(Strip(a + " \U{2014} " + destination)) != Lower(Strip(b + " \U{2014} " + destination))
  {
    hide Strip, Lower;
    var tailA := TitledNameKey(a, destination);
    var tailB := TitledNameKey(b, destination);
    if Lower(a) + Lower(" " + tailA) == Lower(b) + Lower(" " + tailA) {
      SameTailSameName(Lower(a), Lower(b), Lower(" " + tailA));
    }
  }

  /** The first items of a translated day carry different names, whatever they were called before. */
  lemma TranslatedNamesDiffer(items: seq<PlanItem>, language: Language, destination: string, n: nat)
    requires GoodTable(language) && n <= |items| && n <= 5
    ensures var finished := Finalized(Localized(items, language, destination));
            |finished| == |items| && DistinctNames(finished[..n])
  {
    var names := language.names;
    var finished := Finalized(Localized(items, language, destination));
    FinishedLength(items, language, destination);
    hide Strip, Lower, Localized, Finalized, Trimmed;
    forall i, j | 0 <= i < j < n
      ensures NameKey(finished[..n][i]) != NameKey(finished[..n][j])
    {
      FinishedName(items, language, destination, i);
      FinishedName(items, language, destination, j);
      TableNamesDiffer(names[i], names[j], destination);
    }
  }

  lemma FinishedName(items: seq<PlanItem>, language: Language, destination: string, i: nat)
    requires language.Translated? && i < |items| && i < |language.names|
    ensures var finished := Finalized(Localized(items, language, destination));
            |finished| == |items| && finished[i].name == language.names[i] + " \U{2014} " + destination
  {
    hide FinalItem;
    FinalKeeps(Localized(items, language, destination)[i]);
  }

  /** A route in a translated language can only fail for the category of a leg's price or for the budget. */
  lemma TranslatedRouteVerdict(trip: Trip, budget: Option<real>)
    requires trip.stops != [] && trip.days >= 1 && LegsAreValid(trip.legs) && GoodTable(trip.language)
    ensures var days := RouteItinerary(trip);
            Fault(TermsOf(trip, budget), days, true) == None <==>
            LegsPriced(trip) && !Exceeds(TermsOf(trip, budget), days)
  {
    GoodTableIsGood(trip.language);
    RouteVerdict(trip, budget);
    TranslatedRouteNames(trip);
    hide LegsAreValid, GoodTable, GoodLanguage, Fault, LegsPriced, NamesDistinctEachDay, Exceeds;
  }

  lemma TranslatedRouteNames(trip: Trip)
    requires trip.stops != [] && trip.days >= 1 && LegsAreValid(trip.legs) && GoodTable(trip.language)
    ensures NamesDistinctEachDay(RouteItinerary(trip))
  {
    hide LegsAreValid, GoodTable, DistinctNames, StopItems, RouteSlots, SlotsFit, DateOf, StopName;
    RouteSlotsFit(trip);
    RouteSlotsAreUsed(trip);
    var days := RouteItinerary(trip);
    forall d | 0 <= d < |days|
      ensures DistinctNames(days[d].items)
    {
      var slot := RouteSlots(trip)[d];
      RouteDayNames(trip, slot.stop, slot.index == 0);
    }
  }

  lemma RouteSlotsAreUsed(trip: Trip)
    requires trip.stops != [] && trip.days >= 1
    ensures var days, slots := RouteItinerary(trip), RouteSlots(trip);
            |days| == |slots| && forall d :: 0 <= d < |days| ==>
              slots[d].stop < |trip.stops|
              && days[d].items == Take(StopItems(trip, slots[d].stop, slots[d].index == 0), ItemsPerDay(trip.pace))
  {
    RouteSlotsFit(trip);
    hide StopItems, RouteSlots, DateOf, StopName;
  }

  lemma RouteDayNames(trip: Trip, s: nat, transferDay: bool)
    requires s < |trip.stops| && LegsAreValid(trip.legs) && GoodTable(trip.language)
    ensures DistinctNames(Take(StopItems(trip, s, transferDay), ItemsPerDay(trip.pace)))
  {
    GoodTableIsGood(trip.language);
    StopItemsVerdict(trip, s, transferDay);
    RouteItemsCanBePadded(trip, s, transferDay);
    var destination, size := trip.stops[s].destination, ItemsPerDay(trip.pace);
    hide Padded, RouteItems, Localized, Finalized, DistinctNames, GoodTable, GoodLanguage, LegsAreValid, CanPad;
    hide WellFormed, StrictlyLater, LegPriced;
    var padded := Padded(RouteItems(trip, s, transferDay), destination, size);
    FinishedLength(padded, trip.language, destination);
    TranslatedNamesDiffer(padded, trip.language, destination, size);
  }

  lemma FinishedLength(items: seq<PlanItem>, language: Language, destination: string)
    ensures |Finalized(Localized(items, language, destination))| == |items|
  {
  }

  /** A template itinerary in a translated language can only fail for the budget. */
  lemma TranslatedTemplateVerdict(trip: Trip, prose: int -> Prose, budget: Option<real>)
    requires trip.days >= 1 && GoodTable(trip.language) && |trip.stops| <= 1
    requires forall n :: 1 <= n <= trip.days ==> GoodProse(prose(n))
    ensures var days := GeneratedPlan(trip, [], prose);
            Fault(TermsOf(trip, budget), days, true) == None <==> !Exceeds(TermsOf(trip, budget), days)
  {
    hide GoodTable, GoodLanguage, GoodProse, Fault, Exceeds, NamesDistinctEachDay, GeneratedPlan, PlainDays;
    GoodTableIsGood(trip.language);
    TemplateVerdict(trip, prose, budget);
    PlainPlan(trip, [], prose);
    TranslatedTemplateNames(trip, prose);
  }

  lemma TranslatedTemplateNames(trip: Trip, prose: int -> Prose)
    requires trip.days >= 1 && GoodTable(trip.language)
    ensures NamesDistinctEachDay(PlainDays(trip, [], prose, trip.days))
  {
    hide GoodTable, DistinctNames, PlainDays, TemplateDay;
    PlainDaysAre(trip, [], prose, trip.days);
    forall d | 0 <= d < trip.days
      ensures DistinctNames(PlainDays(trip, [], prose, trip.days)[d].items)
    {
      TemplateDayNames(trip, prose(d + 1), d + 1);
    }
  }

  lemma TemplateDayNames(trip: Trip, prose: Prose, number: int)
    requires GoodTable(trip.language)
    ensures DistinctNames(TemplateDay(trip, prose, number).items)
  {
    hide TemplateItems, Localized, Finalized, DistinctNames, GoodTable, Strip;
    var items := WithWeather(TemplateItems(trip, prose), WeatherOn(trip, number));
    TranslatedNamesDiffer(items, trip.language, trip.destination, |items|);
    FinishedLength(items, trip.language, trip.destination);
    var finished := Finalized(Localized(items, trip.language, trip.destination));
    assert finished[..|items|] == finished;
  }

  // ---------- grounded items in order ----------

  /** All items of an itinerary, day after day. */
  function AllItems(days: seq<PlanDay>): seq<PlanItem> {
    if days == [] then [] else AllItems(days[..|days| - 1]) + days[|days| - 1].items
  }

  /** Each item is the finished item of the place in its position. */
  ghost predicate Present(items: seq<PlanItem>, places: seq<Place>) {
    && |items| == |places|
    && forall t :: 0 <= t < |items| ==> items[t] == FinalItem(GroundedItem(places[t], items[t].time))
  }

  lemma PresentConcat(a: seq<PlanItem>, b: seq<PlanItem>, p: seq<Place>, q: seq<Place>)
    requires Present(a, p) && Present(b, q)
    ensures Present(a + b, p + q)
  {
    hide FinalItem, GroundedItem;
  }

  lemma DryDayPresents(trip: Trip, places: seq<Place>, prose: Prose, number: int)
    requires places != [] && number >= 1 && !RainyOn(trip, number)
    ensures Present(GroundedDay(trip, places, prose, number).items, DayPlaces(places, ItemsPerDay(trip.pace), number))
  {
    var size := ItemsPerDay(trip.pace);
    var items := GroundedDay(trip, places, prose, number).items;
    hide FinalItem, GroundedNote;
    forall t | 0 <= t < size
      ensures items[t] == FinalItem(GroundedItem(DayPlaces(places, size, number)[t], items[t].time))
    {
      FinalKeeps(GroundedItem(DayPlaces(places, size, number)[t], TimesFor(size)[t]));
    }
  }

  lemma {:induction false} DryDaysPresent(trip: Trip, places: seq<Place>, prose: int -> Prose, days: nat)
    requires places != [] && forall n :: 1 <= n <= days ==> !RainyOn(trip, n)
    ensures Present(AllItems(PlainDays(trip, places, prose, days)), TripPlaces(places, ItemsPerDay(trip.pace), days))
  {
    hide GroundedDay, TemplateDay, Present, DayPlaces, RainyOn;
    if days == 0 {
      NothingPresents();
    } else {
      var size := ItemsPerDay(trip.pace);
      DryDaysPresent(trip, places, prose, days - 1);
      DryDayPresents(trip, places, prose(days), days);
      var front, last := PlainDays(trip, places, prose, days - 1), GroundedDay(trip, places, prose(days), days);
      assert (front + [last])[..|front|] == front;
      PresentConcat(AllItems(front), last.items, TripPlaces(places, size, days - 1), DayPlaces(places, size, days));
    }
  }

  lemma NothingPresents()
    ensures Present([], [])
  {
  }

  /** No place is served more than once more than another. */
  ghost predicate IsFair(served: seq<Place>, places: seq<Place>) {
    forall p, q :: 0 <= p < |places| && 0 <= q < |places| ==>
      Count(served, Uses(Key(places[p]))) <= Count(served, Uses(Key(places[q]))) + 1
  }

  /** A generated trip without rain serves its places in the order of one unbroken rotation, so that between any
      two of them the numbers of items differ by at most one. */
  lemma GroundedTripIsRotation(trip: Trip, places: seq<Place>, prose: int -> Prose)
    requires trip.days >= 1 && |trip.stops| <= 1 && places != []
    requires forall n :: 1 <= n <= trip.days ==> !RainyOn(trip, n)
    ensures var served := TripPlaces(places, ItemsPerDay(trip.pace), trip.days);
            && Present(AllItems(GeneratedPlan(trip, places, prose)), served)
            && served == Rotation(places, trip.days * ItemsPerDay(trip.pace))
            && (KeysDistinct(places) ==> IsFair(served, places))
  {
    var size := ItemsPerDay(trip.pace);
    PlainPlan(trip, places, prose);
    DryDaysPresent(trip, places, prose, trip.days);
    TripIsRotation(places, size, trip.days);
    hide TripPlaces, Rotation, Present, AllItems, PlainDays, GeneratedPlan, RainyOn, KeysDistinct, IsFair;
    if KeysDistinct(places) {
      TripIsFair(places, size, trip.days);
    }
  }

  lemma TripIsFair(places: seq<Place>, size: nat, days: nat)
    requires KeysDistinct(places) && places != []
    ensures IsFair(TripPlaces(places, size, days), places)
  {
    hide TripPlaces, Key, Count, KeysDistinct, Uses;
    var served := TripPlaces(places, size, days);
    forall p, q | 0 <= p < |places| && 0 <= q < |places|
      ensures Count(served, Uses(Key(places[p]))) <= Count(served, Uses(Key(places[q]))) + 1
    {
      RotationIsFair(places, size, days, p, q);
    }
  }
}
