/** The English names of a route's items: when no day repeats one. */
module RouteNames {
  import opened Wrappers
  import opened Sequences
  import opened Clock
  import opened Text
  import opened Itinerary
  import opened Plan
  import opened RoutePlan
  import opened RoutePlanLaws
  import opened Validator
  import opened Generator
  import opened GeneratorLaws

  // ---------- the names of a day ----------

  datatype Part = Arrival | Meal | Walk | Evening | ShortStop | Buffer

  function PartName(trip: Trip, s: nat, part: Part): string
    requires s < |trip.stops|
  {
    match part
    case Arrival => TransferItem(trip, s).name
    case Meal => "Local meal in " + StopName(trip.stops[s])
    case Walk => StopName(trip.stops[s]) + " orientation walk"
    case Evening => "Dinner near " + StopName(trip.stops[s]) + " center"
    case ShortStop => "Short local stop in " + trip.stops[s].destination
    case Buffer => "Buffer time in " + trip.stops[s].destination
  }

  /** What stands at each place of a day, the day's padding included. */
  function PartAt(transferDay: bool, i: nat): Part {
    if transferDay then
      if i == 0 then Arrival else if i == 1 then Meal else if i == 2 then Walk else if i == 3 then Evening else Buffer
    else
      if i == 0 then Meal else if i == 1 then Walk else if i == 2 then Evening else if i == 3 then ShortStop else Buffer
  }

  lemma RouteItemNames(trip: Trip, s: nat, transferDay: bool, i: nat)
    requires s < |trip.stops| && i < |RouteItems(trip, s, transferDay)|
    ensures RouteItems(trip, s, transferDay)[i].name == PartName(trip, s, PartAt(transferDay, i)) && i < 4
    ensures |RouteItems(trip, s, transferDay)| == if transferDay then 4 else 3
  {
    hide TransferItem, StyleNote;
  }

  lemma PadNames(trip: Trip, s: nat, transferDay: bool, i: nat, time: string)
    requires s < |trip.stops| && (if transferDay then i == 4 else 3 <= i < 5)
    ensures PadItem(i, time, trip.stops[s].destination).name == PartName(trip, s, PartAt(transferDay, i))
  {
    hide TransferItem, StopName;
  }

  lemma PaddedNames(trip: Trip, s: nat, transferDay: bool, i: nat)
    requires s < |trip.stops| && i < ItemsPerDay(trip.pace)
    ensures var padded := Padded(RouteItems(trip, s, transferDay), trip.stops[s].destination, ItemsPerDay(trip.pace));
            i < |padded| && padded[i].name == PartName(trip, s, PartAt(transferDay, i))
  {
    hide PartName, RouteItems, PadItem, Base, CanPad, Padded, PartAt;
    var items := RouteItems(trip, s, transferDay);
    var destination, size := trip.stops[s].destination, ItemsPerDay(trip.pace);
    RouteItemsCanBePadded(trip, s, transferDay);
    RouteItemCount(trip, s, transferDay);
    PaddedIs(items, destination, size);
    var padded := Padded(items, destination, size);
    if i < |items| {
      RouteItemNames(trip, s, transferDay, i);
      assert padded[i] == items[i];
    } else {
      PadNames(trip, s, transferDay, i, Format(PadMinutes(Base(items), i - |items|)));
    }
  }

  lemma RouteItemCount(trip: Trip, s: nat, transferDay: bool)
    requires s < |trip.stops|
    ensures |RouteItems(trip, s, transferDay)| == if transferDay then 4 else 3
  {
    hide TransferItem, StyleNote;
  }

  lemma StopItemNames(trip: Trip, s: nat, transferDay: bool, i: nat)
    requires s < |trip.stops| && trip.language == English && i < ItemsPerDay(trip.pace)
    ensures var items := StopItems(trip, s, transferDay);
            i < |items| && items[i].name == PartName(trip, s, PartAt(transferDay, i))
  {
    hide PartName, RouteItems, FinalItem, Padded, PartAt;
    PaddedNames(trip, s, transferDay, i);
    FinalKeeps(Padded(RouteItems(trip, s, transferDay), trip.stops[s].destination, ItemsPerDay(trip.pace))[i]);
  }

  // ---------- names that cannot be mistaken for each other ----------

  predicate IsName(s: string) {
    s != "" && Trimmed(s)
  }

  predicate EndsInWalk(s: string) {
    var key := Lower(s);
    |key| >= 4 && key[|key| - 4..] == "walk"
  }

  /** Names as the schemas leave them, of which only the orientation walk ends in "walk". */
  ghost predicate SoundNames(trip: Trip, s: nat)
    requires s < |trip.stops|
  {
    && IsName(StopName(trip.stops[s]))
    && IsName(trip.stops[s].destination) && !EndsInWalk(trip.stops[s].destination)
    && TransferMode(trip, s) in TRANSPORT_MODES && IsName(ToName(trip, s)) && !EndsInWalk(ToName(trip, s))
  }

  /** Behind a blank, only the name itself decides how a text ends. */
  lemma EndIsOfName(front: string, name: string)
    requires front != "" && front[|front| - 1] == ' ' && name != ""
    ensures EndsInWalk(front + name) ==> EndsInWalk(name)
  {
    var all := front + name;
    LowerAt(all, |front| - 1);
    LowerAt(name, 0);
    LowerOfConcat(front, name);
    LowerAt(front, 0);
    hide Lower;
    var key := Lower(all);
    assert key == Lower(front) + Lower(name) && key[|front| - 1] == ' ';
    if |name| >= 4 {
      assert key[|key| - 4..] == Lower(name)[|name| - 4..];
    } else if |key| >= 4 {
      BlankNotInWalk(key, |front| - 1);
    }
  }

  lemma BlankNotInWalk(key: string, i: nat)
    requires |key| >= 4 && |key| - 4 <= i < |key| && key[i] == ' '
    ensures key[|key| - 4..] != "walk"
  {
    assert key[|key| - 4..][i - (|key| - 4)] == ' ';
  }

  function Head(part: Part, mode: string): string {
    match part
    case Meal => "loc"
    case Evening => "din"
    case ShortStop => "sho"
    case Buffer => "buf"
    case Arrival => if |mode| >= 3 then mode[..3] else mode
    case Walk => ""
  }

  /** No transport mode begins like another item's name. */
  lemma ModeHead(mode: string)
    requires mode in TRANSPORT_MODES
    ensures |mode| >= 3 && Trimmed(mode) && forall i :: 0 <= i < 3 ==> 'a' <= mode[i] <= 'z'
    ensures mode[0] != 'l' && mode[0] != 'd' && mode[0] != 's' && !(mode[0] == 'b' && mode[1] == 'u' && mode[2] == 'f')
  {
    var k :| 0 <= k < |TRANSPORT_MODES| && TRANSPORT_MODES[k] == mode;
    if k < 6 {
      ModesBefore(k);
    } else {
      ModesAfter(k);
    }
  }

  lemma ModesBefore(k: nat)
    requires k < 6
    ensures |TRANSPORT_MODES| == 12 && TRANSPORT_MODES[k] == ["walk", "car", "rental_car", "train", "bus", "flight"][k]
  {
  }

  lemma ModesAfter(k: nat)
    requires 6 <= k < 12
    ensures |TRANSPORT_MODES| == 12
    ensures TRANSPORT_MODES[k] == ["boat", "ferry", "bike", "public_transport", "hiking", "other"][k - 6]
  {
  }

  lemma HeadsDiffer(a: Part, b: Part, mode: string)
    requires a != b && a != Walk && b != Walk && mode in TRANSPORT_MODES
    ensures Head(a, mode) != Head(b, mode)
  {
    ModeHead(mode);
    hide TRANSPORT_MODES;
    assert Head(a, mode)[0] != Head(b, mode)[0] || Head(a, mode)[1] != Head(b, mode)[1] || Head(a, mode)[2] != Head(b, mode)[2];
  }

  lemma ArrivalName(trip: Trip, s: nat) returns (middle: string)
    requires s < |trip.stops|
    ensures PartName(trip, s, Arrival) == TransferMode(trip, s) + middle + ToName(trip, s)
    ensures middle != "" && middle[|middle| - 1] == ' '
  {
    hide TransferCost, KnownMode, LegForStop, StopName, ArrivalTime;
    var leg := LegForStop(trip, s);
    var fromName := if leg.Some? && leg.value.fromName != "" then leg.value.fromName
                    else if s > 0 then StopName(trip.stops[s - 1])
                    else if trip.origin != "" then trip.origin
                    else "Origin";
    middle := " from " + fromName + " to ";
    Around(TransferMode(trip, s), " from ", fromName, " to ", ToName(trip, s));
  }

  lemma Around(a: string, b: string, c: string, d: string, e: string)
    ensures a + b + c + d + e == a + (b + c + d) + e
  {
  }

  lemma ArrivalIsTrimmed(trip: Trip, s: nat)
    requires s < |trip.stops| && SoundNames(trip, s)
    ensures Strip(PartName(trip, s, Arrival)) == PartName(trip, s, Arrival)
  {
    hide Strip, PartName, StopName, EndsInWalk;
    var middle := ArrivalName(trip, s);
    ModeHead(TransferMode(trip, s));
    TrimmedAround(TransferMode(trip, s), middle, ToName(trip, s));
  }

  lemma BehindIsTrimmed(name: string)
    requires IsName(name)
    ensures Strip("Local meal in " + name) == "Local meal in " + name
    ensures Strip("Short local stop in " + name) == "Short local stop in " + name
    ensures Strip("Buffer time in " + name) == "Buffer time in " + name
  {
    hide Strip;
    TrimmedAround("Local", " meal in ", name);
    TrimmedAround("Short", " local stop in ", name);
    TrimmedAround("Buffer", " time in ", name);
    assert "Local" + " meal in " == "Local meal in ";
    assert "Short" + " local stop in " == "Short local stop in ";
    assert "Buffer" + " time in " == "Buffer time in ";
  }

  lemma WalkIsTrimmed(name: string)
    requires IsName(name)
    ensures Strip(name + " orientation walk") == name + " orientation walk"
  {
    hide Strip;
    TrimmedAround(name, " orientation ", "walk");
    WalkName(name);
  }

  lemma EveningIsTrimmed(name: string)
    ensures Strip("Dinner near " + name + " center") == "Dinner near " + name + " center"
  {
    hide Strip;
    TrimmedAround("Dinner", " near " + name + " ", "center");
    EveningName(name);
  }

  /** The stripped name is the name. */
  lemma PartIsTrimmed(trip: Trip, s: nat, part: Part)
    requires s < |trip.stops| && SoundNames(trip, s)
    ensures Strip(PartName(trip, s, part)) == PartName(trip, s, part)
  {
    hide Strip, StopName, TransferItem, EndsInWalk, TransferMode, ToName, IsName, TRANSPORT_MODES;
    match part {
      case Arrival => ArrivalIsTrimmed(trip, s);
      case Walk => WalkIsTrimmed(StopName(trip.stops[s]));
      case Evening => EveningIsTrimmed(StopName(trip.stops[s]));
      case Meal => BehindIsTrimmed(StopName(trip.stops[s]));
      case _ => BehindIsTrimmed(trip.stops[s].destination);
    }
  }

  lemma WalkName(name: string)
    ensures name + " orientation " + "walk" == name + " orientation walk"
  {
  }

  lemma EveningName(name: string)
    ensures "Dinner" + (" near " + name + " ") + "center" == "Dinner near " + name + " center"
  {
  }

  lemma HeadOfText(text: string, head: string)
    requires |text| >= 3 && |head| == 3
    requires forall i :: 0 <= i < 3 ==> head[i] == if 'A' <= text[i] <= 'Z' then text[i] + 32 as char else text[i]
    ensures |Lower(text)| >= 3 && Lower(text)[..3] == head
  {
    LowerAt(text, 0);
    LowerAt(text, 1);
    LowerAt(text, 2);
    hide Lower;
  }

  lemma ArrivalHead(trip: Trip, s: nat)
    requires s < |trip.stops| && SoundNames(trip, s)
    ensures var key := Lower(PartName(trip, s, Arrival)); |key| >= 3 && key[..3] == Head(Arrival, TransferMode(trip, s))
  {
    hide Lower, PartName, StopName, EndsInWalk, ToName, TransferMode;
    var mode := TransferMode(trip, s);
    ModeHead(mode);
    hide TRANSPORT_MODES;
    var middle := ArrivalName(trip, s);
    HeadOfText(PartName(trip, s, Arrival), mode[..3]);
  }

  lemma MealHead(name: string)
    ensures var key := Lower("Local meal in " + name); |key| >= 3 && key[..3] == "loc"
  {
    hide Lower;
    HeadOfText("Local meal in " + name, "loc");
  }

  lemma EveningHead(name: string)
    ensures var key := Lower("Dinner near " + name + " center"); |key| >= 3 && key[..3] == "din"
  {
    hide Lower;
    HeadOfText("Dinner near " + name + " center", "din");
  }

  lemma ShortStopHead(name: string)
    ensures var key := Lower("Short local stop in " + name); |key| >= 3 && key[..3] == "sho"
  {
    hide Lower;
    HeadOfText("Short local stop in " + name, "sho");
  }

  lemma BufferHead(name: string)
    ensures var key := Lower("Buffer time in " + name); |key| >= 3 && key[..3] == "buf"
  {
    hide Lower;
    HeadOfText("Buffer time in " + name, "buf");
  }

  /** How the names begin in lower case, but for the walk. */
  lemma KeyHead(trip: Trip, s: nat, part: Part)
    requires s < |trip.stops| && SoundNames(trip, s) && part != Walk
    ensures var key := Lower(PartName(trip, s, part)); |key| >= 3 && key[..3] == Head(part, TransferMode(trip, s))
  {
    hide StopName, TransferItem, Lower, SoundNames, TransferMode, TRANSPORT_MODES;
    match part {
      case Arrival => ArrivalHead(trip, s);
      case Meal => MealHead(StopName(trip.stops[s]));
      case Evening => EveningHead(StopName(trip.stops[s]));
      case ShortStop => ShortStopHead(trip.stops[s].destination);
      case Buffer => BufferHead(trip.stops[s].destination);
    }
  }

  /** Only the walk ends in "walk", or is told apart by its length. */
  lemma WalkDiffers(trip: Trip, s: nat, part: Part)
    requires s < |trip.stops| && SoundNames(trip, s) && part != Walk
    ensures Lower(PartName(trip, s, part)) != Lower(PartName(trip, s, Walk))
  {
    var name, destination := StopName(trip.stops[s]), trip.stops[s].destination;
    WalkEnds(name);
    hide Lower, StopName, TransferItem, TransferMode, ToName, TRANSPORT_MODES;
    LowerAt(PartName(trip, s, Walk), 0);
    match part {
      case Arrival =>
        var middle := ArrivalName(trip, s);
        EndIsOfName(TransferMode(trip, s) + middle, ToName(trip, s));
      case Meal => LowerAt(PartName(trip, s, part), 0);
      case Evening => LowerAt(PartName(trip, s, part), 0);
      case ShortStop => EndIsOfName("Short local stop in ", destination);
      case Buffer => EndIsOfName("Buffer time in ", destination);
    }
  }

  lemma WalkEnds(name: string)
    ensures EndsInWalk(name + " orientation walk")
  {
    var front, text := name + " orientation ", name + " orientation walk";
    WalkName(name);
    LowerOfConcat(front, "walk");
    LowerOfWalk();
    hide Lower;
    var key := Lower(text);
    assert key == Lower(front) + "walk";
    assert key[|key| - 4..] == "walk";
  }

  lemma LowerOfWalk()
    ensures Lower("walk") == "walk"
  {
  }

  lemma PartsDiffer(trip: Trip, s: nat, a: Part, b: Part)
    requires s < |trip.stops| && SoundNames(trip, s) && a != b
    ensures Lower(Strip(PartName(trip, s, a))) != Lower(Strip(PartName(trip, s, b)))
  {
    hide PartName, Lower, Strip, SoundNames, TransferMode;
    PartIsTrimmed(trip, s, a);
    PartIsTrimmed(trip, s, b);
    if a == Walk {
      WalkDiffers(trip, s, b);
    } else if b == Walk {
      WalkDiffers(trip, s, a);
    } else {
      KeyHead(trip, s, a);
      KeyHead(trip, s, b);
      SoundMode(trip, s);
      HeadsDiffer(a, b, TransferMode(trip, s));
    }
  }

  lemma SoundMode(trip: Trip, s: nat)
    requires s < |trip.stops| && SoundNames(trip, s)
    ensures TransferMode(trip, s) in TRANSPORT_MODES
  {
  }

  lemma PlacesDiffer(transferDay: bool, i: nat, j: nat)
    requires i < j < 5
    ensures PartAt(transferDay, i) != PartAt(transferDay, j)
  {
  }

  lemma ItemNamesDiffer(trip: Trip, s: nat, transferDay: bool, i: nat, j: nat)
    requires s < |trip.stops| && trip.language == English && SoundNames(trip, s)
    requires i < j < ItemsPerDay(trip.pace)
    ensures var items := StopItems(trip, s, transferDay);
            j < |items| && NameKey(items[i]) != NameKey(items[j])
  {
    hide StopItems, PartName, SoundNames, Lower, Strip, PartAt;
    StopItemNames(trip, s, transferDay, i);
    StopItemNames(trip, s, transferDay, j);
    PlacesDiffer(transferDay, i, j);
    PartsDiffer(trip, s, PartAt(transferDay, i), PartAt(transferDay, j));
  }

  lemma EnglishDayNames(trip: Trip, s: nat, transferDay: bool)
    requires s < |trip.stops| && trip.language == English && SoundNames(trip, s)
    ensures DistinctNames(Take(StopItems(trip, s, transferDay), ItemsPerDay(trip.pace)))
  {
    hide StopItems, SoundNames, NameKey;
    var all, size := StopItems(trip, s, transferDay), ItemsPerDay(trip.pace);
    forall i, j | 0 <= i < j < |Take(all, size)|
      ensures NameKey(Take(all, size)[i]) != NameKey(Take(all, size)[j])
    {
      ItemNamesDiffer(trip, s, transferDay, i, j);
    }
  }

  /** An English route whose names are sound can only fail for the category of a leg's price or for the budget. */
  lemma EnglishRouteVerdict(trip: Trip, budget: Option<real>)
    requires trip.stops != [] && trip.days >= 1 && LegsAreValid(trip.legs) && trip.language == English
    requires forall s :: 0 <= s < |trip.stops| ==> SoundNames(trip, s)
    ensures var days := RouteItinerary(trip);
            Fault(TermsOf(trip, budget), days, true) == None <==>
            LegsPriced(trip) && !Exceeds(TermsOf(trip, budget), days)
  {
    RouteVerdict(trip, budget);
    EnglishRouteNames(trip);
    hide LegsAreValid, SoundNames, GoodLanguage, Fault, LegsPriced, NamesDistinctEachDay, Exceeds;
  }

  lemma EnglishRouteNames(trip: Trip)
    requires trip.stops != [] && trip.days >= 1 && trip.language == English
    requires forall s :: 0 <= s < |trip.stops| ==> SoundNames(trip, s)
    ensures NamesDistinctEachDay(RouteItinerary(trip))
  {
    hide SoundNames, DistinctNames, StopItems, RouteSlots, SlotsFit, DateOf, StopName;
    RouteSlotsFit(trip);
    RouteSlotsAreUsed(trip);
    var days := RouteItinerary(trip);
    forall d | 0 <= d < |days|
      ensures DistinctNames(days[d].items)
    {
      var slot := RouteSlots(trip)[d];
      EnglishDayNames(trip, slot.stop, slot.index == 0);
    }
  }
}
