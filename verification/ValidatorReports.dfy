/** Which fault the validator reports: of the first day and the first item where any check fails, the first check
    that does. Each check is said by itself; their order is the order of the codes. */
module ValidatorReports {
  import opened Wrappers
  import opened Text
  import opened Clock
  import opened Itinerary
  import opened Plan
  import opened Validator

  ghost predicate IsTime(s: string) {
    exists minutes: nat :: minutes < 1440 && (s == Format(minutes) || s == Format(minutes) + "\n")
  }

  /** The pattern takes the clock times, and also one before a final newline. */
  lemma PatternIsTime(s: string)
    ensures MatchesTimePattern(s) <==> IsTime(s)
  {
    hide IsClock, Format;
    if IsClock(s) {
      FormatOfParse(s);
    }
    if |s| == 6 && IsClock(s[..5]) {
      FormatOfParse(s[..5]);
      assert s[5] == '\n' ==> s == s[..5] + "\n";
    }
    forall minutes: nat | minutes < 1440 && (s == Format(minutes) || s == Format(minutes) + "\n")
      ensures MatchesTimePattern(s)
    {
      ParseOfFormat(minutes);
      ClockLength(Format(minutes));
      assert s == Format(minutes) + "\n" ==> s[..5] == Format(minutes);
    }
  }

  lemma ClockLength(s: string)
    requires IsClock(s)
    ensures |s| == 5
  {
  }

  /** The check behind each code, at one item of a day. */
  ghost predicate ItemFails(items: seq<PlanItem>, i: nat, notes: bool, code: Code)
    requires i < |items|
  {
    var item := items[i];
    match code
    case InvalidItemType => item.kind !in ["place", "food", "activity", "transport", "transfer", "rest"]
    case InvalidTimeFormat => !IsTime(item.time) || (item.endTime.Some? && !IsTime(item.endTime.value))
    case DuplicateTime => exists j: nat :: j < i && items[j].time == item.time
    case UnorderedTimes => i > 0 && Less(item.time, items[i - 1].time)
    case EmptyItemName => Strip(item.name) == ""
    case DuplicateItem => exists j: nat :: j < i && Lower(Strip(items[j].name)) == Lower(Strip(item.name))
    case EmptyItemNote => notes && (item.note == None || Strip(item.note.value) == "")
    case MissingTransferDetails => item.kind == "transfer" && item.transfer == None
    case InvalidTransferMode =>
      && item.kind == "transfer" && item.transfer.Some?
      && (item.transfer.value.mode !in TRANSPORT_MODES
          || (item.transportMode.Some? && item.transportMode.value !in TRANSPORT_MODES))
    case InvalidTransferCostCategory =>
      && item.kind == "transfer" && item.transfer.Some?
      && var price := if item.cost.Some? then item.cost else item.transfer.value.cost;
         price.Some? && price.value.category.Some? && price.value.category.value != "transport"
    case NegativeCost => item.cost.Some? && item.cost.value.cents.Some? && item.cost.value.cents.value < 0.0
    case _ => false
  }

  ghost function Rank(code: Code): int {
    match code
    case DaysCountMismatch => 0
    case InvalidDayNumber => 1
    case EmptyTitle => 2
    case InvalidItemCount => 3
    case InvalidItemType => 4
    case InvalidTimeFormat => 5
    case DuplicateTime => 6
    case UnorderedTimes => 7
    case EmptyItemName => 8
    case DuplicateItem => 9
    case EmptyItemNote => 10
    case MissingTransferDetails => 11
    case InvalidTransferMode => 12
    case InvalidTransferCostCategory => 13
    case NegativeCost => 14
    case BudgetExceeded => 15
  }

  ghost predicate ItemReports(items: seq<PlanItem>, i: nat, notes: bool, code: Code)
    requires i < |items|
  {
    ItemFails(items, i, notes, code) && forall other :: Rank(other) < Rank(code) ==> !ItemFails(items, i, notes, other)
  }

  ghost predicate ItemPasses(items: seq<PlanItem>, i: nat, notes: bool)
    requires i < |items|
  {
    forall code :: !ItemFails(items, i, notes, code)
  }

  ghost predicate ShapeIs(item: PlanItem, fault: Option<Code>) {
    if item.kind !in ["place", "food", "activity", "transport", "transfer", "rest"] then fault == Some(InvalidItemType)
    else if !IsTime(item.time) || (item.endTime.Some? && !IsTime(item.endTime.value)) then fault == Some(InvalidTimeFormat)
    else fault == None
  }

  lemma ShapeFaultIs(item: PlanItem)
    ensures ShapeIs(item, ShapeFault(item))
  {
    hide MatchesTimePattern, IsTime;
    PatternIsTime(item.time);
    if item.endTime.Some? {
      PatternIsTime(item.endTime.value);
    }
  }

  lemma LowerIsEmpty(s: string)
    ensures Lower(s) == "" <==> s == ""
  {
  }

  /** Every check by its code, as the code computes it. */
  lemma Checks(items: seq<PlanItem>, i: nat, notes: bool)
    requires i < |items|
    ensures var item := items[i];
            && ShapeIs(item, ShapeFault(item))
            && (ItemFails(items, i, notes, DuplicateTime) <==> TimeSeen(items, i))
            && (ItemFails(items, i, notes, UnorderedTimes) <==> i > 0 && Less(item.time, items[i - 1].time))
            && (ItemFails(items, i, notes, EmptyItemName) <==> NameKey(item) == "")
            && (ItemFails(items, i, notes, DuplicateItem) <==> NameSeen(items, i))
            && (ItemFails(items, i, notes, EmptyItemNote) <==> notes && Strip(NoteOf(item)) == "")
            && (ItemFails(items, i, notes, NegativeCost) <==> CentsOf(item) < 0.0)
  {
    hide ShapeFault, IsTime, Strip, Lower, Less, TRANSPORT_MODES;
    ShapeFaultIs(items[i]);
    LowerIsEmpty(Strip(items[i].name));
    NothingIsBlank();
    assert TimeSeen(items, i) <==> exists j: nat :: j < i && items[j].time == items[i].time;
    assert NameSeen(items, i) <==> exists j: nat :: j < i && Lower(Strip(items[j].name)) == Lower(Strip(items[i].name));
  }

  lemma NothingIsBlank()
    ensures Strip("") == ""
  {
  }

  /** The fault at an item is that of its first failing check. */
  lemma ItemFaultIsFirst(items: seq<PlanItem>, i: nat, notes: bool)
    requires i < |items|
    ensures match ItemFault(items, i, notes)
            case None => ItemPasses(items, i, notes)
            case Some(code) => ItemReports(items, i, notes, code)
  {
    hide ShapeFault, IsTime, Strip, NameKey, TimeSeen, NameSeen, Less, TRANSPORT_MODES, CentsOf, NoteOf;
    Checks(items, i, notes);
    var fault := ItemFault(items, i, notes);
    forall other | fault == None || Rank(other) < Rank(fault.value)
      ensures !ItemFails(items, i, notes, other)
    {
      match other
      case DuplicateTime =>
      case UnorderedTimes =>
      case EmptyItemName =>
      case DuplicateItem =>
      case EmptyItemNote =>
      case NegativeCost =>
      case _ =>
    }
  }

  // ---------- days and the whole itinerary ----------

  ghost predicate HeadFails(day: PlanDay, number: int, size: nat, code: Code) {
    match code
    case InvalidDayNumber => day.number != number
    case EmptyTitle => Strip(day.title) == ""
    case InvalidItemCount => |day.items| != size
    case _ => false
  }

  ghost predicate HeadReports(day: PlanDay, number: int, size: nat, code: Code) {
    HeadFails(day, number, size, code) && forall other :: Rank(other) < Rank(code) ==> !HeadFails(day, number, size, other)
  }

  /** The first item of the day that fails a check reports it. */
  ghost predicate ItemsReport(items: seq<PlanItem>, notes: bool, code: Code) {
    exists i: nat :: i < |items| && ItemReports(items, i, notes, code) && forall j: nat :: j < i ==> ItemPasses(items, j, notes)
  }

  ghost predicate DayReports(day: PlanDay, number: int, size: nat, notes: bool, code: Code) {
    || HeadReports(day, number, size, code)
    || ((forall other :: !HeadFails(day, number, size, other)) && ItemsReport(day.items, notes, code))
  }

  ghost predicate DayPasses(day: PlanDay, number: int, size: nat, notes: bool) {
    (forall code :: !HeadFails(day, number, size, code)) && forall i: nat :: i < |day.items| ==> ItemPasses(day.items, i, notes)
  }

  /** The length of the trip first, then the first day that fails, and the budget last. */
  ghost predicate Reports(terms: Terms, days: seq<PlanDay>, notes: bool, code: Code) {
    var size := ItemsPerDay(terms.pace);
    if |days| != terms.days then code == DaysCountMismatch
    else
      || (exists d: nat :: d < |days| && DayReports(days[d], d + 1, size, notes, code)
                           && forall e: nat :: e < d ==> DayPasses(days[e], e + 1, size, notes))
      || ((forall e: nat :: e < |days| ==> DayPasses(days[e], e + 1, size, notes)) && Exceeds(terms, days) && code == BudgetExceeded)
  }

  lemma HeadFaultIsFirst(day: PlanDay, number: int, size: nat)
    ensures match HeadFault(day, number, size)
            case None => forall code :: !HeadFails(day, number, size, code)
            case Some(code) => HeadReports(day, number, size, code)
  {
    hide Strip;
  }

  lemma {:induction false} ItemsFaultIsFirst(items: seq<PlanItem>, k: nat, notes: bool)
    requires k <= |items| && forall j: nat :: j < k ==> ItemPasses(items, j, notes)
    ensures match ItemsFault(items, k, notes)
            case None => forall j: nat :: j < |items| ==> ItemPasses(items, j, notes)
            case Some(code) => ItemsReport(items, notes, code)
    decreases |items| - k
  {
    hide ItemFault, ItemPasses, ItemReports;
    if k < |items| {
      ItemFaultIsFirst(items, k, notes);
      if ItemFault(items, k, notes) == None {
        ItemsFaultIsFirst(items, k + 1, notes);
      }
    }
  }

  lemma DayFaultIsFirst(day: PlanDay, number: int, size: nat, notes: bool)
    ensures match DayFault(day, number, size, notes)
            case None => DayPasses(day, number, size, notes)
            case Some(code) => DayReports(day, number, size, notes, code)
  {
    hide HeadFault, ItemsFault, HeadFails, HeadReports, ItemsReport, ItemPasses;
    HeadFaultIsFirst(day, number, size);
    ItemsFaultIsFirst(day.items, 0, notes);
  }

  lemma {:induction false} DaysFaultIsFirst(days: seq<PlanDay>, k: nat, size: nat, notes: bool) returns (d: nat)
    requires k <= |days| && forall e: nat :: e < k ==> DayPasses(days[e], e + 1, size, notes)
    ensures match DaysFault(days, k, size, notes)
            case None => forall e: nat :: e < |days| ==> DayPasses(days[e], e + 1, size, notes)
            case Some(code) =>
              d < |days| && DayReports(days[d], d + 1, size, notes, code)
              && forall e: nat :: e < d ==> DayPasses(days[e], e + 1, size, notes)
    decreases |days| - k
  {
    hide DayFault, DayPasses, DayReports;
    d := k;
    if k < |days| {
      DayFaultIsFirst(days[k], k + 1, size, notes);
      if DayFault(days[k], k + 1, size, notes) == None {
        d := DaysFaultIsFirst(days, k + 1, size, notes);
      }
    }
  }

  /** The validator raises the first fault in reading order, and nothing when there is none to report. */
  lemma FirstFaultIsReported(terms: Terms, days: seq<PlanDay>, notes: bool)
    ensures match Fault(terms, days, notes)
            case None => Acceptable(terms, days, notes)
            case Some(code) => Reports(terms, days, notes, code)
  {
    hide DaysFault, DayPasses, DayReports, OverBudget, Exceeds, DayAcceptable;
    OverBudgetMeans(terms, days);
    AcceptsExactlyTheAcceptable(terms, days, notes);
    var d := DaysFaultIsFirst(days, 0, ItemsPerDay(terms.pace), notes);
  }
}
