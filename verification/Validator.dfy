/** `ItineraryValidator`: every check in the order it is made, and what passing them all amounts to. */
module Validator {
  import opened Wrappers
  import opened Sequences
  import opened Text
  import opened Clock
  import opened Itinerary
  import opened Plan

  datatype Code =
    | DaysCountMismatch
    | InvalidDayNumber
    | EmptyTitle
    | InvalidItemCount
    | InvalidItemType
    | InvalidTimeFormat
    | DuplicateTime
    | UnorderedTimes
    | EmptyItemName
    | DuplicateItem
    | EmptyItemNote
    | MissingTransferDetails
    | InvalidTransferMode
    | InvalidTransferCostCategory
    | NegativeCost
    | BudgetExceeded

  /** What the trip request fixes: its length, its pace and its budget in cents. */
  datatype Terms = Terms(days: int, pace: Pace, budget: Option<real>)

  const ITEM_TYPES: seq<string> := ["place", "food", "activity", "transport", "transfer", "rest"]

  // ---------- one item ----------

  function NameKey(item: PlanItem): string {
    Lower(Strip(item.name))
  }

  function NoteOf(item: PlanItem): string {
    match item.note case Some(note) => note case None => ""
  }

  /** `_validate_transfer_item`. */
  function TransferFault(item: PlanItem): Option<Code> {
    match item.transfer
    case None => Some(MissingTransferDetails)
    case Some(transfer) =>
      if transfer.mode !in TRANSPORT_MODES then Some(InvalidTransferMode)
      else if item.transportMode.Some? && item.transportMode.value !in TRANSPORT_MODES then Some(InvalidTransferMode)
      else if !TransportCost(if item.cost.Some? then item.cost else transfer.cost) then Some(InvalidTransferCostCategory)
      else None
  }

  predicate TransportCost(cost: Option<Estimate>) {
    cost.Some? && cost.value.category.Some? ==> cost.value.category.value == "transport"
  }

  /** What is wrong with an item whatever stands before it: first the checks made before the names are
      compared, then the ones made after. */
  function ShapeFault(item: PlanItem): Option<Code> {
    if item.kind !in ITEM_TYPES then Some(InvalidItemType)
    else if !MatchesTimePattern(item.time) then Some(InvalidTimeFormat)
    else if item.endTime.Some? && !MatchesTimePattern(item.endTime.value) then Some(InvalidTimeFormat)
    else None
  }

  function DetailFault(item: PlanItem, notes: bool): Option<Code> {
    if notes && Strip(NoteOf(item)) == "" then Some(EmptyItemNote)
    else
      var fault := if item.kind == "transfer" then TransferFault(item) else None;
      if fault.Some? then fault
      else if CentsOf(item) < 0.0 then Some(NegativeCost)
      else None
  }

  predicate TimeSeen(items: seq<PlanItem>, i: nat)
    requires i < |items|
  {
    exists j :: 0 <= j < i && items[j].time == items[i].time
  }

  predicate NameSeen(items: seq<PlanItem>, i: nat)
    requires i < |items|
  {
    exists j :: 0 <= j < i && NameKey(items[j]) == NameKey(items[i])
  }

  /** The fault reported at item `i`, given that the items before it have none. */
  function ItemFault(items: seq<PlanItem>, i: nat, notes: bool): Option<Code>
    requires i < |items|
  {
    if ShapeFault(items[i]).Some? then ShapeFault(items[i])
    else if TimeSeen(items, i) then Some(DuplicateTime)
    else if i > 0 && Less(items[i].time, items[i - 1].time) then Some(UnorderedTimes)
    else if NameKey(items[i]) == "" then Some(EmptyItemName)
    else if NameSeen(items, i) then Some(DuplicateItem)
    else DetailFault(items[i], notes)
  }

  // ---------- days and the whole itinerary ----------

  function ItemsFault(items: seq<PlanItem>, i: nat, notes: bool): Option<Code>
    decreases |items| - i
  {
    if i >= |items| then None
    else if ItemFault(items, i, notes).Some? then ItemFault(items, i, notes)
    else ItemsFault(items, i + 1, notes)
  }

  function HeadFault(day: PlanDay, number: int, size: nat): Option<Code> {
    if day.number != number then Some(InvalidDayNumber)
    else if Strip(day.title) == "" then Some(EmptyTitle)
    else if |day.items| != size then Some(InvalidItemCount)
    else None
  }

  function DayFault(day: PlanDay, number: int, size: nat, notes: bool): Option<Code> {
    if HeadFault(day, number, size).Some? then HeadFault(day, number, size) else ItemsFault(day.items, 0, notes)
  }

  function DaysFault(days: seq<PlanDay>, d: nat, size: nat, notes: bool): Option<Code>
    decreases |days| - d
  {
    if d >= |days| then None
    else if DayFault(days[d], d + 1, size, notes).Some? then DayFault(days[d], d + 1, size, notes)
    else DaysFault(days, d + 1, size, notes)
  }

  /** More than 30% over a positive budget. */
  predicate OverBudget(terms: Terms, days: seq<PlanDay>) {
    terms.budget.Some? && terms.budget.value > 0.0 && PlanTotal(days) > terms.budget.value * 1.3
  }

  /** The first fault in reading order, and the budget only when there is none. */
  function Fault(terms: Terms, days: seq<PlanDay>, notes: bool): Option<Code> {
    if |days| != terms.days then Some(DaysCountMismatch)
    else
      var fault := DaysFault(days, 0, ItemsPerDay(terms.pace), notes);
      if fault.Some? then fault
      else if OverBudget(terms, days) then Some(BudgetExceeded)
      else None
  }

  // ---------- the running validator ----------

  method ValidateItems(items: seq<PlanItem>, notes: bool) returns (fault: Option<Code>, total: real, estimates: nat)
    ensures fault == ItemsFault(items, 0, notes)
    ensures fault.None? ==> total == Sum(items, CentsOf)
    ensures estimates == 0 ==> total == 0.0
  {
    hide ShapeFault, DetailFault, NameKey, ItemFault;
    total, estimates := 0.0, 0;
    var previousTime: Option<string> := None;
    var seenTimes: set<string> := {};
    var seenNames: set<string> := {};
    for i := 0 to |items|
      invariant ItemsFault(items, i, notes) == ItemsFault(items, 0, notes)
      invariant previousTime == if i == 0 then None else Some(items[i - 1].time)
      invariant seenTimes == set j | 0 <= j < i :: items[j].time
      invariant seenNames == set j | 0 <= j < i :: NameKey(items[j])
      invariant total == Sum(items[..i], CentsOf)
      invariant estimates == 0 ==> total == 0.0
    {
      var item := items[i];
      ItemsFaultNext(items, i, notes);
      ItemFaultInOrder(items, i, notes);
      if ShapeFault(item).Some? {
        return ShapeFault(item), total, estimates;
      }
      if item.time in seenTimes {
        return Some(DuplicateTime), total, estimates;
      }
      seenTimes := seenTimes + {item.time};
      if previousTime.Some? && Less(item.time, previousTime.value) {
        return Some(UnorderedTimes), total, estimates;
      }
      previousTime := Some(item.time);
      if NameKey(item) == "" {
        return Some(EmptyItemName), total, estimates;
      }
      if NameKey(item) in seenNames {
        return Some(DuplicateItem), total, estimates;
      }
      seenNames := seenNames + {NameKey(item)};
      if DetailFault(item, notes).Some? {
        return DetailFault(item, notes), total, estimates;
      }
      SumNext(items, i, CentsOf);
      if item.cost.Some? && item.cost.value.cents.Some? {
        total := total + item.cost.value.cents.value;
        estimates := estimates + 1;
      }
    }
    fault := None;
    assert items[..|items|] == items;
  }

  method Validate(terms: Terms, days: seq<PlanDay>, notes: bool) returns (fault: Option<Code>)
    ensures fault == Fault(terms, days, notes)
  {
    hide HeadFault, ItemsFault;
    if |days| != terms.days {
      return Some(DaysCountMismatch);
    }
    var size := ItemsPerDay(terms.pace);
    var total, estimates := 0.0, 0;
    for d := 0 to |days|
      invariant DaysFault(days, d, size, notes) == DaysFault(days, 0, size, notes)
      invariant total == Sum(days[..d], DayTotal)
      invariant estimates == 0 ==> total == 0.0
    {
      var head := HeadFault(days[d], d + 1, size);
      if head.Some? {
        return head;
      }
      var fault, dayTotal, dayEstimates := ValidateItems(days[d].items, notes);
      if fault.Some? {
        return fault;
      }
      SumNext(days, d, DayTotal);
      total, estimates := total + dayTotal, estimates + dayEstimates;
    }
    assert days[..|days|] == days;
    if terms.budget.Some? && terms.budget.value > 0.0 && estimates > 0 && total > terms.budget.value * 1.3 {
      return Some(BudgetExceeded);
    }
    return None;
  }

  lemma ItemsFaultNext(items: seq<PlanItem>, i: nat, notes: bool)
    requires i < |items|
    ensures ItemsFault(items, i, notes) ==
              if ItemFault(items, i, notes).Some? then ItemFault(items, i, notes) else ItemsFault(items, i + 1, notes)
  {
  }

  lemma ItemFaultInOrder(items: seq<PlanItem>, i: nat, notes: bool)
    requires i < |items|
    ensures var times := set j | 0 <= j < i :: items[j].time;
            var names := set j | 0 <= j < i :: NameKey(items[j]);
            ItemFault(items, i, notes) ==
              if ShapeFault(items[i]).Some? then ShapeFault(items[i])
              else if items[i].time in times then Some(DuplicateTime)
              else if i > 0 && Less(items[i].time, items[i - 1].time) then Some(UnorderedTimes)
              else if NameKey(items[i]) == "" then Some(EmptyItemName)
              else if NameKey(items[i]) in names then Some(DuplicateItem)
              else DetailFault(items[i], notes)
  {
    hide ShapeFault, DetailFault, NameKey;
  }

  // ---------- what acceptance means ----------

  /** What an item is estimated to cost, nothing when it has no amount. */
  ghost function Spent(item: PlanItem): real {
    if item.cost.Some? && item.cost.value.cents.Some? then item.cost.value.cents.value else 0.0
  }

  ghost function SpentOn(day: PlanDay): real {
    Sum(day.items, Spent)
  }

  /** The items cost more than 1.3 times a positive budget. */
  ghost predicate Exceeds(terms: Terms, days: seq<PlanDay>) {
    terms.budget.Some? && terms.budget.value > 0.0 && 10.0 * Sum(days, SpentOn) > 13.0 * terms.budget.value
  }

  lemma {:induction false} ItemsCostWhatIsSpent(items: seq<PlanItem>)
    ensures Sum(items, CentsOf) == Sum(items, Spent)
  {
    if items != [] {
      ItemsCostWhatIsSpent(items[1..]);
    }
  }

  lemma {:induction false} DaysCostWhatIsSpent(days: seq<PlanDay>)
    ensures PlanTotal(days) == Sum(days, SpentOn)
  {
    if days != [] {
      ItemsCostWhatIsSpent(days[0].items);
      DaysCostWhatIsSpent(days[1..]);
    }
  }

  lemma OverBudgetMeans(terms: Terms, days: seq<PlanDay>)
    ensures OverBudget(terms, days) <==> Exceeds(terms, days)
  {
    DaysCostWhatIsSpent(days);
  }

  /** A transfer has its details, only known modes, and a price, its own or else the transfer's, that is filed under
      transport or not at all. */
  ghost predicate GoodTransfer(item: PlanItem) {
    && item.transfer.Some? && item.transfer.value.mode in TRANSPORT_MODES
    && (item.transportMode.Some? ==> item.transportMode.value in TRANSPORT_MODES)
    && var price := if item.cost.Some? then item.cost else item.transfer.value.cost;
       price.Some? ==> price.value.category == None || price.value.category == Some("transport")
  }

  ghost predicate WellFormed(item: PlanItem, notes: bool) {
    && item.kind in ITEM_TYPES
    && MatchesTimePattern(item.time)
    && (item.endTime.Some? ==> MatchesTimePattern(item.endTime.value))
    && Strip(item.name) != ""
    && (notes ==> item.note.Some? && Strip(item.note.value) != "")
    && (item.kind == "transfer" ==> GoodTransfer(item))
    && Spent(item) >= 0.0
  }

  ghost predicate StrictlyLater(items: seq<PlanItem>) {
    forall i, j :: 0 <= i < j < |items| ==> Less(items[i].time, items[j].time)
  }

  ghost predicate DistinctNames(items: seq<PlanItem>) {
    forall i, j :: 0 <= i < j < |items| ==> NameKey(items[i]) != NameKey(items[j])
  }

  ghost predicate DayAcceptable(day: PlanDay, number: int, size: nat, notes: bool) {
    && day.number == number && Strip(day.title) != "" && |day.items| == size
    && (forall i :: 0 <= i < |day.items| ==> WellFormed(day.items[i], notes))
    && StrictlyLater(day.items)
    && DistinctNames(day.items)
  }

  ghost predicate Acceptable(terms: Terms, days: seq<PlanDay>, notes: bool) {
    && |days| == terms.days
    && (forall d :: 0 <= d < |days| ==> DayAcceptable(days[d], d + 1, ItemsPerDay(terms.pace), notes))
    && !Exceeds(terms, days)
  }

  lemma {:induction false} LowerLength(s: string)
    ensures |Lower(s)| == |s|
  {
    if s != "" {
      LowerLength(s[1..]);
    }
  }

  lemma TransferFaultMeans(item: PlanItem)
    ensures TransferFault(item) == None <==> GoodTransfer(item)
  {
    hide TRANSPORT_MODES;
  }

  lemma ItemFaultMeans(items: seq<PlanItem>, i: nat, notes: bool)
    requires i < |items|
    ensures ItemFault(items, i, notes) == None <==>
            && WellFormed(items[i], notes) && !TimeSeen(items, i) && !NameSeen(items, i)
            && (i > 0 ==> !Less(items[i].time, items[i - 1].time))
  {
    hide TimeSeen, NameSeen, MatchesTimePattern, TransferFault, GoodTransfer, TRANSPORT_MODES;
    TransferFaultMeans(items[i]);
    LowerLength(Strip(items[i].name));
    if Strip(NoteOf(items[i])) != "" {
      assert items[i].note.Some?;
    }
  }

  lemma {:induction false} ItemsFaultMeans(items: seq<PlanItem>, k: nat, notes: bool)
    requires k <= |items|
    ensures ItemsFault(items, k, notes) == None <==> forall i :: k <= i < |items| ==> ItemFault(items, i, notes) == None
    decreases |items| - k
  {
    hide ItemFault;
    if k < |items| {
      ItemsFaultMeans(items, k + 1, notes);
    }
  }

  lemma LessIsTransitive(a: string, b: string, c: string)
    requires Less(a, b) && Less(b, c)
    ensures Less(a, c)
  {
    LessIsAsymmetric(a, b);
    LessIsAsymmetric(b, c);
    NotLessIsTransitive(a, b, c);
    LessIsTotal(a, c);
  }

  /** Neighbours in order and no time twice is the same as every later time being strictly later. */
  lemma {:induction false} OrderIsPairwise(items: seq<PlanItem>)
    ensures StrictlyLater(items) <==>
            forall i :: 0 <= i < |items| ==> InOrder(items, i)
  {
    if StrictlyLater(items) {
      forall i | 0 <= i < |items|
        ensures InOrder(items, i)
      {
        forall j | 0 <= j < i
          ensures items[j].time != items[i].time && !Less(items[i].time, items[j].time)
        {
          LessIsAsymmetric(items[j].time, items[i].time);
        }
      }
    } else if forall i :: 0 <= i < |items| ==> InOrder(items, i) {
      forall i, j | 0 <= i < j < |items|
        ensures Less(items[i].time, items[j].time)
      {
        LaterByNeighbours(items, i, j);
      }
      assert false;
    }
  }

  lemma {:induction false} LaterByNeighbours(items: seq<PlanItem>, i: nat, j: nat)
    requires i < j < |items|
    requires forall k :: 0 <= k < |items| ==> InOrder(items, k)
    ensures Less(items[i].time, items[j].time)
    decreases j
  {
    assert InOrder(items, j);
    assert items[j - 1].time != items[j].time;
    LessIsTotal(items[j - 1].time, items[j].time);
    if i < j - 1 {
      LaterByNeighbours(items, i, j - 1);
      LessIsTransitive(items[i].time, items[j - 1].time, items[j].time);
    }
  }

  ghost predicate InOrder(items: seq<PlanItem>, i: nat)
    requires i < |items|
  {
    !TimeSeen(items, i) && (i > 0 ==> !Less(items[i].time, items[i - 1].time))
  }

  lemma NoItemFaultMeans(items: seq<PlanItem>, notes: bool)
    ensures ItemsFault(items, 0, notes) == None <==>
            && (forall i :: 0 <= i < |items| ==> WellFormed(items[i], notes))
            && (forall i :: 0 <= i < |items| ==> InOrder(items, i))
            && (forall i :: 0 <= i < |items| ==> !NameSeen(items, i))
  {
    hide ItemFault, WellFormed, NameSeen, InOrder;
    ItemsFaultMeans(items, 0, notes);
    forall i | 0 <= i < |items|
      ensures ItemFault(items, i, notes) == None <==>
              WellFormed(items[i], notes) && InOrder(items, i) && !NameSeen(items, i)
    {
      ItemFaultSplits(items, i, notes);
    }
  }

  lemma ItemFaultSplits(items: seq<PlanItem>, i: nat, notes: bool)
    requires i < |items|
    ensures ItemFault(items, i, notes) == None <==>
            WellFormed(items[i], notes) && InOrder(items, i) && !NameSeen(items, i)
  {
    ItemFaultMeans(items, i, notes);
    hide ItemFault, WellFormed, NameSeen, TimeSeen, Less;
  }

  lemma DayFaultMeans(day: PlanDay, number: int, size: nat, notes: bool)
    ensures DayFault(day, number, size, notes) == None <==> DayAcceptable(day, number, size, notes)
  {
    NoItemFaultMeans(day.items, notes);
    OrderIsPairwise(day.items);
    NamesArePairwise(day.items);
    hide WellFormed, NameSeen, StrictlyLater, DistinctNames, ItemsFault, Strip;
  }

  lemma NamesArePairwise(items: seq<PlanItem>)
    ensures DistinctNames(items) <==> forall i :: 0 <= i < |items| ==> !NameSeen(items, i)
  {
    hide NameKey;
    forall i, j | 0 <= i < j < |items| && !NameSeen(items, j)
      ensures NameKey(items[i]) != NameKey(items[j])
    {
    }
  }

  lemma {:induction false} DaysFaultMeans(days: seq<PlanDay>, k: nat, size: nat, notes: bool)
    requires k <= |days|
    ensures DaysFault(days, k, size, notes) == None <==>
            forall d :: k <= d < |days| ==> DayAcceptable(days[d], d + 1, size, notes)
    decreases |days| - k
  {
    hide DayFault, DayAcceptable;
    if k < |days| {
      DaysFaultMeans(days, k + 1, size, notes);
      DayFaultMeans(days[k], k + 1, size, notes);
    }
  }

  /** The validator raises nothing exactly on the acceptable itineraries. */
  lemma AcceptsExactlyTheAcceptable(terms: Terms, days: seq<PlanDay>, notes: bool)
    ensures Fault(terms, days, notes) == None <==> Acceptable(terms, days, notes)
  {
    DaysFaultMeans(days, 0, ItemsPerDay(terms.pace), notes);
    OverBudgetMeans(terms, days);
    hide OverBudget, Exceeds, DaysFault, DayAcceptable;
  }
}
