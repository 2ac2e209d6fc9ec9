/** The deterministic template adapter, the validator its output is checked with, and the merging of warnings. */
module TemplateAdaptation {
  import opened Wrappers
  import opened Sequences
  import opened Text
  import opened Clock
  import opened Itinerary

  /** Missing texts are empty; a cost without an amount counts as no cost. Amounts in cents. */
  datatype TemplateItem = TemplateItem(
    name: string,
    kind: string,
    time: string,
    start: string,
    end: string,
    cost: Option<real>,
    notes: string
  )

  datatype TemplateDay = TemplateDay(offset: nat, title: string, items: seq<TemplateItem>)

  datatype AdaptedDay = AdaptedDay(date: int, title: string, items: seq<TemplateItem>)

  /** The texts that replace the English ones: a day's title around its number, an item's name, its note. */
  datatype Language = English | Translated(day: string, place: string, item: string, note: string)

  datatype Request = Request(
    days: seq<TemplateDay>,
    sourceDuration: int,
    destination: string,
    start: int,
    duration: nat,
    budget: Option<real>,
    hasContext: bool,
    language: Language
  )

  const KINDS: seq<string> := ["place", "food", "activity", "transport", "rest"]

  // ---------- adapting ----------

  function KnownKind(kind: string): string {
    var k := Lower(Strip(kind));
    if k in KINDS then k else "activity"
  }

  function AdaptItem(item: TemplateItem, destination: string): TemplateItem {
    TemplateItem(
      Strip(destination + " version of " + item.name),
      KnownKind(item.kind),
      item.time,
      if item.start != "" then item.start else item.time,
      item.end,
      item.cost,
      if item.notes != "" then item.notes else "Adapted from the template for " + destination + "; verify details."
    )
  }

  function PlaceholderItem(destination: string): TemplateItem {
    TemplateItem(Strip("Flexible exploration in " + destination), "activity", "", "10:00", "", None,
                 "Added to extend the template to the requested duration; customize freely.")
  }

  predicate Named(item: TemplateItem) {
    Strip(item.name) != ""
  }

  function AdaptItems(items: seq<TemplateItem>, destination: string): seq<TemplateItem> {
    var named := Filter(items, Named);
    if named == [] then [PlaceholderItem(destination)]
    else seq(|named|, i requires 0 <= i < |named| => AdaptItem(named[i], destination))
  }

  function AdaptTitle(title: string, number: nat, destination: string): string {
    var base := if Strip(title) != "" then Strip(title) else "Day " + Decimal(number) + " in " + destination;
    Strip(if Contains(Lower(base), Lower(destination)) then base else base + " (" + destination + ")")
  }

  function AdaptDay(request: Request, source: TemplateDay, index: nat): AdaptedDay {
    AdaptedDay(request.start + index, AdaptTitle(source.title, index + 1, request.destination),
               AdaptItems(source.items, request.destination))
  }

  function PlaceholderDay(request: Request, index: nat): AdaptedDay {
    AdaptedDay(request.start + index, Strip("Flexible exploration day in " + request.destination),
               [PlaceholderItem(request.destination)])
  }

  predicate NoEarlier(a: TemplateDay, b: TemplateDay) {
    a.offset <= b.offset
  }

  /** The template's days in offset order, equal offsets in the order given. */
  function InOrder(days: seq<TemplateDay>): seq<TemplateDay> {
    Sort(days, NoEarlier)
  }

  /** The source days that survive the trim to the target duration. */
  function Retained(request: Request): seq<TemplateDay> {
    Take(InOrder(request.days), request.duration)
  }

  function DayAt(request: Request, index: nat): AdaptedDay {
    var retained := Retained(request);
    if index < |retained| then AdaptDay(request, retained[index], index) else PlaceholderDay(request, index)
  }

  function AdaptedDays(request: Request, count: nat): seq<AdaptedDay> {
    seq(count, index requires 0 <= index < count => DayAt(request, index))
  }

  function LocalizedItem(item: TemplateItem, language: Language, destination: string): TemplateItem {
    match language
    case English => item
    case Translated(_, _, name, note) => item.(name := name + destination, notes := note)
  }

  function LocalizedDay(day: AdaptedDay, number: nat, language: Language, destination: string): AdaptedDay {
    match language
    case English => day
    case Translated(title, place, _, _) =>
      day.(title := title + Decimal(number) + place + destination,
           items := seq(|day.items|, i requires 0 <= i < |day.items| => LocalizedItem(day.items[i], language, destination)))
  }

  function LocalizedDays(days: seq<AdaptedDay>, request: Request): seq<AdaptedDay> {
    seq(|days|, d requires 0 <= d < |days| => LocalizedDay(days[d], d + 1, request.language, request.destination))
  }

  function Adaptation(request: Request): seq<AdaptedDay> {
    LocalizedDays(AdaptedDays(request, request.duration), request)
  }

  /** `MockTemplateAdapter.adapt`. */
  method Adapt(request: Request) returns (days: seq<AdaptedDay>)
    ensures days == Adaptation(request)
  {
    hide AdaptDay, PlaceholderDay, LocalizedDay;
    var source := InOrder(request.days);
    var used := if |source| < request.duration then |source| else request.duration;
    days := [];
    for index := 0 to used
      invariant days == AdaptedDays(request, index)
    {
      days := days + [AdaptDay(request, source[index], index)];
    }
    for index := used to request.duration
      invariant days == AdaptedDays(request, index)
    {
      days := days + [PlaceholderDay(request, index)];
    }
    days := Localize(days, request);
  }

  /** `_localize_mock_adaptation`. */
  method Localize(given: seq<AdaptedDay>, request: Request) returns (days: seq<AdaptedDay>)
    ensures days == LocalizedDays(given, request)
  {
    hide LocalizedDay;
    days := given;
    if request.language.English? {
      EnglishStays(given, request);
      return;
    }
    for d := 0 to |days|
      invariant |days| == |given|
      invariant days == LocalizedDays(given[..d], request) + given[d..]
    {
      LocalizeNext(given, d, request);
      days := days[d := LocalizedDay(days[d], d + 1, request.language, request.destination)];
    }
    assert given[..|given|] == given;
  }

  lemma EnglishStays(days: seq<AdaptedDay>, request: Request)
    requires request.language.English?
    ensures LocalizedDays(days, request) == days
  {
  }

  lemma LocalizeNext(days: seq<AdaptedDay>, d: nat, request: Request)
    requires d < |days|
    ensures |LocalizedDays(days[..d], request)| == d
    ensures (LocalizedDays(days[..d], request) + days[d..])
              [d := LocalizedDay(days[d], d + 1, request.language, request.destination)]
            == LocalizedDays(days[..d + 1], request) + days[d + 1..]
  {
    hide LocalizedDay;
  }

  // ---------- validating ----------

  datatype Code = DaysCountMismatch | EmptyTitle | EmptyDay | InvalidItemType | EmptyItemName | InvalidTimeFormat | NegativeCost

  predicate TimeFits(time: string) {
    time == "" || MatchesTimePattern(time)
  }

  function ItemFault(item: TemplateItem): Option<Code> {
    if item.kind !in KINDS then Some(InvalidItemType)
    else if Strip(item.name) == "" then Some(EmptyItemName)
    else if !(TimeFits(item.time) && TimeFits(item.start) && TimeFits(item.end)) then Some(InvalidTimeFormat)
    else if item.cost.Some? && item.cost.value < 0.0 then Some(NegativeCost)
    else None
  }

  function ItemsFault(items: seq<TemplateItem>, i: nat): Option<Code>
    decreases |items| - i
  {
    if i >= |items| then None
    else if ItemFault(items[i]).Some? then ItemFault(items[i])
    else ItemsFault(items, i + 1)
  }

  function DayFault(day: AdaptedDay): Option<Code> {
    if Strip(day.title) == "" then Some(EmptyTitle)
    else if day.items == [] then Some(EmptyDay)
    else ItemsFault(day.items, 0)
  }

  function DaysFault(days: seq<AdaptedDay>, d: nat): Option<Code>
    decreases |days| - d
  {
    if d >= |days| then None
    else if DayFault(days[d]).Some? then DayFault(days[d])
    else DaysFault(days, d + 1)
  }

  function CostOf(item: TemplateItem): real {
    match item.cost case Some(cents) => cents case None => 0.0
  }

  function AdaptedCost(day: AdaptedDay): real {
    Sum(day.items, CostOf)
  }

  function PlanCost(days: seq<AdaptedDay>): real {
    Sum(days, AdaptedCost)
  }

  const TOO_LOW := "The requested budget may be too low for this itinerary; estimated costs exceed the target budget."
  const TIGHT := "The requested budget leaves little room for extras; review estimated costs."
  const COMPRESSED := "The target duration is much shorter than the template; compressing days may make the plan intense."
  const GENERIC := "Destination context is limited; some suggestions may be generic."
  const APPROXIMATE := "Estimated prices are approximate and should be verified."
  const AVAILABILITY := "Availability and opening hours must be checked before booking."

  /** The warnings of an itinerary without faults that costs `total`. */
  function Warnings(request: Request, total: real): seq<string> {
    (if request.budget.Some? && request.budget.value > 0.0 then
       if total > request.budget.value then [TOO_LOW]
       else if total > request.budget.value * 0.6 then [TIGHT]
       else []
     else [])
    + (if request.sourceDuration > 0 && (request.duration as real) < request.sourceDuration as real * 0.6
       then [COMPRESSED] else [])
    + (if request.hasContext then [] else [GENERIC])
    + [APPROXIMATE, AVAILABILITY]
  }

  function Verdict(request: Request, days: seq<AdaptedDay>): Result<seq<string>, Code> {
    if |days| != request.duration then Failure(DaysCountMismatch)
    else
      match DaysFault(days, 0)
      case Some(code) => Failure(code)
      case None => Success(Warnings(request, PlanCost(days)))
  }

  /** `TemplateAdaptationValidator.validate`. */
  method Validate(request: Request, days: seq<AdaptedDay>) returns (verdict: Result<seq<string>, Code>)
    ensures verdict == Verdict(request, days)
  {
    hide ItemFault, Strip, Warnings;
    if |days| != request.duration {
      return Failure(DaysCountMismatch);
    }
    var total, estimates := 0.0, 0;
    for d := 0 to |days|
      invariant DaysFault(days, d) == DaysFault(days, 0)
      invariant total == Sum(days[..d], AdaptedCost)
      invariant estimates == 0 ==> total == 0.0
    {
      if Strip(days[d].title) == "" {
        return Failure(EmptyTitle);
      }
      if days[d].items == [] {
        return Failure(EmptyDay);
      }
      var fault, cost, priced := ValidateItems(days[d].items);
      if fault.Some? {
        return Failure(fault.value);
      }
      SumNext(days, d, AdaptedCost);
      total, estimates := total + cost, estimates + priced;
    }
    assert days[..|days|] == days;
    var warnings := BudgetWarnings(request, total, estimates);
    if request.sourceDuration > 0 && (request.duration as real) < request.sourceDuration as real * 0.6 {
      warnings := warnings + [COMPRESSED];
    }
    if !request.hasContext {
      warnings := warnings + [GENERIC];
    }
    warnings := warnings + [APPROXIMATE] + [AVAILABILITY];
    WarningsAre(request, total, warnings);
    return Success(warnings);
  }

  lemma WarningsAre(request: Request, total: real, warnings: seq<string>)
    requires var budget := if request.budget.Some? && request.budget.value > 0.0 then
                             if total > request.budget.value then [TOO_LOW]
                             else if total > request.budget.value * 0.6 then [TIGHT]
                             else []
                           else [];
             var compressed := if request.sourceDuration > 0 && (request.duration as real) < request.sourceDuration as real * 0.6
                               then [COMPRESSED] else [];
             warnings == budget + compressed + (if request.hasContext then [] else [GENERIC]) + [APPROXIMATE] + [AVAILABILITY]
    ensures warnings == Warnings(request, total)
  {
    hide TOO_LOW, TIGHT, COMPRESSED, GENERIC, APPROXIMATE, AVAILABILITY;
  }

  method BudgetWarnings(request: Request, total: real, estimates: nat) returns (warnings: seq<string>)
    requires estimates == 0 ==> total == 0.0
    ensures warnings == if request.budget.Some? && request.budget.value > 0.0 then
                          if total > request.budget.value then [TOO_LOW]
                          else if total > request.budget.value * 0.6 then [TIGHT]
                          else []
                        else []
  {
    if request.budget.None? || request.budget.value <= 0.0 || estimates == 0 {
      return [];
    }
    if total > request.budget.value {
      return [TOO_LOW];
    }
    if total > request.budget.value * 0.6 {
      return [TIGHT];
    }
    return [];
  }

  method ValidateItems(items: seq<TemplateItem>) returns (fault: Option<Code>, total: real, estimates: nat)
    ensures fault == ItemsFault(items, 0)
    ensures fault.None? ==> total == Sum(items, CostOf)
    ensures estimates == 0 ==> total == 0.0
  {
    total, estimates := 0.0, 0;
    for i := 0 to |items|
      invariant ItemsFault(items, i) == ItemsFault(items, 0)
      invariant total == Sum(items[..i], CostOf)
      invariant estimates == 0 ==> total == 0.0
    {
      var item := items[i];
      if item.kind !in KINDS {
        return Some(InvalidItemType), total, estimates;
      }
      if Strip(item.name) == "" {
        return Some(EmptyItemName), total, estimates;
      }
      if !(TimeFits(item.time) && TimeFits(item.start) && TimeFits(item.end)) {
        return Some(InvalidTimeFormat), total, estimates;
      }
      SumNext(items, i, CostOf);
      if item.cost.Some? {
        if item.cost.value < 0.0 {
          return Some(NegativeCost), total, estimates;
        }
        total, estimates := total + item.cost.value, estimates + 1;
      }
    }
    fault := None;
    assert items[..|items|] == items;
  }

  // ---------- warnings on the summary ----------

  predicate Mentions(warnings: seq<string>, warning: string) {
    exists k :: 0 <= k < |warnings| && Lower(warnings[k]) == Lower(warning)
  }

  function Merged(warnings: seq<string>, more: seq<string>): seq<string> {
    if more == [] then warnings
    else
      var front, last := Merged(warnings, more[..|more| - 1]), more[|more| - 1];
      if Mentions(front, last) then front else front + [last]
  }

  class Summary {
    var warnings: seq<string>

    constructor (warnings: seq<string>)
      ensures this.warnings == warnings
    {
      this.warnings := warnings;
    }

    /** `_merge_warnings`. */
    method MergeWarnings(more: seq<string>)
      modifies this
      ensures warnings == Merged(old(warnings), more)
    {
      hide Lower;
      var start := warnings;
      var existing: set<string> := set k | 0 <= k < |warnings| :: Lower(warnings[k]);
      for k := 0 to |more|
        invariant warnings == Merged(start, more[..k])
        invariant existing == set j | 0 <= j < |warnings| :: Lower(warnings[j])
      {
        assert more[..k + 1][..k] == more[..k];
        assert Mentions(warnings, more[k]) <==> Lower(more[k]) in existing;
        if Lower(more[k]) !in existing {
          ghost var before := warnings;
          warnings := warnings + [more[k]];
          existing := existing + {Lower(more[k])};
          assert forall j :: 0 <= j < |before| ==> warnings[j] == before[j];
          assert warnings[|before|] == more[k];
        }
      }
      assert more[..|more|] == more;
    }
  }
}
