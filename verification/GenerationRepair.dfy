/** `repair_generation_output`: day-count normalisation, one handler per validation issue, and a closing sort. */
module GenerationRepair {
  import opened Wrappers
  import opened Text
  import opened Clock
  import opened Sequences
  import opened Itinerary

  datatype Issue = Issue(id: string, category: string, day: Option<int>, item: Option<nat>, legId: string)

  /** The selected transport option of a leg; a missing text is the empty text. */
  datatype Transport = Transport(departure: string, arrival: string)

  datatype Leg = Leg(id: string, toStop: string, name: string, selected: Option<Transport>, duration: Option<int>, cents: real)

  /** `entry` is the output's own currency text, empty when it is missing; `currency` the one repairs are made in. */
  datatype Request = Request(
    days: seq<Day>,
    entry: string,
    currency: string,
    issues: seq<Issue>,
    expectedDays: nat,
    legs: seq<Leg>
  )

  datatype Kind =
    | DayCountNormalized
    | DayAdded
    | DayTitleAdded
    | ItemSchemaFilled
    | ItemAdded
    | ItemMoved
    | TransferItemAdded
    | ItemCostReduced

  datatype Change = Change(kind: Kind, day: Option<int>, item: Option<nat>)

  datatype Ledger = Ledger(days: seq<Day>, changes: seq<Change>)

  // ---------- placeholders ----------

  function DayLabel(n: int): string {
    "Day " + (if n < 0 then "-" + Decimal(-n) else Decimal(n))
  }

  function PlaceholderDay(n: int, currency: string): Day {
    Day(Some(n), DayLabel(n) + ": flexible repaired plan", "",
        [Item("10:00", Some("11:30"), "activity", "Flexible itinerary block",
              "Added by AI repair to keep the trip duration complete.",
              Priced(Some(0.0), Code(currency), true), None, None)])
  }

  function PlaceholderItem(currency: string): Item {
    Item("10:00", Some("11:00"), "activity", "Flexible repaired item",
         "Added by AI repair to complete a required itinerary field.",
         Priced(Some(0.0), Code(currency), true), None, None)
  }

  function Titled(day: Day, n: int): Day {
    if Strip(day.title) == "" then day.(title := DayLabel(n) + ": repaired plan") else day
  }

  // ---------- day count ----------

  predicate NeedsDayCountRepair(issues: seq<Issue>) {
    exists k :: 0 <= k < |issues| && IsDayCountIssue(issues[k])
  }

  predicate IsDayCountIssue(issue: Issue) {
    var id := Lower(issue.id);
    Contains(id, "day_count") || Contains(id, "missing_day") || Contains(id, "duplicate_day")
  }

  /** The number a day counts under: its own when positive, else its position from 1. */
  function NumberAt(days: seq<Day>, d: nat): int
    requires d < |days|
  {
    match DayNumber(days[d]) case Some(n) => n case None => d + 1
  }

  /** The first day, among the first `k`, that counts under `n`. */
  function FirstFor(days: seq<Day>, n: int, k: nat): Option<nat>
    requires k <= |days|
  {
    if k == 0 then None
    else
      match FirstFor(days, n, k - 1)
      case Some(d) => Some(d)
      case None => if NumberAt(days, k - 1) == n then Some(k - 1) else None
  }

  function NormalDay(days: seq<Day>, n: int, currency: string): Day {
    match FirstFor(days, n, |days|)
    case None => PlaceholderDay(n, currency)
    case Some(d) => if d < |days| then Titled(days[d].(number := Some(n)), n) else PlaceholderDay(n, currency)
  }

  function NormalDays(days: seq<Day>, expected: nat, currency: string): seq<Day> {
    if expected == 0 then [] else NormalDays(days, expected - 1, currency) + [NormalDay(days, expected, currency)]
  }

  /** A day had to be added or renumbered for one of the numbers up to `expected`. */
  predicate SomeDayDiffers(days: seq<Day>, expected: nat) {
    exists n :: 1 <= n <= expected && DayDiffers(days, n)
  }

  predicate DayDiffers(days: seq<Day>, n: int) {
    match FirstFor(days, n, |days|)
    case None => true
    case Some(d) => d < |days| && days[d].number != Some(n)
  }

  function DayCountNormalizedIn(l: Ledger, expected: nat, currency: string): Ledger {
    if expected == 0 then l
    else Ledger(NormalDays(l.days, expected, currency),
                if SomeDayDiffers(l.days, expected) || |l.days| != expected
                then l.changes + [Change(DayCountNormalized, None, None)] else l.changes)
  }

  // ---------- the issue handlers ----------

  /** `_generation_day_at`. */
  function DayAt(days: seq<Day>, n: int, d: nat): Option<nat>
    decreases |days| - d
  {
    if d >= |days| then None
    else if DayNumber(days[d]) == Some(n) then Some(d)
    else DayAt(days, n, d + 1)
  }

  function Padded(items: seq<Item>, size: nat, currency: string): seq<Item>
    decreases size - |items|
  {
    if |items| >= size then items else Padded(items + [PlaceholderItem(currency)], size, currency)
  }

  function SchemaFilled(item: Item, currency: string): Item {
    item.(
      time := if Strip(item.time) == "" then "10:00" else item.time,
      kind := if Strip(item.kind) == "" then "activity" else item.kind,
      name := if Strip(item.name) == "" then "Flexible repaired item" else item.name,
      cost := match item.cost
              case Priced(amount, entry, labelled) => Priced(amount, Code(TidyCode(entry, currency)), labelled)
              case _ => item.cost
    )
  }

  /** The record taken before filling, read after it: a shallow copy that shares a structured cost with the
      item, so that it holds the currency just written. */
  function RecordedBefore(item: Item, filled: Item): Compact {
    if item.cost.Priced? then CompactOf(item).(cost := filled.cost) else CompactOf(item)
  }

  /** The day with number `n`, appended as a placeholder when it is missing. */
  function WithDay(days: seq<Day>, n: int, currency: string): (seq<Day>, nat) {
    match DayAt(days, n, 0)
    case Some(d) => (days, d)
    case None => (days + [PlaceholderDay(n, currency)], |days|)
  }

  function SchemaRepaired(l: Ledger, issue: Issue, currency: string): Ledger {
    match issue.day
    case None =>
      if l.days == [] then
        Ledger([PlaceholderDay(1, currency)], l.changes + [Change(DayAdded, Some(1), None)])
      else l
    case Some(n) =>
      var (days, d) := WithDay(l.days, n, currency);
      if d >= |days| then l
      else
        var added := if |days| > |l.days| then [Change(DayAdded, Some(n), None)] else [];
        var day := Titled(days[d], n);
        var titled := if day != days[d] then [Change(DayTitleAdded, Some(n), None)] else [];
        var (items, fixes) := ItemsFilled(day.items, issue, currency);
        Ledger(days[d := day.(items := items)], l.changes + added + titled + fixes)
  }

  function ItemsFilled(items: seq<Item>, issue: Issue, currency: string): (seq<Item>, seq<Change>) {
    match issue.item
    case Some(i) =>
      var padded := Padded(items, i + 1, currency);
      if i >= |padded| then (padded, [])
      else
        var item := SchemaFilled(padded[i], currency);
        (padded[i := item],
         if RecordedBefore(padded[i], item) != CompactOf(item) then [Change(ItemSchemaFilled, issue.day, Some(i))] else [])
    case None =>
      if items == [] then ([PlaceholderItem(currency)], [Change(ItemAdded, issue.day, Some(0))]) else (items, [])
  }

  /** `issue.id.rsplit(":", 1)[-1].strip()`. */
  function LegIdFromIssue(id: string): string {
    match FindLast(id, ':') case None => "" case Some(i) => Strip(id[i + 1..])
  }

  function NamedLegId(issue: Issue): string {
    if issue.legId != "" then issue.legId else LegIdFromIssue(issue.id)
  }

  function FindLeg(legs: seq<Leg>, id: string): Option<Leg> {
    if legs == [] then None else if legs[0].id == id then Some(legs[0]) else FindLeg(legs[1..], id)
  }

  function LegOf(request: Request, issue: Issue): Option<Leg> {
    FindLeg(request.legs, NamedLegId(issue))
  }

  /** `_generation_item_duration_minutes`. */
  function DurationOf(item: Item, fallback: int): int {
    match item.duration
    case Some(minutes) => if minutes > 0 then minutes else SpanOf(item, fallback)
    case None => SpanOf(item, fallback)
  }

  function SpanOf(item: Item, fallback: int): int {
    match (ToMinutes(item.time), ToMinutes(match item.endTime case Some(e) => e case None => ""))
    case (Some(a), Some(b)) => if b > a then b - a else fallback
    case _ => fallback
  }

  function AfterTransport(item: Item, arrival: string): Item {
    var start := AddMinutes(if arrival == "" then "12:00" else arrival, 30);
    item.(
      time := start,
      endTime := Some(AddMinutes(start, DurationOf(item, 90))),
      note := AppendNote(item.note, "AI repair moved this after the selected transport arrival.")
    )
  }

  function InOpeningHours(item: Item): Item {
    item.(
      time := "10:00",
      endTime := if item.endTime.Some? then Some("11:30") else None,
      note := AppendNote(item.note, "AI repair moved this to a safer daytime opening-hours window.")
    )
  }

  function Cheaper(item: Item, currency: string): Item {
    match Amount(item)
    case None => item
    case Some(cents) =>
      item.(
        cost := Priced(Some(Reduced(cents)), Code(WrittenCode(item, currency)), true),
        name := MarkedName(item.name, "lower-cost"),
        note := AppendNote(item.note, "AI repair lowered this estimated cost for reliability validation.")
      )
  }

  function WithItem(days: seq<Day>, at: Address, item: Item): seq<Day>
    requires at.d < |days| && at.i < |days[at.d].items|
  {
    WithItems(days, at.d, days[at.d].items[at.i := item])
  }

  /** The item an issue points at. */
  function ItemOf(days: seq<Day>, issue: Issue): Option<Address> {
    match (issue.day, issue.item)
    case (Some(n), Some(i)) => Locate(days, n, i, 0)
    case _ => None
  }

  function ArrivalOf(request: Request, issue: Issue): string {
    match LegOf(request, issue)
    case Some(leg) => (match leg.selected case Some(t) => t.arrival case None => "")
    case None => ""
  }

  function MovedAfterTransport(l: Ledger, issue: Issue, request: Request): Ledger {
    match ItemOf(l.days, issue)
    case Some(at) =>
      if InRange(l.days, at) then
        Ledger(WithItem(l.days, at, AfterTransport(l.days[at.d].items[at.i], ArrivalOf(request, issue))),
               l.changes + [Change(ItemMoved, issue.day, issue.item)])
      else l
    case None => l
  }

  function MovedToOpeningHours(l: Ledger, issue: Issue): Ledger {
    match ItemOf(l.days, issue)
    case Some(at) =>
      if InRange(l.days, at) then
        Ledger(WithItem(l.days, at, InOpeningHours(l.days[at.d].items[at.i])),
               l.changes + [Change(ItemMoved, issue.day, issue.item)])
      else l
    case None => l
  }

  /** The first address, from `k` on, whose amount is positive. */
  function FirstPositive(days: seq<Day>, refs: seq<Address>, k: nat): Option<Address>
    decreases |refs| - k
  {
    if k >= |refs| then None
    else if AmountAt(days, refs[k]) > 0.0 then Some(refs[k])
    else FirstPositive(days, refs, k + 1)
  }

  function CostRiskReduced(l: Ledger, currency: string): Ledger {
    match FirstPositive(l.days, ByCostDescending(l.days), 0)
    case Some(at) =>
      if InRange(l.days, at) then
        Ledger(WithItem(l.days, at, Cheaper(l.days[at.d].items[at.i], currency)),
               l.changes + [Change(ItemCostReduced, DayNumber(l.days[at.d]), Some(at.i))])
      else l
    case None => l
  }

  /** `_generation_day_number_for_leg`. */
  function DayNumberForLeg(days: seq<Day>, leg: Leg): Option<int> {
    match FirstAtStop(days, leg.toStop, 0)
    case Some(n) => Some(n)
    case None => if days == [] then None else DayNumber(days[0])
  }

  function FirstAtStop(days: seq<Day>, stop: string, d: nat): Option<int>
    decreases |days| - d
  {
    if d >= |days| then None
    else if stop != "" && days[d].stop == stop && DayNumber(days[d]).Some? then DayNumber(days[d])
    else FirstAtStop(days, stop, d + 1)
  }

  /** `issue.day_number or ...`: zero counts as missing. */
  function TransferDay(days: seq<Day>, issue: Issue, leg: Leg): Option<int> {
    match issue.day
    case Some(n) => if n != 0 then Some(n) else DayNumberForLeg(days, leg)
    case None => DayNumberForLeg(days, leg)
  }

  function TransferLegId(issue: Issue, leg: Leg): string {
    Strip(if leg.id != "" then leg.id else issue.legId)
  }

  function IsLeg(id: string): Item -> bool {
    (item: Item) => item.leg == Some(id)
  }

  function TransferItem(leg: Leg, id: string, currency: string): Item {
    var departure := match leg.selected case Some(t) => t.departure case None => "";
    var arrival := match leg.selected case Some(t) => t.arrival case None => "";
    Item(if departure == "" then "09:00" else departure,
         if arrival == "" then None else Some(arrival),
         "transport", leg.name, "Added by AI repair to match selected route transport.",
         Priced(Some(leg.cents), Code(currency), true), Some(id),
         match leg.duration case Some(m) => if m > 0 then Some(m) else None case None => None)
  }

  function TransferAdded(l: Ledger, issue: Issue, request: Request): Ledger {
    match LegOf(request, issue)
    case None => l
    case Some(leg) =>
      var id := TransferLegId(issue, leg);
      if id == "" then l
      else
        match TransferDay(l.days, issue, leg)
        case None => l
        case Some(n) =>
          var (days, d) := WithDay(l.days, n, request.currency);
          if d >= |days| || Count(days[d].items, IsLeg(id)) > 0 then Ledger(days, l.changes)
          else
            Ledger(WithItems(days, d, days[d].items + [TransferItem(leg, id, request.currency)]),
                   l.changes + [Change(TransferItemAdded, Some(n), Some(|days[d].items|))])
  }

  datatype Handler = ForSchema | ForTransport | ForTransfer | ForOpeningHours | ForBudget | NoHandler

  function HandlerOf(issue: Issue): Handler {
    var id := Lower(issue.id);
    if "schema_missing_required_field" <= id then ForSchema
    else if Contains(id, "activity_during_transport") || Contains(id, "activity_before_transport") then ForTransport
    else if Contains(id, "transfer_item_missing") || Contains(id, "missing_transfer_between_stops") then ForTransfer
    else if Contains(id, "place_likely_closed") then ForOpeningHours
    else if issue.category == "budget" || Contains(id, "budget") then ForBudget
    else NoHandler
  }

  function Handled(l: Ledger, issue: Issue, request: Request): Ledger {
    match HandlerOf(issue)
    case ForSchema => SchemaRepaired(l, issue, request.currency)
    case ForTransport => MovedAfterTransport(l, issue, request)
    case ForTransfer => TransferAdded(l, issue, request)
    case ForOpeningHours => MovedToOpeningHours(l, issue)
    case ForBudget => CostRiskReduced(l, request.currency)
    case NoHandler => l
  }

  function HandledAll(l: Ledger, issues: seq<Issue>, request: Request): Ledger {
    if issues == [] then l
    else Handled(HandledAll(l, issues[..|issues| - 1], request), issues[|issues| - 1], request)
  }

  // ---------- the closing sort ----------

  function SortMinutes(item: Item): int {
    match ToMinutes(item.time) case Some(m) => m case None => MINUTES_PER_DAY
  }

  /** The sort key is the pair of minutes and name. */
  predicate NoLater(a: Item, b: Item) {
    SortMinutes(a) < SortMinutes(b) || (SortMinutes(a) == SortMinutes(b) && !Less(b.name, a.name))
  }

  function SortedDay(day: Day): Day {
    day.(items := Sort(day.items, NoLater))
  }

  function SortedDays(days: seq<Day>): seq<Day> {
    if days == [] then [] else SortedDays(days[..|days| - 1]) + [SortedDay(days[|days| - 1])]
  }

  // ---------- the whole repair ----------

  function Normalized(request: Request): Ledger {
    var l := Ledger(request.days, []);
    if NeedsDayCountRepair(request.issues) then DayCountNormalizedIn(l, request.expectedDays, request.currency) else l
  }

  /** The currency text of the repaired output. */
  function OutputCurrency(request: Request): string {
    if Strip(request.entry) == "" then request.currency else request.entry
  }

  function Repaired(request: Request): Ledger {
    var l := HandledAll(Normalized(request), request.issues, request);
    l.(days := SortedDays(l.days))
  }

  // ---------- the running repair ----------

  class OutputRepair {
    var days: seq<Day>
    var currency: string
    var changes: seq<Change>
    const request: Request

    ghost function State(): Ledger
      reads this
    {
      Ledger(days, changes)
    }

    constructor (request: Request)
      ensures this.request == request && State() == Ledger(request.days, []) && currency == request.entry
    {
      this.request := request;
      days, currency, changes := request.days, request.entry, [];
    }

    /** `_ensure_generation_output_shape`: writes a missing currency, and says nothing of it. */
    method EnsureShape()
      requires currency == request.entry
      modifies `currency
      ensures currency == OutputCurrency(request)
    {
      if Strip(currency) == "" {
        currency := request.currency;
      }
    }

    method NormalizeDayCount()
      modifies `days, `changes
      ensures State() == DayCountNormalizedIn(old(State()), request.expectedDays, request.currency)
    {
      hide NormalDays, PlaceholderDay, SomeDayDiffers, DayLabel, Strip;
      var expected := request.expectedDays;
      if expected == 0 {
        return;
      }
      var current := days;
      var existing := ExistingByNumber(current);
      var normalized: seq<Day> := [];
      var differs := false;
      NothingNormal(current, request.currency);
      for n := 1 to expected + 1
        invariant State() == old(State())
        invariant normalized == NormalDays(current, n - 1, request.currency)
        invariant differs <==> SomeDayDiffers(current, n - 1)
      {
        var day := PlaceholderDay(n, request.currency);
        if n in existing {
          day := existing[n];
        }
        DiffersNext(current, n);
        if n !in existing || day.number != Some(n) {
          differs := true;
        }
        day := Titled(day.(number := Some(n)), n);
        TitledPlaceholder(n, request.currency);
        assert day == NormalDay(current, n, request.currency);
        NormalDaysNext(current, n, request.currency);
        normalized := normalized + [day];
      }
      days := normalized;
      if differs || |current| != expected {
        changes := changes + [Change(DayCountNormalized, None, None)];
      }
    }

    method RepairSchemaIssue(issue: Issue)
      modifies `days, `changes
      ensures State() == SchemaRepaired(old(State()), issue, request.currency)
    {
      hide PlaceholderDay, ItemsFilled, DayLabel, DayAt, Strip;
      var currency := request.currency;
      if issue.day.None? {
        if days == [] {
          days := [PlaceholderDay(1, currency)];
          changes := changes + [Change(DayAdded, Some(1), None)];
        }
        return;
      }
      var n := issue.day.value;
      var found := DayAt(days, n, 0);
      DayAtInRange(days, n, 0);
      var d := |days|;
      if found.None? {
        days := days + [PlaceholderDay(n, currency)];
        changes := changes + [Change(DayAdded, Some(n), None)];
      } else {
        d := found.value;
      }
      if Strip(days[d].title) == "" {
        TitleDiffers(days[d], n);
        days := days[d := days[d].(title := DayLabel(n) + ": repaired plan")];
        changes := changes + [Change(DayTitleAdded, Some(n), None)];
      }
      var items, fixes := FillItems(days[d].items, issue, currency);
      changes := changes + fixes;
      days := days[d := days[d].(items := items)];
    }

    method MoveItemAfterTransport(issue: Issue)
      modifies `days, `changes
      ensures State() == MovedAfterTransport(old(State()), issue, request)
    {
      if issue.day.None? || issue.item.None? {
        return;
      }
      var at := Locate(days, issue.day.value, issue.item.value, 0);
      LocateInRange(days, issue.day.value, issue.item.value, 0);
      if at.None? {
        return;
      }
      var item := days[at.value.d].items[at.value.i];
      days := WithItem(days, at.value, AfterTransport(item, ArrivalOf(request, issue)));
      changes := changes + [Change(ItemMoved, issue.day, issue.item)];
    }

    method MoveItemToOpeningHours(issue: Issue)
      modifies `days, `changes
      ensures State() == MovedToOpeningHours(old(State()), issue)
    {
      if issue.day.None? || issue.item.None? {
        return;
      }
      var at := Locate(days, issue.day.value, issue.item.value, 0);
      LocateInRange(days, issue.day.value, issue.item.value, 0);
      if at.None? {
        return;
      }
      days := WithItem(days, at.value, InOpeningHours(days[at.value.d].items[at.value.i]));
      changes := changes + [Change(ItemMoved, issue.day, issue.item)];
    }

    method AddTransferItem(issue: Issue)
      modifies `days, `changes
      ensures State() == TransferAdded(old(State()), issue, request)
    {
      var leg := LegOf(request, issue);
      if leg.None? {
        return;
      }
      var id := TransferLegId(issue, leg.value);
      if id == "" {
        return;
      }
      var target := TransferDay(days, issue, leg.value);
      if target.None? {
        return;
      }
      var found := DayAt(days, target.value, 0);
      DayAtInRange(days, target.value, 0);
      var d := |days|;
      if found.None? {
        days := days + [PlaceholderDay(target.value, request.currency)];
      } else {
        d := found.value;
      }
      if Count(days[d].items, IsLeg(id)) > 0 {
        return;
      }
      changes := changes + [Change(TransferItemAdded, target, Some(|days[d].items|))];
      days := WithItems(days, d, days[d].items + [TransferItem(leg.value, id, request.currency)]);
    }

    method ReduceCostRisk()
      modifies `days, `changes
      ensures State() == CostRiskReduced(old(State()), request.currency)
    {
      var refs := ByCostDescending(days);
      ByCostMembers(days);
      hide ByCostDescending, Cheaper;
      for k := 0 to |refs|
        invariant State() == old(State())
        invariant FirstPositive(days, refs, k) == FirstPositive(days, refs, 0)
      {
        var at := refs[k];
        assert at in refs;
        var item := days[at.d].items[at.i];
        FirstPositiveNext(days, refs, k);
        if Amount(item).None? || Amount(item).value <= 0.0 {
          continue;
        }
        changes := changes + [Change(ItemCostReduced, DayNumber(days[at.d]), Some(at.i))];
        days := WithItem(days, at, Cheaper(item, request.currency));
        return;
      }
    }

    method Handle(issue: Issue)
      modifies `days, `changes
      ensures State() == Handled(old(State()), issue, request)
    {
      hide SchemaRepaired, MovedAfterTransport, TransferAdded, MovedToOpeningHours, CostRiskReduced, Lower, Contains;
      var id := Lower(issue.id);
      if "schema_missing_required_field" <= id {
        RepairSchemaIssue(issue);
      } else if Contains(id, "activity_during_transport") || Contains(id, "activity_before_transport") {
        MoveItemAfterTransport(issue);
      } else if Contains(id, "transfer_item_missing") || Contains(id, "missing_transfer_between_stops") {
        AddTransferItem(issue);
      } else if Contains(id, "place_likely_closed") {
        MoveItemToOpeningHours(issue);
      } else if issue.category == "budget" || Contains(id, "budget") {
        ReduceCostRisk();
      }
    }

    method HandleIssues()
      modifies `days, `changes
      ensures State() == HandledAll(old(State()), request.issues, request)
    {
      hide Handled;
      ghost var start := State();
      var issues := request.issues;
      for k := 0 to |issues|
        invariant State() == HandledAll(start, issues[..k], request)
      {
        assert issues[..k + 1][..k] == issues[..k];
        Handle(issues[k]);
      }
      assert issues[..|issues|] == issues;
    }

    method SortDays()
      modifies `days, `changes
      ensures State() == old(State()).(days := SortedDays(old(days)))
    {
      ghost var start := State();
      for d := 0 to |days|
        invariant |days| == |start.days| && changes == start.changes
        invariant days == SortedDays(start.days[..d]) + start.days[d..]
      {
        SortNext(start.days, d);
        days := days[d := days[d].(items := Sort(days[d].items, NoLater))];
      }
      assert start.days[..|start.days|] == start.days;
    }

    method Run() returns (nothingDone: bool)
      requires State() == Ledger(request.days, []) && currency == request.entry
      modifies this
      ensures State() == Repaired(request) && currency == OutputCurrency(request)
      ensures nothingDone <==> changes == []
    {
      hide DayCountNormalizedIn, HandledAll, SortedDays, NeedsDayCountRepair;
      EnsureShape();
      var needsDayCount := AnyDayCountIssue(request.issues);
      if needsDayCount {
        NormalizeDayCount();
      }
      HandleIssues();
      nothingDone := changes == [];
      SortDays();
    }
  }

  method AnyDayCountIssue(issues: seq<Issue>) returns (found: bool)
    ensures found <==> NeedsDayCountRepair(issues)
  {
    found := false;
    for k := 0 to |issues|
      invariant !found
      invariant !NeedsDayCountRepair(issues[..k])
    {
      NeedsNext(issues, k);
      if IsDayCountIssue(issues[k]) {
        return true;
      }
    }
    assert issues[..|issues|] == issues;
  }

  method ExistingByNumber(days: seq<Day>) returns (existing: map<int, Day>)
    ensures forall n :: n in existing <==> FirstFor(days, n, |days|).Some?
    ensures forall n :: n in existing ==>
              var d := FirstFor(days, n, |days|).value;
              d < |days| && existing[n] == days[d]
  {
    existing := map[];
    for k := 0 to |days|
      invariant forall n :: n in existing <==> FirstFor(days, n, k).Some?
      invariant forall n :: n in existing ==>
                  var d := FirstFor(days, n, k).value;
                  d < k && existing[n] == days[d]
    {
      var number := NumberAt(days, k);
      if number !in existing {
        existing := existing[number := days[k]];
      }
    }
  }

  method FillItems(given: seq<Item>, issue: Issue, currency: string) returns (items: seq<Item>, fixes: seq<Change>)
    ensures (items, fixes) == ItemsFilled(given, issue, currency)
  {
    hide PlaceholderItem, SchemaFilled;
    items, fixes := given, [];
    if issue.item.Some? {
      var i := issue.item.value;
      while |items| <= i
        invariant Padded(items, i + 1, currency) == Padded(given, i + 1, currency)
        decreases i - |items|
      {
        items := items + [PlaceholderItem(currency)];
      }
      var before := CompactOf(items[i]);
      var filled := SchemaFilled(items[i], currency);
      if items[i].cost.Priced? {
        before := before.(cost := filled.cost);
      }
      items := items[i := filled];
      if before != CompactOf(items[i]) {
        fixes := [Change(ItemSchemaFilled, issue.day, Some(i))];
      }
    } else if items == [] {
      items := [PlaceholderItem(currency)];
      fixes := [Change(ItemAdded, issue.day, Some(0))];
    }
  }

  // ---------- facts the loops need ----------

  lemma FirstPositiveNext(days: seq<Day>, refs: seq<Address>, k: nat)
    requires k < |refs| && InRange(days, refs[k])
    ensures FirstPositive(days, refs, k) ==
              (var amount := Amount(days[refs[k].d].items[refs[k].i]);
               if amount.Some? && amount.value > 0.0 then Some(refs[k]) else FirstPositive(days, refs, k + 1))
  {
  }

  lemma DiffersNext(days: seq<Day>, n: nat)
    requires n >= 1
    ensures SomeDayDiffers(days, n) <==> SomeDayDiffers(days, n - 1) || DayDiffers(days, n)
  {
  }

  lemma NothingNormal(days: seq<Day>, currency: string)
    ensures NormalDays(days, 0, currency) == [] && !SomeDayDiffers(days, 0)
  {
  }

  lemma NormalDaysNext(days: seq<Day>, n: nat, currency: string)
    requires n >= 1
    ensures NormalDays(days, n, currency) == NormalDays(days, n - 1, currency) + [NormalDay(days, n, currency)]
  {
  }

  lemma TitledPlaceholder(n: int, currency: string)
    ensures Titled(PlaceholderDay(n, currency).(number := Some(n)), n) == PlaceholderDay(n, currency)
  {
    var title := PlaceholderDay(n, currency).title;
    assert title[0] == 'D';
    StripIsEmptyOnlyOnBlank(title);
  }

  lemma TitleDiffers(day: Day, n: int)
    requires Strip(day.title) == ""
    ensures Titled(day, n) != day
  {
    var title := DayLabel(n) + ": repaired plan";
    assert title[0] == 'D';
    StripIsEmptyOnlyOnBlank(title);
  }

  lemma {:induction false} DayAtInRange(days: seq<Day>, n: int, d: nat)
    ensures match DayAt(days, n, d)
            case None => forall e :: d <= e < |days| ==> DayNumber(days[e]) != Some(n)
            case Some(e) => d <= e < |days| && DayNumber(days[e]) == Some(n)
                            && forall c :: d <= c < e ==> DayNumber(days[c]) != Some(n)
    decreases |days| - d
  {
    if d < |days| {
      DayAtInRange(days, n, d + 1);
    }
  }

  lemma {:induction false} LocateInRange(days: seq<Day>, n: int, i: int, d: nat)
    ensures match Locate(days, n, i, d)
            case None => forall e :: d <= e < |days| && DayNumber(days[e]) == Some(n) ==> !(0 <= i < |days[e].items|)
            case Some(at) => d <= at.d && InRange(days, at) && at.i == i && DayNumber(days[at.d]) == Some(n)
    decreases |days| - d
  {
    if d < |days| {
      LocateInRange(days, n, i, d + 1);
    }
  }

  lemma NeedsNext(issues: seq<Issue>, k: nat)
    requires k < |issues|
    ensures NeedsDayCountRepair(issues[..k + 1]) <==> NeedsDayCountRepair(issues[..k]) || IsDayCountIssue(issues[k])
  {
    if NeedsDayCountRepair(issues[..k]) {
      var j :| 0 <= j < k && IsDayCountIssue(issues[..k][j]);
      assert issues[..k + 1][j] == issues[..k][j];
    }
    assert issues[..k + 1][k] == issues[k];
    if NeedsDayCountRepair(issues[..k + 1]) && !IsDayCountIssue(issues[k]) {
      var j :| 0 <= j <= k && IsDayCountIssue(issues[..k + 1][j]);
      assert issues[..k][j] == issues[..k + 1][j];
    }
  }

  lemma {:induction false} SortedDaysLength(days: seq<Day>)
    ensures |SortedDays(days)| == |days|
    ensures forall d :: 0 <= d < |days| ==> SortedDays(days)[d] == SortedDay(days[d])
  {
    if days != [] {
      SortedDaysLength(days[..|days| - 1]);
    }
  }

  lemma SortNext(days: seq<Day>, d: nat)
    requires d < |days|
    ensures |SortedDays(days[..d])| == d
    ensures SortedDays(days[..d + 1]) == SortedDays(days[..d]) + [SortedDay(days[d])]
    ensures (SortedDays(days[..d]) + days[d..])[d := SortedDay(days[d])] == SortedDays(days[..d + 1]) + days[d + 1..]
  {
    SortedDaysLength(days[..d]);
    assert days[..d + 1][..d] == days[..d];
    assert days[d..] == [days[d]] + days[d + 1..];
  }
}
