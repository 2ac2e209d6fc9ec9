/** The adapted plan field by field, which fault the plan validator reports, and which warnings it gives. */
module TemplateReports {
  import opened Wrappers
  import opened Sequences
  import opened Text
  import opened Clock
  import opened Itinerary
  import opened TemplateAdaptation
  import opened TemplateAdaptationLaws
  import ValidatorReports

  // ---------- items ----------

  ghost predicate IsNamed(item: TemplateItem) {
    Strip(item.name) != ""
  }

  /** A known kind is kept, stripped and in lower case; any other becomes an activity. */
  ghost predicate IsKindOf(given: string, kind: string) {
    var k := Lower(Strip(given));
    if k == "place" || k == "food" || k == "activity" || k == "transport" || k == "rest" then kind == k else kind == "activity"
  }

  ghost predicate IsVersionOf(before: TemplateItem, after: TemplateItem, destination: string) {
    && after.name == Strip(destination + " version of " + before.name) && IsKindOf(before.kind, after.kind)
    && CarriesItem(after, before)
    && (before.notes != "" ==> after.notes == before.notes)
    && (before.notes == "" ==> after.notes == "Adapted from the template for " + destination + "; verify details.")
  }

  ghost predicate IsFiller(item: TemplateItem, destination: string) {
    && item.name == Strip("Flexible exploration in " + destination) && item.kind == "activity"
    && item.time == "" && item.start == "10:00" && item.end == "" && item.cost == None
    && item.notes == "Added to extend the template to the requested duration; customize freely."
  }

  /** The named items in their order, or a filler when there are none. */
  ghost predicate AreVersionsOf(before: seq<TemplateItem>, after: seq<TemplateItem>, destination: string) {
    var named := Filter(before, IsNamed);
    if named == [] then |after| == 1 && IsFiller(after[0], destination)
    else |after| == |named| && forall i :: 0 <= i < |named| ==> IsVersionOf(named[i], after[i], destination)
  }

  lemma KindIs(kind: string)
    ensures IsKindOf(kind, KnownKind(kind))
  {
    hide Lower, Strip;
    KindsAre(Lower(Strip(kind)));
  }

  lemma KindsAre(k: string)
    ensures k in KINDS <==> k == "place" || k == "food" || k == "activity" || k == "transport" || k == "rest"
  {
    assert KINDS[0] == "place" && KINDS[1] == "food" && KINDS[2] == "activity" && KINDS[3] == "transport" && KINDS[4] == "rest";
  }

  lemma VersionIs(item: TemplateItem, destination: string)
    ensures IsVersionOf(item, AdaptItem(item, destination), destination)
  {
    KindIs(item.kind);
    hide Strip, IsKindOf, KnownKind;
  }

  lemma FillerIs(destination: string)
    ensures IsFiller(PlaceholderItem(destination), destination)
  {
    hide Strip;
  }

  lemma {:induction false} SameNamed(items: seq<TemplateItem>)
    ensures Filter(items, Named) == Filter(items, IsNamed)
  {
    if items != [] {
      hide Strip;
      SameNamed(items[1..]);
    }
  }

  lemma VersionsAre(items: seq<TemplateItem>, destination: string)
    ensures AreVersionsOf(items, AdaptItems(items, destination), destination)
  {
    hide IsVersionOf, IsFiller, AdaptItem, PlaceholderItem, Filter;
    SameNamed(items);
    FillerIs(destination);
    var named := Filter(items, Named);
    forall i | 0 <= i < |named|
      ensures IsVersionOf(named[i], AdaptItem(named[i], destination), destination)
    {
      VersionIs(named[i], destination);
    }
  }

  // ---------- days ----------

  /** The stripped title, or the day's number and place when there is none, with the destination added unless it is
      named in it. */
  ghost predicate IsTitleOf(given: string, number: nat, destination: string, title: string) {
    exists base ::
      && (if Strip(given) != "" then base == Strip(given)
          else exists text :: IsNumeral(text, number) && base == "Day " + text + " in " + destination)
      && title == Strip(if Contains(Lower(base), Lower(destination)) then base else base + " (" + destination + ")")
  }

  /** Before wording: a source day adapted, or beyond the source a day of free exploration. */
  ghost predicate IsPlainDay(request: Request, d: nat, day: AdaptedDay) {
    var source, destination := InOrder(request.days), request.destination;
    && day.date == request.start + d
    && if d < |source| then
         IsTitleOf(source[d].title, d + 1, destination, day.title) && AreVersionsOf(source[d].items, day.items, destination)
       else
         && day.title == Strip("Flexible exploration day in " + destination)
         && |day.items| == 1 && IsFiller(day.items[0], destination)
  }

  ghost predicate IsWorded(language: Language, destination: string, number: nat, before: AdaptedDay, after: AdaptedDay) {
    match language
    case English => after == before
    case Translated(title, place, name, note) =>
      && after.date == before.date && |after.items| == |before.items|
      && (exists text :: IsNumeral(text, number) && after.title == title + text + place + destination)
      && forall i :: 0 <= i < |after.items| ==> after.items[i] == before.items[i].(name := name + destination, notes := note)
  }

  ghost predicate IsAdaptedDay(request: Request, d: nat, day: AdaptedDay) {
    exists plain :: IsPlainDay(request, d, plain) && IsWorded(request.language, request.destination, d + 1, plain, day)
  }

  lemma TitleIs(title: string, number: nat, destination: string)
    ensures IsTitleOf(title, number, destination, AdaptTitle(title, number, destination))
  {
    DecimalIsNumeral(number);
    hide Strip, Lower, Contains, Decimal, IsNumeral;
    var base := if Strip(title) != "" then Strip(title) else "Day " + Decimal(number) + " in " + destination;
    assert AdaptTitle(title, number, destination)
        == Strip(if Contains(Lower(base), Lower(destination)) then base else base + " (" + destination + ")");
  }

  lemma PlainDayIs(request: Request, d: nat)
    requires d < request.duration
    ensures IsPlainDay(request, d, DayAt(request, d))
  {
    hide Strip, AdaptTitle, IsTitleOf, AdaptItems, AreVersionsOf, PlaceholderItem, IsFiller, InOrder;
    var source := InOrder(request.days);
    FillerIs(request.destination);
    if d < |source| {
      TitleIs(source[d].title, d + 1, request.destination);
      VersionsAre(source[d].items, request.destination);
    }
  }

  lemma WordedIs(day: AdaptedDay, number: nat, language: Language, destination: string)
    ensures IsWorded(language, destination, number, day, LocalizedDay(day, number, language, destination))
  {
    DecimalIsNumeral(number);
    hide Decimal, IsNumeral;
  }

  /** Every day of the plan: its date, and its title and items made from the source day and worded for the language. */
  lemma AdaptationDays(request: Request)
    ensures |Adaptation(request)| == request.duration
    ensures forall d :: 0 <= d < |Adaptation(request)| ==> IsAdaptedDay(request, d, Adaptation(request)[d])
  {
    hide DayAt, LocalizedDay, IsPlainDay, IsWorded;
    forall d | 0 <= d < request.duration
      ensures IsAdaptedDay(request, d, Adaptation(request)[d])
    {
      PlainDayIs(request, d);
      WordedIs(DayAt(request, d), d + 1, request.language, request.destination);
    }
  }

  // ---------- faults ----------

  ghost predicate IsTimeOrNone(time: string) {
    time == "" || ValidatorReports.IsTime(time)
  }

  /** The check behind each code, in the order of the codes: at a day without items, and at an item. */
  ghost predicate HeadFails(day: AdaptedDay, code: Code) {
    (code == EmptyTitle && Strip(day.title) == "") || (code == EmptyDay && Strip(day.title) != "" && day.items == [])
  }

  ghost predicate ItemFails(item: TemplateItem, code: Code) {
    match code
    case InvalidItemType => item.kind !in ["place", "food", "activity", "transport", "rest"]
    case EmptyItemName => Strip(item.name) == ""
    case InvalidTimeFormat => !(IsTimeOrNone(item.time) && IsTimeOrNone(item.start) && IsTimeOrNone(item.end))
    case NegativeCost => item.cost.Some? && item.cost.value < 0.0
    case _ => false
  }

  ghost function Rank(code: Code): int {
    match code
    case DaysCountMismatch => 0
    case EmptyTitle => 1
    case EmptyDay => 2
    case InvalidItemType => 3
    case EmptyItemName => 4
    case InvalidTimeFormat => 5
    case NegativeCost => 6
  }

  ghost predicate ItemReports(item: TemplateItem, code: Code) {
    ItemFails(item, code) && forall other :: Rank(other) < Rank(code) ==> !ItemFails(item, other)
  }

  ghost predicate ItemPasses(item: TemplateItem) {
    forall code :: !ItemFails(item, code)
  }

  ghost predicate DayReports(day: AdaptedDay, code: Code) {
    || HeadFails(day, code)
    || ((forall other :: !HeadFails(day, other))
        && exists i: nat :: i < |day.items| && ItemReports(day.items[i], code) && forall j: nat :: j < i ==> ItemPasses(day.items[j]))
  }

  ghost predicate DayPasses(day: AdaptedDay) {
    (forall code :: !HeadFails(day, code)) && forall i: nat :: i < |day.items| ==> ItemPasses(day.items[i])
  }

  lemma TimeIs(time: string)
    ensures TimeFits(time) <==> IsTimeOrNone(time)
  {
    ValidatorReports.PatternIsTime(time);
    hide MatchesTimePattern, ValidatorReports.IsTime;
  }

  lemma ItemFaultIsFirst(item: TemplateItem)
    ensures match ItemFault(item)
            case None => ItemPasses(item)
            case Some(code) => ItemReports(item, code)
  {
    hide Strip, TimeFits, IsTimeOrNone;
    TimeIs(item.time);
    TimeIs(item.start);
    TimeIs(item.end);
    KindsAre(item.kind);
    hide KINDS;
  }

  lemma {:induction false} ItemsFaultIsFirst(items: seq<TemplateItem>, k: nat) returns (i: nat)
    requires k <= |items| && forall j: nat :: j < k ==> ItemPasses(items[j])
    ensures match ItemsFault(items, k)
            case None => forall j: nat :: j < |items| ==> ItemPasses(items[j])
            case Some(code) => i < |items| && ItemReports(items[i], code) && forall j: nat :: j < i ==> ItemPasses(items[j])
    decreases |items| - k
  {
    hide ItemFault, ItemPasses, ItemReports;
    i := k;
    if k < |items| {
      ItemFaultIsFirst(items[k]);
      if ItemFault(items[k]) == None {
        i := ItemsFaultIsFirst(items, k + 1);
      }
    }
  }

  lemma DayFaultIsFirst(day: AdaptedDay)
    ensures match DayFault(day)
            case None => DayPasses(day)
            case Some(code) => DayReports(day, code)
  {
    hide ItemsFault, ItemPasses, ItemReports, Strip;
    var i := ItemsFaultIsFirst(day.items, 0);
  }

  lemma {:induction false} DaysFaultIsFirst(days: seq<AdaptedDay>, k: nat) returns (d: nat)
    requires k <= |days| && forall e: nat :: e < k ==> DayPasses(days[e])
    ensures match DaysFault(days, k)
            case None => forall e: nat :: e < |days| ==> DayPasses(days[e])
            case Some(code) => d < |days| && DayReports(days[d], code) && forall e: nat :: e < d ==> DayPasses(days[e])
    decreases |days| - k
  {
    hide DayFault, DayPasses, DayReports;
    d := k;
    if k < |days| {
      DayFaultIsFirst(days[k]);
      if DayFault(days[k]) == None {
        d := DaysFaultIsFirst(days, k + 1);
      }
    }
  }

  // ---------- warnings ----------

  ghost predicate HasBudget(request: Request) {
    request.budget.Some? && request.budget.value > 0.0
  }

  /** Over the budget, else over 60% of it; a target below 60% of the source's length; no context; and always that prices
      and availability must be checked. */
  ghost predicate AreWarnings(request: Request, total: real, warnings: seq<string>) {
    && (TOO_LOW in warnings <==> HasBudget(request) && total > request.budget.value)
    && (TIGHT in warnings <==>
          HasBudget(request) && total <= request.budget.value && 10.0 * total > 6.0 * request.budget.value)
    && (COMPRESSED in warnings <==> request.sourceDuration > 0 && 10 * request.duration < 6 * request.sourceDuration)
    && (GENERIC in warnings <==> !request.hasContext)
    && APPROXIMATE in warnings && AVAILABILITY in warnings
    && (forall w :: w in warnings ==> w in [TOO_LOW, TIGHT, COMPRESSED, GENERIC, APPROXIMATE, AVAILABILITY])
    && Distinct(warnings)
  }

  lemma TextsDiffer()
    ensures Distinct([TOO_LOW, TIGHT, COMPRESSED, GENERIC, APPROXIMATE, AVAILABILITY])
  {
  }

  lemma WarningsAreExact(request: Request, total: real)
    ensures AreWarnings(request, total, Warnings(request, total))
  {
    TextsDiffer();
    var all := [TOO_LOW, TIGHT, COMPRESSED, GENERIC, APPROXIMATE, AVAILABILITY];
    assert all[0] != all[1] && all[0] != all[2] && all[0] != all[3] && all[0] != all[4] && all[0] != all[5];
    assert all[1] != all[2] && all[1] != all[3] && all[1] != all[4] && all[1] != all[5];
    assert all[2] != all[3] && all[2] != all[4] && all[2] != all[5] && all[3] != all[4] && all[3] != all[5] && all[4] != all[5];
    hide TOO_LOW, TIGHT, COMPRESSED, GENERIC, APPROXIMATE, AVAILABILITY;
  }

  /** The validator raises the first fault in reading order; without one it returns the warnings. */
  lemma FirstFaultIsReported(request: Request, days: seq<AdaptedDay>)
    ensures match Verdict(request, days)
            case Success(warnings) =>
              && |days| == request.duration && (forall d: nat :: d < |days| ==> DayPasses(days[d]))
              && AreWarnings(request, PlanCost(days), warnings)
            case Failure(code) =>
              if |days| != request.duration then code == DaysCountMismatch
              else exists d: nat :: d < |days| && DayReports(days[d], code) && forall e: nat :: e < d ==> DayPasses(days[e])
  {
    hide DaysFault, DayPasses, DayReports, Warnings, AreWarnings, PlanCost;
    var d := DaysFaultIsFirst(days, 0);
    WarningsAreExact(request, PlanCost(days));
  }

  // ---------- merging ----------

  ghost predicate SameWarning(a: string, b: string) {
    Lower(a) == Lower(b)
  }

  lemma {:induction false} AddedIsNew(warnings: seq<string>, more: seq<string>)
    ensures warnings <= Merged(warnings, more)
    ensures forall j :: |warnings| <= j < |Merged(warnings, more)| ==> Merged(warnings, more)[j] in more
  {
    hide Mentions;
    if more != [] {
      AddedIsNew(warnings, more[..|more| - 1]);
      assert forall w :: w in more[..|more| - 1] ==> w in more;
    }
  }

  /** Merging keeps the old warnings and appends new ones of the list: each that differs, case apart, from all before
      it, and no other. */
  lemma MergeIsExact(warnings: seq<string>, more: seq<string>)
    ensures var merged := Merged(warnings, more);
            && warnings <= merged
            && (forall j :: |warnings| <= j < |merged| ==> merged[j] in more)
            && (forall i, j :: 0 <= i < j < |merged| && |warnings| <= j ==> !SameWarning(merged[i], merged[j]))
            && (forall w :: w in more ==> exists i :: 0 <= i < |merged| && SameWarning(merged[i], w))
  {
    hide Merged, Lower;
    AddedIsNew(warnings, more);
    MergeAddsEachOnce(warnings, more);
    var merged := Merged(warnings, more);
    forall i, j | 0 <= i < j < |merged| && |warnings| <= j
      ensures !SameWarning(merged[i], merged[j])
    {
      assert !Mentions(merged[..j], merged[j]);
      assert merged[..j][i] == merged[i];
    }
    forall w | w in more
      ensures exists i :: 0 <= i < |merged| && SameWarning(merged[i], w)
    {
      var k :| 0 <= k < |more| && more[k] == w;
      assert Mentions(merged, more[k]);
      var i :| 0 <= i < |merged| && Lower(merged[i]) == Lower(w);
      assert SameWarning(merged[i], w);
    }
  }
}
