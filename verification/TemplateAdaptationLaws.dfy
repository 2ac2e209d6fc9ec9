/** What the template adapter promises, and when the validator accepts what it builds. */
module TemplateAdaptationLaws {
  import opened Wrappers
  import opened Sequences
  import opened Text
  import opened Clock
  import opened Itinerary
  import opened TemplateAdaptation

  // ---------- layout ----------

  lemma NoEarlierIsPreorder()
    ensures TotalPreorder(NoEarlier)
  {
  }

  function AtOffset(offset: nat): TemplateDay -> bool {
    (day: TemplateDay) => day.offset == offset
  }

  /** The source days are put in offset order, none lost, days of one offset in the order given. */
  lemma SourceOrder(days: seq<TemplateDay>)
    ensures multiset(InOrder(days)) == multiset(days)
    ensures forall i, j :: 0 <= i < j < |InOrder(days)| ==> InOrder(days)[i].offset <= InOrder(days)[j].offset
    ensures forall offset :: Filter(InOrder(days), AtOffset(offset)) == Filter(days, AtOffset(offset))
  {
    NoEarlierIsPreorder();
    SortSorts(days, NoEarlier);
    assert forall i, j :: 0 <= i < j < |InOrder(days)| ==> NoEarlier(InOrder(days)[i], InOrder(days)[j]);
    forall offset
      ensures Filter(InOrder(days), AtOffset(offset)) == Filter(days, AtOffset(offset))
    {
      SortIsStable(days, NoEarlier, AtOffset(offset));
    }
  }

  /** The plan has exactly the target number of days on consecutive dates, the retained days first; a named item
      keeps its place within its day, its times and its cost, its start falling back on its time. */
  lemma AdaptationLayout(request: Request)
    ensures |Adaptation(request)| == request.duration
    ensures forall d :: 0 <= d < request.duration ==> Adaptation(request)[d].date == request.start + d
    ensures forall d :: 0 <= d < |Retained(request)| ==>
              Carries(Adaptation(request)[d].items, Filter(Retained(request)[d].items, Named))
    ensures forall d :: |Retained(request)| <= d < request.duration ==> Carries(Adaptation(request)[d].items, [])
  {
    forall d | 0 <= d < request.duration
      ensures Adaptation(request)[d].date == request.start + d
      ensures Carries(Adaptation(request)[d].items,
                      if d < |Retained(request)| then Filter(Retained(request)[d].items, Named) else [])
    {
      DayCarries(request, d);
    }
  }

  /** `after` holds the adapted forms of `named`, or a single placeholder when there are none. */
  ghost predicate Carries(after: seq<TemplateItem>, named: seq<TemplateItem>) {
    if named == [] then |after| == 1 && after[0].cost == None && after[0].start == "10:00" && after[0].time == "" && after[0].end == ""
    else |after| == |named| && forall i :: 0 <= i < |named| ==> CarriesItem(after[i], named[i])
  }

  ghost predicate CarriesItem(after: TemplateItem, before: TemplateItem) {
    && after.time == before.time && after.end == before.end && after.cost == before.cost
    && after.start == (if before.start != "" then before.start else before.time)
  }

  lemma DayCarries(request: Request, d: nat)
    requires d < request.duration
    ensures d < |Adaptation(request)| && Adaptation(request)[d].date == request.start + d
    ensures Carries(Adaptation(request)[d].items,
                    if d < |Retained(request)| then Filter(Retained(request)[d].items, Named) else [])
  {
    var named := if d < |Retained(request)| then Filter(Retained(request)[d].items, Named) else [];
    var day := DayAt(request, d);
    hide Retained, Strip, AdaptTitle, Filter, AdaptItems, PlaceholderItem, Carries, LocalizedItem;
    assert Adaptation(request)[d] == LocalizedDay(day, d + 1, request.language, request.destination);
    assert Carries(day.items, named) by {
      if d < |Retained(request)| {
        AdaptedItemsCarry(Retained(request)[d].items, request.destination);
      } else {
        PlaceholderCarries(request.destination);
      }
    }
    LocalizedCarries(day, d + 1, request.language, request.destination, named);
  }

  lemma PlaceholderCarries(destination: string)
    ensures Carries([PlaceholderItem(destination)], [])
  {
    hide Strip;
  }

  lemma AdaptedItemsCarry(items: seq<TemplateItem>, destination: string)
    ensures Carries(AdaptItems(items, destination), Filter(items, Named))
  {
    hide Strip, KnownKind, Filter, PlaceholderItem;
    PlaceholderCarries(destination);
  }

  lemma LocalizedCarries(day: AdaptedDay, number: nat, language: Language, destination: string, named: seq<TemplateItem>)
    requires Carries(day.items, named)
    ensures Carries(LocalizedDay(day, number, language, destination).items, named)
  {
    hide Decimal;
    var after := LocalizedDay(day, number, language, destination).items;
    forall i | 0 <= i < |named|
      ensures CarriesItem(after[i], named[i])
    {
      assert CarriesItem(day.items[i], named[i]);
    }
  }

  // ---------- cost ----------

  lemma {:induction false} SameCosts(after: seq<TemplateItem>, before: seq<TemplateItem>)
    requires |after| == |before| && forall i :: 0 <= i < |after| ==> after[i].cost == before[i].cost
    ensures Sum(after, CostOf) == Sum(before, CostOf)
  {
    if after != [] {
      SameCosts(after[1..], before[1..]);
    }
  }

  function NamedCost(day: TemplateDay): real {
    Sum(Filter(day.items, Named), CostOf)
  }

  lemma CarriedCost(after: seq<TemplateItem>, named: seq<TemplateItem>)
    requires Carries(after, named)
    ensures Sum(after, CostOf) == Sum(named, CostOf)
  {
    if named == [] {
      assert after[1..] == [];
    } else {
      forall i | 0 <= i < |named|
        ensures after[i].cost == named[i].cost
      {
        assert CarriesItem(after[i], named[i]);
      }
      SameCosts(after, named);
    }
  }

  lemma {:induction false} SameDayCosts(days: seq<AdaptedDay>, retained: seq<TemplateDay>)
    requires |retained| <= |days|
    requires forall d :: 0 <= d < |days| ==> AdaptedCost(days[d]) == if d < |retained| then NamedCost(retained[d]) else 0.0
    ensures PlanCost(days) == Sum(retained, NamedCost)
  {
    hide AdaptedCost, NamedCost;
    if days != [] {
      if retained == [] {
        SameDayCosts(days[1..], []);
      } else {
        SameDayCosts(days[1..], retained[1..]);
      }
    }
  }

  /** The plan costs exactly what the named items of the retained days cost. */
  lemma CostIsConserved(request: Request)
    ensures PlanCost(Adaptation(request)) == Sum(Retained(request), NamedCost)
  {
    hide Retained, Adaptation, Carries;
    AdaptationLayout(request);
    RetainedFits(request);
    var days := Adaptation(request);
    forall d | 0 <= d < |days|
      ensures AdaptedCost(days[d]) == if d < |Retained(request)| then NamedCost(Retained(request)[d]) else 0.0
    {
      CarriedCost(days[d].items, if d < |Retained(request)| then Filter(Retained(request)[d].items, Named) else []);
    }
    SameDayCosts(days, Retained(request));
  }

  lemma RetainedFits(request: Request)
    ensures |Retained(request)| <= request.duration
  {
  }

  // ---------- the verdict ----------

  predicate GoodLanguage(language: Language) {
    match language
    case English => true
    case Translated(day, _, item, _) => NonBlank(day) && NonBlank(item)
  }

  predicate ItemFits(item: TemplateItem) {
    && TimeFits(item.time) && TimeFits(item.start) && TimeFits(item.end)
    && (item.cost.Some? ==> item.cost.value >= 0.0)
  }

  /** Every named item of the retained days has well-formed times and no negative cost. */
  ghost predicate RetainedItemsFit(request: Request) {
    forall d :: 0 <= d < |Retained(request)| ==> NamedItemsFit(Retained(request)[d])
  }

  ghost predicate NamedItemsFit(day: TemplateDay) {
    forall i :: 0 <= i < |day.items| && Named(day.items[i]) ==> ItemFits(day.items[i])
  }

  lemma KindIsKnown(kind: string)
    ensures KnownKind(kind) in KINDS && "activity" in KINDS
  {
    assert KINDS[2] == "activity";
  }

  lemma AdaptedItemPasses(item: TemplateItem, destination: string)
    ensures ItemFault(AdaptItem(item, destination)) == None <==> ItemFits(item)
  {
    var name := destination + " version of " + item.name;
    assert name[|destination| + 1] == 'v';
    NonBlankAt(name, |destination| + 1);
    KindIsKnown(item.kind);
    hide Strip, KnownKind, KINDS, MatchesTimePattern;
  }

  lemma PlaceholderPasses(destination: string)
    ensures ItemFault(PlaceholderItem(destination)) == None
  {
    NonBlankAt("Flexible exploration in " + destination, 0);
    KindIsKnown("");
    ReadsAs("10:00", 1, 0, 0, 0);
    hide Strip, KINDS, IsClock;
  }

  lemma LocalizedItemPasses(item: TemplateItem, language: Language, destination: string)
    requires GoodLanguage(language) && NonBlank(item.name)
    ensures ItemFault(LocalizedItem(item, language, destination)) == ItemFault(item)
  {
    if language.Translated? {
      NonBlankPrefix(language.item, destination);
    }
    hide Strip, KINDS, TimeFits;
  }

  lemma {:induction false} ItemsFaultMeans(items: seq<TemplateItem>, k: nat)
    requires k <= |items|
    ensures ItemsFault(items, k) == None <==> forall i :: k <= i < |items| ==> ItemFault(items[i]) == None
    decreases |items| - k
  {
    hide ItemFault;
    if k < |items| {
      ItemsFaultMeans(items, k + 1);
    }
  }

  lemma {:induction false} DaysFaultMeans(days: seq<AdaptedDay>, k: nat)
    requires k <= |days|
    ensures DaysFault(days, k) == None <==> forall d :: k <= d < |days| ==> DayFault(days[d]) == None
    decreases |days| - k
  {
    hide DayFault;
    if k < |days| {
      DaysFaultMeans(days, k + 1);
    }
  }

  lemma {:induction false} FilterOfIndexed(items: seq<TemplateItem>)
    ensures (forall i :: 0 <= i < |Filter(items, Named)| ==> ItemFits(Filter(items, Named)[i])) <==>
            (forall i :: 0 <= i < |items| && Named(items[i]) ==> ItemFits(items[i]))
  {
    hide ItemFits, Named;
    if items != [] {
      FilterOfIndexed(items[1..]);
      var rest := Filter(items[1..], Named);
      assert Filter(items, Named) == if Named(items[0]) then [items[0]] + rest else rest;
      FitsCons(items[0], rest);
      NamedFitsCons(items);
    }
  }

  lemma FitsCons(item: TemplateItem, rest: seq<TemplateItem>)
    ensures (forall i :: 0 <= i < |[item] + rest| ==> ItemFits(([item] + rest)[i])) <==>
            ItemFits(item) && forall i :: 0 <= i < |rest| ==> ItemFits(rest[i])
  {
    hide ItemFits;
    var all := [item] + rest;
    if forall i :: 0 <= i < |all| ==> ItemFits(all[i]) {
      assert all[0] == item;
      forall i | 0 <= i < |rest|
        ensures ItemFits(rest[i])
      {
        assert all[i + 1] == rest[i];
      }
    }
  }

  lemma NamedFitsCons(items: seq<TemplateItem>)
    requires items != []
    ensures (forall i :: 0 <= i < |items| && Named(items[i]) ==> ItemFits(items[i])) <==>
            (Named(items[0]) ==> ItemFits(items[0]))
            && forall i :: 0 <= i < |items[1..]| && Named(items[1..][i]) ==> ItemFits(items[1..][i])
  {
    hide ItemFits, Named;
    if (Named(items[0]) ==> ItemFits(items[0]))
       && forall i :: 0 <= i < |items[1..]| && Named(items[1..][i]) ==> ItemFits(items[1..][i]) {
      forall i | 0 <= i < |items| && Named(items[i])
        ensures ItemFits(items[i])
      {
        if i > 0 {
          assert items[1..][i - 1] == items[i];
        }
      }
    }
  }

  lemma AdaptedItemsPass(items: seq<TemplateItem>, destination: string)
    ensures var adapted := AdaptItems(items, destination);
            && adapted != []
            && ((forall i :: 0 <= i < |adapted| ==> ItemFault(adapted[i]) == None) <==>
                forall i :: 0 <= i < |items| && Named(items[i]) ==> ItemFits(items[i]))
    ensures forall i :: 0 <= i < |AdaptItems(items, destination)| ==> NonBlank(AdaptItems(items, destination)[i].name)
  {
    var named := Filter(items, Named);
    FilterOfIndexed(items);
    PlaceholderPasses(destination);
    NamesAreNonBlank(items, destination);
    hide ItemFits, ItemFault, AdaptItem, PlaceholderItem, Filter, Named, NonBlank;
    forall i | 0 <= i < |named|
      ensures ItemFault(AdaptItem(named[i], destination)) == None <==> ItemFits(named[i])
    {
      AdaptedItemPasses(named[i], destination);
    }
    AllPass(named, AdaptItems(items, destination), destination);
  }

  lemma AllPass(named: seq<TemplateItem>, adapted: seq<TemplateItem>, destination: string)
    requires named == [] ==> adapted == [PlaceholderItem(destination)]
    requires named != [] ==> |adapted| == |named| && forall i :: 0 <= i < |named| ==> adapted[i] == AdaptItem(named[i], destination)
    requires forall i :: 0 <= i < |named| ==> (ItemFault(AdaptItem(named[i], destination)) == None <==> ItemFits(named[i]))
    requires ItemFault(PlaceholderItem(destination)) == None
    ensures (forall i :: 0 <= i < |adapted| ==> ItemFault(adapted[i]) == None) <==>
            forall i :: 0 <= i < |named| ==> ItemFits(named[i])
  {
    hide ItemFits, ItemFault, AdaptItem, PlaceholderItem;
    if forall i :: 0 <= i < |adapted| ==> ItemFault(adapted[i]) == None {
      forall i | 0 <= i < |named|
        ensures ItemFits(named[i])
      {
        assert ItemFault(adapted[i]) == None;
      }
    }
  }

  lemma NamesAreNonBlank(items: seq<TemplateItem>, destination: string)
    ensures forall i :: 0 <= i < |AdaptItems(items, destination)| ==> NonBlank(AdaptItems(items, destination)[i].name)
  {
    var named := Filter(items, Named);
    hide Strip, KnownKind, Filter;
    forall i | 0 <= i < |named|
      ensures NonBlank(AdaptItem(named[i], destination).name)
    {
      var name := destination + " version of " + named[i].name;
      assert name[|destination| + 1] == 'v';
      NonBlankAt(name, |destination| + 1);
    }
    NonBlankAt("Flexible exploration in " + destination, 0);
  }

  lemma TitlesAreNonBlank(request: Request, index: nat)
    ensures NonBlank(DayAt(request, index).title)
  {
    hide Retained, AdaptItems, AdaptTitle, Strip;
    NonBlankAt("Flexible exploration day in " + request.destination, 0);
    var retained := Retained(request);
    if index < |retained| {
      AdaptedTitleIsNonBlank(retained[index].title, index + 1, request.destination);
    }
  }

  lemma AdaptedTitleIsNonBlank(title: string, number: nat, destination: string)
    ensures NonBlank(AdaptTitle(title, number, destination))
  {
    var base := if Strip(title) != "" then Strip(title) else "Day " + Decimal(number) + " in " + destination;
    assert NonBlank(base) by {
      var before, after := StripSplits(title);
      StripOfTrimmed(Strip(title));
      assert ("Day " + Decimal(number) + " in " + destination)[0] == 'D';
      NonBlankAt("Day " + Decimal(number) + " in " + destination, 0);
    }
    StripIsEmptyOnlyOnBlank(base);
    var i :| 0 <= i < |base| && !IsSpace(base[i]);
    hide Strip, Contains, Lower;
    NonBlankAt(base, i);
    NonBlankAt(base + " (" + destination + ")", i);
  }

  lemma LocalizedDayPasses(day: AdaptedDay, number: nat, language: Language, destination: string)
    requires GoodLanguage(language) && NonBlank(day.title) && day.items != []
    requires forall i :: 0 <= i < |day.items| ==> NonBlank(day.items[i].name)
    ensures DayFault(LocalizedDay(day, number, language, destination)) == None <==>
            forall i :: 0 <= i < |day.items| ==> ItemFault(day.items[i]) == None
  {
    var localized := LocalizedDay(day, number, language, destination);
    ItemsFaultMeans(localized.items, 0);
    if language.Translated? {
      NonBlankPrefix(language.day, Decimal(number));
      NonBlankPrefix(language.day + Decimal(number), language.place);
      NonBlankPrefix(language.day + Decimal(number) + language.place, destination);
    }
    hide ItemFault, ItemsFault, Strip, LocalizedItem, GoodLanguage, Decimal;
    forall i | 0 <= i < |day.items|
      ensures |localized.items| == |day.items|
      ensures ItemFault(localized.items[i]) == ItemFault(day.items[i])
    {
      if language.Translated? {
        LocalizedItemPasses(day.items[i], language, destination);
      }
    }
  }

  lemma AdaptedDayPasses(request: Request, d: nat)
    requires d < request.duration && GoodLanguage(request.language)
    ensures d < |Adaptation(request)|
    ensures DayFault(Adaptation(request)[d]) == None <==> (d < |Retained(request)| ==> NamedItemsFit(Retained(request)[d]))
  {
    var day := DayAt(request, d);
    TitlesAreNonBlank(request, d);
    hide Strip, Retained, ItemFault, ItemFits, Named, AdaptTitle, PlaceholderItem, GoodLanguage;
    assert Adaptation(request)[d] == LocalizedDay(day, d + 1, request.language, request.destination);
    if d < |Retained(request)| {
      AdaptedItemsPass(Retained(request)[d].items, request.destination);
    } else {
      AdaptedItemsPass([], request.destination);
      assert day.items == AdaptItems([], request.destination);
    }
    hide LocalizedDay, DayFault, AdaptItems, DayAt;
    LocalizedDayPasses(day, d + 1, request.language, request.destination);
  }

  /** The validator accepts the adapter's plan exactly when every named item of the retained days has
      well-formed times and no negative cost; its warnings then speak of exactly the retained cost. */
  lemma AdaptationVerdict(request: Request)
    requires GoodLanguage(request.language)
    ensures Verdict(request, Adaptation(request)).Success? <==> RetainedItemsFit(request)
    ensures RetainedItemsFit(request) ==>
              Verdict(request, Adaptation(request)) == Success(Warnings(request, Sum(Retained(request), NamedCost)))
  {
    hide Retained, DayFault, Adaptation, NamedItemsFit, Warnings, NamedCost;
    AdaptationLayout(request);
    RetainedFits(request);
    CostIsConserved(request);
    DaysFaultMeans(Adaptation(request), 0);
    forall d | 0 <= d < request.duration
      ensures DayFault(Adaptation(request)[d]) == None <==> (d < |Retained(request)| ==> NamedItemsFit(Retained(request)[d]))
    {
      AdaptedDayPasses(request, d);
    }
  }

  // ---------- warnings ----------

  ghost predicate NoRepeats(warnings: seq<string>, k: nat) {
    forall j :: k <= j < |warnings| ==> !Mentions(warnings[..j], warnings[j])
  }

  /** Merging keeps what was there, adds each new warning once, and loses none. */
  lemma {:induction false} MergeAddsEachOnce(warnings: seq<string>, more: seq<string>)
    ensures warnings <= Merged(warnings, more)
    ensures NoRepeats(Merged(warnings, more), |warnings|)
    ensures forall k :: 0 <= k < |more| ==> Mentions(Merged(warnings, more), more[k])
  {
    hide Lower;
    if more != [] {
      var front, last := more[..|more| - 1], more[|more| - 1];
      MergeAddsEachOnce(warnings, front);
      var before, after := Merged(warnings, front), Merged(warnings, more);
      if !Mentions(before, last) {
        assert after[..|before|] == before;
        forall j | |warnings| <= j < |after|
          ensures !Mentions(after[..j], after[j])
        {
          assert j < |before| ==> after[..j] == before[..j];
        }
        assert after[|before|] == last;
      }
      forall k | 0 <= k < |more|
        ensures Mentions(after, more[k])
      {
        if k < |front| {
          assert more[k] == front[k];
          MentionsLonger(before, after, more[k]);
        }
      }
    }
  }

  lemma MentionsLonger(before: seq<string>, after: seq<string>, warning: string)
    requires before <= after && Mentions(before, warning)
    ensures Mentions(after, warning)
  {
    hide Lower;
    var k :| 0 <= k < |before| && Lower(before[k]) == Lower(warning);
    assert after[k] == before[k];
  }

  /** Warnings already mentioned are not merged a second time. */
  lemma {:induction false} MergingMentionedAddsNothing(warnings: seq<string>, more: seq<string>)
    requires forall k :: 0 <= k < |more| ==> Mentions(warnings, more[k])
    ensures Merged(warnings, more) == warnings
  {
    hide Mentions;
    if more != [] {
      MergingMentionedAddsNothing(warnings, more[..|more| - 1]);
    }
  }

  lemma MergingAgainAddsNothing(warnings: seq<string>, more: seq<string>)
    ensures Merged(Merged(warnings, more), more) == Merged(warnings, more)
  {
    MergeAddsEachOnce(warnings, more);
    MergingMentionedAddsNothing(Merged(warnings, more), more);
  }
}
