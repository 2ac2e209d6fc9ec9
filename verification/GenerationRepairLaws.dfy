/** What `repair_generation_output` promises about whole runs: days numbered as expected, issues acting on
    the items they name, nothing lost, one transfer per leg and day, and a closing sort in time order. */
module GenerationRepairLaws {
  import opened Wrappers
  import opened Text
  import opened Clock
  import opened Numbers
  import opened Sequences
  import opened Itinerary
  import opened GenerationRepair

  // ---------- day numbers ----------

  /** The days are numbered 1, 2, ... in order and none has a blank title. */
  ghost predicate Numbered(days: seq<Day>) {
    forall d :: 0 <= d < |days| ==> NumberedAs(days[d], d + 1)
  }

  ghost predicate NumberedAs(day: Day, n: int) {
    day.number == Some(n) && Strip(day.title) != ""
  }

  lemma TitledHasTitle(day: Day, n: int)
    ensures Strip(Titled(day, n).title) != ""
    ensures Titled(day, n).(title := "") == day.(title := "")
    ensures Strip(day.title) != "" ==> Titled(day, n) == day
  {
    var title := DayLabel(n) + ": repaired plan";
    assert title[0] == 'D';
    StripIsEmptyOnlyOnBlank(title);
  }

  lemma PlaceholderHasTitle(n: int, currency: string)
    ensures NumberedAs(PlaceholderDay(n, currency), n)
  {
    var title := PlaceholderDay(n, currency).title;
    assert title[0] == 'D';
    StripIsEmptyOnlyOnBlank(title);
  }

  lemma {:induction false} FirstForIsFirst(days: seq<Day>, n: int, k: nat)
    requires k <= |days|
    ensures match FirstFor(days, n, k)
            case None => forall d :: 0 <= d < k ==> NumberAt(days, d) != n
            case Some(d) => d < k && NumberAt(days, d) == n && forall e :: 0 <= e < d ==> NumberAt(days, e) != n
  {
    if k > 0 {
      FirstForIsFirst(days, n, k - 1);
    }
  }

  lemma NormalDayIsNumbered(days: seq<Day>, n: int, currency: string)
    ensures NumberedAs(NormalDay(days, n, currency), n)
  {
    FirstForIsFirst(days, n, |days|);
    match FirstFor(days, n, |days|) {
      case None => PlaceholderHasTitle(n, currency);
      case Some(d) => TitledHasTitle(days[d].(number := Some(n)), n);
    }
  }

  lemma {:induction false} NormalDaysAreNumbered(days: seq<Day>, expected: nat, currency: string)
    ensures |NormalDays(days, expected, currency)| == expected
    ensures forall k :: 0 <= k < expected ==> NormalDays(days, expected, currency)[k] == NormalDay(days, k + 1, currency)
    ensures Numbered(NormalDays(days, expected, currency))
  {
    hide NumberedAs, NormalDay;
    if expected > 0 {
      NormalDaysAreNumbered(days, expected - 1, currency);
      NormalDayIsNumbered(days, expected, currency);
    }
  }

  /** For every number the first input day that counts under it is the one kept, with its items and stop;
      only a number no input day counts under gets a placeholder. */
  lemma FirstDayIsKept(days: seq<Day>, expected: nat, currency: string, n: nat)
    requires 1 <= n <= expected
    ensures |NormalDays(days, expected, currency)| == expected
    ensures var kept := NormalDays(days, expected, currency)[n - 1];
            || (exists d :: 0 <= d < |days| && IsKept(days, d, n, kept))
            || (kept == PlaceholderDay(n, currency) && forall d :: 0 <= d < |days| ==> NumberAt(days, d) != n)
  {
    NormalDaysAreNumbered(days, expected, currency);
    FirstForIsFirst(days, n, |days|);
    match FirstFor(days, n, |days|) {
      case None =>
      case Some(d) =>
        TitledHasTitle(days[d].(number := Some(n)), n);
        assert IsKept(days, d, n, NormalDays(days, expected, currency)[n - 1]);
    }
  }

  ghost predicate IsKept(days: seq<Day>, d: nat, n: int, kept: Day)
    requires d < |days|
  {
    && NumberAt(days, d) == n && (forall e :: 0 <= e < d ==> NumberAt(days, e) != n)
    && kept.items == days[d].items && kept.stop == days[d].stop && kept.number == Some(n)
    && (Strip(days[d].title) != "" ==> kept.title == days[d].title)
  }

  lemma {:induction false} FirstForNumbered(days: seq<Day>, n: nat, k: nat)
    requires Numbered(days) && k <= |days| && n >= 1
    ensures FirstFor(days, n, k) == if n <= k then Some(n - 1) else None
  {
    if k > 0 {
      FirstForNumbered(days, n, k - 1);
      assert NumberedAs(days[k - 1], k);
    }
  }

  lemma NumberedDayIsNormal(days: seq<Day>, n: nat, currency: string)
    requires Numbered(days) && 1 <= n <= |days|
    ensures !DayDiffers(days, n) && NormalDay(days, n, currency) == days[n - 1]
  {
    hide Strip, PlaceholderDay, Titled;
    FirstForNumbered(days, n, |days|);
    assert NumberedAs(days[n - 1], n);
    TitledHasTitle(days[n - 1], n);
    assert days[n - 1].(number := Some(n)) == days[n - 1];
  }

  /** On days that are numbered as expected, normalising changes nothing and reports nothing. */
  lemma NormalizingAgainReportsNothing(l: Ledger, expected: nat, currency: string)
    requires Numbered(l.days) && |l.days| == expected
    ensures DayCountNormalizedIn(l, expected, currency) == l
  {
    hide Numbered, NormalDay, DayDiffers, NormalDays;
    NormalDaysAreNumbered(l.days, expected, currency);
    forall n: nat | 1 <= n <= expected
      ensures !DayDiffers(l.days, n) && NormalDay(l.days, n, currency) == l.days[n - 1]
    {
      NumberedDayIsNormal(l.days, n, currency);
    }
    var normal := NormalDays(l.days, expected, currency);
    forall k | 0 <= k < expected
      ensures normal[k] == l.days[k]
    {
      assert normal[k] == NormalDay(l.days, k + 1, currency);
    }
    assert normal == l.days;
  }

  // ---------- what a handler may do to the itinerary ----------

  ghost predicate ItemsExtend(before: seq<Item>, after: seq<Item>) {
    && |before| <= |after|
    && forall i :: 0 <= i < |before| ==>
         after[i].leg == before[i].leg && after[i].duration == before[i].duration
  }

  ghost predicate DayExtends(before: Day, after: Day) {
    && after.number == before.number && after.stop == before.stop
    && (Strip(before.title) != "" ==> after.title == before.title)
    && ItemsExtend(before.items, after.items)
  }

  /** Old days and items keep their places; new days are appended under numbers no old day has. */
  ghost predicate Extends(before: seq<Day>, after: seq<Day>) {
    && |before| <= |after|
    && (forall d :: 0 <= d < |before| ==> DayExtends(before[d], after[d]))
    && (forall d, e :: 0 <= d < |before| <= e < |after| && DayNumber(after[e]).Some? ==>
          DayNumber(after[d]) != DayNumber(after[e]))
  }

  lemma ExtendsItself(days: seq<Day>)
    ensures Extends(days, days)
  {
  }

  lemma ExtendsOneDay(days: seq<Day>, d: nat, day: Day)
    requires d < |days| && DayExtends(days[d], day)
    ensures Extends(days, days[d := day])
  {
  }

  lemma ExtendsTransitive(a: seq<Day>, b: seq<Day>, c: seq<Day>)
    requires Extends(a, b) && Extends(b, c)
    ensures Extends(a, c)
  {
    forall d | 0 <= d < |a|
      ensures DayExtends(a[d], c[d])
    {
      assert DayExtends(a[d], b[d]) && DayExtends(b[d], c[d]);
    }
    forall d, e | 0 <= d < |a| <= e < |c| && DayNumber(c[e]).Some?
      ensures DayNumber(c[d]) != DayNumber(c[e])
    {
      assert DayExtends(b[d], c[d]);
      if e < |b| {
        assert DayExtends(b[e], c[e]);
      }
    }
  }

  lemma WithDayExtends(days: seq<Day>, n: int, currency: string)
    ensures var (after, d) := WithDay(days, n, currency);
            && d < |after| && Extends(days, after) && after[d].number == Some(n)
            && (d < |days| ==> after == days) && (d >= |days| ==> d == |days| && after == days + [PlaceholderDay(n, currency)])
  {
    DayAtInRange(days, n, 0);
  }

  lemma {:induction false} PaddedExtends(items: seq<Item>, size: nat, currency: string)
    ensures var padded := Padded(items, size, currency);
            && ItemsExtend(items, padded) && |padded| >= size
            && (forall i :: 0 <= i < |items| ==> padded[i] == items[i])
            && (forall i :: |items| <= i < |padded| ==> padded[i] == PlaceholderItem(currency))
    decreases size - |items|
  {
    if |items| < size {
      PaddedExtends(items + [PlaceholderItem(currency)], size, currency);
    }
  }

  lemma FilledExtends(items: seq<Item>, issue: Issue, currency: string)
    ensures ItemsExtend(items, ItemsFilled(items, issue, currency).0)
  {
    hide Strip, CompactOf, PlaceholderItem;
    match issue.item {
      case Some(i) => PaddedExtends(items, i + 1, currency);
      case None =>
    }
  }

  lemma SchemaExtends(l: Ledger, issue: Issue, currency: string)
    ensures Extends(l.days, SchemaRepaired(l, issue, currency).days)
  {
    match issue.day {
      case None =>
      case Some(n) =>
        WithDayExtends(l.days, n, currency);
        var (days, d) := WithDay(l.days, n, currency);
        TitledHasTitle(days[d], n);
        FilledExtends(Titled(days[d], n).items, issue, currency);
        SchemaRepairedDays(l, issue, n, currency);
        hide WithDay, ItemsFilled, Titled, PlaceholderDay, SchemaRepaired, Strip;
        var items := ItemsFilled(Titled(days[d], n).items, issue, currency).0;
        ExtendsOneDay(days, d, Titled(days[d], n).(items := items));
        ExtendsTransitive(l.days, days, SchemaRepaired(l, issue, currency).days);
    }
  }

  lemma WithItemExtends(days: seq<Day>, at: Address, item: Item)
    requires InRange(days, at)
    requires item.leg == days[at.d].items[at.i].leg && item.duration == days[at.d].items[at.i].duration
    ensures Extends(days, WithItem(days, at, item))
  {
    ExtendsOneDay(days, at.d, WithItem(days, at, item)[at.d]);
  }

  lemma TransferExtends(l: Ledger, issue: Issue, request: Request)
    ensures Extends(l.days, TransferAdded(l, issue, request).days)
  {
    match LegOf(request, issue) {
      case None =>
      case Some(leg) =>
        match TransferDay(l.days, issue, leg) {
          case None =>
          case Some(n) =>
            WithDayExtends(l.days, n, request.currency);
            var (days, d) := WithDay(l.days, n, request.currency);
            var item := TransferItem(leg, TransferLegId(issue, leg), request.currency);
            ExtendsOneDay(days, d, days[d].(items := days[d].items + [item]));
            hide WithDay, PlaceholderDay, TransferItem;
            ExtendsTransitive(l.days, days, WithItems(days, d, days[d].items + [item]));
        }
    }
  }

  /** No handler removes a day or an item: each day keeps its number and stop, each place in it an item, with
      that item's transfer leg and duration. */
  lemma HandlerExtends(l: Ledger, issue: Issue, request: Request)
    ensures Extends(l.days, Handled(l, issue, request).days)
  {
    hide SchemaRepaired, TransferAdded, MovedAfterTransport, MovedToOpeningHours, CostRiskReduced, HandlerOf, Extends;
    SchemaExtends(l, issue, request.currency);
    TransferExtends(l, issue, request);
    MovesExtend(l, issue, request);
    ExtendsItself(l.days);
  }

  lemma MovesExtend(l: Ledger, issue: Issue, request: Request)
    ensures Extends(l.days, MovedAfterTransport(l, issue, request).days)
    ensures Extends(l.days, MovedToOpeningHours(l, issue).days)
    ensures Extends(l.days, CostRiskReduced(l, request.currency).days)
  {
    hide ItemOf, FirstPositive, ByCostDescending, WithItem, ArrivalOf, Extends;
    ExtendsItself(l.days);
    match ItemOf(l.days, issue) {
      case None =>
      case Some(at) =>
        if InRange(l.days, at) {
          RewritesExtend(l.days, at, ArrivalOf(request, issue), request.currency);
        }
    }
    match FirstPositive(l.days, ByCostDescending(l.days), 0) {
      case None =>
      case Some(at) =>
        if InRange(l.days, at) {
          RewritesExtend(l.days, at, "", request.currency);
        }
    }
  }

  lemma RewritesExtend(days: seq<Day>, at: Address, arrival: string, currency: string)
    requires InRange(days, at)
    ensures var item := days[at.d].items[at.i];
            && Extends(days, WithItem(days, at, AfterTransport(item, arrival)))
            && Extends(days, WithItem(days, at, InOpeningHours(item)))
            && Extends(days, WithItem(days, at, Cheaper(item, currency)))
  {
    var item := days[at.d].items[at.i];
    WithItemExtends(days, at, AfterTransport(item, arrival));
    WithItemExtends(days, at, InOpeningHours(item));
    WithItemExtends(days, at, Cheaper(item, currency));
  }

  lemma {:induction false} HandlersExtend(l: Ledger, issues: seq<Issue>, request: Request)
    ensures Extends(l.days, HandledAll(l, issues, request).days)
  {
    if issues == [] {
      ExtendsItself(l.days);
    } else {
      var front, last := issues[..|issues| - 1], issues[|issues| - 1];
      HandlersExtend(l, front, request);
      var before := HandledAll(l, front, request);
      HandlerExtends(before, last, request);
      ExtendsTransitive(l.days, before.days, Handled(before, last, request).days);
    }
  }

  // ---------- what a handler does to its item ----------

  /** The minute an arrival text stands for: one that is missing or cannot be read counts as noon. */
  function ArrivalMinute(arrival: string): int {
    match ToMinutes(arrival) case None => 720 case Some(m) => m
  }

  /** An item moved behind an arrival starts 30 minutes after it and touches nothing but its times and note. It
      keeps its length if and only if it still ends within the day; otherwise it is cut off at 23:59. */
  lemma MovedItemKeepsItsLength(item: Item, arrival: string)
    ensures var after := AfterTransport(item, arrival);
            var start, length := ArrivalMinute(arrival) + 30, DurationOf(item, 90);
            && after.(time := item.time, endTime := item.endTime, note := item.note) == item
            && ToMinutes(after.time) == Some(Min(start, 1439))
            && after.endTime.Some? && ToMinutes(after.endTime.value) == Some(Min(Min(start, 1439) + length, 1439))
            && (ToMinutes(after.endTime.value).value - ToMinutes(after.time).value == length <==> start + length <= 1439)
  {
    hide AddMinutes, AppendNote, ToMinutes, DurationOf;
    var given := if arrival == "" then "12:00" else arrival;
    ArrivalIsNoonAtWorst(arrival);
    DurationIsPositive(item);
    AddMinutesIsClamped(given, 30);
    AddMinutesIsClamped(AddMinutes(given, 30), DurationOf(item, 90));
  }

  lemma ArrivalIsNoonAtWorst(arrival: string)
    ensures ArrivalMinute(if arrival == "" then "12:00" else arrival) == ArrivalMinute(arrival) >= 0
  {
    ReadsAs("12:00", 1, 2, 0, 0);
  }

  lemma DurationIsPositive(item: Item)
    ensures DurationOf(item, 90) > 0
  {
    hide ToMinutes;
  }

  /** Ten o'clock until half past eleven, the end only where there was one; name, kind and cost as before. */
  ghost predicate InTheMorning(before: Item, after: Item) {
    && ToMinutes(after.time) == Some(600)
    && (after.endTime.Some? <==> before.endTime.Some?)
    && (after.endTime.Some? ==> ToMinutes(after.endTime.value) == Some(690))
    && after.name == before.name && after.kind == before.kind && after.cost == before.cost
  }

  lemma OpeningHoursAre(before: Item)
    ensures InTheMorning(before, InOpeningHours(before)) && !IsLate(InOpeningHours(before))
  {
    hide AppendNote, IsLate, ToMinutes;
    OpeningHoursNotLate(before);
    ReadsAs("10:00", 1, 0, 0, 0);
    ReadsAs("11:30", 1, 1, 3, 0);
  }

  lemma OpeningHoursNotLate(before: Item)
    ensures !IsLate(InOpeningHours(before))
  {
    hide AppendNote;
    StripOfTrimmed("10:00");
    StripOfTrimmed("11:30");
  }

  /** The cost-risk handler cuts an item no other item is dearer than, and does nothing only when no item
      costs anything. */
  lemma CutTargetIsDearest(days: seq<Day>)
    ensures match FirstPositive(days, ByCostDescending(days), 0)
            case None => forall at: Address :: AmountAt(days, at) <= 0.0
            case Some(best) => InRange(days, best) && AmountAt(days, best) > 0.0
                               && forall at: Address :: AmountAt(days, at) <= AmountAt(days, best)
  {
    var refs := ByCostDescending(days);
    ByCostMembers(days);
    FirstPositiveIsFirst(days, refs, 0);
    hide ByCostDescending;
    forall at: Address
      ensures match FirstPositive(days, refs, 0)
              case None => AmountAt(days, at) <= 0.0
              case Some(best) => AmountAt(days, at) <= AmountAt(days, best)
    {
      if AmountAt(days, at) > 0.0 {
        assert at in refs;
        var k :| 0 <= k < |refs| && refs[k] == at;
        RankedBelow(days, refs, k);
      }
    }
  }

  ghost predicate IsFirstPositive(days: seq<Day>, refs: seq<Address>, k: nat, i: int, best: Address) {
    k <= i < |refs| && refs[i] == best && forall j :: k <= j < i ==> AmountAt(days, refs[j]) <= 0.0
  }

  lemma {:induction false} FirstPositiveIsFirst(days: seq<Day>, refs: seq<Address>, k: nat)
    ensures match FirstPositive(days, refs, k)
            case None => forall j :: k <= j < |refs| ==> AmountAt(days, refs[j]) <= 0.0
            case Some(best) => AmountAt(days, best) > 0.0 && exists i :: IsFirstPositive(days, refs, k, i, best)
    decreases |refs| - k
  {
    hide AmountAt;
    if k < |refs| && !(AmountAt(days, refs[k]) > 0.0) {
      FirstPositiveIsFirst(days, refs, k + 1);
      if FirstPositive(days, refs, k + 1).Some? {
        var best := FirstPositive(days, refs, k + 1).value;
        var i :| IsFirstPositive(days, refs, k + 1, i, best);
        assert IsFirstPositive(days, refs, k, i, best);
      }
    } else if k < |refs| {
      assert IsFirstPositive(days, refs, k, k, refs[k]);
    }
  }

  lemma RankedBelow(days: seq<Day>, refs: seq<Address>, k: nat)
    requires Sorted(refs, Dearer(days)) && k < |refs| && AmountAt(days, refs[k]) > 0.0
    ensures match FirstPositive(days, refs, 0)
            case None => false
            case Some(best) => AmountAt(days, refs[k]) <= AmountAt(days, best)
  {
    FirstPositiveIsFirst(days, refs, 0);
    var best := FirstPositive(days, refs, 0).value;
    var i :| IsFirstPositive(days, refs, 0, i, best);
    hide AmountAt, FirstPositive;
    if i < k {
      assert Dearer(days)(refs[i], refs[k]);
    }
  }

  /** Filling an item makes its required texts non-blank, leaves what was there, and is done after once. */
  lemma FilledItemIsComplete(item: Item, currency: string)
    ensures var filled := SchemaFilled(item, currency);
            && NonBlank(filled.time) && NonBlank(filled.kind) && NonBlank(filled.name)
            && (NonBlank(item.time) ==> filled.time == item.time)
            && (NonBlank(item.kind) ==> filled.kind == item.kind)
            && (NonBlank(item.name) ==> filled.name == item.name)
            && (filled.cost.Priced? ==> filled.cost.currency.Code?)
            && SchemaFilled(filled, currency) == filled
  {
    hide Strip;
    DefaultsAreNonBlank();
  }

  lemma DefaultsAreNonBlank()
    ensures NonBlank("10:00") && NonBlank("activity") && NonBlank("Flexible repaired item")
  {
    hide Strip, NonBlank;
    NonBlankAt("10:00", 4);
    NonBlankAt("activity", 7);
    NonBlankAt("Flexible repaired item", 21);
  }

  // ---------- what is logged ----------

  /** All that is wrong with the item is the currency entry of its structured cost: missing, blank or untidy. */
  predicate OnlyCurrencyIsOff(item: Item) {
    && NonBlank(item.time) && NonBlank(item.kind) && NonBlank(item.name)
    && item.cost.Priced? && !item.cost.currency.Code?
  }

  /** A filled item is changed and not logged exactly when only its currency entry was off. */
  lemma CurrencyFillIsUnlogged(item: Item, currency: string)
    ensures var filled := SchemaFilled(item, currency);
            filled != item && RecordedBefore(item, filled) == CompactOf(filled) <==> OnlyCurrencyIsOff(item)
  {
    FilledItemIsComplete(item, currency);
    hide Strip;
  }

  lemma PlaceholderIsComplete(currency: string)
    ensures SchemaFilled(PlaceholderItem(currency), currency) == PlaceholderItem(currency)
    ensures RecordedBefore(PlaceholderItem(currency), PlaceholderItem(currency)) == CompactOf(PlaceholderItem(currency))
  {
    hide Strip;
    DefaultsAreNonBlank();
  }

  /** A schema repair the log does not show: on a day that is there and has a title, the item the issue names
      either does not exist, so that the day is padded, or has nothing but its currency entry filled. */
  predicate FillsQuietly(days: seq<Day>, issue: Issue) {
    match (issue.day, issue.item)
    case (Some(n), Some(i)) =>
      (match DayAt(days, n, 0)
       case None => false
       case Some(d) =>
         d < |days| && NonBlank(days[d].title) && (i >= |days[d].items| || OnlyCurrencyIsOff(days[d].items[i])))
    case _ => false
  }

  lemma ItemsFilledLog(items: seq<Item>, issue: Issue, currency: string)
    ensures var (filled, fixes) := ItemsFilled(items, issue, currency);
            fixes == [] && filled != items <==>
            issue.item.Some? && (issue.item.value >= |items| || OnlyCurrencyIsOff(items[issue.item.value]))
  {
    hide Padded, SchemaFilled, PlaceholderItem, OnlyCurrencyIsOff, RecordedBefore, CompactOf;
    match issue.item {
      case None =>
      case Some(i) =>
        PaddedExtends(items, i + 1, currency);
        if i < |items| {
          PaddedIsSame(items, i + 1, currency);
          FilledAtLog(items, i, issue, currency);
        } else {
          PaddingIsUnlogged(items, i, issue, currency);
        }
    }
  }

  lemma FilledAtLog(items: seq<Item>, i: nat, issue: Issue, currency: string)
    requires i < |items| && issue.item == Some(i) && Padded(items, i + 1, currency) == items
    ensures var (filled, fixes) := ItemsFilled(items, issue, currency);
            fixes == [] && filled != items <==> OnlyCurrencyIsOff(items[i])
  {
    hide Padded, SchemaFilled, OnlyCurrencyIsOff, RecordedBefore, CompactOf;
    CurrencyFillIsUnlogged(items[i], currency);
    var filled := SchemaFilled(items[i], currency);
    assert items[i := filled][i] == filled;
    assert filled == items[i] ==> items[i := filled] == items;
  }

  lemma PaddingIsUnlogged(items: seq<Item>, i: nat, issue: Issue, currency: string)
    requires i >= |items| && issue.item == Some(i)
    ensures |ItemsFilled(items, issue, currency).0| > |items| && ItemsFilled(items, issue, currency).1 == []
    ensures ItemsFilled(items, issue, currency).0 == Padded(items, i + 1, currency)
  {
    hide Padded, SchemaFilled, PlaceholderItem, CompactOf, RecordedBefore, ItemsExtend;
    PaddedExtends(items, i + 1, currency);
    PaddedLength(items, i + 1, currency);
    PlaceholderIsComplete(currency);
    UpdatedToItself(Padded(items, i + 1, currency), i);
  }

  lemma UpdatedToItself(items: seq<Item>, i: nat)
    requires i < |items|
    ensures items[i := items[i]] == items
  {
  }

  lemma {:induction false} PaddedLength(items: seq<Item>, size: nat, currency: string)
    requires size >= |items|
    ensures |Padded(items, size, currency)| == size
    decreases size - |items|
  {
    if |items| < size {
      PaddedLength(items + [PlaceholderItem(currency)], size, currency);
    }
  }

  lemma PaddedIsSame(items: seq<Item>, size: nat, currency: string)
    requires size <= |items|
    ensures Padded(items, size, currency) == items
  {
  }

  /** Of all handlers, on every itinerary, only these schema repairs change something without logging it. */
  lemma UnloggedChanges(l: Ledger, issue: Issue, request: Request)
    ensures var after := Handled(l, issue, request);
            after.changes == l.changes && after.days != l.days <==>
            HandlerOf(issue).ForSchema? && FillsQuietly(l.days, issue)
  {
    hide SchemaRepaired, TransferAdded, MovedAfterTransport, MovedToOpeningHours, CostRiskReduced, HandlerOf, FillsQuietly;
    match HandlerOf(issue) {
      case ForSchema => SchemaLog(l, issue, request.currency);
      case ForTransfer => TransferLog(l, issue, request);
      case _ => MovesLog(l, issue, request);
    }
  }

  lemma MovesLog(l: Ledger, issue: Issue, request: Request)
    ensures MovedAfterTransport(l, issue, request) == l || |MovedAfterTransport(l, issue, request).changes| > |l.changes|
    ensures MovedToOpeningHours(l, issue) == l || |MovedToOpeningHours(l, issue).changes| > |l.changes|
    ensures CostRiskReduced(l, request.currency) == l || |CostRiskReduced(l, request.currency).changes| > |l.changes|
  {
    hide ItemOf, AfterTransport, InOpeningHours, ArrivalOf, FirstPositive, ByCostDescending, Cheaper;
  }

  lemma TransferLog(l: Ledger, issue: Issue, request: Request)
    ensures TransferAdded(l, issue, request) == l || |TransferAdded(l, issue, request).changes| > |l.changes|
  {
    match LegOf(request, issue) {
      case None =>
      case Some(leg) =>
        match TransferDay(l.days, issue, leg) {
          case None =>
          case Some(n) =>
            WithDayExtends(l.days, n, request.currency);
            SameLegsCount([], PlaceholderDay(n, request.currency).items, TransferLegId(issue, leg));
            hide WithDay, TransferItem, TransferDay, TransferLegId, LegOf, Extends, PlaceholderDay;
        }
    }
  }

  lemma SchemaLog(l: Ledger, issue: Issue, currency: string)
    ensures var after := SchemaRepaired(l, issue, currency);
            after.changes == l.changes && after.days != l.days <==> FillsQuietly(l.days, issue)
  {
    if issue.day.Some? {
      var n := issue.day.value;
      DayAtInRange(l.days, n, 0);
      if DayAt(l.days, n, 0).Some? {
        SchemaLogOnDay(l, issue, currency, n, DayAt(l.days, n, 0).value);
      } else {
        hide ItemsFilled, DayAt, Titled, PlaceholderDay;
      }
    }
  }

  lemma SchemaLogOnDay(l: Ledger, issue: Issue, currency: string, n: int, d: nat)
    requires issue.day == Some(n) && DayAt(l.days, n, 0) == Some(d) && d < |l.days|
    ensures var after := SchemaRepaired(l, issue, currency);
            after.changes == l.changes && after.days != l.days <==> FillsQuietly(l.days, issue)
  {
    hide ItemsFilled, DayAt, OnlyCurrencyIsOff, Titled, Strip;
    var day := l.days[d];
    TitledHasTitle(day, n);
    ItemsFilledLog(day.items, issue, currency);
    var (items, fixes) := ItemsFilled(day.items, issue, currency);
    SchemaRepairedDays(l, issue, n, currency);
    SchemaRepairedChanges(l, issue, n, d, currency);
    hide SchemaRepaired;
    if NonBlank(day.title) {
      assert items == day.items ==> l.days[d := day.(items := items)] == l.days;
      assert l.days[d := day.(items := items)][d].items == items;
    }
  }

  lemma SchemaRepairedChanges(l: Ledger, issue: Issue, n: int, d: nat, currency: string)
    requires issue.day == Some(n) && DayAt(l.days, n, 0) == Some(d) && d < |l.days|
    ensures var day := Titled(l.days[d], n);
            var fixes := ItemsFilled(day.items, issue, currency).1;
            SchemaRepaired(l, issue, currency).changes
              == l.changes + (if day == l.days[d] then [] else [Change(DayTitleAdded, Some(n), None)]) + fixes
  {
    hide ItemsFilled, DayAt, Titled;
  }

  // ---------- stable addressing ----------

  ghost predicate UniqueNumbers(days: seq<Day>) {
    forall d, e :: 0 <= d < e < |days| && DayNumber(days[d]).Some? ==> DayNumber(days[d]) != DayNumber(days[e])
  }

  lemma LocateInExtension(before: seq<Day>, after: seq<Day>, n: int, i: int)
    requires Extends(before, after) && UniqueNumbers(before)
    requires Locate(before, n, i, 0).Some?
    ensures Locate(after, n, i, 0) == Locate(before, n, i, 0)
  {
    var at := Locate(before, n, i, 0).value;
    LocateInRange(before, n, i, 0);
    LocateInRange(after, n, i, 0);
    assert DayExtends(before[at.d], after[at.d]);
    var found := Locate(after, n, i, 0);
    assert found.Some?;
    if found.value.d < |before| {
      assert DayExtends(before[found.value.d], after[found.value.d]);
    }
  }

  /** The one existing item a handler rewrites. */
  function Target(days: seq<Day>, issue: Issue): Option<Address> {
    match HandlerOf(issue)
    case ForSchema => SchemaTarget(days, issue)
    case ForTransport => ItemOf(days, issue)
    case ForOpeningHours => ItemOf(days, issue)
    case ForBudget => FirstPositive(days, ByCostDescending(days), 0)
    case _ => None
  }

  function SchemaTarget(days: seq<Day>, issue: Issue): Option<Address> {
    match (issue.day, issue.item)
    case (Some(n), Some(i)) => (match DayAt(days, n, 0) case Some(d) => Some(At(d, i)) case None => None)
    case _ => None
  }

  lemma DayAtInExtension(before: seq<Day>, after: seq<Day>, n: int)
    requires Extends(before, after) && UniqueNumbers(before)
    requires DayAt(before, n, 0).Some?
    ensures DayAt(after, n, 0) == DayAt(before, n, 0)
  {
    var d := DayAt(before, n, 0).value;
    DayAtInRange(before, n, 0);
    DayAtInRange(after, n, 0);
    assert DayExtends(before[d], after[d]);
    var found := DayAt(after, n, 0);
    assert found.Some?;
    if found.value < |before| {
      assert DayExtends(before[found.value], after[found.value]);
    }
  }

  lemma TargetInExtension(before: seq<Day>, after: seq<Day>, issue: Issue)
    requires Extends(before, after) && UniqueNumbers(before)
    requires !HandlerOf(issue).ForBudget? && Target(before, issue).Some?
    ensures Target(after, issue) == Target(before, issue)
  {
    hide HandlerOf, Extends, UniqueNumbers, Locate, DayAt, FirstPositive, ByCostDescending;
    if HandlerOf(issue).ForSchema? {
      DayAtInExtension(before, after, issue.day.value);
    } else {
      LocateInExtension(before, after, issue.day.value, issue.item.value);
    }
  }

  /** With unique day numbers and no day-count issue, whatever the earlier issues did, every issue rewrites
      the item at the day and index it has in the input. A budget issue names none: it goes by cost. */
  lemma AddressesAreStable(request: Request, k: nat)
    requires UniqueNumbers(request.days) && !NeedsDayCountRepair(request.issues)
    requires k < |request.issues| && !HandlerOf(request.issues[k]).ForBudget?
    requires Target(request.days, request.issues[k]).Some?
    ensures var now := HandledAll(Normalized(request), request.issues[..k], request).days;
            Target(now, request.issues[k]) == Target(request.days, request.issues[k])
  {
    hide NeedsDayCountRepair, UniqueNumbers, Extends, Target, HandledAll;
    var l := Ledger(request.days, []);
    assert Normalized(request) == l;
    HandlersExtend(l, request.issues[..k], request);
    TargetInExtension(request.days, HandledAll(l, request.issues[..k], request).days, request.issues[k]);
  }

  ghost predicate Kept(before: seq<Day>, after: seq<Day>, at: Address)
    requires InRange(before, at)
  {
    InRange(after, at) && after[at.d].items[at.i] == before[at.d].items[at.i]
  }

  /** Every other existing item is left exactly as it was. */
  lemma OtherItemsUntouched(l: Ledger, issue: Issue, request: Request, at: Address)
    requires InRange(l.days, at) && Target(l.days, issue) != Some(at)
    ensures Kept(l.days, Handled(l, issue, request).days, at)
  {
    hide SchemaRepaired, TransferAdded, MovedAfterTransport, MovedToOpeningHours, CostRiskReduced, Kept;
    hide HandlerOf, ItemOf, SchemaTarget, FirstPositive, ByCostDescending;
    match HandlerOf(issue) {
      case ForSchema => SchemaUntouched(l, issue, request.currency, at);
      case ForTransport => MovesUntouched(l, issue, request, at);
      case ForTransfer => TransferUntouched(l, issue, request, at);
      case ForOpeningHours => MovesUntouched(l, issue, request, at);
      case ForBudget => CutUntouched(l, request.currency, at);
      case NoHandler => KeptItself(l.days, at);
    }
  }

  lemma KeptTransitive(a: seq<Day>, b: seq<Day>, c: seq<Day>, at: Address)
    requires InRange(a, at) && Kept(a, b, at) && Kept(b, c, at)
    ensures Kept(a, c, at)
  {
  }

  /** No issue in the list rewrites the item at this address, as the itinerary stands when its turn comes. */
  ghost predicate Untargeted(l: Ledger, issues: seq<Issue>, request: Request, at: Address) {
    forall k :: 0 <= k < |issues| ==> Target(HandledAll(l, issues[..k], request).days, issues[k]) != Some(at)
  }

  lemma {:induction false} UntargetedStays(l: Ledger, issues: seq<Issue>, request: Request, at: Address)
    requires InRange(l.days, at) && Untargeted(l, issues, request, at)
    ensures Kept(l.days, HandledAll(l, issues, request).days, at)
  {
    if issues == [] {
      KeptItself(l.days, at);
    } else {
      var n := |issues| - 1;
      UntargetedBefore(l, issues, request, at);
      UntargetedStays(l, issues[..n], request, at);
      var before := HandledAll(l, issues[..n], request);
      OtherItemsUntouched(before, issues[n], request, at);
      hide Handled, Target, Untargeted;
      KeptTransitive(l.days, before.days, Handled(before, issues[n], request).days, at);
    }
  }

  lemma UntargetedBefore(l: Ledger, issues: seq<Issue>, request: Request, at: Address)
    requires issues != [] && Untargeted(l, issues, request, at)
    ensures Untargeted(l, issues[..|issues| - 1], request, at)
  {
    hide Target, HandledAll;
    var front := issues[..|issues| - 1];
    forall k | 0 <= k < |front|
      ensures Target(HandledAll(l, front[..k], request).days, front[k]) != Some(at)
    {
      assert front[..k] == issues[..k] && front[k] == issues[k];
    }
  }

  /** The items at the indices, below `n`, that satisfy `p`. */
  ghost function Picked(items: seq<Item>, p: nat -> bool, n: nat): seq<Item>
    requires n <= |items|
  {
    if n == 0 then [] else if p(n - 1) then Picked(items, p, n - 1) + [items[n - 1]] else Picked(items, p, n - 1)
  }

  lemma {:induction false} PickedIsThere(a: seq<Item>, b: seq<Item>, p: nat -> bool, n: nat)
    requires n <= |a| <= |b| && forall i: nat :: i < |a| && p(i) ==> b[i] == a[i]
    ensures multiset(Picked(a, p, n)) <= multiset(b[..n])
  {
    if n == 0 {
    } else {
      PickedIsThere(a, b, p, n - 1);
      assert b[..n] == b[..n - 1] + [b[n - 1]];
    }
  }

  ghost function UntargetedOn(l: Ledger, issues: seq<Issue>, request: Request, d: nat): nat -> bool {
    (i: nat) => Untargeted(l, issues, request, At(d, i))
  }

  /** What a whole run does not touch: every item of the (normalised) input that no issue targets keeps its
      place until the closing sort, and the day it stood in ends with all of them, as often as they occurred. */
  lemma RunKeepsUntargeted(request: Request, d: nat)
    requires d < |Normalized(request).days|
    ensures var l := Normalized(request);
            var before, after := l.days[d].items, Repaired(request).days;
            var p := UntargetedOn(l, request.issues, request, d);
            && d < |HandledAll(l, request.issues, request).days| == |after|
            && (forall i: nat :: i < |before| && p(i) ==> Kept(l.days, HandledAll(l, request.issues, request).days, At(d, i)))
            && multiset(Picked(before, p, |before|)) <= multiset(after[d].items)
  {
    var l, issues := Normalized(request), request.issues;
    var handled := HandledAll(l, issues, request).days;
    var p := UntargetedOn(l, issues, request, d);
    HandlersExtend(l, issues, request);
    hide Normalized, HandledAll, Untargeted;
    assert DayExtends(l.days[d], handled[d]);
    forall i: nat | i < |l.days[d].items| && p(i)
      ensures Kept(l.days, handled, At(d, i))
    {
      UntargetedStays(l, issues, request, At(d, i));
    }
    SortPermutesDays(handled, d);
    PickedInDay(l.days, handled, d, p);
  }

  lemma PickedInDay(before: seq<Day>, after: seq<Day>, d: nat, p: nat -> bool)
    requires d < |before| && d < |after| && |before[d].items| <= |after[d].items|
    requires forall i: nat :: i < |before[d].items| && p(i) ==> Kept(before, after, At(d, i))
    ensures multiset(Picked(before[d].items, p, |before[d].items|)) <= multiset(after[d].items)
  {
    var a, b := before[d].items, after[d].items;
    forall i: nat | i < |a| && p(i)
      ensures b[i] == a[i]
    {
      assert Kept(before, after, At(d, i));
    }
    PickedIsThere(a, b, p, |a|);
    assert b == b[..|a|] + b[|a|..];
  }

  lemma KeptItself(days: seq<Day>, at: Address)
    requires InRange(days, at)
    ensures Kept(days, days, at)
  {
  }

  lemma MovesUntouched(l: Ledger, issue: Issue, request: Request, at: Address)
    requires InRange(l.days, at) && ItemOf(l.days, issue) != Some(at)
    ensures Kept(l.days, MovedAfterTransport(l, issue, request).days, at)
    ensures Kept(l.days, MovedToOpeningHours(l, issue).days, at)
  {
    hide ItemOf, AfterTransport, InOpeningHours, ArrivalOf;
  }

  lemma CutUntouched(l: Ledger, currency: string, at: Address)
    requires InRange(l.days, at) && FirstPositive(l.days, ByCostDescending(l.days), 0) != Some(at)
    ensures Kept(l.days, CostRiskReduced(l, currency).days, at)
  {
    hide FirstPositive, ByCostDescending, Cheaper;
  }

  lemma FilledUntouched(items: seq<Item>, issue: Issue, currency: string, i: nat)
    requires i < |items| && issue.item != Some(i)
    ensures var filled := ItemsFilled(items, issue, currency).0; i < |filled| && filled[i] == items[i]
  {
    hide SchemaFilled, PlaceholderItem, CompactOf;
    if issue.item.Some? {
      PaddedExtends(items, issue.item.value + 1, currency);
    }
  }

  lemma SchemaUntouched(l: Ledger, issue: Issue, currency: string, at: Address)
    requires InRange(l.days, at) && SchemaTarget(l.days, issue) != Some(at)
    ensures Kept(l.days, SchemaRepaired(l, issue, currency).days, at)
  {
    if issue.day.Some? {
      var n := issue.day.value;
      WithDayExtends(l.days, n, currency);
      SchemaTargetIsDay(l.days, issue, n, currency);
      SchemaRepairedDays(l, issue, n, currency);
      var (days, d) := WithDay(l.days, n, currency);
      TitledHasTitle(days[d], n);
      hide Strip, PlaceholderDay, ItemsFilled, WithDay, SchemaTarget, SchemaRepaired, Titled, Extends;
      var items := Titled(days[d], n).items;
      if d == at.d {
        FilledUntouched(items, issue, currency, at.i);
      }
      KeptUnderDay(days, d, Titled(days[d], n).(items := ItemsFilled(items, issue, currency).0), at);
    }
  }

  lemma KeptUnderDay(days: seq<Day>, d: nat, day: Day, at: Address)
    requires d < |days| && InRange(days, at)
    requires d == at.d ==> at.i < |day.items| && day.items[at.i] == days[d].items[at.i]
    ensures Kept(days, days[d := day], at)
  {
  }

  lemma SchemaRepairedDays(l: Ledger, issue: Issue, n: int, currency: string)
    requires issue.day == Some(n)
    requires WithDay(l.days, n, currency).1 < |WithDay(l.days, n, currency).0|
    ensures var (days, d) := WithDay(l.days, n, currency);
            var day := Titled(days[d], n);
            SchemaRepaired(l, issue, currency).days == days[d := day.(items := ItemsFilled(day.items, issue, currency).0)]
  {
    hide WithDay, Titled, ItemsFilled, PlaceholderDay;
  }

  lemma SchemaTargetIsDay(days: seq<Day>, issue: Issue, n: int, currency: string)
    requires issue.day == Some(n)
    ensures var d := WithDay(days, n, currency).1;
            d < |days| && issue.item.Some? ==> SchemaTarget(days, issue) == Some(At(d, issue.item.value))
  {
  }

  lemma TransferUntouched(l: Ledger, issue: Issue, request: Request, at: Address)
    requires InRange(l.days, at)
    ensures Kept(l.days, TransferAdded(l, issue, request).days, at)
  {
    hide WithDay, PlaceholderDay, TransferItem, TransferDay, TransferLegId, Extends, Count;
    match LegOf(request, issue) {
      case None =>
      case Some(leg) =>
        match TransferDay(l.days, issue, leg) {
          case None =>
          case Some(n) =>
            WithDayExtends(l.days, n, request.currency);
            var (days, d) := WithDay(l.days, n, request.currency);
            var item := TransferItem(leg, TransferLegId(issue, leg), request.currency);
            KeptUnderDay(days, d, days[d].(items := days[d].items + [item]), at);
        }
    }
  }

  // ---------- the days of a whole run ----------

  /** An issue that makes its handler append a day to a trip numbered 1..expected: it names a day outside the
      trip, and either asks for a required field, or for a transfer of a known leg with an id (day 0 counts as
      no day there). */
  predicate AddsDay(request: Request, issue: Issue, expected: nat) {
    && issue.day.Some? && !(1 <= issue.day.value <= expected)
    && (HandlerOf(issue).ForSchema? || (HandlerOf(issue).ForTransfer? && issue.day != Some(0) && NamesLeg(request, issue)))
  }

  predicate NamesLeg(request: Request, issue: Issue) {
    match LegOf(request, issue) case None => false case Some(leg) => TransferLegId(issue, leg) != ""
  }

  lemma DayAtNumbered(days: seq<Day>, n: int)
    requires Numbered(days)
    ensures DayAt(days, n, 0) == if 1 <= n <= |days| then Some(n - 1) else None
  {
    hide DayAt, Strip;
    DayAtInRange(days, n, 0);
    if 1 <= n <= |days| {
      assert NumberedAs(days[n - 1], n);
    }
    if DayAt(days, n, 0).Some? {
      var d := DayAt(days, n, 0).value;
      assert NumberedAs(days[d], d + 1);
    }
  }

  lemma {:induction false} StopNumber(days: seq<Day>, stop: string, d: nat)
    requires Numbered(days)
    ensures match FirstAtStop(days, stop, d) case None => true case Some(n) => 1 <= n <= |days|
    decreases |days| - d
  {
    if d < |days| {
      assert NumberedAs(days[d], d + 1);
      StopNumber(days, stop, d + 1);
    }
  }

  /** On numbered days a handler appends a day exactly when the issue is of that kind. */
  lemma NewDayExactly(l: Ledger, issue: Issue, request: Request)
    requires Numbered(l.days) && l.days != []
    ensures |Handled(l, issue, request).days| ==
              |l.days| + (if AddsDay(request, issue, |l.days|) then 1 else 0)
  {
    hide SchemaRepaired, TransferAdded, MovedAfterTransport, MovedToOpeningHours, CostRiskReduced;
    hide HandlerOf, Numbered, NamesLeg;
    match HandlerOf(issue) {
      case ForSchema => NewDayFromSchema(l, issue, request.currency);
      case ForTransfer => NewDayFromTransfer(l, issue, request);
      case _ => NoDayFromMoves(l, issue, request);
    }
  }

  lemma NoDayFromMoves(l: Ledger, issue: Issue, request: Request)
    ensures |MovedAfterTransport(l, issue, request).days| == |l.days|
    ensures |MovedToOpeningHours(l, issue).days| == |l.days|
    ensures |CostRiskReduced(l, request.currency).days| == |l.days|
  {
    hide ItemOf, AfterTransport, InOpeningHours, ArrivalOf, FirstPositive, ByCostDescending, Cheaper;
  }

  lemma NewDayFromSchema(l: Ledger, issue: Issue, currency: string)
    requires Numbered(l.days) && l.days != []
    ensures |SchemaRepaired(l, issue, currency).days| ==
              |l.days| + (if issue.day.Some? && !(1 <= issue.day.value <= |l.days|) then 1 else 0)
  {
    if issue.day.Some? {
      DayAtNumbered(l.days, issue.day.value);
    }
    hide DayAt, Titled, ItemsFilled, PlaceholderDay, Numbered;
  }

  lemma NewDayFromTransfer(l: Ledger, issue: Issue, request: Request)
    requires Numbered(l.days) && l.days != []
    ensures var adds := issue.day.Some? && !(1 <= issue.day.value <= |l.days|) && issue.day != Some(0) && NamesLeg(request, issue);
            |TransferAdded(l, issue, request).days| == |l.days| + (if adds then 1 else 0)
  {
    match LegOf(request, issue) {
      case None =>
      case Some(leg) =>
        TransferDayOnNumbered(l.days, issue, leg);
        match TransferDay(l.days, issue, leg) {
          case None =>
          case Some(n) => DayAtNumbered(l.days, n);
        }
        hide DayAt, PlaceholderDay, TransferItem, TransferDay, Numbered, TransferLegId, LegOf;
    }
  }

  lemma TransferDayOnNumbered(days: seq<Day>, issue: Issue, leg: Leg)
    requires Numbered(days) && days != []
    ensures var day := TransferDay(days, issue, leg);
            if issue.day.Some? && issue.day != Some(0) then day == issue.day
            else day.Some? && 1 <= day.value <= |days|
  {
    StopNumber(days, leg.toStop, 0);
    assert NumberedAs(days[0], 1);
  }

  ghost predicate SomeAddsDay(request: Request, issues: seq<Issue>, expected: nat) {
    exists k :: 0 <= k < |issues| && AddsDay(request, issues[k], expected)
  }

  lemma SomeAddsDayNext(request: Request, issues: seq<Issue>, expected: nat)
    requires issues != []
    ensures SomeAddsDay(request, issues, expected) <==>
            SomeAddsDay(request, issues[..|issues| - 1], expected) || AddsDay(request, issues[|issues| - 1], expected)
  {
    hide AddsDay;
    var n := |issues| - 1;
    assert forall k :: 0 <= k < n ==> issues[..n][k] == issues[k];
    if SomeAddsDay(request, issues[..n], expected) {
      var k :| 0 <= k < n && AddsDay(request, issues[..n][k], expected);
      assert AddsDay(request, issues[k], expected);
    }
  }

  lemma {:induction false} HandlersKeepNumbers(l: Ledger, issues: seq<Issue>, request: Request)
    requires Numbered(l.days) && l.days != []
    ensures var after := HandledAll(l, issues, request).days;
            if SomeAddsDay(request, issues, |l.days|) then |after| > |l.days|
            else |after| == |l.days| && Numbered(after)
  {
    if issues != [] {
      var front, last := issues[..|issues| - 1], issues[|issues| - 1];
      HandlersKeepNumbers(l, front, request);
      SomeAddsDayNext(request, issues, |l.days|);
      var before := HandledAll(l, front, request);
      HandlerExtends(before, last, request);
      hide Handled, SomeAddsDay, AddsDay;
      if |before.days| == |l.days| {
        NewDayExactly(before, last, request);
        if !AddsDay(request, last, |l.days|) {
          NumberedInExtension(before.days, Handled(before, last, request).days);
        }
      }
    }
  }

  lemma NumberedInExtension(before: seq<Day>, after: seq<Day>)
    requires Numbered(before) && Extends(before, after) && |after| == |before|
    ensures Numbered(after)
  {
    forall d | 0 <= d < |after|
      ensures NumberedAs(after[d], d + 1)
    {
      assert NumberedAs(before[d], d + 1) && DayExtends(before[d], after[d]);
    }
  }

  lemma SortKeepsNumbers(days: seq<Day>)
    ensures |SortedDays(days)| == |days|
    ensures Numbered(SortedDays(days)) <==> Numbered(days)
  {
    SortedDaysLength(days);
    hide NumberedAs, SortedDays;
    forall d | 0 <= d < |days|
      ensures NumberedAs(SortedDays(days)[d], d + 1) <==> NumberedAs(days[d], d + 1)
    {
      SortedDayIsNumbered(days[d], d + 1);
    }
    forall d | 0 <= d < |days|
      ensures Numbered(SortedDays(days)) ==> NumberedAs(days[d], d + 1)
    {
      if Numbered(SortedDays(days)) {
        assert NumberedAs(SortedDays(days)[d], d + 1);
      }
    }
  }

  lemma SortedDayIsNumbered(day: Day, n: int)
    ensures NumberedAs(SortedDay(day), n) <==> NumberedAs(day, n)
  {
    hide Strip, Sort;
  }

  /** When a day-count issue is present and the trip length is known, the result has days numbered exactly
      1..expected, and normalising it again changes and reports nothing, if and only if no issue in the list
      adds a day of its own. */
  lemma RunNumbersDays(request: Request)
    requires NeedsDayCountRepair(request.issues) && request.expectedDays > 0
    ensures var after, expected := Repaired(request), request.expectedDays;
            && (|after.days| == expected && Numbered(after.days)
                <==> forall k :: 0 <= k < |request.issues| ==> !AddsDay(request, request.issues[k], expected))
            && (DayCountNormalizedIn(after, expected, request.currency) == after
                <==> forall k :: 0 <= k < |request.issues| ==> !AddsDay(request, request.issues[k], expected))
  {
    NormalDaysAreNumbered(request.days, request.expectedDays, request.currency);
    var l := Normalized(request);
    HandlersKeepNumbers(l, request.issues, request);
    SortKeepsNumbers(HandledAll(l, request.issues, request).days);
    NormalDaysAreNumbered(Repaired(request).days, request.expectedDays, request.currency);
    hide Numbered, AddsDay, HandledAll, SortedDays, NormalDays, NeedsDayCountRepair, SomeDayDiffers;
    if |Repaired(request).days| == request.expectedDays && Numbered(Repaired(request).days) {
      NormalizingAgainReportsNothing(Repaired(request), request.expectedDays, request.currency);
    }
  }

  lemma {:induction false} LowerOfLower(s: string)
    requires forall i :: 0 <= i < |s| ==> !('A' <= s[i] <= 'Z')
    ensures Lower(s) == s
  {
    if s != "" {
      LowerOfLower(s[1..]);
      assert s == [s[0]] + s[1..];
    }
  }

  const MISCOUNT := Issue("day_count", "schema", None, None, "")
  const THIRD_DAY := Issue("schema_missing_required_field", "schema", Some(3), None, "")
  const ONE_DAY_TRIP := Request([], "EUR", "EUR", [MISCOUNT, THIRD_DAY], 1, [])

  /** A one-day trip with a day-count issue and a field missing on day 3 is repaired to a different number of
      days than expected. */
  lemma OneDayTripGrows()
    ensures NeedsDayCountRepair(ONE_DAY_TRIP.issues) && AddsDay(ONE_DAY_TRIP, THIRD_DAY, 1)
    ensures !(|Repaired(ONE_DAY_TRIP).days| == 1 && Numbered(Repaired(ONE_DAY_TRIP).days))
  {
    hide Repaired, Numbered, IsDayCountIssue, AddsDay;
    MiscountIsSeen();
    ThirdDayIsAdded();
    assert ONE_DAY_TRIP.issues[0] == MISCOUNT && ONE_DAY_TRIP.issues[1] == THIRD_DAY;
    RunNumbersDays(ONE_DAY_TRIP);
  }

  lemma MiscountIsSeen()
    ensures IsDayCountIssue(MISCOUNT)
  {
    LowerOfLower(MISCOUNT.id);
    ContainsItself("day_count");
    hide Lower, Contains;
  }

  lemma ThirdDayIsAdded()
    ensures AddsDay(ONE_DAY_TRIP, THIRD_DAY, 1)
  {
    hide Contains, NamesLeg, LegOf, DayNumber;
    ThirdDayIsLower();
    hide Lower;
  }

  lemma ThirdDayIsLower()
    ensures Lower(THIRD_DAY.id) == "schema_missing_required_field"
  {
    hide Contains, HandlerOf;
    LowerOfLower(THIRD_DAY.id);
  }

  // ---------- runs that log nothing ----------

  lemma HandlerAppends(l: Ledger, issue: Issue, request: Request)
    ensures l.changes <= Handled(l, issue, request).changes
  {
    hide HandlerOf, ItemOf, AfterTransport, InOpeningHours, ArrivalOf, FirstPositive, ByCostDescending, Cheaper;
    hide WithDay, Titled, ItemsFilled, PlaceholderDay, LegOf, TransferDay, TransferLegId, TransferItem, Count;
  }

  predicate HasCode(item: Item) {
    item.cost.Priced? && item.cost.currency.Code?
  }

  /** Grows with every quiet repair. */
  function Settled(day: Day): nat {
    |day.items| + Count(day.items, HasCode)
  }

  lemma {:induction false} PaddedSettles(items: seq<Item>, size: nat, currency: string)
    requires size >= |items|
    ensures Count(Padded(items, size, currency), HasCode) >= Count(items, HasCode)
    decreases size - |items|
  {
    if |items| < size {
      PaddedSettles(items + [PlaceholderItem(currency)], size, currency);
      CountConcat(items, [PlaceholderItem(currency)], HasCode);
    }
  }

  lemma QuietPaddingSettles(items: seq<Item>, issue: Issue, i: nat, currency: string)
    requires issue.item == Some(i) && i >= |items|
    ensures var filled := ItemsFilled(items, issue, currency).0;
            |filled| > |items| && Count(filled, HasCode) >= Count(items, HasCode)
  {
    hide ItemsFilled, Count, Padded;
    PaddingIsUnlogged(items, i, issue, currency);
    PaddedSettles(items, i + 1, currency);
  }

  lemma QuietCurrencySettles(items: seq<Item>, issue: Issue, i: nat, currency: string)
    requires issue.item == Some(i) && i < |items| && OnlyCurrencyIsOff(items[i])
    ensures var filled := ItemsFilled(items, issue, currency).0;
            |filled| == |items| && Count(filled, HasCode) == Count(items, HasCode) + 1
  {
    hide Count, Padded, CompactOf, RecordedBefore, NonBlank, Strip;
    PaddedIsSame(items, i + 1, currency);
    CountUpdate(items, i, SchemaFilled(items[i], currency), HasCode);
  }

  lemma QuietFillSettles(day: Day, issue: Issue, i: nat, currency: string)
    requires issue.item == Some(i) && (i >= |day.items| || OnlyCurrencyIsOff(day.items[i]))
    ensures Settled(day.(items := ItemsFilled(day.items, issue, currency).0)) > Settled(day)
  {
    hide Count, ItemsFilled, OnlyCurrencyIsOff;
    if i >= |day.items| {
      QuietPaddingSettles(day.items, issue, i, currency);
    } else {
      QuietCurrencySettles(day.items, issue, i, currency);
    }
  }

  lemma QuietStepSettles(l: Ledger, issue: Issue, currency: string)
    requires FillsQuietly(l.days, issue)
    ensures Total(SchemaRepaired(l, issue, currency).days, Settled) > Total(l.days, Settled)
  {
    var n, i := issue.day.value, issue.item.value;
    var d := DayAt(l.days, n, 0).value;
    DayAtInRange(l.days, n, 0);
    hide DayAt, OnlyCurrencyIsOff, ItemsFilled, Settled, Total, Titled, Strip;
    TitledHasTitle(l.days[d], n);
    SchemaRepairedDays(l, issue, n, currency);
    QuietFillSettles(l.days[d], issue, i, currency);
    TotalUpdate(l.days, d, l.days[d].(items := ItemsFilled(l.days[d].items, issue, currency).0), Settled);
  }

  /** One of the issues asks for a quiet repair of the days as they are. */
  ghost predicate SomeQuiet(days: seq<Day>, issues: seq<Issue>) {
    exists k :: 0 <= k < |issues| && IsQuiet(days, issues[k])
  }

  predicate IsQuiet(days: seq<Day>, issue: Issue) {
    HandlerOf(issue).ForSchema? && FillsQuietly(days, issue)
  }

  lemma SomeQuietNext(days: seq<Day>, issues: seq<Issue>)
    requires issues != []
    ensures var n := |issues| - 1;
            SomeQuiet(days, issues) <==> SomeQuiet(days, issues[..n]) || IsQuiet(days, issues[n])
  {
    hide IsQuiet;
    var n := |issues| - 1;
    assert forall k :: 0 <= k < n ==> issues[..n][k] == issues[k];
    if SomeQuiet(days, issues[..n]) {
      var k :| 0 <= k < n && IsQuiet(days, issues[..n][k]);
      assert IsQuiet(days, issues[k]);
    }
  }

  lemma UnloggedStep(l: Ledger, issue: Issue, request: Request)
    requires Handled(l, issue, request).changes == l.changes
    ensures var after := Handled(l, issue, request).days;
            if IsQuiet(l.days, issue) then Total(after, Settled) > Total(l.days, Settled) else after == l.days
  {
    hide FillsQuietly, Settled, Total, HandlerOf, SchemaRepaired, TransferAdded, MovedAfterTransport, MovedToOpeningHours;
    hide CostRiskReduced;
    UnloggedChanges(l, issue, request);
    if IsQuiet(l.days, issue) {
      QuietStepSettles(l, issue, request.currency);
    }
  }

  /** While nothing is logged, the days grow more settled from the first quiet repair on, and are the input until
      then: so only the input decides. */
  lemma {:induction false} UnloggedSteps(l: Ledger, issues: seq<Issue>, request: Request)
    ensures l.changes <= HandledAll(l, issues, request).changes
    ensures var after := HandledAll(l, issues, request);
            after.changes == l.changes ==>
              if SomeQuiet(l.days, issues) then Total(after.days, Settled) > Total(l.days, Settled) else after == l
  {
    if issues != [] {
      hide Handled, IsQuiet, SomeQuiet, Settled, Total;
      var n := |issues| - 1;
      UnloggedSteps(l, issues[..n], request);
      SomeQuietNext(l.days, issues);
      var before := HandledAll(l, issues[..n], request);
      HandlerAppends(before, issues[n], request);
      if Handled(before, issues[n], request).changes == l.changes {
        UnloggedStep(before, issues[n], request);
      }
    }
  }

  /** Normalising reports nothing and changes the days all the same: as many days as expected, carrying the
      expected numbers, but out of order or with a blank title. */
  ghost predicate NormalizesQuietly(request: Request) {
    && NeedsDayCountRepair(request.issues) && request.expectedDays > 0 && |request.days| == request.expectedDays
    && !SomeDayDiffers(request.days, request.expectedDays) && !Numbered(request.days)
  }

  lemma NormalizingLog(request: Request)
    ensures Normalized(request).changes == [] ==>
              (Normalized(request).days != request.days <==> NormalizesQuietly(request))
    ensures NormalizesQuietly(request) ==>
              |Normalized(request).days| == |request.days| && Numbered(Normalized(request).days)
  {
    var l := Ledger(request.days, []);
    NormalDaysAreNumbered(request.days, request.expectedDays, request.currency);
    hide Numbered, NormalDays, SomeDayDiffers, NeedsDayCountRepair;
    if Numbered(request.days) && |request.days| == request.expectedDays {
      NormalizingAgainReportsNothing(l, request.expectedDays, request.currency);
    }
  }

  lemma {:induction false} SortKeepsSettled(days: seq<Day>)
    ensures Total(SortedDays(days), Settled) == Total(days, Settled)
  {
    if days != [] {
      var n := |days| - 1;
      SortKeepsSettled(days[..n]);
      assert days == days[..n] + [days[n]];
      SortedDayIsSettled(days[n]);
      hide SortedDay, Settled;
      TotalConcat(days[..n], [days[n]], Settled);
      TotalConcat(SortedDays(days[..n]), [SortedDay(days[n])], Settled);
      TotalOfOne(days[n]);
      TotalOfOne(SortedDay(days[n]));
    }
  }

  lemma TotalOfOne(day: Day)
    ensures Total([day], Settled) == Settled(day)
  {
    assert [day][1..] == [];
  }

  lemma SortedDayIsSettled(day: Day)
    ensures Settled(SortedDay(day)) == Settled(day)
  {
    NoLaterIsPreorder();
    SortSorts(day.items, NoLater);
    CountOfSort(day.items, HasCode);
    assert |multiset(Sort(day.items, NoLater))| == |multiset(day.items)|;
  }

  ghost predicate InOrder(days: seq<Day>) {
    forall d :: 0 <= d < |days| ==> Sorted(days[d].items, NoLater)
  }

  lemma SortFixesOrder(days: seq<Day>)
    ensures SortedDays(days) == days <==> InOrder(days)
  {
    SortedDaysLength(days);
    NoLaterIsPreorder();
    hide SortedDays, NoLater;
    forall d | 0 <= d < |days|
      ensures SortedDay(days[d]) == days[d] <==> Sorted(days[d].items, NoLater)
    {
      SortFixesDay(days[d]);
    }
    if SortedDays(days) == days {
      assert forall d :: 0 <= d < |days| ==> SortedDay(days[d]) == days[d];
    }
    if InOrder(days) {
      assert forall d :: 0 <= d < |days| ==> SortedDays(days)[d] == days[d];
    }
  }

  lemma SortFixesDay(day: Day)
    ensures SortedDay(day) == day <==> Sorted(day.items, NoLater)
  {
    NoLaterIsPreorder();
    SortSorts(day.items, NoLater);
    hide NoLater, Sort;
    if Sorted(day.items, NoLater) {
      SortedIsFixed(day.items, NoLater);
    }
  }

  /** Nothing in the input gives a run occasion to change it behind the log's back. */
  ghost predicate LeavesAlone(request: Request) {
    && !NormalizesQuietly(request) && !SomeQuiet(request.days, request.issues) && InOrder(request.days)
    && (NonBlank(request.entry) || request.entry == request.currency)
  }

  /** A run that warns that no repair was available returns the itinerary it was given if and only if normalising
      would not reorder or title its days, no issue asks for a repair that is not logged, every day is in the order of
      the closing sort, and the output has a currency. */
  lemma WarningMeansUntouched(request: Request)
    requires Repaired(request).changes == []
    ensures Repaired(request).days == request.days && OutputCurrency(request) == request.entry <==> LeavesAlone(request)
  {
    var l := Normalized(request);
    var handled := HandledAll(l, request.issues, request).days;
    UnloggedSteps(l, request.issues, request);
    NormalizingLog(request);
    SortKeepsSettled(handled);
    hide SomeQuiet, HandledAll, Total, Settled, Normalized, SortedDays, InOrder, Numbered, NonBlank;
    if NormalizesQuietly(request) {
      QuietIsSeen(request);
    } else if !SomeQuiet(request.days, request.issues) {
      SortFixesOrder(request.days);
    }
    CurrencyEntry(request);
  }

  lemma CurrencyEntry(request: Request)
    ensures OutputCurrency(request) == request.entry <==> NonBlank(request.entry) || request.entry == request.currency
    ensures OutputCurrency(request) == request.entry || OutputCurrency(request) == request.currency
  {
    hide Strip;
  }

  /** Days that were put in order quietly are not the days that came in. */
  lemma QuietIsSeen(request: Request)
    requires NormalizesQuietly(request) && Repaired(request).changes == []
    ensures Repaired(request).days != request.days
  {
    var l := Normalized(request);
    var handled := HandledAll(l, request.issues, request).days;
    NormalizingLog(request);
    HandlersExtend(l, request.issues, request);
    SortKeepsNumbers(handled);
    hide HandledAll, Normalized, SortedDays, Numbered, Extends, SomeDayDiffers, NeedsDayCountRepair;
    if |handled| == |l.days| {
      NumberedInExtension(l.days, handled);
    }
  }

  const NOON := Item("12:00", None, "food", "Lunch", "", NoCost, None, None)
  const MORNING := Item("09:00", None, "place", "Walk", "", NoCost, None, None)
  const OUT_OF_ORDER := Request([Day(Some(1), "Day 1", "", [NOON, MORNING])], "EUR", "EUR", [], 1, [])

  /** Without any issue, a day whose items are out of order comes back in order, with the warning. */
  lemma SortingIsUnseen()
    ensures Repaired(OUT_OF_ORDER).changes == [] && Repaired(OUT_OF_ORDER).days != OUT_OF_ORDER.days
  {
    NothingRequested(OUT_OF_ORDER);
    NoonIsLater();
    hide Repaired, NoLater, SortedDays;
    SortFixesOrder(OUT_OF_ORDER.days);
    assert OUT_OF_ORDER.days[0].items == [NOON, MORNING];
    assert !Sorted([NOON, MORNING], NoLater);
  }

  lemma NoonIsLater()
    ensures !NoLater(NOON, MORNING)
  {
    ReadsAs("12:00", 1, 2, 0, 0);
    ReadsAs("09:00", 0, 9, 0, 0);
    hide ToMinutes, Less;
  }

  lemma NothingRequested(request: Request)
    requires request.issues == []
    ensures Repaired(request) == Ledger(SortedDays(request.days), [])
  {
    hide SortedDays;
  }

  const UNPRICED := Item("10:00", None, "food", "Lunch", "", Priced(Some(100.0), NoCurrency, true), None, None)
  const UNPRICED_DAY := Day(Some(1), "Day 1", "", [UNPRICED])
  const FIRST_ITEM := Issue("schema_missing_required_field", "schema", Some(1), Some(0), "")

  /** A complete item whose cost has no currency gets one, and nothing says so. */
  lemma CurrencyFilledUnseen()
    ensures var after := SchemaRepaired(Ledger([UNPRICED_DAY], []), FIRST_ITEM, "EUR");
            after.changes == [] && after.days != [UNPRICED_DAY]
  {
    UnpricedIsOff();
    DayAtInRange([UNPRICED_DAY], 1, 0);
    hide OnlyCurrencyIsOff, SchemaRepaired, NonBlank, UNPRICED, DayAt;
    SchemaLog(Ledger([UNPRICED_DAY], []), FIRST_ITEM, "EUR");
    assert FillsQuietly([UNPRICED_DAY], FIRST_ITEM);
  }

  lemma UnpricedIsOff()
    ensures OnlyCurrencyIsOff(UNPRICED) && NonBlank("Day 1")
  {
    hide Strip;
    NonBlankAt("10:00", 0);
    NonBlankAt("food", 0);
    NonBlankAt("Lunch", 0);
    NonBlankAt("Day 1", 0);
  }

  // ---------- the closing sort ----------

  lemma NoLaterIsPreorder()
    ensures TotalPreorder(NoLater)
  {
    forall x: Item, y: Item
      ensures NoLater(x, y) || NoLater(y, x)
    {
      LessIsAsymmetric(x.name, y.name);
    }
    forall x: Item, y: Item, z: Item | NoLater(x, y) && NoLater(y, z)
      ensures NoLater(x, z)
    {
      if !Less(y.name, x.name) && !Less(z.name, y.name) {
        NotLessIsTransitive(x.name, y.name, z.name);
      }
    }
  }

  /** The closing sort only permutes each day's items, into key order, ties in their old order. */
  lemma SortPermutesDays(days: seq<Day>, d: nat)
    requires d < |days|
    ensures |SortedDays(days)| == |days|
    ensures SortedDays(days)[d].(items := []) == days[d].(items := [])
    ensures multiset(SortedDays(days)[d].items) == multiset(days[d].items)
    ensures Sorted(SortedDays(days)[d].items, NoLater)
    ensures forall key: Item ::
              Filter(SortedDays(days)[d].items, SameKey(key)) == Filter(days[d].items, SameKey(key))
  {
    SortedDaysLength(days);
    NoLaterIsPreorder();
    SortSorts(days[d].items, NoLater);
    forall key: Item
      ensures Filter(Sort(days[d].items, NoLater), SameKey(key)) == Filter(days[d].items, SameKey(key))
    {
      SameKeyIsNoLater(key);
      SortIsStable(days[d].items, NoLater, SameKey(key));
    }
  }

  function SameKey(key: Item): Item -> bool {
    (item: Item) => SortMinutes(item) == SortMinutes(key) && item.name == key.name
  }

  lemma SameKeyIsNoLater(key: Item)
    ensures forall x, y :: SameKey(key)(x) && SameKey(key)(y) ==> NoLater(x, y)
  {
    LessIsAsymmetric(key.name, key.name);
  }

  /** After the minute-keyed sort, well-formed times stand in the order the validator checks on strings. */
  lemma SortedTimesAgreeWithStrings(days: seq<Day>, d: nat, i: nat, j: nat)
    requires d < |days| && |SortedDays(days)| == |days| && i < j < |SortedDays(days)[d].items|
    requires var items := SortedDays(days)[d].items; IsClock(items[i].time) && IsClock(items[j].time)
    ensures var items := SortedDays(days)[d].items; !Less(items[j].time, items[i].time)
  {
    SortPermutesDays(days, d);
    var items := SortedDays(days)[d].items;
    FormatOfParse(items[i].time);
    FormatOfParse(items[j].time);
    OrderAgrees(items[j].time, items[i].time);
    assert NoLater(items[i], items[j]);
  }

  // ---------- one transfer per leg and day ----------

  /** How many transfer items for a leg the day at a position holds; none when there is no such day. */
  function TransfersOn(days: seq<Day>, d: nat, id: string): nat {
    if d < |days| then Count(days[d].items, IsLeg(id)) else 0
  }

  /** No day loses a transfer item of the leg, and only a day without one may gain one. */
  ghost predicate TransfersKept(before: seq<Day>, after: seq<Day>, id: string) {
    forall d: nat :: TransfersOn(after, d, id) in {TransfersOn(before, d, id), Max(1, TransfersOn(before, d, id))}
  }

  lemma TransfersKeptTransitive(a: seq<Day>, b: seq<Day>, c: seq<Day>, id: string)
    requires TransfersKept(a, b, id) && TransfersKept(b, c, id)
    ensures TransfersKept(a, c, id)
  {
    hide TransfersOn;
  }

  lemma {:induction false} SameLegsCount(a: seq<Item>, b: seq<Item>, id: string)
    requires ItemsExtend(a, b)
    requires forall i :: |a| <= i < |b| ==> b[i].leg == None
    ensures Count(b, IsLeg(id)) == Count(a, IsLeg(id))
    decreases |b|
  {
    if b != [] {
      var front := b[..|b| - 1];
      assert b == front + [b[|b| - 1]];
      CountConcat(front, [b[|b| - 1]], IsLeg(id));
      if |a| == |b| {
        var rest := a[..|a| - 1];
        assert a == rest + [a[|a| - 1]];
        CountConcat(rest, [a[|a| - 1]], IsLeg(id));
        SameLegsCount(rest, front, id);
      } else {
        SameLegsCount(a, front, id);
      }
    }
  }

  lemma FilledHasNoNewLegs(items: seq<Item>, issue: Issue, currency: string, id: string)
    ensures Count(ItemsFilled(items, issue, currency).0, IsLeg(id)) == Count(items, IsLeg(id))
  {
    FilledExtends(items, issue, currency);
    FilledHasNoLegs(items, issue, currency);
    hide ItemsFilled;
    SameLegsCount(items, ItemsFilled(items, issue, currency).0, id);
  }

  lemma FilledHasNoLegs(items: seq<Item>, issue: Issue, currency: string)
    ensures var filled := ItemsFilled(items, issue, currency).0;
            |items| <= |filled| && forall i :: |items| <= i < |filled| ==> filled[i].leg == None
  {
    hide Strip, CompactOf;
    match issue.item {
      case Some(i) => PaddedExtends(items, i + 1, currency);
      case None =>
    }
  }

  lemma WithDayKeepsTransfers(days: seq<Day>, n: int, currency: string, id: string)
    ensures forall d: nat :: TransfersOn(WithDay(days, n, currency).0, d, id) == TransfersOn(days, d, id)
  {
    WithDayExtends(days, n, currency);
    SameLegsCount([], PlaceholderDay(n, currency).items, id);
  }

  /** Putting other items on one day decides by that day's count. */
  lemma OneDayDecides(days: seq<Day>, d: nat, day: Day, id: string)
    requires d < |days|
    requires Count(day.items, IsLeg(id)) in {Count(days[d].items, IsLeg(id)), Max(1, Count(days[d].items, IsLeg(id)))}
    ensures TransfersKept(days, days[d := day], id)
  {
    hide Count;
  }

  lemma SameTransfers(a: seq<Day>, b: seq<Day>, c: seq<Day>, id: string)
    requires (forall d: nat :: TransfersOn(b, d, id) == TransfersOn(a, d, id)) && TransfersKept(b, c, id)
    ensures TransfersKept(a, c, id)
  {
    hide TransfersOn;
  }

  lemma HandlerKeepsTransfers(l: Ledger, issue: Issue, request: Request, id: string)
    ensures TransfersKept(l.days, Handled(l, issue, request).days, id)
  {
    hide SchemaRepaired, TransferAdded, MovedAfterTransport, MovedToOpeningHours, CostRiskReduced, TransfersOn, HandlerOf;
    SchemaKeepsTransfers(l, issue, request.currency, id);
    AddedKeepsTransfers(l, issue, request, id);
    MovesKeepTransfers(l, issue, request, id);
  }

  lemma SchemaKeepsTransfers(l: Ledger, issue: Issue, currency: string, id: string)
    ensures TransfersKept(l.days, SchemaRepaired(l, issue, currency).days, id)
  {
    match issue.day {
      case None =>
        SameLegsCount([], PlaceholderDay(1, currency).items, id);
      case Some(n) =>
        WithDayExtends(l.days, n, currency);
        WithDayKeepsTransfers(l.days, n, currency, id);
        SchemaRepairedDays(l, issue, n, currency);
        hide WithDay, ItemsFilled, PlaceholderDay, Titled, SchemaRepaired, Strip, TransfersOn, TransfersKept, Count, Extends;
        var (days, d) := WithDay(l.days, n, currency);
        TitledHasTitle(days[d], n);
        FilledHasNoNewLegs(days[d].items, issue, currency, id);
        OneDayDecides(days, d, Titled(days[d], n).(items := ItemsFilled(days[d].items, issue, currency).0), id);
        SameTransfers(l.days, days, SchemaRepaired(l, issue, currency).days, id);
    }
  }

  lemma KeepsItself(days: seq<Day>, id: string)
    ensures TransfersKept(days, days, id)
  {
    hide TransfersOn;
  }

  lemma AppendedTransfer(items: seq<Item>, item: Item, other: string)
    requires item.leg.Some? && Count(items, IsLeg(item.leg.value)) == 0
    ensures Count(items + [item], IsLeg(other)) ==
              (if item.leg.value == other then 1 else Count(items, IsLeg(other)))
  {
    CountConcat(items, [item], IsLeg(other));
  }

  /** The handler's work once the day is there: that day gets a transfer of the leg unless it has one. */
  lemma AddedOnDay(l: Ledger, issue: Issue, request: Request, leg: Leg, n: int, other: string)
    requires LegOf(request, issue) == Some(leg) && TransferLegId(issue, leg) != ""
    requires TransferDay(l.days, issue, leg) == Some(n)
    ensures var (days, d) := WithDay(l.days, n, request.currency);
            var id, after := TransferLegId(issue, leg), TransferAdded(l, issue, request).days;
            && TransfersKept(days, after, other)
            && d < |days| && d < |after| && after[d].number == Some(n)
            && TransfersOn(after, d, id) == Max(1, TransfersOn(days, d, id))
  {
    var id := TransferLegId(issue, leg);
    var item := TransferItem(leg, id, request.currency);
    assert item.leg == Some(id);
    WithDayExtends(l.days, n, request.currency);
    hide WithDay, TransferItem, TransferDay, TransferLegId, LegOf, Extends, TransfersKept, Count;
    var (days, d) := WithDay(l.days, n, request.currency);
    KeepsItself(days, other);
    if Count(days[d].items, IsLeg(id)) == 0 {
      AppendedTransfer(days[d].items, item, other);
      AppendedTransfer(days[d].items, item, id);
      OneDayDecides(days, d, days[d].(items := days[d].items + [item]), other);
    }
  }

  lemma AddedKeepsTransfers(l: Ledger, issue: Issue, request: Request, id: string)
    ensures TransfersKept(l.days, TransferAdded(l, issue, request).days, id)
  {
    hide WithDay, TransferItem, TransferDay, TransfersOn, TransfersKept, Count, Extends;
    KeepsItself(l.days, id);
    match LegOf(request, issue) {
      case None =>
      case Some(leg) =>
        match TransferDay(l.days, issue, leg) {
          case None =>
          case Some(n) =>
            if TransferLegId(issue, leg) != "" {
              AddedOnDay(l, issue, request, leg, n, id);
              WithDayKeepsTransfers(l.days, n, request.currency, id);
              SameTransfers(l.days, WithDay(l.days, n, request.currency).0, TransferAdded(l, issue, request).days, id);
            }
        }
    }
  }

  /** A transfer issue whose leg, id and day can be found leaves that day with the transfers of the leg it had,
      or with exactly one when it had none. */
  lemma TransferIsThere(l: Ledger, issue: Issue, request: Request, leg: Leg, n: int)
    requires HandlerOf(issue).ForTransfer?
    requires LegOf(request, issue) == Some(leg) && TransferLegId(issue, leg) != ""
    requires TransferDay(l.days, issue, leg) == Some(n)
    ensures var days, id := Handled(l, issue, request).days, TransferLegId(issue, leg);
            exists d: nat :: d < |days| && days[d].number == Some(n)
                             && TransfersOn(days, d, id) == Max(1, TransfersOn(l.days, d, id))
  {
    var id := TransferLegId(issue, leg);
    hide WithDay, TransferDay, TransferLegId, LegOf, TransfersKept, TransfersOn, HandlerOf, TransferAdded;
    hide SchemaRepaired, MovedAfterTransport, MovedToOpeningHours, CostRiskReduced;
    AddedOnDay(l, issue, request, leg, n, id);
    WithDayKeepsTransfers(l.days, n, request.currency, id);
    var d := WithDay(l.days, n, request.currency).1;
    assert TransfersOn(Handled(l, issue, request).days, d, id) == Max(1, TransfersOn(l.days, d, id));
  }

  lemma MovesKeepTransfers(l: Ledger, issue: Issue, request: Request, id: string)
    ensures TransfersKept(l.days, MovedAfterTransport(l, issue, request).days, id)
    ensures TransfersKept(l.days, MovedToOpeningHours(l, issue).days, id)
    ensures TransfersKept(l.days, CostRiskReduced(l, request.currency).days, id)
    ensures TransfersKept(l.days, l.days, id)
  {
    hide ItemOf, FirstPositive, ByCostDescending, WithItem, ArrivalOf, TransfersKept;
    KeepsItself(l.days, id);
    match ItemOf(l.days, issue) {
      case None =>
      case Some(at) =>
        if InRange(l.days, at) {
          RewritesKeepTransfers(l.days, at, ArrivalOf(request, issue), request.currency, id);
        }
    }
    match FirstPositive(l.days, ByCostDescending(l.days), 0) {
      case None =>
      case Some(at) =>
        if InRange(l.days, at) {
          RewritesKeepTransfers(l.days, at, "", request.currency, id);
        }
    }
  }

  lemma RewritesKeepTransfers(days: seq<Day>, at: Address, arrival: string, currency: string, id: string)
    requires InRange(days, at)
    ensures var item := days[at.d].items[at.i];
            && TransfersKept(days, WithItem(days, at, AfterTransport(item, arrival)), id)
            && TransfersKept(days, WithItem(days, at, InOpeningHours(item)), id)
            && TransfersKept(days, WithItem(days, at, Cheaper(item, currency)), id)
  {
    hide TransfersKept;
    var item := days[at.d].items[at.i];
    RewriteKeepsTransfers(days, at, AfterTransport(item, arrival), id);
    RewriteKeepsTransfers(days, at, InOpeningHours(item), id);
    RewriteKeepsTransfers(days, at, Cheaper(item, currency), id);
  }

  lemma RewriteKeepsTransfers(days: seq<Day>, at: Address, item: Item, id: string)
    requires InRange(days, at) && item.leg == days[at.d].items[at.i].leg
    ensures TransfersKept(days, WithItem(days, at, item), id)
  {
    hide TransfersKept, Count;
    CountUpdate(days[at.d].items, at.i, item, IsLeg(id));
    OneDayDecides(days, at.d, days[at.d].(items := days[at.d].items[at.i := item]), id);
  }

  lemma {:induction false} HandlersKeepTransfers(l: Ledger, issues: seq<Issue>, request: Request, id: string)
    ensures TransfersKept(l.days, HandledAll(l, issues, request).days, id)
  {
    hide TransfersKept, Handled;
    if issues == [] {
      KeepsItself(l.days, id);
    } else {
      var front, last := issues[..|issues| - 1], issues[|issues| - 1];
      HandlersKeepTransfers(l, front, request, id);
      var before := HandledAll(l, front, request);
      HandlerKeepsTransfers(before, last, request, id);
      TransfersKeptTransitive(l.days, before.days, Handled(before, last, request).days, id);
    }
  }

  lemma {:induction false} CountOfInsert(x: Item, xs: seq<Item>, p: Item -> bool)
    ensures Count(Insert(x, xs, NoLater), p) == Count([x] + xs, p)
  {
    assert ([x] + xs)[1..] == xs;
    if xs != [] && !NoLater(x, xs[0]) {
      CountOfInsert(x, xs[1..], p);
      assert ([xs[0]] + Insert(x, xs[1..], NoLater))[1..] == Insert(x, xs[1..], NoLater);
      assert ([x] + xs[1..])[1..] == xs[1..];
    }
  }

  lemma {:induction false} CountOfSort(xs: seq<Item>, p: Item -> bool)
    ensures Count(Sort(xs, NoLater), p) == Count(xs, p)
  {
    if xs != [] {
      CountOfSort(xs[1..], p);
      CountOfInsert(xs[0], Sort(xs[1..], NoLater), p);
      assert ([xs[0]] + Sort(xs[1..], NoLater))[1..] == Sort(xs[1..], NoLater);
    }
  }

  lemma SortKeepsTransfers(days: seq<Day>, d: nat, id: string)
    ensures TransfersOn(SortedDays(days), d, id) == TransfersOn(days, d, id)
  {
    SortedDaysLength(days);
    if d < |days| {
      CountOfSort(days[d].items, IsLeg(id));
    }
  }

  /** Whatever the input: between the (normalised) input and the result no day loses a transfer of any leg, and
      a day gains one only if it had none. So a day has at most one where the input had, and new days too. */
  lemma RunKeepsTransfers(request: Request, id: string)
    ensures TransfersKept(Normalized(request).days, Repaired(request).days, id)
  {
    var l := Normalized(request);
    var handled := HandledAll(l, request.issues, request).days;
    HandlersKeepTransfers(l, request.issues, request, id);
    hide TransfersOn, TransfersKept, HandledAll, Normalized, SortedDays;
    forall d: nat
      ensures TransfersOn(SortedDays(handled), d, id) == TransfersOn(handled, d, id)
    {
      SortKeepsTransfers(handled, d, id);
    }
    SortedTransfers(l.days, handled, SortedDays(handled), id);
  }

  lemma SortedTransfers(a: seq<Day>, b: seq<Day>, c: seq<Day>, id: string)
    requires TransfersKept(a, b, id) && forall d: nat :: TransfersOn(c, d, id) == TransfersOn(b, d, id)
    ensures TransfersKept(a, c, id)
  {
    hide TransfersOn;
  }

  /** Normalising takes a day's transfers over with its items: the first input day under the number decides. */
  lemma NormalizingKeepsTransfers(days: seq<Day>, expected: nat, currency: string, n: nat, id: string)
    requires 1 <= n <= expected
    ensures TransfersOn(NormalDays(days, expected, currency), n - 1, id) ==
              match FirstFor(days, n, |days|) case Some(d) => TransfersOn(days, d, id) case None => 0
  {
    NormalDaysAreNumbered(days, expected, currency);
    FirstForIsFirst(days, n, |days|);
    hide NormalDays, Numbered;
    match FirstFor(days, n, |days|) {
      case None => SameLegsCount([], PlaceholderDay(n, currency).items, id);
      case Some(d) => TitledHasTitle(days[d].(number := Some(n)), n);
    }
  }
}
