/** Which items `repair_itinerary` changes, said from its request: the dearest, the late, the days without rest and
    the ones the issues point at, each as far as the limit leaves room. */
module RepairTargets {
  import opened Wrappers
  import opened Text
  import opened Clock
  import opened Sequences
  import opened Itinerary
  import opened Repair
  import opened RepairPlan

  // ---------- the words of the request ----------

  /** One of the selected issue types, or of the issues' types when none is selected, contains the word. */
  ghost predicate IssuesSay(request: Request, word: string) {
    exists w :: SaysIn(request, w, word)
  }

  /** The mode itself, or the issues by a word, ask for an operation. */
  ghost predicate Asks(request: Request, mode: Mode, word: string) {
    request.mode == PolicyCompliance || request.mode == mode || IssuesSay(request, word)
  }

  ghost predicate SaysIn(request: Request, w: string, word: string) {
    (w in request.selected || (request.selected == [] && w in request.issueTypes)) && Contains(w, word)
  }

  /** What the code searches is the words joined by spaces; for a word without a space that is the same. */
  lemma {:induction false} WordsAreSearchedApart(words: seq<string>, word: string)
    requires word != "" && ' ' !in word
    ensures Contains(JoinWith(words, " "), word) <==> exists i :: 0 <= i < |words| && Contains(words[i], word)
  {
    if words == [] {
    } else if |words| == 1 {
      assert Contains(words[0], word) <==> Contains(JoinWith(words, " "), word);
    } else {
      hide Contains;
      var later := words[1..];
      WordsAreSearchedApart(later, word);
      FoundOnOneSide(words[0], JoinWith(later, " "), word);
      assert forall i :: 0 < i < |words| ==> words[i] == later[i - 1];
    }
  }

  lemma FoundOnOneSide(a: string, b: string, word: string)
    requires word != "" && ' ' !in word
    ensures Contains(a + " " + b, word) <==> Contains(a, word) || Contains(b, word)
  {
    var s := a + " " + b;
    if Contains(s, word) {
      var i, j :| 0 <= i <= j <= |s| && s[i..j] == word;
      SliceHas(s, i, j, |a|);
      if j <= |a| {
        assert s == a + (" " + b);
        SliceBefore(a, " " + b, i, j);
      } else {
        assert s[|a|] == ' ' && i > |a|;
        SliceAfter(a + " ", b, i - |a| - 1, j - |a| - 1);
      }
    }
    if Contains(a, word) {
      ContainsFront(a, " ", word);
      ContainsFront(a + " ", b, word);
    }
    if Contains(b, word) {
      ContainsBack(a + " ", b, word);
    }
  }

  lemma SliceHas(s: string, i: nat, j: nat, k: nat)
    requires i <= j <= |s| && k < |s|
    ensures i <= k < j ==> s[k] in s[i..j]
  {
    if i <= k < j {
      assert s[i..j][k - i] == s[k];
    }
  }

  lemma WithoutLetter(s: string, word: string, k: nat)
    requires k < |word| && word[k] !in s
    ensures !Contains(s, word)
  {
    forall i, j | 0 <= i <= j <= |s|
      ensures s[i..j] != word
    {
      assert |s[i..j]| == |word| ==> s[i..j][k] in s;
    }
  }

  lemma WithoutStart(s: string, word: string, a: char, b: char, c: char)
    requires |word| >= 3 && word[..3] == [a, b, c]
    requires forall i :: 0 <= i < |s| - 2 && s[i] == a && s[i + 1] == b ==> s[i + 2] != c
    ensures !Contains(s, word)
  {
    forall i, j | 0 <= i <= j <= |s|
      ensures s[i..j] != word
    {
      if |s[i..j]| == |word| && s[i] == a && s[i + 1] == b {
        assert s[i..j][2] == s[i + 2] && word[2] == word[..3][2];
      } else if |s[i..j]| == |word| {
        assert s[i..j][0] == s[i] && s[i..j][1] == s[i + 1] && word[0] == word[..3][0] && word[1] == word[..3][1];
      }
    }
  }

  /** The name of a mode contains a searched word exactly when the mode asks for that operation by itself. */
  lemma ModeNamesBudget(mode: Mode)
    ensures Contains(ModeName(mode), "budget") <==> mode == ReduceBudgetRisk
  {
    if mode == ReduceBudgetRisk {
      assert ModeName(mode)[7..13] == "budget";
    } else {
      WithoutLetter(ModeName(mode), "budget", 0);
    }
  }

  lemma ModeNamesRest(mode: Mode)
    ensures Contains(ModeName(mode), "rest") <==> mode == AddRestTime
  {
    match mode
    case AddRestTime =>
      assert ModeName(mode)[4..8] == "rest";
    case ReduceBudgetRisk =>
      WithoutStart(ModeName(mode), "rest", 'r', 'e', 's');
    case ReplaceDisallowedItems =>
      WithoutStart(ModeName(mode), "rest", 'r', 'e', 's');
    case FixScheduleRisk =>
      WithoutLetter(ModeName(mode), "rest", 3);
    case ReduceWalking =>
      WithoutLetter(ModeName(mode), "rest", 3);
    case _ =>
      WithoutLetter(ModeName(mode), "rest", 0);
  }

  lemma ModeNamesLate(mode: Mode)
    ensures !Contains(ModeName(mode), "late")
  {
    match mode
    case ReplaceDisallowedItems =>
      WithoutStart(ModeName(mode), "late", 'l', 'a', 't');
    case SelectedIssues =>
      WithoutLetter(ModeName(mode), "late", 1);
    case ReduceBudgetRisk =>
      WithoutLetter(ModeName(mode), "late", 0);
    case AddRestTime =>
      WithoutLetter(ModeName(mode), "late", 0);
    case _ =>
      WithoutLetter(ModeName(mode), "late", 2);
  }

  lemma ModeNamesDisallowed(mode: Mode)
    ensures Contains(ModeName(mode), "disallowed") <==> mode == ReplaceDisallowedItems
  {
    match mode
    case ReplaceDisallowedItems =>
      assert ModeName(mode)[8..18] == "disallowed";
    case PolicyCompliance =>
      WithoutLetter(ModeName(mode), "disallowed", 0);
    case _ =>
      WithoutLetter(ModeName(mode), "disallowed", 6);
  }

  lemma MentionedByIssues(request: Request, word: string)
    ensures Mentions(request, word) <==> Contains(ModeName(request.mode), word) || IssuesSay(request, word)
  {
    var words := IssueWords(request);
    var named := (t: string) => t in request.selected;
    FilterMembers(request.issueTypes, named);
    assert words[0] == ModeName(request.mode);
    hide ModeName, Contains;
    if i :| 0 <= i < |words| && Contains(words[i], word) {
      if i > 0 {
        assert words[i] in request.selected || words[i] in words[1 + |request.selected|..];
        assert SaysIn(request, words[i], word);
      }
    }
    if IssuesSay(request, word) {
      var w :| SaysIn(request, w, word);
      assert w in words;
    }
  }

  /** Which operations a request calls for. */
  lemma OperationsCalledFor(request: Request)
    ensures WantsBudget(request) <==> Asks(request, ReduceBudgetRisk, "budget")
    ensures WantsLate(request) <==> Asks(request, FixScheduleRisk, "late")
    ensures WantsRest(request) <==> Asks(request, AddRestTime, "rest")
    ensures WantsReplacement(request) <==>
              Asks(request, ReplaceDisallowedItems, "disallowed")
  {
    hide ModeName, Contains, Mentions, IssuesSay;
    ModeNamesBudget(request.mode);
    ModeNamesLate(request.mode);
    ModeNamesRest(request.mode);
    ModeNamesDisallowed(request.mode);
    MentionedByIssues(request, "budget");
    MentionedByIssues(request, "late");
    MentionedByIssues(request, "rest");
    MentionedByIssues(request, "disallowed");
  }

  // ---------- the first so many of the wanted items ----------

  ghost predicate ReadsBefore(a: Address, b: Address) {
    a.d < b.d || (a.d == b.d && a.i < b.i)
  }

  /** What an item costs, nothing when no amount can be read. */
  ghost function Price(item: Item): real {
    match item.cost
    case NoCost => 0.0
    case Bare(cents) => cents
    case Priced(amount, _, _) => if amount.Some? then amount.value else 0.0
  }

  ghost predicate IsCostly(days: seq<Day>, t: Address) {
    t.d < |days| && t.i < |days[t.d].items| && Price(days[t.d].items[t.i]) > 0.0
  }

  /** Dearer, or as dear and read before. */
  ghost predicate CutsBefore(days: seq<Day>, a: Address, b: Address) {
    && IsCostly(days, a) && IsCostly(days, b)
    && var x, y := Price(days[a.d].items[a.i]), Price(days[b.d].items[b.i]);
       x > y || (x == y && ReadsBefore(a, b))
  }

  /** The item ends, or without an end time starts, past 21:00. */
  ghost predicate EndsLate(days: seq<Day>, t: Address) {
    && t.d < |days| && t.i < |days[t.d].items|
    && var item := days[t.d].items[t.i];
       IsLateTime(Strip(if item.endTime.Some? && item.endTime.value != "" then item.endTime.value else item.time))
  }

  ghost predicate IsRestful(item: Item) {
    var kind := Lower(Strip(item.kind));
    kind == "rest" || kind == "break" || kind == "free_time" || kind == "freetime"
  }

  /** The place just past the last item of a day without any rest. */
  ghost predicate LacksRest(days: seq<Day>, t: Address) {
    && t.d < |days| && t.i == |days[t.d].items|
    && forall i :: 0 <= i < |days[t.d].items| ==> !IsRestful(days[t.d].items[i])
  }

  /** The first `room` of the wanted addresses, in the given order. */
  ghost predicate TakesFirst(
      targets: seq<Address>, wanted: Address -> bool, before: (Address, Address) -> bool, room: nat)
  {
    && |targets| <= room
    && (forall i :: 0 <= i < |targets| ==> wanted(targets[i]))
    && (forall i, j :: 0 <= i < j < |targets| ==> before(targets[i], targets[j]))
    && (forall t :: wanted(t) && t !in targets ==>
          |targets| == room && forall i :: 0 <= i < |targets| ==> before(targets[i], t))
  }

  ghost function Costly(days: seq<Day>): Address -> bool {
    (t: Address) => IsCostly(days, t)
  }

  ghost function Late(days: seq<Day>): Address -> bool {
    (t: Address) => EndsLate(days, t)
  }

  ghost function Restless(days: seq<Day>): Address -> bool {
    (t: Address) => LacksRest(days, t)
  }

  /** A prefix of all wanted addresses in order is the first so many of them. */
  lemma PrefixTakesFirst(
      all: seq<Address>, targets: seq<Address>, wanted: Address -> bool, before: (Address, Address) -> bool, room: nat)
    requires targets == Take(all, room)
    requires forall t :: t in all <==> wanted(t)
    requires forall i, j :: 0 <= i < j < |all| ==> before(all[i], all[j])
    ensures TakesFirst(targets, wanted, before, room)
  {
    assert targets == all[..|targets|];
    forall i | 0 <= i < |targets|
      ensures wanted(targets[i])
    {
      assert targets[i] == all[i] && all[i] in all;
    }
    forall t | wanted(t) && t !in targets
      ensures |targets| == room && forall i :: 0 <= i < |targets| ==> before(targets[i], t)
    {
      var k :| 0 <= k < |all| && all[k] == t;
      assert k >= |targets|;
    }
  }

  lemma {:induction false} SelectInOrder(days: seq<Day>, p: Item -> bool, d: nat, i: nat)
    ensures Sorted(Select(days, p, d, i), ReadsBefore)
    decreases |days| - d, if d < |days| then |days[d].items| - i else 0
  {
    if d < |days| {
      if i >= |days[d].items| {
        SelectInOrder(days, p, d + 1, 0);
      } else {
        SelectInOrder(days, p, d, i + 1);
        SelectMembers(days, p, d, i + 1);
        if p(days[d].items[i]) {
          InFrontInOrder(At(d, i), Select(days, p, d, i + 1));
        }
      }
    }
  }

  lemma InFrontInOrder(t: Address, rest: seq<Address>)
    requires Sorted(rest, ReadsBefore) && forall u :: u in rest ==> ReadsBefore(t, u)
    ensures Sorted([t] + rest, ReadsBefore)
  {
    var all := [t] + rest;
    assert forall j :: 0 < j < |all| ==> all[j] == rest[j - 1] && rest[j - 1] in rest;
  }

  lemma PriceIsAmount(days: seq<Day>, t: Address)
    ensures IsCostly(days, t) <==> t.d < |days| && t.i < |days[t.d].items| && AmountAt(days, t) > 0.0
    ensures t.d < |days| && t.i < |days[t.d].items| ==> AmountAt(days, t) == Price(days[t.d].items[t.i])
  {
  }

  /** The dearest items come first, of equals the one read first. */
  lemma CostliestFirst(days: seq<Day>)
    ensures forall i, j :: 0 <= i < j < |BudgetTargets(days)| ==> CutsBefore(days, BudgetTargets(days)[i], BudgetTargets(days)[j])
    ensures forall t :: t in BudgetTargets(days) <==> Costly(days)(t)
  {
    var leq := Dearer(days);
    DearerIsPreorder(days);
    SelectInOrder(days, HasAmount, 0, 0);
    SortRanks(Select(days, HasAmount, 0, 0), leq, ReadsBefore);
    FilterRanked(ByCostDescending(days), CostsSomething(days), leq, ReadsBefore);
    BudgetTargetsRanked(days);
    var all := BudgetTargets(days);
    hide BudgetTargets, AmountAt, Price;
    forall t
      ensures t in all <==> Costly(days)(t)
    {
      PriceIsAmount(days, t);
    }
    forall i, j | 0 <= i < j < |all|
      ensures CutsBefore(days, all[i], all[j])
    {
      assert all[i] in all && all[j] in all;
      PriceIsAmount(days, all[i]);
      PriceIsAmount(days, all[j]);
      assert leq(all[i], all[j]);
    }
  }

  lemma {:induction false} FilterRanked(
      xs: seq<Address>, keep: Address -> bool, leq: (Address, Address) -> bool, before: (Address, Address) -> bool)
    requires Ranked(xs, leq, before)
    ensures Ranked(Filter(xs, keep), leq, before)
  {
    if xs != [] {
      assert Ranked(xs[1..], leq, before);
      FilterRanked(xs[1..], keep, leq, before);
      FilterMembers(xs[1..], keep);
      if keep(xs[0]) {
        forall y | y in Filter(xs[1..], keep)
          ensures leq(xs[0], y) && (leq(y, xs[0]) ==> before(xs[0], y))
        {
          var j :| 0 <= j < |xs[1..]| && xs[1..][j] == y;
          assert xs[j + 1] == y;
        }
        RankedCons(xs[0], Filter(xs[1..], keep), leq, before);
      }
    }
  }

  lemma LateInOrder(days: seq<Day>)
    ensures forall i, j :: 0 <= i < j < |LateTargets(days)| ==> ReadsBefore(LateTargets(days)[i], LateTargets(days)[j])
    ensures forall t :: t in LateTargets(days) <==> Late(days)(t)
  {
    SelectInOrder(days, IsLate, 0, 0);
    SelectMembers(days, IsLate, 0, 0);
    hide Select, IsLateTime, Strip;
  }

  lemma {:induction false} RestIsCounted(items: seq<Item>)
    ensures Count(items, IsRest) > 0 <==> exists i :: 0 <= i < |items| && IsRestful(items[i])
  {
    hide Lower, Strip;
    if items != [] {
      RestIsCounted(items[1..]);
      if IsRestful(items[0]) {
        assert IsRest(items[0]);
      }
      assert forall i :: 0 < i < |items| ==> items[i] == items[1..][i - 1];
    }
  }

  /** The targets are the places of the days from `d` on that lack rest, in reading order. */
  ghost predicate AreRestless(days: seq<Day>, d: nat, targets: seq<Address>) {
    && Sorted(targets, ReadsBefore)
    && forall t :: t in targets <==> t.d >= d && LacksRest(days, t)
  }

  lemma OnlyHere(days: seq<Day>, d: nat, t: Address)
    requires d < |days|
    ensures t.d == d && LacksRest(days, t) <==> t == At(d, |days[d].items|) && !HasRest(days[d])
  {
    hide IsRestful;
    RestIsCounted(days[d].items);
  }

  lemma RestlessDay(days: seq<Day>, d: nat, later: seq<Address>)
    requires d < |days| && AreRestless(days, d + 1, later)
    ensures HasRest(days[d]) ==> AreRestless(days, d, later)
    ensures !HasRest(days[d]) ==> AreRestless(days, d, [At(d, |days[d].items|)] + later)
  {
    hide LacksRest, HasRest;
    var here := At(d, |days[d].items|);
    forall t: Address
      ensures t.d == d && LacksRest(days, t) <==> t == here && !HasRest(days[d])
    {
      OnlyHere(days, d, t);
    }
    InFrontInOrder(here, later);
    assert forall t :: t in [here] + later <==> t == here || t in later;
  }

  lemma {:induction false} RestlessInOrder(days: seq<Day>, d: nat)
    ensures AreRestless(days, d, RestTargets(days, d))
    decreases |days| - d
  {
    hide AreRestless, HasRest;
    if d < |days| {
      RestlessInOrder(days, d + 1);
      NextRest(days, d);
      RestlessDay(days, d, RestTargets(days, d + 1));
    } else {
      NoneRestless(days, d);
    }
  }

  lemma NoneRestless(days: seq<Day>, d: nat)
    requires d >= |days|
    ensures AreRestless(days, d, [])
  {
  }

  // ---------- the items the issues point at ----------

  ghost predicate IsNumbered(day: Day, number: int) {
    day.number == Some(number) && number > 0
  }

  /** The first day that has a number and an item. */
  ghost predicate IsFirstWithItem(days: seq<Day>, d: nat, number: int) {
    && d < |days| && IsNumbered(days[d], number) && days[d].items != []
    && forall e, n :: 0 <= e < d && IsNumbered(days[e], n) ==> days[e].items == []
  }

  /** The issues' own pairs of a day number and an item index; without any, the first item of the first numbered
      day that has items. */
  ghost predicate AreAffected(request: Request, pairs: seq<(int, int)>) {
    if request.affected != [] then pairs == request.affected
    else
      || (exists d: nat, n :: IsFirstWithItem(request.days, d, n) && pairs == [(n, 0)])
      || (pairs == [] && forall d: nat, n :: !IsFirstWithItem(request.days, d, n))
  }

  lemma {:induction false} FirstItemIsFirst(days: seq<Day>)
    ensures var pairs := FirstItem(days);
            || (exists d: nat, n :: IsFirstWithItem(days, d, n) && pairs == [(n, 0)])
            || (pairs == [] && forall d: nat, n :: !IsFirstWithItem(days, d, n))
  {
    if days != [] {
      if days[0].items != [] && DayNumber(days[0]).Some? {
        assert IsFirstWithItem(days, 0, DayNumber(days[0]).value);
      } else {
        var rest := days[1..];
        FirstItemIsFirst(rest);
        forall d: nat, n
          ensures IsFirstWithItem(days, d, n) <==> d > 0 && IsFirstWithItem(rest, d - 1, n)
        {
          FirstIsLater(days, d, n);
        }
        if d: nat, n :| IsFirstWithItem(rest, d, n) {
          assert IsFirstWithItem(days, d + 1, n);
        }
      }
    }
  }

  lemma FirstIsLater(days: seq<Day>, d: nat, n: int)
    requires days != [] && !(days[0].items != [] && DayNumber(days[0]).Some?)
    ensures IsFirstWithItem(days, d, n) <==> d > 0 && IsFirstWithItem(days[1..], d - 1, n)
  {
    var rest := days[1..];
    if d > 0 && d < |days| {
      assert days[d] == rest[d - 1];
      assert forall e :: 0 <= e < d - 1 ==> rest[e] == days[e + 1];
      if IsFirstWithItem(rest, d - 1, n) {
        forall e: nat, m | e < d && IsNumbered(days[e], m)
          ensures days[e].items == []
        {
          assert e > 0 ==> IsNumbered(rest[e - 1], m);
        }
      }
    }
  }

  lemma PairsAreAffected(request: Request)
    ensures AreAffected(request, AffectedPairs(request))
  {
    FirstItemIsFirst(request.days);
  }

  /** How many items a day has once the rest blocks are added. */
  ghost function SizeWith(days: seq<Day>, rests: seq<Address>, d: nat): nat
    requires d < |days|
  {
    |days[d].items| + (if exists t :: t in rests && t.d == d then 1 else 0)
  }

  /** The pair names the item at `t`: in the first day under that number which is long enough, rest blocks included. */
  ghost predicate Names(days: seq<Day>, rests: seq<Address>, pair: (int, int), t: Address) {
    && t.d < |days| && IsNumbered(days[t.d], pair.0) && t.i == pair.1 && t.i < SizeWith(days, rests, t.d)
    && forall e :: 0 <= e < t.d && IsNumbered(days[e], pair.0) ==> pair.1 >= SizeWith(days, rests, e)
  }

  /** `targets` are what the pairs at the places `at` name; of the other pairs only those after them, when the room
      is used up, name an item too. */
  ghost predicate Picks(
      days: seq<Day>, rests: seq<Address>, pairs: seq<(int, int)>, at: seq<nat>, targets: seq<Address>, room: nat)
  {
    && |at| == |targets| <= room
    && (forall j :: 0 <= j < |at| ==> at[j] < |pairs| && Names(days, rests, pairs[at[j]], targets[j]))
    && (forall i, j :: 0 <= i < j < |at| ==> at[i] < at[j])
    && (forall k, t :: 0 <= k < |pairs| && Names(days, rests, pairs[k], t) && k !in at ==>
          |targets| == room && forall j :: 0 <= j < |at| ==> at[j] < k)
  }

  /** The items the issues point at, in their order, as far as there is room. */
  ghost predicate TakesAffected(request: Request, rests: seq<Address>, targets: seq<Address>, room: nat) {
    exists pairs, at :: AreAffected(request, pairs) && Picks(request.days, rests, pairs, at, targets, room)
  }

  lemma {:induction false} RestsGrow(l: Ledger, rests: seq<Address>, currency: string, d: nat)
    requires Fits(l.days, RestAdded, rests) && d < |l.days|
    ensures var after := ChangeAll(l, RestAdded, rests, currency).days;
            && |after| == |l.days| && after[d].number == l.days[d].number
            && |after[d].items| == SizeWith(l.days, rests, d)
  {
    if rests != [] {
      var n := |rests| - 1;
      var front, at := rests[..n], rests[n];
      assert rests == front + [at];
      FitsFront(l.days, RestAdded, rests);
      hide Fits, ChangeAt, SameButFor, Applies;
      RestsGrow(l, front, currency, d);
      StillApplies(l, RestAdded, front, at, currency);
      RestGrowsDay(ChangeAll(l, RestAdded, front, currency), at, currency, d);
    }
  }

  lemma RestGrowsDay(l: Ledger, at: Address, currency: string, d: nat)
    requires Applies(l.days, RestAdded, at) && d < |l.days|
    ensures var after := ChangeAt(l, RestAdded, at, currency).days;
            && |after| == |l.days| && after[d].number == l.days[d].number
            && |after[d].items| == |l.days[d].items| + (if d == at.d then 1 else 0)
  {
    hide RestBlock, Logged;
  }

  lemma {:induction false} LocateNames(days: seq<Day>, number: int, index: int, d: nat)
    ensures match Locate(days, number, index, d)
            case None => forall e :: d <= e < |days| && IsNumbered(days[e], number) && 0 <= index ==> index >= |days[e].items|
            case Some(t) => d <= t.d < |days| && IsNumbered(days[t.d], number) && t.i == index && t.i < |days[t.d].items|
                            && forall e :: d <= e < t.d && IsNumbered(days[e], number) ==> index >= |days[e].items|
    decreases |days| - d
  {
    if d < |days| {
      LocateNames(days, number, index, d + 1);
    }
  }

  lemma LocatedIsNamed(days: seq<Day>, rests: seq<Address>, currency: string, pair: (int, int), t: Address)
    requires Fits(days, RestAdded, rests)
    ensures IsAt(Grown(days, rests, currency), pair, t) <==> Names(days, rests, pair, t)
  {
    var grown := Grown(days, rests, currency);
    ChangeAllLength(Ledger(days, []), RestAdded, rests, currency);
    forall d | 0 <= d < |days|
      ensures |grown| == |days| && grown[d].number == days[d].number && |grown[d].items| == SizeWith(days, rests, d)
    {
      RestsGrow(Ledger(days, []), rests, currency, d);
    }
    LocateNames(grown, pair.0, pair.1, 0);
    hide Grown, Locate, SizeWith, Fits;
    assert forall d, n :: 0 <= d < |days| ==> IsNumbered(grown[d], n) == IsNumbered(days[d], n);
  }

  ghost predicate IsAt(days: seq<Day>, pair: (int, int), t: Address) {
    Locate(days, pair.0, pair.1, 0) == Some(t)
  }

  /** Of the first `n` pairs those at the places `at`, and no others, name an item, namely those of `found`. */
  ghost predicate Places(days: seq<Day>, pairs: seq<(int, int)>, n: nat, at: seq<nat>, found: seq<Address>) {
    && n <= |pairs| && |at| == |found|
    && (forall j :: 0 <= j < |at| ==> at[j] < n && IsAt(days, pairs[at[j]], found[j]))
    && (forall i, j :: 0 <= i < j < |at| ==> at[i] < at[j])
    && (forall k, t :: 0 <= k < n && IsAt(days, pairs[k], t) ==> k in at)
  }

  lemma NextPlace(days: seq<Day>, pairs: seq<(int, int)>, n: nat, at: seq<nat>, found: seq<Address>)
    requires Places(days, pairs, n, at, found) && n < |pairs|
    ensures (forall t :: !IsAt(days, pairs[n], t)) ==> Places(days, pairs, n + 1, at, found)
    ensures forall t :: IsAt(days, pairs[n], t) ==> Places(days, pairs, n + 1, at + [n], found + [t])
  {
    hide IsAt;
    assert forall k :: k in at ==> k in at + [n];
    assert n in at + [n];
  }

  ghost function Found(days: seq<Day>, pair: (int, int)): seq<Address> {
    match Locate(days, pair.0, pair.1, 0) case None => [] case Some(t) => [t]
  }

  lemma {:induction false} LocateAllSnoc(days: seq<Day>, pairs: seq<(int, int)>, pair: (int, int))
    ensures LocateAll(days, pairs + [pair])
         == LocateAll(days, pairs) + Found(days, pair)
  {
    hide Locate;
    if pairs == [] {
      assert pairs + [pair] == [pair];
    } else {
      assert (pairs + [pair])[1..] == pairs[1..] + [pair];
      LocateAllSnoc(days, pairs[1..], pair);
      Regroup(Found(days, pairs[0]), LocateAll(days, pairs[1..]), Found(days, pair));
    }
  }

  lemma {:induction false} PlacesOfLocated(days: seq<Day>, pairs: seq<(int, int)>, n: nat) returns (at: seq<nat>)
    requires n <= |pairs|
    ensures Places(days, pairs, n, at, LocateAll(days, pairs[..n]))
  {
    at := [];
    if n > 0 {
      at := PlacesOfLocated(days, pairs, n - 1);
      var pair := pairs[n - 1];
      assert pairs[..n] == pairs[..n - 1] + [pair];
      LocateAllSnoc(days, pairs[..n - 1], pair);
      NextPlace(days, pairs, n - 1, at, LocateAll(days, pairs[..n - 1]));
      var found := Locate(days, pair.0, pair.1, 0);
      hide Places, Locate, LocateAll;
      if found.Some? {
        assert IsAt(days, pair, found.value);
        at := at + [n - 1];
      }
    }
  }

  lemma PlacesPick(
      days: seq<Day>, rests: seq<Address>, grown: seq<Day>, pairs: seq<(int, int)>, places: seq<nat>, found: seq<Address>, room: nat)
    returns (at: seq<nat>)
    requires Places(grown, pairs, |pairs|, places, found)
    requires forall k, t :: 0 <= k < |pairs| ==> IsAt(grown, pairs[k], t) == Names(days, rests, pairs[k], t)
    ensures Picks(days, rests, pairs, at, Take(found, room), room)
  {
    hide IsAt, Names;
    var targets := Take(found, room);
    at := places[..|targets|];
    forall k, t | 0 <= k < |pairs| && Names(days, rests, pairs[k], t) && k !in at
      ensures |targets| == room && forall j :: 0 <= j < |at| ==> at[j] < k
    {
      assert IsAt(grown, pairs[k], t);
      var j :| 0 <= j < |places| && places[j] == k;
      assert j >= |targets|;
    }
  }

  lemma AffectedAreTaken(request: Request, rests: seq<Address>, room: nat)
    requires Fits(request.days, RestAdded, rests)
    ensures var found := LocateAll(Grown(request.days, rests, request.currency), AffectedPairs(request));
            TakesAffected(request, rests, Take(found, room), room)
  {
    hide LocateAll, IsAt, Grown, Fits, AffectedPairs, Names, AreAffected, Places, Picks;
    var days, pairs := request.days, AffectedPairs(request);
    var grown := Grown(days, rests, request.currency);
    PairsAreAffected(request);
    var places := PlacesOfLocated(grown, pairs, |pairs|);
    assert pairs[..|pairs|] == pairs;
    forall k, t | 0 <= k < |pairs|
      ensures IsAt(grown, pairs[k], t) == Names(days, rests, pairs[k], t)
    {
      LocatedIsNamed(days, rests, request.currency, pairs[k], t);
    }
    var found := LocateAll(grown, pairs);
    var at := PlacesPick(days, rests, grown, pairs, places, found, room);
    assert AreAffected(request, pairs) && Picks(request.days, rests, pairs, at, Take(found, room), room);
  }

  // ---------- the plan of a request ----------

  ghost function Dearest(days: seq<Day>): (Address, Address) -> bool {
    (a: Address, b: Address) => CutsBefore(days, a, b)
  }

  /** `p` is what the operations asked for choose when each gets the room the ones before it leave. */
  ghost predicate Aims(request: Request, p: Plan, budget: bool, late: bool, rest: bool, disallowed: bool, limit: nat) {
    var days := request.days;
    && |p.cuts| + |p.moves| + |p.rests| <= limit
    && (if budget then TakesFirst(p.cuts, Costly(days), Dearest(days), limit) else p.cuts == [])
    && (if late then TakesFirst(p.moves, Late(days), ReadsBefore, limit - |p.cuts|) else p.moves == [])
    && (if rest then TakesFirst(p.rests, Restless(days), ReadsBefore, limit - |p.cuts| - |p.moves|) else p.rests == [])
    && (if disallowed then TakesAffected(request, p.rests, p.replaced, limit - |p.cuts| - |p.moves| - |p.rests|)
        else p.replaced == [])
  }

  lemma CutsTakeFirst(days: seq<Day>, room: nat)
    ensures TakesFirst(Take(BudgetTargets(days), room), Costly(days), Dearest(days), room)
    ensures BudgetTargets(days) == [] <==> forall t :: !IsCostly(days, t)
  {
    hide BudgetTargets, IsCostly, CutsBefore;
    CostliestFirst(days);
    PrefixTakesFirst(BudgetTargets(days), Take(BudgetTargets(days), room), Costly(days), Dearest(days), room);
    if BudgetTargets(days) != [] {
      assert Costly(days)(BudgetTargets(days)[0]);
    }
    assert forall t :: IsCostly(days, t) == Costly(days)(t);
  }

  lemma MovesTakeFirst(days: seq<Day>, room: nat)
    ensures TakesFirst(Take(LateTargets(days), room), Late(days), ReadsBefore, room)
  {
    hide LateTargets, EndsLate, ReadsBefore;
    LateInOrder(days);
    PrefixTakesFirst(LateTargets(days), Take(LateTargets(days), room), Late(days), ReadsBefore, room);
  }

  lemma RestsTakeFirst(days: seq<Day>, room: nat)
    ensures TakesFirst(Take(RestTargets(days, 0), room), Restless(days), ReadsBefore, room)
  {
    hide RestTargets, LacksRest, ReadsBefore;
    RestlessInOrder(days, 0);
    PrefixTakesFirst(RestTargets(days, 0), Take(RestTargets(days, 0), room), Restless(days), ReadsBefore, room);
  }

  lemma RestsFit(days: seq<Day>, room: nat)
    ensures Fits(days, RestAdded, Take(RestTargets(days, 0), room))
  {
    hide RestTargets, Fits;
    RestTargetsFit(days, 0);
    TakeFits(days, RestAdded, RestTargets(days, 0), room);
  }

  lemma RequestedPlanAims(request: Request, limit: nat)
    requires limit == MaxChanges(request)
    ensures Aims(request, RequestedPlan(request), WantsBudget(request), WantsLate(request), WantsRest(request),
                 WantsReplacement(request), limit)
  {
    hide BudgetTargets, LateTargets, RestTargets, LocateAll, Grown, AffectedPairs, TakesFirst, TakesAffected, Fits;
    hide WantsBudget, WantsLate, WantsRest, WantsReplacement, Costly, Late, Restless, Dearest, ReadsBefore;
    var days, p := request.days, RequestedPlan(request);
    CutsTakeFirst(days, limit);
    MovesTakeFirst(days, Left(limit, |p.cuts|));
    RestsTakeFirst(days, Left(limit, |p.cuts| + |p.moves|));
    RestsFit(days, Left(limit, |p.cuts| + |p.moves|));
    NothingFits(days);
    AffectedAreTaken(request, p.rests, Left(limit, |p.cuts| + |p.moves| + |p.rests|));
  }

  lemma NothingFits(days: seq<Day>)
    ensures Fits(days, RestAdded, [])
  {
  }

  lemma CutsOnlyAims(request: Request, limit: nat)
    requires limit == MaxChanges(request)
    ensures Aims(request, NO_CHANGE.(cuts := CutsPlanned(request)), true, false, false, false, limit)
  {
    hide BudgetTargets, TakesFirst, TakesAffected, Costly, Dearest;
    CutsTakeFirst(request.days, limit);
  }

  lemma RestsOnlyAims(request: Request, limit: nat)
    requires limit == MaxChanges(request)
    ensures Aims(request, NO_CHANGE.(rests := RestsPlanned(request)), false, false, true, false, limit)
  {
    hide RestTargets, TakesFirst, TakesAffected, Restless, ReadsBefore;
    RestsTakeFirst(request.days, limit);
  }

  /** What a run aims at: the operations the mode or the issues ask for; when they find nothing, the dearest items
      for selected issues, if any item costs anything, and otherwise rest blocks. */
  lemma PlanFollowsRequest(request: Request, limit: nat) returns (asked: Plan)
    requires request.maxChangedItems == None || request.maxChangedItems == Some(0) ==> limit == 10
    requires request.maxChangedItems == None || request.maxChangedItems == Some(0) || request.maxChangedItems == Some(limit)
    ensures asked == RequestedPlan(request)
    ensures Aims(request, asked,
                 Asks(request, ReduceBudgetRisk, "budget"),
                 Asks(request, FixScheduleRisk, "late"),
                 Asks(request, AddRestTime, "rest"),
                 Asks(request, ReplaceDisallowedItems, "disallowed"), limit)
    ensures var p := PlanOf(request);
            if Size(asked) > 0 then p == asked
            else if request.mode == SelectedIssues && exists t :: IsCostly(request.days, t) then
              Aims(request, p, true, false, false, false, limit)
            else Aims(request, p, false, false, true, false, limit)
  {
    asked := RequestedPlan(request);
    OperationsCalledFor(request);
    RequestedPlanAims(request, limit);
    CutsTakeFirst(request.days, limit);
    CutsOnlyAims(request, limit);
    RestsOnlyAims(request, limit);
    hide Aims, Asks, BudgetTargets, IsCostly, RequestedPlan, CutsPlanned, RestsPlanned;
    hide WantsBudget, WantsLate, WantsRest, WantsReplacement;
  }

  // ---------- the log of a run ----------

  /** The changes from `from` on are of this kind, one for each target, under its day's number and its place. */
  ghost predicate Logs(changes: seq<Change>, from: nat, kind: Kind, days: seq<Day>, targets: seq<Address>) {
    && from + |targets| <= |changes|
    && forall k :: 0 <= k < |targets| ==> IsLogOf(changes[from + k], kind, days, targets[k])
  }

  ghost predicate IsLogOf(c: Change, kind: Kind, days: seq<Day>, t: Address) {
    && c.kind == kind && c.index == t.i && t.d < |days|
    && (forall n :: c.day == Some(n) <==> IsNumbered(days[t.d], n))
  }

  /** First the cuts, then the moves, the rests and the replacements. */
  ghost predicate IsLogOfPlan(changes: seq<Change>, days: seq<Day>, p: Plan) {
    var cuts, moves, rests, replaced := |p.cuts|, |p.moves|, |p.rests|, |p.replaced|;
    && |changes| == cuts + moves + rests + replaced
    && Logs(changes, 0, CostCut, days, p.cuts)
    && Logs(changes, cuts, MovedEarlier, days, p.moves)
    && Logs(changes, cuts + moves, RestAdded, days, p.rests)
    && Logs(changes, cuts + moves + rests, Replaced, days, p.replaced)
  }

  ghost predicate SameNumbers(a: seq<Day>, b: seq<Day>) {
    |a| == |b| && forall d :: 0 <= d < |a| ==> a[d].number == b[d].number
  }

  lemma NumbersStay(days: seq<Day>, l: Ledger, kind: Kind, targets: seq<Address>, currency: string)
    requires SameNumbers(days, l.days)
    ensures SameNumbers(days, ChangeAll(l, kind, targets, currency).days)
  {
    ChangeAllLength(l, kind, targets, currency);
    forall d | 0 <= d < |days|
      ensures ChangeAll(l, kind, targets, currency).days[d].number == days[d].number
    {
      ChangeAllNumbers(l, kind, targets, currency, d);
    }
  }

  lemma LoggedIsLogOf(days: seq<Day>, now: seq<Day>, kind: Kind, t: Address, currency: string)
    requires SameNumbers(days, now) && Applies(now, kind, t)
    ensures IsLogOf(Logged(now, kind, t, currency), kind, days, t)
  {
    hide Fixed, Recorded, RestBlock, CompactOf;
  }

  lemma LogsSnoc(
      changes: seq<Change>, from: nat, kind: Kind, days: seq<Day>, front: seq<Address>, c: Change, at: Address)
    requires |changes| == from + |front| && Logs(changes, from, kind, days, front) && IsLogOf(c, kind, days, at)
    ensures Logs(changes + [c], from, kind, days, front + [at])
  {
    hide IsLogOf;
    var all, targets := changes + [c], front + [at];
    forall k | 0 <= k < |targets|
      ensures IsLogOf(all[from + k], kind, days, targets[k])
    {
      if k < |front| {
        assert all[from + k] == changes[from + k] && targets[k] == front[k];
      }
    }
  }

  lemma {:induction false} RoundIsLogged(
      days: seq<Day>, l: Ledger, kind: Kind, targets: seq<Address>, currency: string)
    requires SameNumbers(days, l.days) && Fits(l.days, kind, targets)
    ensures var after := ChangeAll(l, kind, targets, currency);
            && |after.changes| == |l.changes| + |targets| && l.changes <= after.changes
            && Logs(after.changes, |l.changes|, kind, days, targets)
  {
    if targets != [] {
      var n := |targets| - 1;
      var front, at := targets[..n], targets[n];
      assert targets == front + [at];
      FitsFront(l.days, kind, targets);
      hide Fits, Applies, Logged, Changed, IsLogOf, SameNumbers, Logs;
      RoundIsLogged(days, l, kind, front, currency);
      StillApplies(l, kind, front, at, currency);
      NumbersStay(days, l, kind, front, currency);
      var before := ChangeAll(l, kind, front, currency);
      LoggedIsLogOf(days, before.days, kind, at, currency);
      LogsSnoc(before.changes, |l.changes|, kind, days, front, Logged(before.days, kind, at, currency), at);
    } else {
      NothingLogged(l.changes, kind, days);
    }
  }

  lemma NothingLogged(changes: seq<Change>, kind: Kind, days: seq<Day>)
    ensures Logs(changes, |changes|, kind, days, [])
  {
  }

  lemma LogsStay(changes: seq<Change>, longer: seq<Change>, from: nat, kind: Kind, days: seq<Day>, targets: seq<Address>)
    requires Logs(changes, from, kind, days, targets) && changes <= longer
    ensures Logs(longer, from, kind, days, targets)
  {
    hide IsLogOf;
    forall k | 0 <= k < |targets|
      ensures IsLogOf(longer[from + k], kind, days, targets[k])
    {
      assert longer[from + k] == changes[from + k];
    }
  }

  lemma CarriedIsLogged(days: seq<Day>, p: Plan, currency: string)
    requires PlanFits(days, p, currency)
    ensures IsLogOfPlan(Carried(days, p, currency).changes, days, p)
  {
    hide ChangeAll, Fits, Distinct, IsLate, Logs, SameNumbers;
    var l0 := Ledger(days, []);
    SameNumbersItself(days);
    var l1 := ChangeAll(l0, CostCut, p.cuts, currency);
    RoundIsLogged(days, l0, CostCut, p.cuts, currency);
    NumbersStay(days, l0, CostCut, p.cuts, currency);
    var l2 := ChangeAll(l1, MovedEarlier, p.moves, currency);
    RoundIsLogged(days, l1, MovedEarlier, p.moves, currency);
    NumbersStay(days, l1, MovedEarlier, p.moves, currency);
    var l3 := ChangeAll(l2, RestAdded, p.rests, currency);
    RoundIsLogged(days, l2, RestAdded, p.rests, currency);
    NumbersStay(days, l2, RestAdded, p.rests, currency);
    var l4 := ChangeAll(l3, Replaced, p.replaced, currency);
    RoundIsLogged(days, l3, Replaced, p.replaced, currency);
    LogsStay(l1.changes, l4.changes, 0, CostCut, days, p.cuts);
    LogsStay(l2.changes, l4.changes, |p.cuts|, MovedEarlier, days, p.moves);
    LogsStay(l3.changes, l4.changes, |p.cuts| + |p.moves|, RestAdded, days, p.rests);
  }

  lemma SameNumbersItself(days: seq<Day>)
    ensures SameNumbers(days, days)
  {
  }

  /** The log of every run lists the changes of its plan, and the summary counts them. */
  lemma RunIsLogged(request: Request)
    ensures IsLogOfPlan(Repaired(request).changes, request.days, PlanOf(request))
    ensures var p, changes := PlanOf(request), Repaired(request).changes;
            && Count(changes, IsChanged) == |p.cuts| + |p.replaced|
            && Count(changes, IsMoved) == |p.moves| && Count(changes, IsAdded) == |p.rests|
  {
    hide PlanOf, Repaired, PlanFits, IsLogOfPlan, Carried, SameButNotes;
    RunIsPlanned(request);
    PlanFitsItsRequest(request);
    CarriedIsLogged(request.days, PlanOf(request), request.currency);
    LogIsCounted(Repaired(request).changes, request.days, PlanOf(request));
  }

  lemma {:induction false} CountsAlike(changes: seq<Change>, kind: Kind)
    requires AllOfKind(changes, kind)
    ensures Count(changes, IsChanged) == if kind == CostCut || kind == Replaced then |changes| else 0
    ensures Count(changes, IsMoved) == if kind == MovedEarlier then |changes| else 0
    ensures Count(changes, IsAdded) == if kind == RestAdded then |changes| else 0
  {
    if changes != [] {
      CountsAlike(changes[1..], kind);
    }
  }

  lemma LogIsCounted(changes: seq<Change>, days: seq<Day>, p: Plan)
    requires IsLogOfPlan(changes, days, p)
    ensures Count(changes, IsChanged) == |p.cuts| + |p.replaced|
    ensures Count(changes, IsMoved) == |p.moves| && Count(changes, IsAdded) == |p.rests|
  {
    var i, j, k := |p.cuts|, |p.cuts| + |p.moves|, |p.cuts| + |p.moves| + |p.rests|;
    OfKind(changes, 0, CostCut, days, p.cuts);
    OfKind(changes, i, MovedEarlier, days, p.moves);
    OfKind(changes, j, RestAdded, days, p.rests);
    OfKind(changes, k, Replaced, days, p.replaced);
    hide Logs, Count;
    assert changes == changes[0..i] + changes[i..j] + changes[j..k] + changes[k..|changes|];
    KindsAreCounted(changes[0..i], changes[i..j], changes[j..k], changes[k..|changes|]);
  }

  ghost predicate AllOfKind(changes: seq<Change>, kind: Kind) {
    forall c :: c in changes ==> c.kind == kind
  }

  lemma KindsAreCounted(cuts: seq<Change>, moves: seq<Change>, rests: seq<Change>, replaced: seq<Change>)
    requires AllOfKind(cuts, CostCut) && AllOfKind(moves, MovedEarlier)
    requires AllOfKind(rests, RestAdded) && AllOfKind(replaced, Replaced)
    ensures var all := cuts + moves + rests + replaced;
            && Count(all, IsChanged) == |cuts| + |replaced|
            && Count(all, IsMoved) == |moves| && Count(all, IsAdded) == |rests|
  {
    hide Count, AllOfKind;
    CountParts(cuts, moves, rests, replaced, IsChanged);
    CountParts(cuts, moves, rests, replaced, IsMoved);
    CountParts(cuts, moves, rests, replaced, IsAdded);
    CountsAlike(cuts, CostCut);
    CountsAlike(moves, MovedEarlier);
    CountsAlike(rests, RestAdded);
    CountsAlike(replaced, Replaced);
  }

  lemma CountParts(a: seq<Change>, b: seq<Change>, c: seq<Change>, d: seq<Change>, p: Change -> bool)
    ensures Count(a + b + c + d, p) == Count(a, p) + Count(b, p) + Count(c, p) + Count(d, p)
  {
    hide Count;
    CountConcat(a + b + c, d, p);
    CountConcat(a + b, c, p);
    CountConcat(a, b, p);
  }

  lemma OfKind(changes: seq<Change>, from: nat, kind: Kind, days: seq<Day>, targets: seq<Address>)
    requires Logs(changes, from, kind, days, targets)
    ensures AllOfKind(changes[from..from + |targets|], kind)
  {
    var part := changes[from..from + |targets|];
    forall k | 0 <= k < |part|
      ensures part[k].kind == kind
    {
      assert part[k] == changes[from + k] && IsLogOf(changes[from + k], kind, days, targets[k]);
    }
  }
}
