/** Itineraries as the repair services see them, money in cents, and the small readers and writers
    both services share. */
module Itinerary {
  import opened Wrappers
  import opened Text
  import opened Clock
  import opened Sequences

  /** The currency entry of a structured cost: missing or empty, whitespace, a code in its stripped upper-case
      form, or a text (`Untidy`) that has `code` for its stripped upper-case form. */
  datatype Currency = NoCurrency | BlankCurrency | Code(code: string) | Untidy(code: string)

  /** `estimatedCost`: absent, a bare number, or a structured cost whose amount may be missing. Amounts in cents.
      A structured cost is `labelled` when its category, confidence and source, and the notation of its amount,
      already are what a cut writes. */
  datatype Cost = NoCost | Bare(cents: real) | Priced(amount: Option<real>, currency: Currency, labelled: bool)

  /** A missing text is the empty text; `endTime` remembers whether its key is present. */
  datatype Item = Item(
    time: string,
    endTime: Option<string>,
    kind: string,
    name: string,
    note: string,
    cost: Cost,
    leg: Option<string>,   // transfer.legId
    duration: Option<int>
  )

  datatype Day = Day(number: Option<int>, title: string, stop: string, items: seq<Item>)

  /** `_day_number`. */
  function DayNumber(day: Day): Option<int> {
    match day.number
    case Some(n) => if n > 0 then Some(n) else None
    case None => None
  }

  // ---------- texts ----------

  function Lower(s: string): string {
    if s == "" then ""
    else [if 'A' <= s[0] <= 'Z' then s[0] + 32 as char else s[0]] + Lower(s[1..])
  }

  function MarkedName(raw: string, marker: string): string {
    var name := Strip(if raw == "" then "itinerary item" else raw);
    if Contains(Lower(name), Lower(marker)) then name else name + " (" + marker + ")"
  }

  function AppendNote(raw: string, extra: string): string {
    var note := Strip(raw);
    if note == "" then extra
    else if Contains(note, extra) then note
    else note + " " + extra
  }

  lemma {:induction false} LowerOfConcat(a: string, b: string)
    ensures Lower(a + b) == Lower(a) + Lower(b)
  {
    if a == "" {
      assert a + b == b;
    } else {
      assert (a + b)[1..] == a[1..] + b;
      LowerOfConcat(a[1..], b);
    }
  }

  /** Lower-casing works letter by letter. */
  lemma {:induction false} LowerAt(s: string, i: nat)
    requires i < |s|
    ensures |Lower(s)| == |s|
    ensures Lower(s)[i] == if 'A' <= s[i] <= 'Z' then s[i] + 32 as char else s[i]
  {
    if |s| > 1 {
      LowerAt(s[1..], if i == 0 then 0 else i - 1);
    }
  }

  lemma TrimmedAround(a: string, middle: string, b: string)
    requires a != "" && Trimmed(a) && b != "" && Trimmed(b)
    ensures Strip(a + middle + b) == a + middle + b
  {
    var s := a + middle + b;
    assert s[0] == a[0] && s[|s| - 1] == b[|b| - 1];
    StripOfTrimmed(s);
  }

  /** However often a note is appended, it is there once. */
  lemma NoteIsAppendedOnce(raw: string, extra: string)
    requires extra != "" && Trimmed(extra)
    ensures AppendNote(AppendNote(raw, extra), extra) == AppendNote(raw, extra)
    ensures Contains(AppendNote(raw, extra), extra)
  {
    var before, after := StripSplits(raw);
    var note := Strip(raw);
    StripOfTrimmed(extra);
    StripOfTrimmed(note);
    ContainsItself(extra);
    if note != "" {
      TrimmedAround(note, " ", extra);
      ContainsBack(note + " ", extra, extra);
    }
  }

  /** Nothing of a note is lost, and nothing is added to one that has the extra text already. */
  lemma NoteKeepsText(raw: string, extra: string)
    requires extra != ""
    ensures Strip(raw) <= AppendNote(raw, extra)
    ensures AppendNote(raw, extra) == Strip(raw) <==> Contains(Strip(raw), extra)
    ensures |AppendNote(raw, extra)| <= |Strip(raw)| + 1 + |extra|
  {
    hide Strip;
  }

  /** Nothing of a name is lost, it has the mark afterwards, and nothing is added to one that has it already. */
  lemma NameKeepsText(raw: string, marker: string)
    ensures var name := Strip(if raw == "" then "itinerary item" else raw);
            && name <= MarkedName(raw, marker) && |MarkedName(raw, marker)| <= |name| + |marker| + 3
            && Contains(Lower(MarkedName(raw, marker)), Lower(marker))
            && (MarkedName(raw, marker) == name <==> Contains(Lower(name), Lower(marker)))
  {
    var name := Strip(if raw == "" then "itinerary item" else raw);
    MarkIsThere(name, marker);
    hide Strip, Lower, Contains;
    assert |name + " (" + marker + ")"| > |name|;
  }

  lemma MarkIsThere(name: string, marker: string)
    ensures Contains(Lower(name + " (" + marker + ")"), Lower(marker))
  {
    LowerOfConcat(name + " (" + marker, ")");
    LowerOfConcat(name + " (", marker);
    ContainsItself(Lower(marker));
    ContainsBack(Lower(name + " ("), Lower(marker), Lower(marker));
    ContainsFront(Lower(name + " (" + marker), Lower(")"), Lower(marker));
  }

  lemma MarkedStays(name: string, marker: string)
    requires name != "" && Strip(name) == name && Contains(Lower(name), Lower(marker))
    ensures MarkedName(name, marker) == name
  {
  }

  lemma MarkedShape(name: string, marker: string)
    requires name != "" && Trimmed(name)
    ensures Strip(name + " (" + marker + ")") == name + " (" + marker + ")"
    ensures Contains(Lower(name + " (" + marker + ")"), Lower(marker))
  {
    MarkIsThere(name, marker);
    TrimmedAround(name, " (" + marker, ")");
    hide Strip, Lower, Contains;
    assert name + (" (" + marker) + ")" == name + " (" + marker + ")";
  }

  lemma NamedIsMarkedOnce(raw: string, marker: string)
    requires Strip(if raw == "" then "itinerary item" else raw) != ""
    ensures MarkedName(MarkedName(raw, marker), marker) == MarkedName(raw, marker)
  {
    hide Lower, Contains;
    var given := if raw == "" then "itinerary item" else raw;
    var before, after := StripSplits(given);
    var name := Strip(given);
    StripOfTrimmed(name);
    MarkedShape(name, marker);
    hide Strip;
    if Contains(Lower(name), Lower(marker)) {
      MarkedStays(name, marker);
    } else {
      MarkedStays(name + " (" + marker + ")", marker);
    }
  }

  lemma BlankIsMarkedTwice(raw: string, marker: string)
    requires raw != "" && Strip(raw) == "" && marker != ""
    ensures MarkedName(MarkedName(raw, marker), marker) != MarkedName(raw, marker)
  {
    NotInNothing(marker);
    var marked := " (" + marker + ")";
    assert "" + " (" + marker + ")" == marked;
    assert MarkedName(raw, marker) == marked;
    TrimmedTail(marker);
    hide Strip, Lower, Contains;
    assert marked[0] == ' ' && MarkedName(marked, marker)[0] == '(';
  }

  /** Marking a name twice marks it once, but for a name of blanks only: that one is left with a leading
      blank, which the second marking strips. */
  lemma NameIsMarkedOnce(raw: string, marker: string)
    requires marker != ""
    ensures MarkedName(MarkedName(raw, marker), marker) == MarkedName(raw, marker) <==> raw == "" || Strip(raw) != ""
  {
    StripOfTrimmed("itinerary item");
    if raw == "" || Strip(raw) != "" {
      NamedIsMarkedOnce(raw, marker);
    } else {
      BlankIsMarkedTwice(raw, marker);
    }
  }

  lemma NotInNothing(marker: string)
    requires marker != ""
    ensures !Contains(Lower(""), Lower(marker))
  {
  }

  lemma TrimmedTail(marker: string)
    ensures Strip(" (" + marker + ")") == "(" + marker + ")"
  {
    var s := " (" + marker + ")";
    var before, after := StripSplits(s);
    assert s[0] == ' ' && s[1] == '(' && s[|s| - 1] == ')';
  }

  // ---------- reading an item ----------

  /** `_is_late_time` on the end time, or on the time when there is none. */
  predicate IsLate(item: Item) {
    var value := match item.endTime
                 case Some(end) => if end == "" then item.time else end
                 case None => item.time;
    IsLateTime(Strip(value))
  }

  predicate IsRest(item: Item) {
    Lower(Strip(item.kind)) in ["rest", "break", "free_time", "freetime"]
  }

  /** `_repair_item_amount`. */
  function Amount(item: Item): Option<real> {
    match item.cost
    case NoCost => None
    case Bare(cents) => Some(cents)
    case Priced(amount, _, _) => amount
  }

  predicate HasAmount(item: Item) {
    Amount(item).Some?
  }

  /** The currency an amount counts in, `""` when it is blank. */
  function CurrencyOf(item: Item, currency: string): string {
    match item.cost
    case Priced(_, Code(code), _) => code
    case Priced(_, Untidy(code), _) => code
    case Priced(_, BlankCurrency, _) => ""
    case _ => currency
  }

  /** The code the services write back: the entry's own, stripped and upper-cased, else `fallback`. */
  function TidyCode(entry: Currency, fallback: string): string {
    match entry
    case Code(code) => code
    case Untidy(code) => code
    case _ => fallback
  }

  /** The code under which an item's amount is written back. */
  function WrittenCode(item: Item, fallback: string): string {
    match item.cost
    case Priced(_, entry, _) => TidyCode(entry, fallback)
    case _ => fallback
  }

  /** The cents an item adds to a total in `currency`. */
  function Counted(currency: string, item: Item): real {
    match Amount(item)
    case None => 0.0
    case Some(cents) => if cents < 0.0 || CurrencyOf(item, currency) != currency then 0.0 else cents
  }

  function CountedIn(currency: string): Item -> real {
    (item: Item) => Counted(currency, item)
  }

  function DayCost(currency: string): Day -> real {
    (day: Day) => Sum(day.items, CountedIn(currency))
  }

  function TotalCost(days: seq<Day>, currency: string): real {
    Sum(days, DayCost(currency))
  }

  // ---------- rounding ----------

  /** `quantize` to a whole cent: to nearest, ties to even. */
  function RoundHalfEven(x: real): int {
    var down := x.Floor;
    var rest := x - down as real;
    if rest < 0.5 || (rest == 0.5 && down % 2 == 0) then down else down + 1
  }

  /** 70% of an amount, rounded to a cent, never negative. */
  function Reduced(cents: real): real {
    var r := RoundHalfEven(cents * 0.7);
    if r < 0 then 0.0 else r as real
  }

  lemma SeventyOfHundred()
    ensures Reduced(10000.0) == 7000.0
  {
  }

  /** `_repair_total_cost`, the total the services report. */
  function ReportedTotal(days: seq<Day>, currency: string): int {
    RoundHalfEven(TotalCost(days, currency))
  }

  lemma RoundHalfEvenIsNearest(x: real)
    ensures RoundHalfEven(x) as real - 0.5 <= x <= RoundHalfEven(x) as real + 0.5
  {
  }

  lemma RoundHalfEvenMonotone(x: real, y: real)
    requires x <= y
    ensures RoundHalfEven(x) <= RoundHalfEven(y)
  {
  }

  /** Exactly the amounts strictly between 5/7 of a cent and one cent are rounded up past themselves. */
  lemma ReductionRaisesOnlySubCents(cents: real)
    requires cents > 0.0
    ensures Reduced(cents) <= cents <==> cents * 7.0 <= 5.0 || cents >= 1.0
  {
    RoundHalfEvenIsNearest(cents * 0.7);
    if cents < 1.0 {
      assert RoundHalfEven(cents * 0.7) == if cents * 0.7 <= 0.5 then 0 else 1;
    } else if cents * 3.0 < 5.0 {
      assert RoundHalfEven(cents * 0.7) <= 1;
    }
  }

  /** Of the amounts that are not negative only nothing and a single cent are their own reduction. */
  lemma ReductionFixesOnlyOneCent(cents: real)
    ensures Reduced(cents) == cents <==> cents == 0.0 || cents == 1.0
  {
    RoundHalfEvenIsNearest(cents * 0.7);
  }

  /** The amounts whose reduction is nothing. */
  lemma ReductionVanishes(cents: real)
    ensures Reduced(cents) == 0.0 <==> cents * 7.0 <= 5.0
  {
    RoundHalfEvenIsNearest(cents * 0.7);
  }

  /** What reducing a whole number of cents saves. */
  function Saving(n: nat): int {
    n - RoundHalfEven(n as real * 0.7)
  }

  lemma SavingStep(n: nat)
    ensures Saving(n) <= Saving(n + 1)
  {
    RoundHalfEvenIsNearest(n as real * 0.7);
    RoundHalfEvenIsNearest((n + 1) as real * 0.7);
    assert (n + 1) as real * 0.7 == n as real * 0.7 + 0.7;
  }

  /** On whole cents a dearer item never saves less. */
  lemma {:induction false} SavingMonotone(m: nat, n: nat)
    requires m <= n
    ensures 0 <= Saving(m) <= Saving(n)
    decreases n
  {
    if n > 0 {
      SavingStep(n - 1);
      if m < n {
        SavingMonotone(m, n - 1);
      } else {
        SavingMonotone(n - 1, n - 1);
      }
    }
  }

  lemma ReducedWhole(n: nat)
    ensures Reduced(n as real) == (n - Saving(n)) as real
  {
    RoundHalfEvenIsNearest(n as real * 0.7);
  }

  // ---------- finding items ----------

  /** The fields a change records. */
  datatype Compact = Compact(time: string, endTime: Option<string>, kind: string, name: string, cost: Cost)

  function CompactOf(item: Item): Compact {
    Compact(item.time, item.endTime, item.kind, item.name, item.cost)
  }

  /** A day index and an item index. */
  datatype Address = At(d: nat, i: nat)

  predicate InRange(days: seq<Day>, at: Address) {
    at.d < |days| && at.i < |days[at.d].items|
  }

  function WithItems(days: seq<Day>, d: nat, items: seq<Item>): seq<Day>
    requires d < |days|
  {
    days[d := days[d].(items := items)]
  }

  /** The addresses from `(d, i)` on, in reading order, whose items satisfy `p`. */
  function Select(days: seq<Day>, p: Item -> bool, d: nat, i: nat): seq<Address>
    decreases |days| - d, if d < |days| then |days[d].items| - i else 0
  {
    if d >= |days| then []
    else if i >= |days[d].items| then Select(days, p, d + 1, 0)
    else if p(days[d].items[i]) then [At(d, i)] + Select(days, p, d, i + 1)
    else Select(days, p, d, i + 1)
  }

  function AmountAt(days: seq<Day>, at: Address): real {
    if at.d < |days| && at.i < |days[at.d].items| && Amount(days[at.d].items[at.i]).Some?
    then Amount(days[at.d].items[at.i]).value else 0.0
  }

  function Dearer(days: seq<Day>): (Address, Address) -> bool {
    (a: Address, b: Address) => AmountAt(days, a) >= AmountAt(days, b)
  }

  /** `_items_by_cost_desc`. */
  function ByCostDescending(days: seq<Day>): seq<Address> {
    Sort(Select(days, HasAmount, 0, 0), Dearer(days))
  }

  /** `_item_at`: in the first day of that number which is long enough. */
  function Locate(days: seq<Day>, number: int, index: int, d: nat): Option<Address>
    decreases |days| - d
  {
    if d >= |days| then None
    else if DayNumber(days[d]) == Some(number) && 0 <= index < |days[d].items| then Some(At(d, index))
    else Locate(days, number, index, d + 1)
  }

  ghost predicate Before(at: Address, d: nat, i: nat) {
    at.d < d || (at.d == d && at.i < i)
  }

  lemma {:induction false} SelectHas(days: seq<Day>, p: Item -> bool, d: nat, i: nat, t: Address)
    ensures t in Select(days, p, d, i) <==>
            t.d < |days| && t.i < |days[t.d].items| && !Before(t, d, i) && p(days[t.d].items[t.i])
    decreases |days| - d, if d < |days| then |days[d].items| - i else 0
  {
    if d < |days| {
      if i >= |days[d].items| {
        SelectHas(days, p, d + 1, 0, t);
      } else {
        SelectHas(days, p, d, i + 1, t);
      }
    }
  }

  lemma NothingIsDistinct()
    ensures Distinct<Address>([])
  {
  }

  lemma DistinctCons(t: Address, rest: seq<Address>)
    requires Distinct(rest) && t !in rest
    ensures Distinct([t] + rest)
  {
  }

  lemma {:induction false} SelectIsDistinct(days: seq<Day>, p: Item -> bool, d: nat, i: nat)
    ensures Distinct(Select(days, p, d, i))
    decreases |days| - d, if d < |days| then |days[d].items| - i else 0
  {
    hide Distinct;
    NothingIsDistinct();
    if d < |days| {
      if i >= |days[d].items| {
        SelectIsDistinct(days, p, d + 1, 0);
      } else {
        SelectIsDistinct(days, p, d, i + 1);
        SelectHas(days, p, d, i + 1, At(d, i));
        DistinctCons(At(d, i), Select(days, p, d, i + 1));
      }
    }
  }

  lemma SelectMembers(days: seq<Day>, p: Item -> bool, d: nat, i: nat)
    ensures forall t :: t in Select(days, p, d, i) <==>
              t.d < |days| && t.i < |days[t.d].items| && !Before(t, d, i) && p(days[t.d].items[t.i])
    ensures Distinct(Select(days, p, d, i))
  {
    hide Select, Before;
    SelectIsDistinct(days, p, d, i);
    forall t: Address
      ensures t in Select(days, p, d, i) <==>
              t.d < |days| && t.i < |days[t.d].items| && !Before(t, d, i) && p(days[t.d].items[t.i])
    {
      SelectHas(days, p, d, i, t);
    }
  }

  lemma DearerIsPreorder(days: seq<Day>)
    ensures TotalPreorder(Dearer(days))
  {
  }

  lemma ByCostMembers(days: seq<Day>)
    ensures Distinct(ByCostDescending(days))
    ensures forall t :: t in ByCostDescending(days) <==>
              t.d < |days| && t.i < |days[t.d].items| && HasAmount(days[t.d].items[t.i])
    ensures Sorted(ByCostDescending(days), Dearer(days))
  {
    DearerIsPreorder(days);
    SelectMembers(days, HasAmount, 0, 0);
    SortSorts(Select(days, HasAmount, 0, 0), Dearer(days));
    DistinctByMultiset(Select(days, HasAmount, 0, 0), ByCostDescending(days));
  }
}
