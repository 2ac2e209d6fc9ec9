/** Pulling one JSON object out of a model's answer: the depth-tracking scanner of the response
    parser, and the first-brace/last-brace slices of the copilot and destination services. */
module JsonScanner {
  import opened Wrappers
  import opened Text
  import opened JsonText

  datatype ScanError = NoObject | IncompleteObject

  // ---------- the scanner ----------

  /** The three variables of the scanning loop. */
  datatype ScanState = ScanState(depth: int, inString: bool, escaped: bool)

  const START := ScanState(0, false, false)

  /** What the loop does to its variables on one character. */
  function Step(st: ScanState, c: char): ScanState {
    if st.inString then
      if st.escaped then st.(escaped := false)
      else if c == '\\' then st.(escaped := true)
      else if c == '"' then st.(inString := false)
      else st
    else if c == '"' then st.(inString := true)
    else if c == '{' then st.(depth := st.depth + 1)
    else if c == '}' then st.(depth := st.depth - 1)
    else st
  }

  /** The loop returns on this character. */
  predicate Closes(st: ScanState, c: char) {
    !st.inString && c == '}' && st.depth == 1
  }

  datatype Outcome = Open(st: ScanState) | Closed(length: nat)

  /** Where scanning `s` ends: still open, or closed after a number of characters. */
  function Scan(s: string, st: ScanState): Outcome {
    if s == "" then Open(st)
    else if Closes(st, s[0]) then Closed(1)
    else Later(1, Scan(s[1..], Step(st, s[0])))
  }

  function Later(n: nat, o: Outcome): Outcome {
    match o
    case Open(_) => o
    case Closed(length) => Closed(n + length)
  }

  function FirstObject(text: string): Result<string, ScanError> {
    match Find(text, '{')
    case None => Failure(NoObject)
    case Some(start) =>
      match Scan(text[start..], START)
      case Open(_) => Failure(IncompleteObject)
      case Closed(n) =>
        ScanBound(text[start..], START);
        Success(text[start..start + n])
  }

  method ExtractFirstJsonObject(text: string) returns (r: Result<string, ScanError>)
    ensures r == FirstObject(text)
  {
    var found := Find(text, '{');
    if found.None? {
      return Failure(NoObject);
    }
    var start := found.value;
    hide Scan, ScanFrom;
    var depth, inString, escaped := 0, false, false;
    var index := start;
    ScanFromEnds(text, start, START);
    while index < |text|
      invariant start <= index <= |text|
      invariant ScanFrom(text, start, index, ScanState(depth, inString, escaped)) == Scan(text[start..], START)
    {
      var c := text[index];
      ScanFromNext(text, start, index, ScanState(depth, inString, escaped));
      if inString {
        if escaped {
          escaped := false;
        } else if c == '\\' {
          escaped := true;
        } else if c == '"' {
          inString := false;
        }
      } else if c == '"' {
        inString := true;
      } else if c == '{' {
        depth := depth + 1;
      } else if c == '}' {
        depth := depth - 1;
        if depth == 0 {
          return Success(text[start..index + 1]);
        }
      }
      index := index + 1;
    }
    ScanFromEnds(text, start, ScanState(depth, inString, escaped));
    return Failure(IncompleteObject);
  }

  /** The outcome from `start` on, when `index` is reached in state `st`. */
  function ScanFrom(text: string, start: nat, index: nat, st: ScanState): Outcome
    requires start <= index <= |text|
  {
    Later(index - start, Scan(text[index..], st))
  }

  lemma ScanFromNext(text: string, start: nat, index: nat, st: ScanState)
    requires start <= index < |text|
    ensures ScanFrom(text, start, index, st) ==
              if Closes(st, text[index]) then Closed(index - start + 1)
              else ScanFrom(text, start, index + 1, Step(st, text[index]))
  {
    assert text[index..][1..] == text[index + 1..];
  }

  lemma ScanFromEnds(text: string, start: nat, st: ScanState)
    requires start <= |text|
    ensures ScanFrom(text, start, start, st) == Scan(text[start..], st)
    ensures ScanFrom(text, start, |text|, st) == Open(st)
  {
  }

  // ---------- what the scanner finds, on any text ----------

  lemma {:induction false} ScanBound(s: string, st: ScanState)
    ensures match Scan(s, st) case Open(_) => true case Closed(n) => 1 <= n <= |s| && s[n - 1] == '}'
  {
    if s != "" && !Closes(st, s[0]) {
      ScanBound(s[1..], Step(st, s[0]));
    }
  }

  lemma {:induction false} ScanConcat(a: string, b: string, st: ScanState)
    ensures match Scan(a, st)
            case Closed(n) => Scan(a + b, st) == Closed(n)
            case Open(st') => Scan(a + b, st) == Later(|a|, Scan(b, st'))
  {
    if a == "" {
      assert a + b == b;
    } else {
      assert (a + b)[1..] == a[1..] + b;
      if !Closes(st, a[0]) {
        ScanConcat(a[1..], b, Step(st, a[0]));
      }
    }
  }

  /** The loop's variables after all of `s`, never returning early. */
  function Fold(s: string, st: ScanState): ScanState {
    if s == "" then st else Fold(s[1..], Step(st, s[0]))
  }

  lemma {:induction false} FoldConcat(a: string, b: string, st: ScanState)
    ensures Fold(a + b, st) == Fold(b, Fold(a, st))
  {
    if a == "" {
      assert a + b == b;
    } else {
      assert (a + b)[1..] == a[1..] + b;
      FoldConcat(a[1..], b, Step(st, a[0]));
    }
  }

  /** Every non-empty prefix of `s` shorter than `n` leaves some object open. */
  ghost predicate OpenBefore(s: string, st: ScanState, n: nat)
    requires n <= |s|
  {
    forall m :: 1 <= m < n ==> Fold(s[..m], st).depth >= 1
  }

  lemma {:induction false} ScanClosesAtFirstBalance(s: string, st: ScanState, n: nat)
    requires st.depth >= 1 && 1 <= n <= |s|
    ensures Scan(s, st) == Closed(n) <==> Fold(s[..n], st).depth == 0 && OpenBefore(s, st, n)
    decreases n
  {
    var st' := Step(st, s[0]);
    var t := s[1..];
    forall m | 1 <= m <= |s|
      ensures Fold(s[..m], st) == Fold(t[..m - 1], st')
    {
      assert s[..m][1..] == t[..m - 1];
    }
    assert Fold(t[..0], st') == st';
    if Closes(st, s[0]) {
      if n > 1 {
        assert Fold(s[..1], st).depth == 0;
      }
    } else if n == 1 {
      ScanBound(t, st');
    } else {
      ScanClosesAtFirstBalance(t, st', n - 1);
      if OpenBefore(s, st, n) {
        forall m | 1 <= m < n - 1
          ensures Fold(t[..m], st').depth >= 1
        {
          assert Fold(s[..m + 1], st).depth >= 1;
        }
      }
      if OpenBefore(t, st', n - 1) {
        forall m | 1 <= m < n
          ensures Fold(s[..m], st).depth >= 1
        {
          assert m == 1 || Fold(t[..m - 1], st').depth >= 1;
        }
      }
    }
  }

  /** The braces of the `n` characters from `start` on balance, those inside string literals not counted. */
  ghost predicate Balances(text: string, start: nat, n: nat)
    requires start + n <= |text|
  {
    Fold(text[start..start + n], START).depth == 0
  }

  lemma {:induction false} NotBalancedIsOpen(s: string, n: nat)
    requires 1 <= n <= |s| && s[0] == '{' && forall m :: 1 <= m < n ==> Fold(s[..m], START).depth != 0
    ensures OpenBefore(s, START, n)
  {
    if n > 1 {
      NotBalancedIsOpen(s, n - 1);
      if n > 2 {
        assert s[..n - 1] == s[..n - 2] + [s[n - 2]];
        FoldConcat(s[..n - 2], [s[n - 2]], START);
        assert Fold([s[n - 2]], Fold(s[..n - 2], START)) == Step(Fold(s[..n - 2], START), s[n - 2]);
      } else {
        assert Fold(s[..1], START) == Step(START, s[0]);
      }
    }
  }

  lemma {:induction false} ShortestBalance(text: string, start: nat, n: nat) returns (k: nat)
    requires start < |text| && text[start] == '{' && 1 <= n <= |text| - start && Balances(text, start, n)
    ensures 1 <= k <= n && Balances(text, start, k) && OpenBefore(text[start..], START, k)
  {
    if m :| 1 <= m < n && Balances(text, start, m) {
      k := ShortestBalance(text, start, m);
    } else {
      k := n;
      var s := text[start..];
      forall m | 1 <= m < n
        ensures Fold(s[..m], START).depth != 0
      {
        assert s[..m] == text[start..start + m] && !Balances(text, start, m);
      }
      NotBalancedIsOpen(s, n);
    }
  }

  /** The scanner finds an object if and only if some stretch from the first `{` on balances. */
  lemma ObjectIfBalanced(text: string, start: nat)
    requires start < |text| && text[start] == '{' && '{' !in text[..start]
    ensures FirstObject(text).Success? <==> exists n :: 1 <= n <= |text| - start && Balances(text, start, n)
  {
    hide Scan, Fold;
    FindIsFirst(text, '{', start);
    ScanBound(text[start..], START);
    if FirstObject(text).Success? {
      var n := Scan(text[start..], START).length;
      ShortestIsReturned(text, start, n);
      assert Balances(text, start, n);
    }
    if n :| 1 <= n <= |text| - start && Balances(text, start, n) {
      var k := ShortestBalance(text, start, n);
      ShortestIsReturned(text, start, k);
    }
  }

  /** The scanner returns exactly the shortest brace-balanced stretch that starts at the first `{`,
      braces inside string literals not counted; and it returns something exactly when one balances. */
  lemma FirstObjectIsShortestBalanced(text: string, start: nat, n: nat)
    requires start < |text| && text[start] == '{' && '{' !in text[..start]
    requires 1 <= n <= |text| - start
    ensures FirstObject(text) == Success(text[start..start + n])
       <==> Balances(text, start, n) && OpenBefore(text[start..], START, n)
    ensures FirstObject(text).Success? <==> exists m :: 1 <= m <= |text| - start && Balances(text, start, m)
  {
    ShortestIsReturned(text, start, n);
    ObjectIfBalanced(text, start);
  }

  lemma ShortestIsReturned(text: string, start: nat, n: nat)
    requires start < |text| && text[start] == '{' && '{' !in text[..start]
    requires 1 <= n <= |text| - start
    ensures FirstObject(text) == Success(text[start..start + n])
       <==> Balances(text, start, n) && OpenBefore(text[start..], START, n)
  {
    var s := text[start..];
    FindIsFirst(text, '{', start);
    ScanBound(s, START);
    assert text[start..start + n] == s[..n];
    var inside := Step(START, s[0]);
    assert Scan(s, START) == Later(1, Scan(s[1..], inside));
    FoldShift(s, START);
    if n == 1 {
      assert Fold(s[..1], START) == inside;
      ScanBound(s[1..], inside);
    } else {
      ScanClosesAtFirstBalance(s[1..], inside, n - 1);
      assert Fold(s[..1], START).depth >= 1;
      forall m | 1 <= m < n
        ensures m == 1 || Fold(s[..m], START) == Fold(s[1..][..m - 1], inside)
      {
      }
      if OpenBefore(s, START, n) {
        forall m | 1 <= m < n - 1
          ensures Fold(s[1..][..m], inside).depth >= 1
        {
          assert Fold(s[..m + 1], START).depth >= 1;
        }
      }
    }
    if Scan(s, START).Closed? {
      assert |text[start..start + Scan(s, START).length]| == Scan(s, START).length;
    }
  }

  lemma FoldShift(s: string, st: ScanState)
    requires s != ""
    ensures forall m :: 1 <= m <= |s| ==> Fold(s[..m], st) == Fold(s[1..][..m - 1], Step(st, s[0]))
  {
    forall m | 1 <= m <= |s|
      ensures Fold(s[..m], st) == Fold(s[1..][..m - 1], Step(st, s[0]))
    {
      assert s[..m][1..] == s[1..][..m - 1];
    }
  }

  // ---------- printed JSON leaves an open scan where it was ----------

  /** Inside an open object, outside a string, scanning `s` ends in the state it began in. */
  ghost predicate Neutral(s: string) {
    forall d: int :: d >= 1 ==> Scan(s, Outside(d)) == Open(Outside(d))
  }

  function Outside(d: int): ScanState {
    ScanState(d, false, false)
  }

  lemma NeutralConcat(a: string, b: string)
    requires Neutral(a) && Neutral(b)
    ensures Neutral(a + b)
  {
    forall d: int | d >= 1
      ensures Scan(a + b, Outside(d)) == Open(Outside(d))
    {
      ScanConcat(a, b, Outside(d));
      assert Scan(b, Outside(d)) == Open(Outside(d));
    }
  }

  lemma {:induction false} NeutralToken(s: string)
    requires IsPlainToken(s)
    ensures Neutral(s)
  {
    if s != "" {
      NeutralToken(s[1..]);
      forall d: int | d >= 1
        ensures Scan(s, Outside(d)) == Open(Outside(d))
      {
        assert s[0] in s;
        assert Step(Outside(d), s[0]) == Outside(d);
        assert Scan(s[1..], Outside(d)) == Open(Outside(d));
      }
    }
  }

  lemma NeutralLayout(s: string)
    requires IsLayout(s)
    ensures Neutral(s)
  {
    NeutralToken(s);
  }

  lemma {:induction false} ScanParts(parts: seq<StringPart>, d: int)
    requires ValidParts(parts)
    ensures Scan(PrintParts(parts), ScanState(d, true, false)) == Open(ScanState(d, true, false))
  {
    if parts != [] {
      var st := ScanState(d, true, false);
      ScanPart(parts[0], d);
      ScanParts(parts[1..], d);
      ScanConcat(PrintPart(parts[0]), PrintParts(parts[1..]), st);
    }
  }

  lemma ScanPart(p: StringPart, d: int)
    requires ValidPart(p)
    ensures Scan(PrintPart(p), ScanState(d, true, false)) == Open(ScanState(d, true, false))
  {
    hide Scan;
    match p {
      case Plain(c) =>
        ScanInertInString([c], d);
      case Escape(c) =>
        ScanEscaped(c, d);
      case Unicode(hex) =>
        ScanInertInString(hex, d);
        ScanEscaped('u', d);
        ScanConcat(['\\', 'u'], hex, ScanState(d, true, false));
        assert "\\u" + hex == ['\\', 'u'] + hex;
    }
  }

  lemma ScanEscaped(c: char, d: int)
    ensures Scan(['\\', c], ScanState(d, true, false)) == Open(ScanState(d, true, false))
  {
    assert ['\\', c][1..] == [c];
    assert Scan([c], ScanState(d, true, true)) == Open(ScanState(d, true, false));
  }

  lemma {:induction false} ScanInertInString(s: string, d: int)
    requires '"' !in s && '\\' !in s
    ensures Scan(s, ScanState(d, true, false)) == Open(ScanState(d, true, false))
  {
    if s != "" {
      assert s[0] in s;
      ScanInertInString(s[1..], d);
    }
  }

  lemma NeutralQuote(parts: seq<StringPart>)
    requires ValidParts(parts)
    ensures Neutral(Quote(parts))
  {
    forall d: int | d >= 1
      ensures Scan(Quote(parts), Outside(d)) == Open(Outside(d))
    {
      ScanParts(parts, d);
      ScanConcat(PrintParts(parts), "\"", ScanState(d, true, false));
      assert Quote(parts)[1..] == PrintParts(parts) + "\"";
      assert Scan("\"", ScanState(d, true, false)) == Open(Outside(d));
    }
  }

  lemma {:induction false} NeutralValue(v: Json)
    requires Valid(v)
    ensures Neutral(Print(v))
    decreases v, 2
  {
    match v {
      case Literal(text) =>
        NeutralToken(text);
      case Text(parts) =>
        NeutralQuote(parts);
      case Array(blank, elements) =>
        NeutralElements(elements);
        NeutralToken("[");
        NeutralToken("]");
        NeutralLayout(blank);
        NeutralConcat("[", blank);
        NeutralConcat("[" + blank, PrintElements(elements));
        NeutralConcat("[" + blank + PrintElements(elements), "]");
      case Object(blank, members) =>
        NeutralBody(v);
        var body := blank + PrintMembers(members);
        forall d: int | d >= 1
          ensures Scan(Print(v), Outside(d)) == Open(Outside(d))
        {
          assert Print(v)[1..] == body + "}";
          assert Scan(body, Outside(d + 1)) == Open(Outside(d + 1));
          ScanConcat(body, "}", Outside(d + 1));
        }
    }
  }

  lemma {:induction false} NeutralBody(v: Json)
    requires Valid(v) && v.Object?
    ensures Neutral(v.blank + PrintMembers(v.members))
    decreases v, 1
  {
    NeutralLayout(v.blank);
    NeutralMembers(v.members);
    NeutralConcat(v.blank, PrintMembers(v.members));
  }

  lemma {:induction false} NeutralElement(e: Element)
    requires ValidElement(e)
    ensures Neutral(PrintElement(e))
    decreases e, 1
  {
    NeutralLayout(e.before);
    NeutralValue(e.value);
    NeutralLayout(e.after);
    NeutralConcat(e.before, Print(e.value));
    NeutralConcat(e.before + Print(e.value), e.after);
  }

  lemma {:induction false} NeutralMember(m: Member)
    requires ValidMember(m)
    ensures Neutral(PrintMember(m))
    decreases m, 1
  {
    NeutralLayout(m.before);
    NeutralQuote(m.name);
    NeutralLayout(m.colon);
    NeutralToken(":");
    NeutralElement(m.element);
    NeutralConcat(m.before, Quote(m.name));
    NeutralConcat(m.before + Quote(m.name), m.colon);
    NeutralConcat(m.before + Quote(m.name) + m.colon, ":");
    NeutralConcat(m.before + Quote(m.name) + m.colon + ":", PrintElement(m.element));
  }

  lemma {:induction false} NeutralElements(es: seq<Element>)
    requires forall i :: 0 <= i < |es| ==> ValidElement(es[i])
    ensures Neutral(PrintElements(es))
    decreases es, 0
  {
    if es != [] {
      var comma := if |es| == 1 then "" else ",";
      NeutralElement(es[0]);
      NeutralToken(comma);
      NeutralElements(es[1..]);
      NeutralConcat(PrintElement(es[0]), comma);
      NeutralConcat(PrintElement(es[0]) + comma, PrintElements(es[1..]));
    }
  }

  lemma {:induction false} NeutralMembers(ms: seq<Member>)
    requires forall i :: 0 <= i < |ms| ==> ValidMember(ms[i])
    ensures Neutral(PrintMembers(ms))
    decreases ms, 0
  {
    if ms != [] {
      var comma := if |ms| == 1 then "" else ",";
      NeutralMember(ms[0]);
      NeutralToken(comma);
      NeutralMembers(ms[1..]);
      NeutralConcat(PrintMember(ms[0]), comma);
      NeutralConcat(PrintMember(ms[0]) + comma, PrintMembers(ms[1..]));
    }
  }

  // ---------- round trip, truncation, prefix-freeness ----------

  lemma ScanObject(o: Json)
    requires Valid(o) && o.Object?
    ensures Scan(Print(o), START) == Closed(|Print(o)|)
  {
    var body := o.blank + PrintMembers(o.members);
    NeutralBody(o);
    assert Print(o)[1..] == body + "}";
    assert Scan(body, Outside(1)) == Open(Outside(1));
    ScanConcat(body, "}", Outside(1));
  }

  /** Any chatter without an opening brace before it, anything at all after it: the scanner gives
      back exactly the object that was printed. */
  lemma RoundTrip(before: string, o: Json, after: string)
    requires Valid(o) && o.Object?
    requires '{' !in before
    ensures FirstObject(before + Print(o) + after) == Success(Print(o))
  {
    var text := before + Print(o) + after;
    assert text[|before|] == '{' && text[..|before|] == before;
    FindIsFirst(text, '{', |before|);
    ScanObject(o);
    ScanConcat(Print(o), after, START);
    assert text[|before|..] == Print(o) + after;
  }

  /** Without an opening brace there is no object; with one that never closes the object is incomplete. */
  lemma FailureIsExplained(text: string)
    ensures FirstObject(text) == Failure(NoObject) <==> '{' !in text
    ensures FirstObject(text) == Failure(IncompleteObject) <==> '{' in text && !FirstObject(text).Success?
  {
  }

  /** Cut anywhere before its last character, the same object is reported as missing. */
  lemma TruncationIsReported(before: string, o: Json, k: nat)
    requires Valid(o) && o.Object?
    requires '{' !in before && k < |Print(o)|
    ensures FirstObject(before + Print(o)[..k]) == Failure(if k == 0 then NoObject else IncompleteObject)
  {
    var cut := Print(o)[..k];
    var text := before + cut;
    if k == 0 {
      assert text == before;
    } else {
      assert text[|before|] == '{' && text[..|before|] == before;
      FindIsFirst(text, '{', |before|);
      assert text[|before|..] == cut;
      ScanObject(o);
      assert Print(o) == cut + Print(o)[k..];
      ScanConcat(cut, Print(o)[k..], START);
      ScanBound(cut, START);
    }
  }

  /** No printed object is a proper prefix of another, so a text has at most one at its front. */
  lemma PrintedObjectsArePrefixFree(a: Json, b: Json)
    requires Valid(a) && a.Object? && Valid(b) && b.Object?
    requires Print(a) <= Print(b)
    ensures Print(a) == Print(b)
  {
    hide FirstObject, Print, Valid;
    RoundTrip("", a, Print(b)[|Print(a)|..]);
    RoundTrip("", b, "");
    assert "" + Print(a) + Print(b)[|Print(a)|..] == Print(b) == "" + Print(b) + "";
  }

  // ---------- first brace to last brace ----------

  function BraceSlice(t: string): Option<string> {
    match (Find(t, '{'), FindLast(t, '}'))
    case (Some(start), Some(end)) => if end <= start then None else Some(t[start..end + 1])
    case _ => None
  }

  /** The copilot's fallback when the whole answer is not JSON. */
  function CopilotSlice(raw: string): Option<string> {
    BraceSlice(Strip(raw))
  }

  predicate StartsWith(s: string, p: string) {
    |p| <= |s| && s[..|p|] == p
  }

  predicate EndsWith(s: string, p: string) {
    |p| <= |s| && s[|s| - |p|..] == p
  }

  function DropOpeningFence(s: string): string
    requires StartsWith(s, "```")
  {
    var rest := s[3..];
    StripLeft(if StartsWith(rest, "json") then rest[4..] else rest)
  }

  function DropClosingFence(s: string): string {
    if EndsWith(s, "```") then StripRight(s[..|s| - 3]) else s
  }

  /** The destination service also removes a Markdown fence first. */
  function DestinationSlice(value: string): Option<string> {
    var t := Strip(value);
    BraceSlice(if StartsWith(t, "```") then DropClosingFence(DropOpeningFence(t)) else t)
  }

  predicate NoBraces(s: string) {
    '{' !in s && '}' !in s
  }

  lemma NoBracesInBlank(s: string)
    requires Blank(s)
    ensures NoBraces(s)
  {
  }

  lemma BraceSliceIgnoresFront(a: string, t: string)
    requires NoBraces(a)
    ensures BraceSlice(a + t) == BraceSlice(t)
  {
    FindAfter(a, t, '{');
    FindLastAfter(a, t, '}');
    if '{' in t && '}' in t {
      var i, j := Find(t, '{').value, FindLast(t, '}').value;
      if i < j {
        SliceAfter(a, t, i, j + 1);
      }
    }
  }

  lemma BraceSliceIgnoresBack(t: string, b: string)
    requires NoBraces(b)
    ensures BraceSlice(t + b) == BraceSlice(t)
  {
    FindBefore(t, b, '{');
    FindLastBefore(t, b, '}');
    if '{' in t && '}' in t {
      var i, j := Find(t, '{').value, FindLast(t, '}').value;
      if i < j {
        SliceBefore(t, b, i, j + 1);
      }
    }
  }

  lemma CopilotSliceIsBraceSlice(raw: string)
    ensures CopilotSlice(raw) == BraceSlice(raw)
  {
    var before, after := StripSplits(raw);
    NoBracesInBlank(before);
    NoBracesInBlank(after);
    BraceSliceIgnoresFront(before, Strip(raw));
    BraceSliceIgnoresBack(before + Strip(raw), after);
  }

  lemma DropOpeningFenceKeepsSlice(s: string)
    requires StartsWith(s, "```")
    ensures BraceSlice(DropOpeningFence(s)) == BraceSlice(s)
  {
    var fence := OpeningFence(s);
    var body := s[|fence|..];
    var gap := body[..|body| - |StripLeft(body)|];
    assert body == gap + StripLeft(body);
    NoBracesInBlank(gap);
    BraceSliceIgnoresFront(fence, body);
    BraceSliceIgnoresFront(gap, StripLeft(body));
  }

  lemma OpeningFence(s: string) returns (fence: string)
    requires StartsWith(s, "```")
    ensures NoBraces(fence) && |fence| <= |s| && s == fence + s[|fence|..]
    ensures DropOpeningFence(s) == StripLeft(s[|fence|..])
  {
    fence := "```";
    if StartsWith(s[3..], "json") {
      fence := "```json";
      assert s == s[..3] + (s[3..][..4] + s[3..][4..]);
      assert s[7..] == s[3..][4..];
    }
  }

  lemma DropClosingFenceKeepsSlice(s: string)
    ensures BraceSlice(DropClosingFence(s)) == BraceSlice(s)
  {
    if EndsWith(s, "```") {
      var body := s[..|s| - 3];
      var rest := StripRight(body);
      NoBracesInBlank(body[|rest|..]);
      assert body == rest + body[|rest|..] && s == body + "```";
      BraceSliceIgnoresBack(rest, body[|rest|..]);
      BraceSliceIgnoresBack(body, "```");
    }
  }

  /** Stripping and fences never matter: both services cut from the first `{` to the last `}`. */
  lemma SlicesAgree(raw: string)
    ensures CopilotSlice(raw) == BraceSlice(raw) && DestinationSlice(raw) == BraceSlice(raw)
  {
    CopilotSliceIsBraceSlice(raw);
    var t := Strip(raw);
    if StartsWith(t, "```") {
      DropOpeningFenceKeepsSlice(t);
      DropClosingFenceKeepsSlice(DropOpeningFence(t));
    }
  }

  ghost predicate IsSlice(t: string, i: nat, j: nat) {
    i < j < |t| && t[i] == '{' && t[j] == '}'
  }

  /** Both services find something exactly when some `{` stands before some `}`, and then they return the longest
      stretch from a `{` to a `}`. */
  lemma SliceIsBetweenBraces(raw: string)
    ensures CopilotSlice(raw) == DestinationSlice(raw)
    ensures CopilotSlice(raw) == None <==> forall i: nat, j: nat :: !IsSlice(raw, i, j)
    ensures forall i: nat, j: nat :: IsSlice(raw, i, j) && '{' !in raw[..i] && '}' !in raw[j + 1..] ==>
              CopilotSlice(raw) == Some(raw[i..j + 1])
  {
    hide CopilotSlice, DestinationSlice;
    SlicesAgree(raw);
    if BraceSlice(raw).Some? {
      assert IsSlice(raw, Find(raw, '{').value, FindLast(raw, '}').value);
    }
    forall i: nat, j: nat | IsSlice(raw, i, j) && '{' !in raw[..i] && '}' !in raw[j + 1..]
      ensures BraceSlice(raw) == Some(raw[i..j + 1])
    {
      FindIsFirst(raw, '{', i);
      FindLastIsLast(raw, '}', j);
    }
  }

  /** Where the scanner's object lies: it starts at the first `{` and ends with `}`. */
  lemma LocateFirstObject(text: string) returns (start: nat, end: nat)
    requires FirstObject(text).Success?
    ensures Find(text, '{') == Some(start) && start + 2 <= end <= |text| && text[end - 1] == '}'
    ensures FirstObject(text).value == text[start..end]
  {
    start := Find(text, '{').value;
    var s := text[start..];
    var n := Scan(s, START).length;
    ScanBound(s, START);
    end := start + n;
    assert s[n - 1] == text[end - 1];
  }

  /** When the scanner finds an object, the two slices are that object if and only if no `}` comes
      after it. */
  lemma ExtractorAgreement(text: string) returns (start: nat, end: nat)
    requires FirstObject(text).Success?
    ensures Find(text, '{') == Some(start) && start <= end <= |text|
    ensures FirstObject(text).value == text[start..end]
    ensures CopilotSlice(text) == DestinationSlice(text)
    ensures CopilotSlice(text) == Some(text[start..end]) <==> '}' !in text[end..]
  {
    hide FirstObject, CopilotSlice, DestinationSlice;
    start, end := LocateFirstObject(text);
    var slice := SliceOf(text, start, end - start);
  }

  lemma SliceOf(text: string, start: nat, n: nat) returns (slice: Option<string>)
    requires Find(text, '{') == Some(start)
    requires 2 <= n <= |text| - start && text[start + n - 1] == '}'
    ensures CopilotSlice(text) == DestinationSlice(text) == slice
    ensures slice == Some(text[start..start + n]) <==> '}' !in text[start + n..]
  {
    slice := BraceSlice(text);
    SlicesAgree(text);
    SliceVersusClosing(text, start, n);
  }

  lemma SliceVersusClosing(text: string, start: nat, n: nat)
    requires Find(text, '{') == Some(start)
    requires 2 <= n <= |text| - start && text[start + n - 1] == '}'
    ensures BraceSlice(text) == Some(text[start..start + n]) <==> '}' !in text[start + n..]
  {
    var last := FindLast(text, '}').value;
    if '}' in text[start + n..] {
      var j :| 0 <= j < |text[start + n..]| && text[start + n..][j] == '}';
      AbsentFrom(text, '}', last + 1);
      assert text[start + n + j] == '}';
      assert |text[start..last + 1]| > n;
    } else {
      FindLastIsLast(text, '}', start + n - 1);
    }
  }

  /** On a printed object with no `{` before it and no `}` after it all three give the same text. */
  lemma ExtractorsAgreeOnPrintedObject(before: string, o: Json, after: string)
    requires Valid(o) && o.Object?
    requires '{' !in before && '}' !in after
    ensures FirstObject(before + Print(o) + after) == Success(Print(o))
    ensures CopilotSlice(before + Print(o) + after) == Some(Print(o))
    ensures DestinationSlice(before + Print(o) + after) == Some(Print(o))
  {
    RoundTrip(before, o, after);
    SlicesAgree(before + Print(o) + after);
    PrintedObjectEnds(o);
    hide FirstObject, CopilotSlice, DestinationSlice, BraceSlice, Print, Valid;
    SliceInTheMiddle(before, Print(o), after);
  }

  lemma PrintedObjectEnds(o: Json)
    requires Valid(o) && o.Object?
    ensures var p := Print(o); |p| >= 2 && p[0] == '{' && p[|p| - 1] == '}'
  {
    ScanObject(o);
    ScanBound(Print(o), START);
  }

  lemma SliceInTheMiddle(before: string, p: string, after: string)
    requires |p| >= 2 && p[0] == '{' && p[|p| - 1] == '}' && '{' !in before && '}' !in after
    ensures BraceSlice(before + p + after) == Some(p)
  {
    hide BraceSlice;
    var text := before + p + after;
    assert text[|before|] == p[0] && text[..|before|] == before;
    FindIsFirst(text, '{', |before|);
    assert text[|before|..|before| + |p|] == p && text[|before| + |p|..] == after;
    assert text[|before| + |p| - 1] == p[|p| - 1];
    SliceVersusClosing(text, |before|, |p|);
  }
}
