/** What the chunker promises: no visible character is lost, repeated only by a bounded carry, or moved;
    chunks are bounded; blocks that fit stay whole. */
module ChunkerLaws {
  import opened Text
  import opened Numbers
  import opened Sequences
  import opened Chunker

  // ---------- ink of several strings ----------

  function InkAll(parts: seq<string>): string {
    if parts == [] then "" else Ink(parts[0]) + InkAll(parts[1..])
  }

  lemma {:induction false} InkAllConcat(a: seq<string>, b: seq<string>)
    ensures InkAll(a + b) == InkAll(a) + InkAll(b)
  {
    if a == [] {
      assert a + b == b;
    } else {
      assert (a + b)[1..] == a[1..] + b;
      InkAllConcat(a[1..], b);
    }
  }

  lemma {:induction false} InkOfCrLfToLf(s: string)
    ensures Ink(CrLfToLf(s)) == Ink(s)
  {
    if |s| >= 2 && s[0] == '\r' && s[1] == '\n' {
      InkOfCrLfToLf(s[2..]);
      InkOfConcat("\n", CrLfToLf(s[2..]));
      assert s == [s[0]] + ([s[1]] + s[2..]);
      InkOfConcat([s[0]], [s[1]] + s[2..]);
      InkOfConcat([s[1]], s[2..]);
    } else if s != "" {
      InkOfCrLfToLf(s[1..]);
    }
  }

  lemma {:induction false} InkOfCrToLf(s: string)
    ensures Ink(CrToLf(s)) == Ink(s)
  {
    if s != "" {
      InkOfCrToLf(s[1..]);
    }
  }

  lemma InkOfNormalize(text: string)
    ensures Ink(Normalize(text)) == Ink(text)
    ensures Trimmed(Normalize(text))
  {
    InkOfCrLfToLf(text);
    InkOfCrToLf(CrLfToLf(text));
    InkOfStrip(CrToLf(CrLfToLf(text)));
    var _, _ := StripSplits(CrToLf(CrLfToLf(text)));
  }

  lemma {:induction false} InkOfLines(s: string)
    ensures InkAll(Lines(s)) == Ink(s)
  {
    if s != "" {
      InkOfLines(s[1..]);
      var rest := Lines(s[1..]);
      if s[0] == '\n' {
        assert Lines(s)[1..] == rest;
      } else {
        assert Lines(s)[1..] == rest[1..];
        InkOfConcat([s[0]], rest[0]);
      }
    }
  }

  lemma {:induction false} InkOfJoinWith(parts: seq<string>, separator: string)
    requires Blank(separator)
    ensures Ink(JoinWith(parts, separator)) == InkAll(parts)
  {
    if |parts| == 1 {
      assert parts == [parts[0]];
    } else if |parts| > 1 {
      InkOfJoinWith(parts[1..], separator);
      InkOfConcat(parts[0] + separator, JoinWith(parts[1..], separator));
      InkOfConcat(parts[0], separator);
      InkOfBlank(separator);
    }
  }

  lemma InkOfParagraph(lines: seq<string>)
    ensures InkAll(Paragraph(lines)) == InkAll(lines)
  {
    InkOfJoinWith(lines, " ");
    InkOfStrip(JoinWith(lines, " "));
  }

  /** Splitting into blocks keeps every visible character, in order. */
  lemma {:induction false} InkOfBlocksFrom(lines: seq<string>, paragraph: seq<string>)
    ensures InkAll(BlocksFrom(lines, paragraph)) == InkAll(paragraph) + InkAll(lines)
    decreases |lines|
  {
    hide Strip, Paragraph, IsBullet, Ink, BlocksFrom;
    InkOfParagraph(paragraph);
    BlocksFromNothing(paragraph);
    if lines != [] {
      BlocksFromCons(lines, 0, paragraph);
      assert lines[0..] == lines;
      var stripped, rest := Strip(lines[0]), lines[1..];
      InkOfStrip(lines[0]);
      if stripped == "" {
        InkOfBlank(stripped);
        InkOfBlocksFrom(rest, []);
        InkAllConcat(Paragraph(paragraph), BlocksFrom(rest, []));
      } else if IsBullet(stripped) {
        InkOfBlocksFrom(rest, []);
        InkAllConcat(Paragraph(paragraph) + [stripped], BlocksFrom(rest, []));
        InkAllConcat(Paragraph(paragraph), [stripped]);
      } else {
        InkOfBlocksFrom(rest, paragraph + [stripped]);
        InkAllConcat(paragraph, [stripped]);
      }
    }
  }

  lemma InkOfBlocks(text: string)
    ensures InkAll(Blocks(text)) == Ink(text)
  {
    InkOfBlocksFrom(Lines(text), []);
    InkOfLines(text);
  }

  // ---------- blocks are trimmed and not empty ----------

  predicate IsNeat(s: string) {
    s != "" && Trimmed(s)
  }

  predicate AllNeat(parts: seq<string>) {
    forall i :: 0 <= i < |parts| ==> IsNeat(parts[i])
  }

  lemma NeatHasInk(s: string)
    requires IsNeat(s)
    ensures Ink(s) != "" && Strip(s) == s
  {
    InkIsEmptyOnlyOnBlank(s);
    StripOfTrimmed(s);
  }

  lemma StripIsNeat(s: string)
    requires Strip(s) != ""
    ensures IsNeat(Strip(s))
  {
    var _, _ := StripSplits(s);
  }

  lemma {:induction false} JoinOfNeat(parts: seq<string>, separator: string)
    requires AllNeat(parts)
    ensures parts != [] ==> IsNeat(JoinWith(parts, separator))
  {
    if |parts| > 1 {
      assert AllNeat(parts[1..]);
      JoinOfNeat(parts[1..], separator);
    }
  }

  lemma {:induction false} BlocksFromAreNeat(lines: seq<string>, paragraph: seq<string>)
    requires AllNeat(paragraph)
    ensures AllNeat(BlocksFrom(lines, paragraph))
    decreases |lines|
  {
    JoinOfNeat(paragraph, " ");
    if paragraph != [] {
      NeatHasInk(JoinWith(paragraph, " "));
    }
    if lines != [] {
      var stripped := Strip(lines[0]);
      if stripped == "" {
        BlocksFromAreNeat(lines[1..], []);
      } else {
        StripIsNeat(lines[0]);
        BlocksFromAreNeat(lines[1..], if IsBullet(stripped) then [] else paragraph + [stripped]);
      }
    }
  }

  // ---------- lossless up to a bounded carry ----------

  ghost predicate IsSuffix(part: string, s: string) {
    |part| <= |s| && s[|s| - |part|..] == part
  }

  /** Each chunk repeats at most `overlap` visible characters from the end of the chunk before it
      (`previous` for the first one), and what it adds continues `ink` where the chunk before left off;
      together they use up `ink`. `carries` says how much each one repeats. */
  ghost predicate Lossless(previous: string, chunks: seq<string>, carries: seq<nat>, ink: string, overlap: nat)
    decreases |chunks|
  {
    if chunks == [] then carries == [] && ink == ""
    else
      && carries != []
      && var body, k := Ink(chunks[0]), carries[0];
         && k <= overlap && k <= |body|
         && IsSuffix(body[..k], previous)
         && body[k..] <= ink
         && Lossless(body, chunks[1..], carries[1..], ink[|body| - k..], overlap)
  }

  /** The visible text of the last chunk, or `previous` when there is none. */
  function LastInk(previous: string, chunks: seq<string>): string {
    if chunks == [] then previous else Ink(chunks[|chunks| - 1])
  }

  lemma LosslessNil(previous: string, carries: seq<nat>, ink: string, overlap: nat)
    requires Lossless(previous, [], carries, ink, overlap)
    ensures carries == [] && ink == ""
  {
  }

  lemma LosslessUncons(previous: string, chunks: seq<string>, carries: seq<nat>, ink: string, overlap: nat)
    requires Lossless(previous, chunks, carries, ink, overlap) && chunks != []
    ensures carries != []
    ensures var body, k := Ink(chunks[0]), carries[0];
            && k <= overlap && k <= |body| && IsSuffix(body[..k], previous) && body[k..] <= ink
            && Lossless(body, chunks[1..], carries[1..], ink[|body| - k..], overlap)
  {
  }

  lemma {:induction false} LosslessConcat(
      previous: string, a: seq<string>, ca: seq<nat>, ia: string, b: seq<string>, cb: seq<nat>, ib: string, overlap: nat)
    requires Lossless(previous, a, ca, ia, overlap)
    requires Lossless(LastInk(previous, a), b, cb, ib, overlap)
    ensures Lossless(previous, a + b, ca + cb, ia + ib, overlap)
    decreases |a|
  {
    hide Lossless, Ink;
    if a == [] {
      LosslessNil(previous, ca, ia, overlap);
      assert a + b == b && ca + cb == cb && ia + ib == ib;
    } else {
      LosslessUncons(previous, a, ca, ia, overlap);
      var body, k := Ink(a[0]), ca[0];
      var rest := ia[|body| - k..];
      LastInkOfTail(previous, a);
      LosslessConcat(body, a[1..], ca[1..], rest, b, cb, ib, overlap);
      LosslessCons(previous, a[0], k, a[1..] + b, ca[1..] + cb, rest + ib, overlap);
      PutBack(a, b);
      PutBack(ca, cb);
      assert ia == body[k..] + rest;
      CarriedOn(body[k..], rest, 0, ib);
    }
  }

  lemma PutBack<T>(a: seq<T>, b: seq<T>)
    requires a != []
    ensures [a[0]] + (a[1..] + b) == a + b
  {
  }

  lemma LastInkOfTail(previous: string, a: seq<string>)
    requires a != []
    ensures LastInk(previous, a) == LastInk(Ink(a[0]), a[1..])
  {
  }

  lemma LosslessCons(
      previous: string, chunk: string, k: nat, chunks: seq<string>, carries: seq<nat>, ink: string, overlap: nat)
    requires k <= overlap && k <= |Ink(chunk)| && IsSuffix(Ink(chunk)[..k], previous)
    requires Lossless(Ink(chunk), chunks, carries, ink, overlap)
    ensures Lossless(previous, [chunk] + chunks, [k] + carries, Ink(chunk)[k..] + ink, overlap)
  {
    var added := Ink(chunk)[k..];
    assert ([chunk] + chunks)[1..] == chunks && ([k] + carries)[1..] == carries;
    assert (added + ink)[|added|..] == ink;
  }

  lemma LosslessOne(previous: string, chunk: string, k: nat, overlap: nat)
    requires k <= overlap && k <= |Ink(chunk)| && IsSuffix(Ink(chunk)[..k], previous)
    ensures Lossless(previous, [chunk], [k], Ink(chunk)[k..], overlap)
  {
    assert Ink(chunk)[k..][|Ink(chunk)| - k..] == "";
  }

  // ---------- the sliding window ----------

  /** The next window never ends before this one does, so windows only ever repeat or continue. */
  lemma WindowsOnlyAdvance(block: string, maxChars: nat, overlap: nat, start: nat)
    requires start < |block| && overlap < maxChars
    ensures var end := WindowEnd(block, maxChars, start);
            && start < end <= |block| && end - start <= maxChars
            && (end < |block| ==>
                  var next := NextStart(start, end, overlap);
                  && start < next <= end && end - next <= overlap
                  && end <= WindowEnd(block, maxChars, next))
  {
    NoBreakInside(block, maxChars, start);
    var end := WindowEnd(block, maxChars, start);
    if end < |block| {
      NextWindowReaches(block, maxChars, start, end, NextStart(start, end, overlap));
    }
  }

  lemma NextWindowReaches(block: string, maxChars: nat, start: nat, end: nat, next: nat)
    requires start < next <= end < |block| && end < next + maxChars
    requires || (block[end] == ' ' || block[end] == '\n')
             || (forall k :: start < k < end ==> block[k] != ' ' && block[k] != '\n')
    ensures end <= WindowEnd(block, maxChars, next)
  {
    var raw := Min(next + maxChars, |block|);
    assert raw > end;
    var space, newline := RFindIn(block, ' ', next, raw), RFindIn(block, '\n', next, raw);
    if block[end] == ' ' {
      assert space >= end;
    } else if block[end] == '\n' {
      assert newline >= end;
    } else {
      assert (space >= end || space <= next) && (newline >= end || newline <= next);
    }
  }

  /** A window that stops short has no break strictly between its start and its end. */
  lemma NoBreakInside(block: string, maxChars: nat, start: nat)
    requires start < |block| && maxChars >= 1
    ensures var end := WindowEnd(block, maxChars, start);
            && start < end <= |block| && end - start <= maxChars
            && (end < |block| ==>
                 || (block[end] == ' ' || block[end] == '\n')
                 || (forall k :: start < k < end ==> block[k] != ' ' && block[k] != '\n'))
  {
  }

  lemma InkOfSlices(s: string, a: nat, b: nat, c: nat)
    requires a <= b <= c <= |s|
    ensures Ink(s[a..c]) == Ink(s[a..b]) + Ink(s[b..c])
  {
    assert s[a..c] == s[a..b] + s[b..c];
    InkOfConcat(s[a..b], s[b..c]);
  }

  /** One window: it repeats what lies before `reach` and adds what lies after. */
  lemma OneWindow(block: string, start: nat, reach: nat, end: nat, overlap: nat, previous: string)
    returns (carry: seq<nat>)
    requires start <= reach <= end <= |block| && reach - start <= overlap
    requires IsSuffix(Ink(block[start..reach]), previous)
    ensures Lossless(previous, NonEmpty(Strip(block[start..end])), carry, Ink(block[reach..end]), overlap)
    ensures IsSuffix(Ink(block[start..end]), LastInk(previous, NonEmpty(Strip(block[start..end]))))
  {
    var chunk := Strip(block[start..end]);
    var repeated := Ink(block[start..reach]);
    InkOfSlices(block, start, reach, end);
    InkIsNoLonger(block[start..reach]);
    InkOfStrip(block[start..end]);
    hide Strip;
    if chunk == "" {
      carry := [];
    } else {
      carry := [|repeated|];
      assert Ink(chunk)[..|repeated|] == repeated && Ink(chunk)[|repeated|..] == Ink(block[reach..end]);
      LosslessOne(previous, chunk, |repeated|, overlap);
    }
  }

  /** From a window that starts inside the text already covered up to `reach`, the remaining windows
      cover exactly the rest, repeating at most `overlap` characters each. */
  lemma {:induction false} WindowsLossless(
      block: string, maxChars: nat, overlap: nat, start: nat, reach: nat, previous: string) returns (carries: seq<nat>)
    requires start < |block| && overlap < maxChars
    requires start <= reach <= WindowEnd(block, maxChars, start)
    requires reach - start <= overlap
    requires IsSuffix(Ink(block[start..reach]), previous)
    ensures reach <= |block|
    ensures Lossless(previous, Windows(block, maxChars, overlap, start), carries, Ink(block[reach..]), overlap)
    decreases |block| - start
  {
    WindowsOnlyAdvance(block, maxChars, overlap, start);
    WindowsCons(block, maxChars, overlap, start);
    var end := WindowEnd(block, maxChars, start);
    hide Strip, WindowEnd, Windows, Ink;
    var carry := OneWindow(block, start, reach, end, overlap, previous);
    var here := NonEmpty(Strip(block[start..end]));
    SplitTail(block, reach, end);
    if end >= |block| {
      carries := carry;
      assert here + [] == here;
      InkOfEmpty(block[end..]);
    } else {
      var next := NextStart(start, end, overlap);
      InkOfSliceEnd(block, start, next, end);
      SuffixOfSuffix(Ink(block[next..end]), Ink(block[start..end]), LastInk(previous, here));
      var later := WindowsLossless(block, maxChars, overlap, next, end, LastInk(previous, here));
      carries := carry + later;
      LosslessConcat(previous, here, carry, Ink(block[reach..end]),
                     Windows(block, maxChars, overlap, next), later, Ink(block[end..]), overlap);
    }
  }

  lemma InkOfEmpty(s: string)
    requires s == ""
    ensures forall t: string :: t + Ink(s) == t
  {
  }

  lemma InkOfSliceEnd(s: string, a: nat, b: nat, c: nat)
    requires a <= b <= c <= |s|
    ensures IsSuffix(Ink(s[b..c]), Ink(s[a..c]))
  {
    InkOfSlices(s, a, b, c);
  }

  lemma SplitTail(s: string, a: nat, b: nat)
    requires a <= b <= |s|
    ensures Ink(s[a..]) == Ink(s[a..b]) + Ink(s[b..])
  {
    WholeTail(s, a);
    WholeTail(s, b);
    InkOfSlices(s, a, b, |s|);
  }

  lemma WholeTail(s: string, i: nat)
    requires i <= |s|
    ensures s[i..] == s[i..|s|]
  {
  }

  lemma StripIsStretch(s: string, a: nat, b: nat)
    requires a <= b <= |s|
    ensures Contains(s, Strip(s[a..b]))
  {
    var before, after := StripSplits(s[a..b]);
    var i := a + |before|;
    var j := i + |Strip(s[a..b])|;
    hide Strip;
    assert s[i..j] == s[a..b][|before|..|before| + (j - i)];
  }

  /** Windows are stretches of the block, trimmed, never empty and never longer than the limit. */
  lemma {:induction false} WindowsAreStretches(block: string, maxChars: nat, overlap: nat, start: nat)
    requires start < |block| && overlap < maxChars
    ensures forall i :: 0 <= i < |Windows(block, maxChars, overlap, start)| ==>
              var w := Windows(block, maxChars, overlap, start)[i];
              IsNeat(w) && |w| <= maxChars && Contains(block, w)
    decreases |block| - start
  {
    hide Windows, Strip, Contains;
    WindowsOnlyAdvance(block, maxChars, overlap, start);
    WindowsCons(block, maxChars, overlap, start);
    var end := WindowEnd(block, maxChars, start);
    hide WindowEnd, IsNeat;
    StripIsStretch(block, start, end);
    StripIsNoLonger(block[start..end]);
    if Strip(block[start..end]) != "" {
      StripIsNeat(block[start..end]);
    }
    if end < |block| {
      WindowsAreStretches(block, maxChars, overlap, NextStart(start, end, overlap));
    }
  }

  lemma StripIsNoLonger(s: string)
    ensures |Strip(s)| <= |s|
  {
    var _, _ := StripSplits(s);
  }

  // ---------- joining and carrying ----------

  lemma JoinShape(left: string, right: string) returns (separator: string)
    requires IsNeat(left) && IsNeat(right)
    ensures Blank(separator) && JoinBlocks(left, right) == left + separator + right
  {
    NeatHasInk(left);
    NeatHasInk(right);
    separator := if IsBullet(right) then "\n" else "\n\n";
  }

  lemma JoinWithNothing(right: string)
    requires IsNeat(right)
    ensures JoinBlocks("", right) == right
  {
    NeatHasInk(right);
  }

  lemma JoinIsNeat(left: string, right: string)
    requires left == "" || IsNeat(left)
    requires IsNeat(right)
    ensures IsNeat(JoinBlocks(left, right))
  {
    hide JoinBlocks;
    if left == "" {
      JoinWithNothing(right);
    } else {
      var separator := JoinShape(left, right);
    }
  }

  lemma InkOfJoin(left: string, right: string)
    requires left == "" || IsNeat(left)
    requires IsNeat(right)
    ensures Ink(JoinBlocks(left, right)) == Ink(left) + Ink(right)
  {
    hide JoinBlocks;
    if left == "" {
      JoinWithNothing(right);
    } else {
      var separator := JoinShape(left, right);
      InkOfConcat(left + separator, right);
      InkOfConcat(left, separator);
      InkOfBlank(separator);
    }
  }

  lemma JoinContains(left: string, right: string, s: string)
    requires left == "" || IsNeat(left)
    requires IsNeat(right)
    requires s == right || (s != "" && Contains(left, s))
    ensures Contains(JoinBlocks(left, right), s)
  {
    hide JoinBlocks;
    ContainsItself(right);
    if left == "" {
      JoinWithNothing(right);
    } else {
      var separator := JoinShape(left, right);
      if s == right {
        ContainsBack(left + separator, right, s);
      } else {
        ContainsFront(left, separator, s);
        ContainsFront(left + separator, right, s);
      }
    }
  }

  /** What is carried into the next chunk is a suffix of the closed one, at most `overlap` long. */
  lemma OverlapTailIsSuffix(text: string, overlap: nat)
    requires Trimmed(text)
    ensures IsSuffix(OverlapTail(text, overlap), text)
    ensures |OverlapTail(text, overlap)| <= overlap
    ensures Trimmed(OverlapTail(text, overlap))
  {
    if overlap > 0 && text != "" {
      var cut := text[Max(0, |text| - overlap)..];
      TrimmedSuffix(text, cut);
      var tail := Strip(cut);
      hide Strip, FirstBreak, IsSuffix;
      var boundary := FirstBreak(tail);
      if boundary > 0 {
        DropIsSuffix(tail, boundary);
        SuffixOfSuffix(tail[boundary..], tail, text);
        TrimmedSuffix(text, tail[boundary..]);
      }
    }
  }

  lemma DropIsSuffix(s: string, k: nat)
    requires k <= |s|
    ensures IsSuffix(s[k..], s)
  {
  }

  /** Stripping a proper suffix of a trimmed text gives a shorter suffix of it. */
  lemma TrimmedSuffix(text: string, cut: string)
    requires Trimmed(text) && cut != "" && IsSuffix(cut, text)
    ensures IsSuffix(Strip(cut), text) && IsNeat(Strip(cut)) && |Strip(cut)| <= |cut|
  {
    assert cut[|cut| - 1] == text[|text| - 1];
    StripOfOpenEnd(cut);
    SuffixOfSuffix(Strip(cut), cut, text);
  }

  lemma SuffixOfSuffix(a: string, b: string, c: string)
    requires IsSuffix(a, b) && IsSuffix(b, c)
    ensures IsSuffix(a, c)
  {
  }

  lemma StripOfOpenEnd(s: string)
    requires s != "" && !IsSpace(s[|s| - 1])
    ensures IsNeat(Strip(s)) && IsSuffix(Strip(s), s)
  {
    var before, after := StripSplits(s);
    StripIsEmptyOnlyOnBlank(s);
  }

  lemma InkOfSuffix(part: string, s: string)
    requires IsSuffix(part, s)
    ensures IsSuffix(Ink(part), Ink(s))
  {
    var front := s[..|s| - |part|];
    assert s == front + part;
    InkOfConcat(front, part);
  }

  /** The reopened chunk starts with what it carries, then the whole block. */
  lemma ReopenedChunk(current: string, block: string, maxChars: nat, overlap: nat) returns (carry: nat)
    requires IsNeat(current) && IsNeat(block) && |block| <= maxChars && overlap < maxChars
    ensures var reopened := Reopen(current, block, maxChars, overlap);
            && IsNeat(reopened) && |reopened| <= maxChars && Contains(reopened, block)
            && carry <= overlap && carry <= |Ink(reopened)|
            && IsSuffix(Ink(reopened)[..carry], Ink(current))
            && Ink(reopened)[carry..] == Ink(block)
  {
    var reopened := Reopen(current, block, maxChars, overlap);
    var tail := OverlapTail(current, overlap);
    OverlapTailIsSuffix(current, overlap);
    if tail != "" {
      JoinIsNeat(tail, block);
      InkOfJoin(tail, block);
      JoinContains(tail, block, block);
    }
    if tail != "" && |JoinBlocks(tail, block)| <= maxChars {
      InkIsNoLonger(tail);
      InkOfSuffix(tail, current);
      carry := |Ink(tail)|;
    } else {
      carry := 0;
      ContainsItself(block);
    }
  }

  // ---------- packing ----------

  /** `current` repeats `carry` characters of `previous` and holds the rest anew. */
  ghost predicate Carried(current: string, carry: nat, overlap: nat, previous: string) {
    && (current == "" || IsNeat(current))
    && carry <= overlap && carry <= |Ink(current)|
    && IsSuffix(Ink(current)[..carry], previous)
  }

  lemma CloseCurrent(current: string, carry: nat, overlap: nat, previous: string) returns (here: seq<nat>)
    requires Carried(current, carry, overlap, previous)
    ensures Lossless(previous, NonEmpty(current), here, Ink(current)[carry..], overlap)
  {
    here := [];
    if current != "" {
      LosslessOne(previous, current, carry, overlap);
      here := [carry];
    }
  }

  lemma {:induction false} PackLossless(
      blocks: seq<string>, current: string, maxChars: nat, overlap: nat, previous: string, carry: nat)
    returns (carries: seq<nat>)
    requires overlap < maxChars && AllNeat(blocks)
    requires Carried(current, carry, overlap, previous)
    ensures Lossless(previous, Pack(blocks, current, maxChars, overlap), carries,
                     Ink(current)[carry..] + InkAll(blocks), overlap)
    decreases |blocks|, 2
  {
    if blocks == [] {
      carries := CloseCurrent(current, carry, overlap, previous);
      assert Ink(current)[carry..] + "" == Ink(current)[carry..];
    } else {
      assert IsNeat(blocks[0]) && AllNeat(blocks[1..]);
      if |blocks[0]| <= maxChars && |JoinBlocks(current, blocks[0])| <= maxChars {
        carries := PackJoined(blocks, current, maxChars, overlap, previous, carry);
      } else {
        var here := CloseCurrent(current, carry, overlap, previous);
        var before := LastInk(previous, NonEmpty(current));
        var later, rest := PackClosed(blocks, current, maxChars, overlap, before);
        LosslessConcat(previous, NonEmpty(current), here, Ink(current)[carry..], rest, later, InkAll(blocks), overlap);
        carries := here + later;
      }
    }
  }

  lemma {:induction false} PackJoined(
      blocks: seq<string>, current: string, maxChars: nat, overlap: nat, previous: string, carry: nat)
    returns (carries: seq<nat>)
    requires overlap < maxChars && AllNeat(blocks) && blocks != [] && IsNeat(blocks[0]) && AllNeat(blocks[1..])
    requires |blocks[0]| <= maxChars && |JoinBlocks(current, blocks[0])| <= maxChars
    requires Carried(current, carry, overlap, previous)
    ensures Lossless(previous, Pack(blocks, current, maxChars, overlap), carries,
                     Ink(current)[carry..] + InkAll(blocks), overlap)
    decreases |blocks|, 0
  {
    var joined := JoinBlocks(current, blocks[0]);
    JoinIsNeat(current, blocks[0]);
    InkOfJoin(current, blocks[0]);
    CarriedOn(Ink(current), Ink(blocks[0]), carry, InkAll(blocks[1..]));
    assert InkAll(blocks) == Ink(blocks[0]) + InkAll(blocks[1..]);
    hide JoinBlocks, Ink, InkAll;
    carries := PackLossless(blocks[1..], joined, maxChars, overlap, previous, carry);
  }

  lemma CarriedOn(a: string, b: string, carry: nat, rest: string)
    requires carry <= |a|
    ensures (a + b)[..carry] == a[..carry]
    ensures (a + b)[carry..] + rest == a[carry..] + (b + rest)
    ensures a + b + rest == a + (b + rest)
  {
  }

  /** What `Pack` appends after closing the current chunk. */
  lemma {:induction false} PackClosed(
      blocks: seq<string>, current: string, maxChars: nat, overlap: nat, before: string)
    returns (carries: seq<nat>, rest: seq<string>)
    requires overlap < maxChars && AllNeat(blocks) && blocks != [] && IsNeat(blocks[0]) && AllNeat(blocks[1..])
    requires current == "" || (IsNeat(current) && before == Ink(current))
    requires |blocks[0]| > maxChars || |JoinBlocks(current, blocks[0])| > maxChars
    ensures Pack(blocks, current, maxChars, overlap) == NonEmpty(current) + rest
    ensures Lossless(before, rest, carries, InkAll(blocks), overlap)
    decreases |blocks|, 1
  {
    if |blocks[0]| > maxChars {
      carries, rest := PackLongBlock(blocks, before, maxChars, overlap);
      Regroup(NonEmpty(current), Windows(blocks[0], maxChars, overlap, 0), Pack(blocks[1..], "", maxChars, overlap));
    } else {
      JoinWithNothing(blocks[0]);
      var next := Reopen(current, blocks[0], maxChars, overlap);
      var k := ReopenedChunk(current, blocks[0], maxChars, overlap);
      rest := Pack(blocks[1..], next, maxChars, overlap);
      hide JoinBlocks, Reopen;
      carries := PackLossless(blocks[1..], next, maxChars, overlap, before, k);
    }
  }

  lemma {:induction false} PackLongBlock(blocks: seq<string>, previous: string, maxChars: nat, overlap: nat)
    returns (carries: seq<nat>, rest: seq<string>)
    requires blocks != [] && overlap < maxChars && AllNeat(blocks[1..]) && |blocks[0]| > maxChars
    ensures rest == Windows(blocks[0], maxChars, overlap, 0) + Pack(blocks[1..], "", maxChars, overlap)
    ensures Lossless(previous, rest, carries, InkAll(blocks), overlap)
    decreases |blocks|, 0
  {
    var block := blocks[0];
    var windows := Windows(block, maxChars, overlap, 0);
    assert block[0..0] == "" && block[0..] == block;
    var first := WindowsLossless(block, maxChars, overlap, 0, 0, previous);
    hide Windows;
    var later := PackLossless(blocks[1..], "", maxChars, overlap, LastInk(previous, windows), 0);
    assert ""[0..] + InkAll(blocks[1..]) == InkAll(blocks[1..]);
    rest := windows + Pack(blocks[1..], "", maxChars, overlap);
    LosslessConcat(previous, windows, first, Ink(block),
                   Pack(blocks[1..], "", maxChars, overlap), later, InkAll(blocks[1..]), overlap);
    carries := first + later;
  }

  predicate Bounded(chunks: seq<string>, maxChars: nat) {
    forall i :: 0 <= i < |chunks| ==> IsNeat(chunks[i]) && |chunks[i]| <= maxChars
  }

  lemma {:induction false} PackIsBounded(blocks: seq<string>, current: string, maxChars: nat, overlap: nat)
    requires overlap < maxChars && AllNeat(blocks)
    requires current == "" || (IsNeat(current) && |current| <= maxChars)
    ensures Bounded(Pack(blocks, current, maxChars, overlap), maxChars)
    decreases |blocks|
  {
    if blocks != [] {
      var block, rest := blocks[0], blocks[1..];
      assert IsNeat(block) && AllNeat(rest);
      if |block| > maxChars {
        WindowsAreStretches(block, maxChars, overlap, 0);
        PackIsBounded(rest, "", maxChars, overlap);
        assert Bounded(Windows(block, maxChars, overlap, 0), maxChars);
      } else {
        JoinIsNeat(current, block);
        JoinWithNothing(block);
        if |JoinBlocks(current, block)| <= maxChars {
          PackIsBounded(rest, JoinBlocks(current, block), maxChars, overlap);
        } else {
          var _ := ReopenedChunk(current, block, maxChars, overlap);
          PackIsBounded(rest, Reopen(current, block, maxChars, overlap), maxChars, overlap);
        }
      }
    }
  }

  ghost predicate SomeContains(chunks: seq<string>, s: string) {
    exists i :: 0 <= i < |chunks| && Contains(chunks[i], s)
  }

  lemma SomeContainsConcat(a: seq<string>, b: seq<string>, s: string)
    requires SomeContains(a, s) || SomeContains(b, s)
    ensures SomeContains(a + b, s)
  {
    if SomeContains(a, s) {
      var i :| 0 <= i < |a| && Contains(a[i], s);
      assert (a + b)[i] == a[i];
    } else {
      var i :| 0 <= i < |b| && Contains(b[i], s);
      assert (a + b)[|a| + i] == b[i];
    }
  }

  /** A stretch that is already in the current chunk, or is a block that fits, ends up whole in one chunk. */
  lemma {:induction false} PackKeepsWhole(blocks: seq<string>, current: string, maxChars: nat, overlap: nat, s: string)
    requires overlap < maxChars && AllNeat(blocks) && s != ""
    requires current == "" || IsNeat(current)
    requires Contains(current, s) || (s in blocks && |s| <= maxChars)
    ensures SomeContains(Pack(blocks, current, maxChars, overlap), s)
    decreases |blocks|
  {
    if Contains(current, s) {
      assert current != "";
      assert NonEmpty(current)[0] == current;
      assert SomeContains(NonEmpty(current), s);
    }
    if blocks != [] {
      var block, rest := blocks[0], blocks[1..];
      assert IsNeat(block) && AllNeat(rest);
      assert s in blocks ==> s == block || s in rest;
      if |block| > maxChars {
        if Contains(current, s) {
          SomeContainsConcat(NonEmpty(current), Windows(block, maxChars, overlap, 0), s);
        } else {
          PackKeepsWhole(rest, "", maxChars, overlap, s);
        }
        SomeContainsConcat(NonEmpty(current) + Windows(block, maxChars, overlap, 0),
                           Pack(rest, "", maxChars, overlap), s);
      } else {
        JoinIsNeat(current, block);
        JoinWithNothing(block);
        if |JoinBlocks(current, block)| <= maxChars {
          JoinContains(current, block, if Contains(current, s) then s else block);
          PackKeepsWhole(rest, JoinBlocks(current, block), maxChars, overlap, s);
        } else {
          var _ := ReopenedChunk(current, block, maxChars, overlap);
          var reopened := Reopen(current, block, maxChars, overlap);
          if !Contains(current, s) {
            PackKeepsWhole(rest, reopened, maxChars, overlap, s);
          }
          SomeContainsConcat(NonEmpty(current), Pack(rest, reopened, maxChars, overlap), s);
        }
      }
    }
  }

  lemma {:induction false} StripAllOfNeat(chunks: seq<string>)
    requires AllNeat(chunks)
    ensures StripAll(chunks) == chunks
  {
    if chunks != [] {
      assert IsNeat(chunks[0]) && AllNeat(chunks[1..]);
      NeatHasInk(chunks[0]);
      StripAllOfNeat(chunks[1..]);
    }
  }

  // ---------- the whole chunker ----------

  /** Every chunk is non-empty, trimmed and within the limit. */
  lemma ChunksAreBounded(text: string, maxChars: int, overlapChars: int)
    ensures Bounded(Chunks(text, maxChars, overlapChars), ClampMax(maxChars))
  {
    var normalized := Normalize(text);
    InkOfNormalize(text);
    if |normalized| > ClampMax(maxChars) {
      PackOfText(normalized, maxChars, overlapChars);
    }
  }

  lemma PackOfText(normalized: string, maxChars: int, overlapChars: int)
    ensures AllNeat(Blocks(normalized))
    ensures var packed := Pack(Blocks(normalized), "", ClampMax(maxChars), ClampOverlap(maxChars, overlapChars));
            Bounded(packed, ClampMax(maxChars)) && StripAll(packed) == packed
  {
    BlocksFromAreNeat(Lines(normalized), []);
    PackIsBounded(Blocks(normalized), "", ClampMax(maxChars), ClampOverlap(maxChars, overlapChars));
    StripAllOfNeat(Pack(Blocks(normalized), "", ClampMax(maxChars), ClampOverlap(maxChars, overlapChars)));
  }

  /** For every text, limit and overlap: take from each chunk the few characters it repeats from the
      one before, and what remains is exactly the visible text, in order. */
  lemma ChunksAreLossless(text: string, maxChars: int, overlapChars: int) returns (carries: seq<nat>)
    ensures Lossless("", Chunks(text, maxChars, overlapChars), carries, Ink(text), ClampOverlap(maxChars, overlapChars))
  {
    var normalized := Normalize(text);
    var overlap := ClampOverlap(maxChars, overlapChars);
    InkOfNormalize(text);
    if normalized == "" {
      carries := [];
    } else if |normalized| <= ClampMax(maxChars) {
      LosslessOne("", normalized, 0, overlap);
      assert Ink(normalized)[0..] == Ink(normalized);
      carries := [0];
    } else {
      PackOfText(normalized, maxChars, overlapChars);
      InkOfBlocks(normalized);
      carries := PackLossless(Blocks(normalized), "", ClampMax(maxChars), overlap, "", 0);
      assert ""[0..] + Ink(normalized) == Ink(normalized);
    }
  }

  lemma {:induction false} NothingCarried(previous: string, chunks: seq<string>, carries: seq<nat>, ink: string)
    requires Lossless(previous, chunks, carries, ink, 0)
    ensures InkAll(chunks) == ink
    decreases |chunks|
  {
    if chunks != [] {
      var body := Ink(chunks[0]);
      NothingCarried(body, chunks[1..], carries[1..], ink[|body| - carries[0]..]);
      assert body[0..] == body;
      assert ink == ink[..|body|] + ink[|body|..];
    }
  }

  /** Without overlap the concatenated chunks have exactly the text's visible characters, in order. */
  lemma WithoutOverlapNothingRepeats(text: string, maxChars: int, overlapChars: int)
    requires overlapChars <= 0 || maxChars <= 1
    ensures Ink(JoinWith(Chunks(text, maxChars, overlapChars), "")) == Ink(text)
  {
    var carries := ChunksAreLossless(text, maxChars, overlapChars);
    var chunks := Chunks(text, maxChars, overlapChars);
    NothingCarried("", chunks, carries, Ink(text));
    InkOfJoinWith(chunks, "");
  }

  /** Every block that fits is found whole inside one chunk. */
  lemma BlocksStayWhole(text: string, maxChars: int, overlapChars: int, block: string)
    requires |Normalize(text)| > ClampMax(maxChars)
    requires block in Blocks(Normalize(text)) && |block| <= ClampMax(maxChars)
    ensures SomeContains(Chunks(text, maxChars, overlapChars), block)
  {
    var normalized := Normalize(text);
    PackOfText(normalized, maxChars, overlapChars);
    assert IsNeat(block) by {
      var i :| 0 <= i < |Blocks(normalized)| && Blocks(normalized)[i] == block;
    }
    PackKeepsWhole(Blocks(normalized), "", ClampMax(maxChars), ClampOverlap(maxChars, overlapChars), block);
  }
}
