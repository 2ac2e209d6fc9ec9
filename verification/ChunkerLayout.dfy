/** Which chunks a text is cut into, said from its lines: what a block is, where a window ends, what a chunk
    holds, and what it carries over from the chunk before it. The vocabulary here is independent of the
    functions the chunker computes with. */
module ChunkerLayout {
  import opened Text
  import opened Numbers
  import opened Sequences
  import opened Chunker
  import opened ChunkerLaws

  // ---------- line ends ----------

  /** Text without carriage returns is only stripped. */
  lemma {:induction false} LinesWithoutReturns(a: string)
    requires '\r' !in a
    ensures Normalize(a) == Strip(a)
  {
    OtherTextStays(a, "");
    assert a + "" == a;
  }

  lemma {:induction false} OtherTextStays(a: string, b: string)
    requires '\r' !in a
    ensures CrToLf(CrLfToLf(a + b)) == a + CrToLf(CrLfToLf(b))
  {
    if a == "" {
      assert a + b == b;
    } else {
      OtherTextStays(a[1..], b);
      var s := a + b;
      assert s[0] == a[0] && s[1..] == a[1..] + b;
      assert a[0] in a;
      assert CrLfToLf(s) == [a[0]] + CrLfToLf(s[1..]);
    }
  }

  /** The first carriage return, with the newline after it when there is one, counts as one newline. */
  lemma ReturnCountsAsNewline(a: string, b: string)
    requires '\r' !in a
    ensures Normalize(a + ("\r\n" + b)) == Normalize(a + ("\n" + b))
    ensures b == "" || b[0] != '\n' ==> Normalize(a + ("\r" + b)) == Normalize(a + ("\n" + b))
  {
    hide Strip;
    OtherTextStays(a, "\r\n" + b);
    OtherTextStays(a, "\r" + b);
    OtherTextStays(a, "\n" + b);
    var two, one, lf := "\r\n" + b, "\r" + b, "\n" + b;
    assert two[2..] == b && one[1..] == b && lf[1..] == b;
    assert CrLfToLf(lf) == ['\n'] + CrLfToLf(b);
    if b == "" || b[0] != '\n' {
      assert CrLfToLf(one) == ['\r'] + CrLfToLf(b);
    }
  }

  // ---------- lines and blocks ----------

  /** The parts one after the other with the separator between neighbours, built from the end. */
  ghost function Joined(parts: seq<string>, separator: string): string {
    if parts == [] then ""
    else
      var n := |parts| - 1;
      if n == 0 then parts[0] else Joined(parts[..n], separator) + separator + parts[n]
  }

  lemma {:induction false} JoinedCons(parts: seq<string>, separator: string)
    requires |parts| >= 2
    ensures Joined(parts, separator) == parts[0] + separator + Joined(parts[1..], separator)
  {
    var n := |parts| - 1;
    if n >= 2 {
      JoinedCons(parts[..n], separator);
      assert parts[..n][1..] == parts[1..][..n - 1];
    } else {
      assert parts[..1] == [parts[0]] && parts[1..] == [parts[1]];
    }
  }

  lemma {:induction false} JoinIsJoined(parts: seq<string>, separator: string)
    ensures JoinWith(parts, separator) == Joined(parts, separator)
  {
    if |parts| >= 2 {
      JoinIsJoined(parts[1..], separator);
      JoinedCons(parts, separator);
    }
  }

  /** Lines are what stands between the newlines: they hold none, and joining them gives the text back. */
  lemma {:induction false} LinesOfText(s: string)
    ensures Joined(Lines(s), "\n") == s
    ensures forall k :: 0 <= k < |Lines(s)| ==> '\n' !in Lines(s)[k]
  {
    if s != "" {
      var rest := Lines(s[1..]);
      LinesOfText(s[1..]);
      JoinIsJoined(rest, "\n");
      JoinIsJoined(Lines(s), "\n");
      if s[0] == '\n' {
        assert Lines(s)[1..] == rest;
      } else if |rest| > 1 {
        assert Lines(s)[1..] == rest[1..];
      }
    }
  }

  /** `-`, `*`, `+`, or digits closed by `.` or `)`. */
  ghost predicate IsMarker(m: string) {
    || m == "-" || m == "*" || m == "+"
    || (|m| >= 2 && (m[|m| - 1] == '.' || m[|m| - 1] == ')') && forall k :: 0 <= k < |m| - 1 ==> IsDigit(m[k]))
  }

  /** The line starts, after any indentation, with a marker followed by whitespace. */
  ghost predicate Marked(s: string) {
    exists i, j :: MarkedAt(s, i, j)
  }

  ghost predicate MarkedAt(s: string, i: nat, j: nat) {
    i < j < |s| && Blank(s[..i]) && IsMarker(s[i..j]) && IsSpace(s[j])
  }

  lemma {:induction false} DigitsAreCounted(s: string)
    ensures forall k :: 0 <= k < CountDigits(s) ==> IsDigit(s[k])
    ensures CountDigits(s) < |s| ==> !IsDigit(s[CountDigits(s)])
  {
    if s != "" && IsDigit(s[0]) {
      DigitsAreCounted(s[1..]);
      forall k | 0 <= k < CountDigits(s)
        ensures IsDigit(s[k])
      {
        if k > 0 {
          assert s[k] == s[1..][k - 1];
        }
      }
    }
  }

  lemma BulletIsMarked(s: string)
    ensures IsBullet(s) <==> Marked(s)
  {
    var p := SkipForward(s, 0);
    var t := StripLeft(s);
    DigitsAreCounted(t);
    if IsBullet(s) {
      var q := if |t| >= 2 && t[0] in "-*+" && IsSpace(t[1]) then 1 else CountDigits(t) + 1;
      assert s[p..p + q] == t[..q];
      assert s[p + q] == t[q];
      assert q == 1 ==> t[..1] == [t[0]];
      assert MarkedAt(s, p, p + q);
    }
    if Marked(s) {
      var i, j :| MarkedAt(s, i, j);
      MarkedIsBullet(s, i, j);
    }
  }

  lemma MarkedIsBullet(s: string, i: nat, j: nat)
    requires MarkedAt(s, i, j)
    ensures IsBullet(s)
  {
    var m, t := s[i..j], StripLeft(s);
    assert m[0] == s[i] && !IsSpace(s[i]);
    SkipsBlank(s, i);
    assert t == s[i..];
    assert t[..|m|] == m && t[|m|] == s[j];
    if |m| >= 2 {
      DigitsAreCounted(t);
      var n := |m| - 1;
      assert forall k :: 0 <= k < n ==> t[k] == m[k];
      assert t[n] == m[n] && !IsDigit(t[n]);
      assert CountDigits(t) == n;
    } else {
      assert t[0] == m[0];
    }
  }

  lemma SkipsBlank(s: string, i: nat)
    requires i < |s| && Blank(s[..i]) && !IsSpace(s[i])
    ensures StripLeft(s) == s[i..]
  {
    assert forall k :: 0 <= k < i ==> s[k] == s[..i][k];
  }

  /** A line of running text: neither blank nor a list item. */
  ghost predicate IsPlain(line: string) {
    Strip(line) != "" && !Marked(Strip(line))
  }

  /** Each list item is a block, and so is each longest stretch of plain lines, joined by single spaces;
      lines are taken without the whitespace around them. */
  ghost predicate Grouped(blocks: seq<string>, lines: seq<string>)
    decreases |lines|
  {
    if lines == [] then blocks == []
    else if Strip(lines[0]) == "" then Grouped(blocks, lines[1..])
    else if Marked(Strip(lines[0])) then
      blocks != [] && blocks[0] == Strip(lines[0]) && Grouped(blocks[1..], lines[1..])
    else
      exists n: nat :: IsStretch(lines, n) && blocks != [] && blocks[0] == Joined(Stripped(lines[..n]), " ")
                       && Grouped(blocks[1..], lines[n..])
  }

  /** The first `n` lines, and no more, are plain. */
  ghost predicate IsStretch(lines: seq<string>, n: nat) {
    1 <= n <= |lines| && (forall k :: 0 <= k < n ==> IsPlain(lines[k])) && (n < |lines| ==> !IsPlain(lines[n]))
  }

  ghost function Stripped(lines: seq<string>): seq<string> {
    seq(|lines|, k requires 0 <= k < |lines| => Strip(lines[k]))
  }

  /** The blocks are the list items and the stretches of plain lines, in order. */
  lemma BlocksAreGrouped(text: string)
    ensures Grouped(Blocks(text), Lines(text))
  {
    GroupedFrom(Lines(text), 0);
  }

  lemma {:induction false} GroupedFrom(lines: seq<string>, pending: nat)
    requires pending <= |lines| && forall k :: 0 <= k < pending ==> IsPlain(lines[k])
    ensures Grouped(BlocksFrom(lines[pending..], Stripped(lines[..pending])), lines)
    decreases |lines|, |lines| - pending + 1
  {
    hide Strip, IsBullet, Marked, Grouped, BlocksFrom, Joined, JoinWith;
    var paragraph := Stripped(lines[..pending]);
    var rest := lines[pending..];
    if pending < |lines| && IsPlain(lines[pending]) {
      BlocksFromCons(lines, pending, paragraph);
      BulletIsMarked(Strip(lines[pending]));
      assert lines[..pending + 1] == lines[..pending] + [lines[pending]];
      assert Stripped(lines[..pending + 1]) == paragraph + [Strip(lines[pending])];
      GroupedFrom(lines, pending + 1);
    } else if pending > 0 {
      GroupedFrom(rest, 0);
      assert rest[..0] == [] && rest[0..] == rest && Stripped(rest[..0]) == [];
      FlushedFirst(lines, pending);
      GroupedStretch(lines, pending, BlocksFrom(rest, []));
    } else {
      assert lines[0..] == lines && paragraph == [];
      GroupedStart(lines);
    }
  }

  /** A stretch ends where a blank line, a list item or the text does, and is then flushed. */
  lemma FlushedFirst(lines: seq<string>, pending: nat)
    requires IsStretch(lines, pending)
    ensures var paragraph := Stripped(lines[..pending]);
            BlocksFrom(lines[pending..], paragraph)
              == [Joined(paragraph, " ")] + BlocksFrom(lines[pending..], [])
  {
    hide Strip, IsBullet, Marked, BlocksFrom, Joined, JoinWith;
    var paragraph := Stripped(lines[..pending]);
    var rest := lines[pending..];
    assert AllNeat(paragraph) by {
      forall k | 0 <= k < pending
        ensures IsNeat(paragraph[k])
      {
        assert IsPlain(lines[k]);
        StripIsNeat(lines[k]);
      }
    }
    JoinOfNeat(paragraph, " ");
    NeatHasInk(JoinWith(paragraph, " "));
    JoinIsJoined(paragraph, " ");
    BlocksFromNothing(paragraph);
    BlocksFromNothing([]);
    if rest != [] {
      BlocksFromCons(rest, 0, paragraph);
      BlocksFromCons(rest, 0, []);
      assert rest[0..] == rest && rest[0] == lines[pending];
      BulletIsMarked(Strip(rest[0]));
      if Strip(rest[0]) != "" {
        Regroup([Joined(paragraph, " ")], [Strip(rest[0])], BlocksFrom(rest[1..], []));
      }
    }
  }

  lemma GroupedStretch(lines: seq<string>, n: nat, later: seq<string>)
    requires IsStretch(lines, n) && Grouped(later, lines[n..])
    ensures Grouped([Joined(Stripped(lines[..n]), " ")] + later, lines)
  {
    hide Strip, Marked, Joined;
    var blocks := [Joined(Stripped(lines[..n]), " ")] + later;
    assert blocks[1..] == later;
    assert IsPlain(lines[0]);
  }

  lemma {:induction false} GroupedStart(lines: seq<string>)
    requires lines != [] ==> !IsPlain(lines[0])
    ensures Grouped(BlocksFrom(lines, []), lines)
    decreases |lines|, 0
  {
    hide Strip, IsBullet, Marked, BlocksFrom;
    BlocksFromNothing([]);
    if lines != [] {
      BlocksFromCons(lines, 0, []);
      assert lines[0..] == lines;
      BulletIsMarked(Strip(lines[0]));
      var rest := lines[1..];
      GroupedFrom(rest, 0);
      assert rest[..0] == [] && rest[0..] == rest && Stripped(rest[..0]) == [];
      if Strip(lines[0]) != "" {
        var blocks := BlocksFrom(lines, []);
        assert blocks == [Strip(lines[0])] + BlocksFrom(rest, []);
        assert blocks[1..] == BlocksFrom(rest, []);
      } else {
        assert Paragraph([]) + BlocksFrom(rest, []) == BlocksFrom(rest, []);
      }
    }
  }

  // ---------- windows over a long block ----------

  ghost predicate IsGap(c: char) {
    c == ' ' || c == '\n'
  }

  /** A window from `from` ends at the block's end when that is within the limit, else at the last gap the
      limit leaves after `from`, else at the limit. */
  ghost predicate WindowIs(block: string, limit: nat, from: nat, to: nat) {
    && from < to <= |block|
    && if |block| <= from + limit then to == |block|
       else if forall k :: from < k < from + limit ==> !IsGap(block[k]) then to == from + limit
       else to < from + limit && IsGap(block[to]) && forall k :: to < k < from + limit ==> !IsGap(block[k])
  }

  /** The chunks are the windows from `from` on, stripped, blank ones left out; each window but the last is
      followed by one that starts `overlap` characters before its end, or one character after its start. */
  ghost predicate CutUp(chunks: seq<string>, block: string, limit: nat, overlap: nat, from: nat)
    decreases |block| - from
  {
    exists to: nat ::
      && WindowIs(block, limit, from, to)
      && var later := if Strip(block[from..to]) == "" then chunks else chunks[Min(1, |chunks|)..];
         && (Strip(block[from..to]) != "" ==> chunks != [] && chunks[0] == Strip(block[from..to]))
         && if to == |block| then later == []
            else CutUp(later, block, limit, overlap, if to - overlap > from then to - overlap else from + 1)
  }

  lemma WindowEndIs(block: string, limit: nat, from: nat)
    requires from < |block| && limit >= 1
    ensures WindowIs(block, limit, from, WindowEnd(block, limit, from))
  {
    var end := Min(from + limit, |block|);
    var space, newline := RFindIn(block, ' ', from, end), RFindIn(block, '\n', from, end);
    var to := WindowEnd(block, limit, from);
    if end < |block| && Max(space, newline) > from {
      assert IsGap(block[to]);
    }
  }

  lemma {:induction false} WindowsCutUp(block: string, limit: nat, overlap: nat, from: nat)
    requires from < |block| && overlap < limit
    ensures CutUp(Windows(block, limit, overlap, from), block, limit, overlap, from)
    decreases |block| - from
  {
    hide Strip, WindowEnd, Windows, WindowIs;
    WindowsOnlyAdvance(block, limit, overlap, from);
    WindowsCons(block, limit, overlap, from);
    WindowEndIs(block, limit, from);
    var to := WindowEnd(block, limit, from);
    var chunks := Windows(block, limit, overlap, from);
    var text := Strip(block[from..to]);
    if to < |block| {
      var next := NextStart(from, to, overlap);
      WindowsCutUp(block, limit, overlap, next);
      assert chunks[|NonEmpty(text)|..] == Windows(block, limit, overlap, next);
    }
  }

  // ---------- chunks of several blocks ----------

  /** A list item follows on the next line, anything else after a blank line. */
  ghost function Separator(block: string): string {
    if Marked(block) then "\n" else "\n\n"
  }

  ghost predicate FirstGapAt(s: string, k: nat) {
    k < |s| && IsGap(s[k]) && forall m :: 0 <= m < k ==> !IsGap(s[m])
  }

  ghost function LastOf(s: string, n: nat): string {
    if |s| <= n then s else s[|s| - n..]
  }

  /** What is left of the last `overlap` characters of `chunk`, stripped and without the cut-off first word. */
  ghost predicate TailIs(t: string, chunk: string, overlap: nat) {
    var u := Strip(LastOf(chunk, overlap));
    || (t == u && forall k :: FirstGapAt(u, k) ==> k == 0)
    || (exists k: nat :: FirstGapAt(u, k) && k > 0 && t == Strip(u[k..]))
  }

  /** How a chunk starts when `block` did not fit into the chunk `closed` before it: with the tail of that
      chunk, when there is one and the limit leaves room for it. Nothing is carried over from "". */
  ghost predicate Opens(first: string, closed: string, block: string, limit: nat, overlap: nat) {
    if closed == "" || overlap == 0 then first == block
    else exists t ::
      && TailIs(t, closed, overlap)
      && first == if t == "" || |t + Separator(block) + block| > limit then block else t + Separator(block) + block
  }

  /** `first` with the blocks stacked below it. */
  ghost function Stacked(first: string, blocks: seq<string>): string {
    if blocks == [] then first
    else
      var n := |blocks| - 1;
      Stacked(first, blocks[..n]) + Separator(blocks[n]) + blocks[n]
  }

  /** `chunk` starts with `first` and takes the first `n` blocks; the next one is too long for any chunk or
      does not fit into this one. */
  ghost predicate IsRun(chunk: string, first: string, blocks: seq<string>, n: nat, limit: nat) {
    && 1 <= n <= |blocks|
    && (forall k :: 0 <= k < n ==> |blocks[k]| <= limit)
    && chunk == Stacked(first, blocks[1..n])
    && |chunk| <= limit
    && (n < |blocks| ==> |blocks[n]| > limit || |chunk + Separator(blocks[n]) + blocks[n]| > limit)
  }

  /** The chunks of the blocks, when `closed` is the chunk just closed because the first block did not fit. */
  ghost predicate Laid(chunks: seq<string>, closed: string, blocks: seq<string>, limit: nat, overlap: nat)
    decreases |blocks|
  {
    if blocks == [] then chunks == []
    else if |blocks[0]| > limit then
      exists n :: 0 <= n <= |chunks| && CutUp(chunks[..n], blocks[0], limit, overlap, 0)
                  && Laid(chunks[n..], "", blocks[1..], limit, overlap)
    else
      exists n: nat, first :: chunks != [] && Opens(first, closed, blocks[0], limit, overlap)
                         && IsRun(chunks[0], first, blocks, n, limit)
                         && Laid(chunks[1..], chunks[0], blocks[n..], limit, overlap)
  }

  lemma JoinIsSeparated(left: string, right: string)
    requires IsNeat(left) && IsNeat(right)
    ensures JoinBlocks(left, right) == left + Separator(right) + right
  {
    NeatHasInk(left);
    NeatHasInk(right);
    BulletIsMarked(right);
  }

  lemma FirstBreakIsFirstGap(s: string)
    ensures var k := FirstBreak(s); if k < 0 then forall m: nat :: !FirstGapAt(s, m) else FirstGapAt(s, k)
  {
  }

  lemma OverlapTailIs(closed: string, overlap: nat)
    requires IsNeat(closed) && overlap > 0
    ensures TailIs(OverlapTail(closed, overlap), closed, overlap)
  {
    hide Strip, FirstBreak;
    var u := Strip(closed[Max(0, |closed| - overlap)..]);
    assert closed[0..] == closed && LastOf(closed, overlap) == closed[Max(0, |closed| - overlap)..];
    FirstBreakIsFirstGap(u);
    OnlyOneFirstGap(u);
    var k, t := FirstBreak(u), OverlapTail(closed, overlap);
    if k > 0 {
      assert FirstGapAt(u, k) && t == Strip(u[k..]);
    } else {
      assert t == u && forall m: nat :: FirstGapAt(u, m) ==> m == 0;
    }
  }

  lemma OnlyOneFirstGap(s: string)
    ensures forall k, m :: FirstGapAt(s, k) && FirstGapAt(s, m) ==> k == m
  {
  }

  lemma ReopenOpens(closed: string, block: string, limit: nat, overlap: nat)
    requires IsNeat(closed) && IsNeat(block)
    ensures Opens(Reopen(closed, block, limit, overlap), closed, block, limit, overlap)
  {
    hide JoinBlocks, OverlapTail, TailIs, Strip;
    var t := OverlapTail(closed, overlap);
    if overlap == 0 {
      NothingWithoutOverlap(closed);
    } else {
      OverlapTailIs(closed, overlap);
      OverlapTailIsSuffix(closed, overlap);
      if t != "" {
        JoinIsSeparated(t, block);
      }
    }
  }

  lemma NothingWithoutOverlap(text: string)
    ensures OverlapTail(text, 0) == ""
  {
  }

  lemma {:induction false} StackedCons(first: string, blocks: seq<string>)
    requires blocks != []
    ensures Stacked(first, blocks) == Stacked(first + Separator(blocks[0]) + blocks[0], blocks[1..])
  {
    hide Separator;
    var n := |blocks| - 1;
    if n > 0 {
      StackedCons(first, blocks[..n]);
      assert blocks[..n][1..] == blocks[1..][..n - 1];
    } else {
      assert blocks[..0] == [] && blocks[1..] == [];
    }
  }

  lemma {:induction false} StackedIsLonger(first: string, blocks: seq<string>)
    ensures |Stacked(first, blocks)| >= |first|
    ensures first <= Stacked(first, blocks)
  {
    if blocks != [] {
      StackedIsLonger(first, blocks[..|blocks| - 1]);
    }
  }

  lemma StackedNext(first: string, blocks: seq<string>, n: nat)
    requires 1 <= n < |blocks|
    ensures Stacked(first, blocks[1..n + 1]) == Stacked(first, blocks[1..n]) + Separator(blocks[n]) + blocks[n]
  {
    hide Separator;
    assert blocks[1..n + 1][..n - 1] == blocks[1..n];
  }

  lemma LaidRun(chunks: seq<string>, closed: string, blocks: seq<string>, first: string, n: nat, limit: nat, overlap: nat)
    requires chunks != [] && blocks != [] && |blocks[0]| <= limit
    requires Opens(first, closed, blocks[0], limit, overlap) && IsRun(chunks[0], first, blocks, n, limit)
    requires Laid(chunks[1..], chunks[0], blocks[n..], limit, overlap)
    ensures Laid(chunks, closed, blocks, limit, overlap)
  {
    hide Opens, IsRun;
  }

  lemma LaidLong(windows: seq<string>, later: seq<string>, closed: string, blocks: seq<string>, limit: nat, overlap: nat)
    requires blocks != [] && |blocks[0]| > limit && CutUp(windows, blocks[0], limit, overlap, 0)
    requires Laid(later, "", blocks[1..], limit, overlap)
    ensures Laid(windows + later, closed, blocks, limit, overlap)
  {
    hide CutUp;
    var n := |windows|;
    assert (windows + later)[..n] == windows && (windows + later)[n..] == later;
  }

  /** Packing on when `current` holds the first `n` blocks, below `first`. */
  lemma {:induction false} RunIsLaid(
      blocks: seq<string>, first: string, n: nat, current: string, closed: string, limit: nat, overlap: nat)
    requires overlap < limit && AllNeat(blocks) && 1 <= n <= |blocks|
    requires Opens(first, closed, blocks[0], limit, overlap) && IsNeat(current) && |current| <= limit
    requires (forall k :: 0 <= k < n ==> |blocks[k]| <= limit) && current == Stacked(first, blocks[1..n])
    ensures Laid(Pack(blocks[n..], current, limit, overlap), closed, blocks, limit, overlap)
    decreases |blocks|, |blocks| - n
  {
    hide Opens, Stacked, Separator, JoinBlocks, Reopen, Windows, Laid, Pack;
    if n == |blocks| {
      PackNil(current, limit, overlap);
      LaidNil(current, limit, overlap);
      assert blocks[n..] == [] && [current][1..] == [];
      LaidRun([current], closed, blocks, first, n, limit, overlap);
    } else {
      var block := blocks[n];
      var joined := current + Separator(block) + block;
      assert IsNeat(block);
      JoinIsSeparated(current, block);
      if |block| <= limit && |joined| <= limit {
        PackCons(blocks, n, current, limit, overlap);
        JoinIsNeat(current, block);
        StackedNext(first, blocks, n);
        RunIsLaid(blocks, first, n + 1, joined, closed, limit, overlap);
      } else {
        var rest := ClosedIsLaid(blocks[n..], current, limit, overlap);
        assert ([current] + rest)[1..] == rest;
        LaidRun([current] + rest, closed, blocks, first, n, limit, overlap);
      }
    }
  }

  lemma LaidNil(closed: string, limit: nat, overlap: nat)
    ensures Laid([], closed, [], limit, overlap)
  {
  }

  /** Packing on when the first block closes the current chunk, or there is none. */
  lemma {:induction false} ClosedIsLaid(blocks: seq<string>, closed: string, limit: nat, overlap: nat)
    returns (rest: seq<string>)
    requires overlap < limit && AllNeat(blocks) && blocks != [] && (closed == "" || IsNeat(closed))
    requires || |blocks[0]| > limit || closed == ""
             || |closed + Separator(blocks[0]) + blocks[0]| > limit
    ensures Pack(blocks, closed, limit, overlap) == NonEmpty(closed) + rest
    ensures Laid(rest, closed, blocks, limit, overlap)
    decreases |blocks|, |blocks|
  {
    hide Opens, Separator, JoinBlocks, Reopen, Windows, Laid, Pack, CutUp;
    var block := blocks[0];
    assert IsNeat(block) && blocks[0..] == blocks;
    PackCons(blocks, 0, closed, limit, overlap);
    if |block| > limit {
      var later := LaterIsLaid(blocks[1..], limit, overlap);
      WindowsCutUp(block, limit, overlap, 0);
      var windows := Windows(block, limit, overlap, 0);
      rest := windows + later;
      LaidLong(windows, later, closed, blocks, limit, overlap);
      Regroup(NonEmpty(closed), windows, later);
    } else {
      var first := block;
      if closed == "" {
        JoinWithNothing(block);
        OpensWithNothing(block, limit, overlap);
      } else {
        first := Reopen(closed, block, limit, overlap);
        JoinIsSeparated(closed, block);
        var _ := ReopenedChunk(closed, block, limit, overlap);
        ReopenOpens(closed, block, limit, overlap);
      }
      assert blocks[1..1] == [] && Stacked(first, []) == first;
      RunIsLaid(blocks, first, 1, first, closed, limit, overlap);
      rest := Pack(blocks[1..], first, limit, overlap);
    }
  }

  lemma OpensWithNothing(block: string, limit: nat, overlap: nat)
    ensures Opens(block, "", block, limit, overlap)
  {
  }

  lemma {:induction false} LaterIsLaid(blocks: seq<string>, limit: nat, overlap: nat) returns (later: seq<string>)
    requires overlap < limit && AllNeat(blocks)
    ensures later == Pack(blocks, "", limit, overlap)
    ensures Laid(later, "", blocks, limit, overlap)
    decreases |blocks|, |blocks| + 1
  {
    hide Laid, Pack;
    later := Pack(blocks, "", limit, overlap);
    if blocks == [] {
      PackNil("", limit, overlap);
      LaidNil("", limit, overlap);
    } else {
      var rest := ClosedIsLaid(blocks, "", limit, overlap);
      assert NonEmpty("") + rest == rest;
    }
  }

  /** Every text: within the limit it is its own only chunk; beyond it, its chunks are laid out from its
      blocks, and these are grouped from its lines, as said above. */
  lemma ChunksAreLaidOut(text: string, maxChars: int, overlapChars: int, limit: nat, overlap: nat)
    requires limit == if maxChars < 1 then 1 else maxChars
    requires overlap == if overlapChars < 0 then 0 else if overlapChars >= limit then limit - 1 else overlapChars
    ensures var normalized, chunks := Normalize(text), Chunks(text, maxChars, overlapChars);
            if normalized == "" then chunks == []
            else if |normalized| <= limit then chunks == [normalized]
            else
              && Grouped(Blocks(normalized), Lines(normalized))
              && Laid(chunks, "", Blocks(normalized), limit, overlap)
  {
    hide Laid, Grouped, Pack, Blocks, Normalize, StripAll, Lines;
    var normalized := Normalize(text);
    PackOfText(normalized, maxChars, overlapChars);
    BlocksAreGrouped(normalized);
    var later := LaterIsLaid(Blocks(normalized), limit, overlap);
  }

  // ---------- consecutive chunks ----------

  /** `chunk` is a stripped stretch of a block that is too long for one chunk. */
  ghost predicate IsWindowOf(chunk: string, block: string, limit: nat) {
    |block| > limit && exists a: nat, b: nat :: IsPieceOf(chunk, block, limit, a, b)
  }

  ghost predicate IsPieceOf(chunk: string, block: string, limit: nat, a: nat, b: nat) {
    a < b <= |block| && b <= a + limit && chunk == Strip(block[a..b])
  }

  /** A window of a long block, or the start of a block that fits and comes right behind a long one. */
  ghost predicate IsFresh(chunk: string, blocks: seq<string>, limit: nat) {
    || (exists j :: 0 <= j < |blocks| && IsWindowOf(chunk, blocks[j], limit))
    || (exists j :: 1 <= j < |blocks| && |blocks[j - 1]| > limit >= |blocks[j]| && blocks[j] <= chunk)
  }

  /** `chunk` starts with a block that fits a chunk, but not with `closed`, whose tail it carries over. */
  ghost predicate CarriesOn(chunk: string, closed: string, block: string, limit: nat, overlap: nat) {
    && |block| <= limit < |closed + Separator(block) + block|
    && exists first :: first <= chunk && Opens(first, closed, block, limit, overlap)
  }

  ghost predicate Succeeds(chunk: string, closed: string, blocks: seq<string>, limit: nat, overlap: nat) {
    IsFresh(chunk, blocks, limit)
    || exists j :: 0 <= j < |blocks| && CarriesOn(chunk, closed, blocks[j], limit, overlap)
  }

  lemma {:induction false} CutsAreWindows(chunks: seq<string>, block: string, limit: nat, overlap: nat, from: nat, i: nat)
    requires CutUp(chunks, block, limit, overlap, from) && |block| > limit && i < |chunks|
    ensures IsWindowOf(chunks[i], block, limit)
    decreases |block| - from
  {
    hide Strip;
    var to: nat :|
      && WindowIs(block, limit, from, to)
      && var later := if Strip(block[from..to]) == "" then chunks else chunks[Min(1, |chunks|)..];
         && (Strip(block[from..to]) != "" ==> chunks != [] && chunks[0] == Strip(block[from..to]))
         && if to == |block| then later == []
            else CutUp(later, block, limit, overlap, if to - overlap > from then to - overlap else from + 1);
    var isBlank := Strip(block[from..to]) == "";
    var later := if isBlank then chunks else chunks[Min(1, |chunks|)..];
    if !isBlank && i == 0 {
      assert IsPieceOf(chunks[0], block, limit, from, to);
    } else {
      CutsAreWindows(later, block, limit, overlap, if to - overlap > from then to - overlap else from + 1,
                     if isBlank then i else i - 1);
    }
  }

  lemma LaidLongParts(chunks: seq<string>, closed: string, blocks: seq<string>, limit: nat, overlap: nat) returns (n: nat)
    requires Laid(chunks, closed, blocks, limit, overlap) && blocks != [] && |blocks[0]| > limit
    ensures n <= |chunks| && CutUp(chunks[..n], blocks[0], limit, overlap, 0)
    ensures Laid(chunks[n..], "", blocks[1..], limit, overlap)
  {
    n :| 0 <= n <= |chunks| && CutUp(chunks[..n], blocks[0], limit, overlap, 0)
         && Laid(chunks[n..], "", blocks[1..], limit, overlap);
  }

  lemma LaidRunParts(chunks: seq<string>, closed: string, blocks: seq<string>, limit: nat, overlap: nat)
    returns (n: nat, first: string)
    requires Laid(chunks, closed, blocks, limit, overlap) && blocks != [] && |blocks[0]| <= limit
    ensures chunks != [] && Opens(first, closed, blocks[0], limit, overlap)
    ensures IsRun(chunks[0], first, blocks, n, limit) && first <= chunks[0]
    ensures Laid(chunks[1..], chunks[0], blocks[n..], limit, overlap)
  {
    n, first :| chunks != [] && Opens(first, closed, blocks[0], limit, overlap)
                && IsRun(chunks[0], first, blocks, n, limit)
                && Laid(chunks[1..], chunks[0], blocks[n..], limit, overlap);
    StackedIsLonger(first, blocks[1..n]);
  }

  lemma {:induction false} FirstAfterLong(
      chunks: seq<string>, closed: string, blocks: seq<string>, d: nat, limit: nat, overlap: nat)
    requires d < |blocks| && chunks != [] && Laid(chunks, closed, blocks[d..], limit, overlap)
    requires |blocks[d]| > limit || (d >= 1 && |blocks[d - 1]| > limit && closed == "")
    ensures IsFresh(chunks[0], blocks, limit)
    decreases |blocks| - d
  {
    hide Laid, CutUp, IsRun, IsWindowOf;
    assert blocks[d..][0] == blocks[d] && blocks[d..][1..] == blocks[d + 1..];
    if |blocks[d]| > limit {
      var n := LaidLongParts(chunks, closed, blocks[d..], limit, overlap);
      if n > 0 {
        CutsAreWindows(chunks[..n], blocks[d], limit, overlap, 0, 0);
      } else {
        assert chunks[0..] == chunks;
        NotEmptyWhenLaid(chunks, "", blocks[d + 1..], limit, overlap);
        FirstAfterLong(chunks, "", blocks, d + 1, limit, overlap);
      }
    } else {
      var n, first := LaidRunParts(chunks, closed, blocks[d..], limit, overlap);
    }
  }

  lemma NotEmptyWhenLaid(chunks: seq<string>, closed: string, blocks: seq<string>, limit: nat, overlap: nat)
    requires chunks != [] && Laid(chunks, closed, blocks, limit, overlap)
    ensures blocks != []
  {
  }

  /** Each chunk but the first is a window of a long block, starts right behind one, or carries over the
      tail of the chunk before it. */
  lemma {:induction false} LaidSucceeds(
      chunks: seq<string>, closed: string, blocks: seq<string>, d: nat, limit: nat, overlap: nat, i: nat)
    requires d <= |blocks| && i + 1 < |chunks| && Laid(chunks, closed, blocks[d..], limit, overlap)
    ensures Succeeds(chunks[i + 1], chunks[i], blocks, limit, overlap)
    decreases |blocks| - d
  {
    hide Laid, CutUp, IsWindowOf, IsFresh, Opens, Separator;
    NotEmptyWhenLaid(chunks, closed, blocks[d..], limit, overlap);
    if |blocks[d]| > limit {
      var n := LaidLongParts(chunks, closed, blocks[d..], limit, overlap);
      assert blocks[d..][1..] == blocks[d + 1..];
      if i + 1 < n {
        CutsAreWindows(chunks[..n], blocks[d], limit, overlap, 0, i + 1);
        WindowIsFresh(chunks[i + 1], blocks, d, limit);
      } else if i + 1 == n {
        NotEmptyWhenLaid(chunks[n..], "", blocks[d + 1..], limit, overlap);
        FirstAfterLong(chunks[n..], "", blocks, d + 1, limit, overlap);
      } else {
        LaidSucceeds(chunks[n..], "", blocks, d + 1, limit, overlap, i - n);
      }
    } else {
      var n, first := LaidRunParts(chunks, closed, blocks[d..], limit, overlap);
      var e, rest := d + n, chunks[1..];
      assert blocks[d..][n..] == blocks[e..];
      if i > 0 {
        LaidSucceeds(rest, chunks[0], blocks, e, limit, overlap, i - 1);
      } else {
        NotEmptyWhenLaid(rest, chunks[0], blocks[e..], limit, overlap);
        if |blocks[e]| > limit {
          FirstAfterLong(rest, chunks[0], blocks, e, limit, overlap);
        } else {
          var m, second := LaidRunParts(rest, chunks[0], blocks[e..], limit, overlap);
          assert blocks[d..][n] == blocks[e];
          assert CarriesOn(chunks[1], chunks[0], blocks[e], limit, overlap);
        }
      }
    }
  }

  lemma WindowIsFresh(chunk: string, blocks: seq<string>, d: nat, limit: nat)
    requires d < |blocks| && IsWindowOf(chunk, blocks[d], limit)
    ensures IsFresh(chunk, blocks, limit)
  {
  }

  /** Consecutive entries of the chunks of any long text. */
  lemma NextChunkCarriesOver(text: string, maxChars: int, overlapChars: int, limit: nat, overlap: nat, i: nat)
    requires limit == if maxChars < 1 then 1 else maxChars
    requires overlap == if overlapChars < 0 then 0 else if overlapChars >= limit then limit - 1 else overlapChars
    requires |Normalize(text)| > limit && i + 1 < |Chunks(text, maxChars, overlapChars)|
    ensures var chunks := Chunks(text, maxChars, overlapChars);
            Succeeds(chunks[i + 1], chunks[i], Blocks(Normalize(text)), limit, overlap)
  {
    hide Laid, Grouped, Blocks, Normalize, Chunks, Succeeds;
    ChunksAreLaidOut(text, maxChars, overlapChars, limit, overlap);
    var blocks := Blocks(Normalize(text));
    assert blocks[0..] == blocks;
    LaidSucceeds(Chunks(text, maxChars, overlapChars), "", blocks, 0, limit, overlap, i);
  }
}
