/** The knowledge chunker: text to blocks, blocks packed into bounded chunks with an overlap carried
    from one chunk to the next, over-long blocks cut by a sliding window. */
module Chunker {
  import opened Text
  import opened Numbers
  import opened Sequences

  // ---------- lines and blocks ----------

  function CrLfToLf(s: string): string {
    if |s| >= 2 && s[0] == '\r' && s[1] == '\n' then "\n" + CrLfToLf(s[2..])
    else if s == "" then ""
    else [s[0]] + CrLfToLf(s[1..])
  }

  function CrToLf(s: string): string {
    if s == "" then "" else [if s[0] == '\r' then '\n' else s[0]] + CrToLf(s[1..])
  }

  function Normalize(text: string): string {
    Strip(CrToLf(CrLfToLf(text)))
  }

  /** `s.split("\n")`. */
  function Lines(s: string): (r: seq<string>)
    ensures r != []
  {
    if s == "" then [""]
    else if s[0] == '\n' then [""] + Lines(s[1..])
    else
      var rest := Lines(s[1..]);
      [[s[0]] + rest[0]] + rest[1..]
  }

  function CountDigits(s: string): (n: nat)
    ensures n <= |s|
  {
    if s != "" && IsDigit(s[0]) then 1 + CountDigits(s[1..]) else 0
  }

  /** A list marker, `-`, `*`, `+`, `1.` or `1)`, followed by whitespace. */
  predicate IsBullet(s: string) {
    var t := StripLeft(s);
    var n := CountDigits(t);
    || (|t| >= 2 && t[0] in "-*+" && IsSpace(t[1]))
    || (n >= 1 && |t| >= n + 2 && t[n] in ".)" && IsSpace(t[n + 1]))
  }

  function Paragraph(lines: seq<string>): seq<string> {
    if lines == [] then [] else [Strip(JoinWith(lines, " "))]
  }

  /** The blocks of the remaining lines, when `paragraph` has been collected but not flushed. */
  function BlocksFrom(lines: seq<string>, paragraph: seq<string>): seq<string> {
    if lines == [] then Paragraph(paragraph)
    else
      var stripped := Strip(lines[0]);
      if stripped == "" then Paragraph(paragraph) + BlocksFrom(lines[1..], [])
      else if IsBullet(stripped) then Paragraph(paragraph) + [stripped] + BlocksFrom(lines[1..], [])
      else BlocksFrom(lines[1..], paragraph + [stripped])
  }

  function Blocks(text: string): seq<string> {
    BlocksFrom(Lines(text), [])
  }

  /** The two lists `_split_blocks` grows and clears. */
  class BlockBuilder {
    var blocks: seq<string>
    var paragraphLines: seq<string>

    constructor ()
      ensures blocks == [] && paragraphLines == []
    {
      blocks, paragraphLines := [], [];
    }

    method FlushParagraph()
      modifies this
      ensures blocks == old(blocks) + Paragraph(old(paragraphLines))
      ensures paragraphLines == []
    {
      if paragraphLines == [] {
        return;
      }
      blocks := blocks + [Strip(JoinWith(paragraphLines, " "))];
      paragraphLines := [];
    }
  }

  lemma BlocksFromCons(lines: seq<string>, i: nat, paragraph: seq<string>)
    requires i < |lines|
    ensures var stripped, rest := Strip(lines[i]), lines[i + 1..];
            BlocksFrom(lines[i..], paragraph) ==
              if stripped == "" then Paragraph(paragraph) + BlocksFrom(rest, [])
              else if IsBullet(stripped) then Paragraph(paragraph) + [stripped] + BlocksFrom(rest, [])
              else BlocksFrom(rest, paragraph + [stripped])
  {
    assert lines[i..][0] == lines[i] && lines[i..][1..] == lines[i + 1..];
  }

  lemma BlocksFromNothing(paragraph: seq<string>)
    ensures BlocksFrom([], paragraph) == Paragraph(paragraph)
  {
  }

  method SplitBlocks(text: string) returns (blocks: seq<string>)
    ensures blocks == Blocks(text)
  {
    hide Strip, IsBullet, Lines, BlocksFrom, Paragraph;
    var b := new BlockBuilder();
    var lines := Lines(text);
    for i := 0 to |lines|
      invariant fresh(b)
      invariant b.blocks + BlocksFrom(lines[i..], b.paragraphLines) == Blocks(text)
    {
      ghost var before, pending := b.blocks, b.paragraphLines;
      BlocksFromCons(lines, i, pending);
      var stripped := Strip(lines[i]);
      if stripped == "" {
        b.FlushParagraph();
        Regroup(before, Paragraph(pending), BlocksFrom(lines[i + 1..], []));
      } else if IsBullet(stripped) {
        b.FlushParagraph();
        b.blocks := b.blocks + [stripped];
        Regroup(before, Paragraph(pending), [stripped]);
        Regroup(before, Paragraph(pending) + [stripped], BlocksFrom(lines[i + 1..], []));
      } else {
        b.paragraphLines := b.paragraphLines + [stripped];
      }
    }
    BlocksFromNothing(b.paragraphLines);
    assert lines[|lines|..] == [];
    b.FlushParagraph();
    return b.blocks;
  }

  // ---------- the window over a long block ----------

  function RFindIn(s: string, c: char, lo: nat, hi: nat): (r: int)
    requires lo <= hi <= |s|
    ensures r == -1 || (lo <= r < hi && s[r] == c)
    ensures forall k :: lo <= k < hi && r < k ==> s[k] != c
  {
    match FindLastBelow(s, c, hi)
    case None => -1
    case Some(i) => if i < lo then -1 else i
  }

  function WindowEnd(block: string, maxChars: nat, start: nat): nat
    requires start < |block| && maxChars >= 1
  {
    var end := Min(start + maxChars, |block|);
    var boundary := Max(RFindIn(block, ' ', start, end), RFindIn(block, '\n', start, end));
    if end < |block| && boundary > start then boundary else end
  }

  function NextStart(start: nat, end: nat, overlap: nat): nat {
    Max(end - overlap, start + 1)
  }

  function Windows(block: string, maxChars: nat, overlap: nat, start: nat): seq<string>
    requires start < |block| && overlap < maxChars
    decreases |block| - start
  {
    var end := WindowEnd(block, maxChars, start);
    var chunk := Strip(block[start..end]);
    NonEmpty(chunk)
    + (if end >= |block| then [] else Windows(block, maxChars, overlap, NextStart(start, end, overlap)))
  }

  lemma WindowsCons(block: string, maxChars: nat, overlap: nat, start: nat)
    requires start < |block| && overlap < maxChars
    ensures var end := WindowEnd(block, maxChars, start);
            Windows(block, maxChars, overlap, start) == NonEmpty(Strip(block[start..end])) +
              (if end >= |block| then [] else Windows(block, maxChars, overlap, NextStart(start, end, overlap)))
  {
  }

  method SplitLongBlock(block: string, maxChars: nat, overlap: nat) returns (chunks: seq<string>)
    requires overlap < maxChars
    ensures chunks == if block == "" then [] else Windows(block, maxChars, overlap, 0)
  {
    hide Strip, Windows;
    chunks := [];
    var start: nat := 0;
    while start < |block|
      invariant start < |block| || (block == "" && chunks == [])
      invariant start < |block| ==>
          chunks + Windows(block, maxChars, overlap, start) == Windows(block, maxChars, overlap, 0)
    {
      var end := Min(start + maxChars, |block|);
      if end < |block| {
        var boundary := Max(RFindIn(block, ' ', start, end), RFindIn(block, '\n', start, end));
        if boundary > start {
          end := boundary;
        }
      }
      assert end == WindowEnd(block, maxChars, start);
      WindowsCons(block, maxChars, overlap, start);
      ghost var before := chunks;
      var chunk := Strip(block[start..end]);
      if chunk != "" {
        chunks := chunks + [chunk];
      }
      assert chunks == before + NonEmpty(chunk);
      if end >= |block| {
        break;
      }
      start := NextStart(start, end, overlap);
      Regroup(before, NonEmpty(chunk), Windows(block, maxChars, overlap, start));
    }
  }

  // ---------- packing blocks into chunks ----------

  function JoinBlocks(left: string, right: string): string {
    if left == "" then Strip(right)
    else if right == "" then Strip(left)
    else Strip(left) + (if IsBullet(Strip(right)) then "\n" else "\n\n") + Strip(right)
  }

  /** The first newline or space, -1 when there is none. */
  function FirstBreak(s: string): (r: int)
    ensures r < |s|
  {
    match (Find(s, '\n'), Find(s, ' '))
    case (Some(i), Some(j)) => Min(i, j)
    case (Some(i), None) => i
    case (None, Some(j)) => j
    case (None, None) => -1
  }

  function OverlapTail(text: string, overlap: nat): string {
    if overlap == 0 || text == "" then ""
    else
      var tail := Strip(text[Max(0, |text| - overlap)..]);
      var boundary := FirstBreak(tail);
      if boundary > 0 then Strip(tail[boundary..]) else tail
  }

  function NonEmpty(s: string): seq<string> {
    if s == "" then [] else [s]
  }

  /** The main loop of `chunk_text`. */
  method PackBlocks(normalized: string, max: nat, overlap: nat) returns (chunks: seq<string>)
    requires overlap < max
    ensures chunks == Pack(Blocks(normalized), "", max, overlap)
  {
    hide Strip, Blocks, JoinBlocks, OverlapTail, Pack, Windows;
    var blocks := SplitBlocks(normalized);
    chunks := [];
    var current := "";
    for i := 0 to |blocks|
      invariant chunks + Pack(blocks[i..], current, max, overlap) == Pack(blocks, "", max, overlap)
    {
      var block := blocks[i];
      PackCons(blocks, i, current, max, overlap);
      ghost var before, was := chunks, current;
      if |block| > max {
        if current != "" {
          chunks := chunks + [current];
          current := "";
        }
        var windows := SplitLongBlock(block, max, overlap);
        chunks := chunks + windows;
        Regroup(before + NonEmpty(was), windows, Pack(blocks[i + 1..], "", max, overlap));
        Regroup(before, NonEmpty(was), windows);
        Regroup(before, NonEmpty(was) + windows, Pack(blocks[i + 1..], "", max, overlap));
        continue;
      }
      var candidate := JoinBlocks(current, block);
      if |candidate| <= max {
        current := candidate;
        continue;
      }
      if current != "" {
        chunks := chunks + [current];
      }
      assert chunks == before + NonEmpty(was);
      var tail := OverlapTail(current, overlap);
      var withOverlap := if tail != "" then JoinBlocks(tail, block) else block;
      current := if |withOverlap| <= max then withOverlap else block;
      Regroup(before, NonEmpty(was), Pack(blocks[i + 1..], current, max, overlap));
    }
    PackNil(current, max, overlap);
    assert blocks[|blocks|..] == [];
    if current != "" {
      chunks := chunks + [current];
    }
  }

  /** The closing filter of `chunk_text`. */
  method StripChunks(chunks: seq<string>) returns (result: seq<string>)
    ensures result == StripAll(chunks)
  {
    hide Strip, StripAll;
    result := [];
    assert chunks[0..] == chunks;
    for i := 0 to |chunks|
      invariant result + StripAll(chunks[i..]) == StripAll(chunks)
    {
      StripAllCons(chunks, i);
      ghost var before := result;
      if Strip(chunks[i]) != "" {
        result := result + [Strip(chunks[i])];
      }
      assert result == before + NonEmpty(Strip(chunks[i]));
      Regroup(before, NonEmpty(Strip(chunks[i])), StripAll(chunks[i + 1..]));
    }
    StripAllNil(chunks[|chunks|..]);
  }

  /** What becomes the current chunk after `current` was closed because `block` did not fit. */
  function Reopen(current: string, block: string, maxChars: nat, overlap: nat): string {
    var tail := OverlapTail(current, overlap);
    var candidate := if tail != "" then JoinBlocks(tail, block) else block;
    if |candidate| <= maxChars then candidate else block
  }

  function Pack(blocks: seq<string>, current: string, maxChars: nat, overlap: nat): seq<string>
    requires overlap < maxChars
    decreases |blocks|
  {
    if blocks == [] then NonEmpty(current)
    else
      var block, rest := blocks[0], blocks[1..];
      if |block| > maxChars then
        NonEmpty(current) + Windows(block, maxChars, overlap, 0) + Pack(rest, "", maxChars, overlap)
      else if |JoinBlocks(current, block)| <= maxChars then
        Pack(rest, JoinBlocks(current, block), maxChars, overlap)
      else
        NonEmpty(current) + Pack(rest, Reopen(current, block, maxChars, overlap), maxChars, overlap)
  }

  function StripAll(chunks: seq<string>): seq<string> {
    if chunks == [] then [] else NonEmpty(Strip(chunks[0])) + StripAll(chunks[1..])
  }

  lemma PackCons(blocks: seq<string>, i: nat, current: string, maxChars: nat, overlap: nat)
    requires i < |blocks| && overlap < maxChars
    ensures var block, rest := blocks[i], blocks[i + 1..];
            Pack(blocks[i..], current, maxChars, overlap) ==
              if |block| > maxChars then
                NonEmpty(current) + Windows(block, maxChars, overlap, 0) + Pack(rest, "", maxChars, overlap)
              else if |JoinBlocks(current, block)| <= maxChars then
                Pack(rest, JoinBlocks(current, block), maxChars, overlap)
              else
                NonEmpty(current) + Pack(rest, Reopen(current, block, maxChars, overlap), maxChars, overlap)
  {
    assert blocks[i..][0] == blocks[i] && blocks[i..][1..] == blocks[i + 1..];
  }

  lemma PackNil(current: string, maxChars: nat, overlap: nat)
    requires overlap < maxChars
    ensures Pack([], current, maxChars, overlap) == NonEmpty(current)
  {
  }

  lemma StripAllCons(chunks: seq<string>, i: nat)
    requires i < |chunks|
    ensures StripAll(chunks[i..]) == NonEmpty(Strip(chunks[i])) + StripAll(chunks[i + 1..])
  {
    assert chunks[i..][0] == chunks[i] && chunks[i..][1..] == chunks[i + 1..];
  }

  lemma StripAllNil(chunks: seq<string>)
    requires chunks == []
    ensures StripAll(chunks) == []
  {
  }

  function ClampMax(maxChars: int): nat {
    Max(1, maxChars)
  }

  function ClampOverlap(maxChars: int, overlapChars: int): (r: nat)
    ensures r < ClampMax(maxChars)
    ensures r == 0 <==> overlapChars <= 0 || maxChars <= 1
  {
    Max(0, Min(overlapChars, ClampMax(maxChars) - 1))
  }

  function Chunks(text: string, maxChars: int, overlapChars: int): seq<string> {
    var normalized := Normalize(text);
    if normalized == "" then []
    else if |normalized| <= ClampMax(maxChars) then [normalized]
    else StripAll(Pack(Blocks(normalized), "", ClampMax(maxChars), ClampOverlap(maxChars, overlapChars)))
  }

  method ChunkText(text: string, maxChars: int, overlapChars: int) returns (result: seq<string>)
    ensures result == Chunks(text, maxChars, overlapChars)
  {
    hide Strip, Blocks, JoinBlocks, OverlapTail, Pack, Windows, StripAll;
    var normalized := Strip(CrToLf(CrLfToLf(text)));
    if normalized == "" {
      return [];
    }
    var max := Max(1, maxChars);
    var overlap := Max(0, Min(overlapChars, max - 1));
    if |normalized| <= max {
      return [normalized];
    }
    var chunks := PackBlocks(normalized, max, overlap);
    result := StripChunks(chunks);
  }
}
