/** Paragraph ranges and context windows of a raw Markdown text (library/retrieval.py).

    Offsets count code points. Which characters `str.isspace` accepts is a parameter. */
module SourceText {
  import opened Basics

  const MAX_CONTEXT_CHARS: nat := 16_384

  datatype Range = Range(start: nat, end: nat)

  /** The line and blank characters that the separator pattern itself is made of. */
  ghost predicate KnowsBlanks(isSpace: char -> bool) {
    isSpace('\r') && isSpace('\n') && isSpace(' ') && isSpace('\t')
  }

  // ---------------------------------------------------------------- separators

  predicate IsBlank(c: char) {
    c == ' ' || c == '\t'
  }

  function SkipBlanks(text: string, i: nat): (j: nat)
    requires i <= |text|
    ensures i <= j <= |text|
    ensures forall k :: i <= k < j ==> IsBlank(text[k])
    ensures j < |text| ==> !IsBlank(text[j])
    decreases |text| - i
  {
    if i < |text| && IsBlank(text[i]) then SkipBlanks(text, i + 1) else i
  }

  /** Where the pattern `\r?\n[ \t]*\r?\n` ends when it matches at `p`. */
  function SeparatorEnd(text: string, p: nat): (end: Option<nat>)
    requires p <= |text|
    ensures end.Some? ==> p < end.value <= |text|
    ensures end.Some? ==> forall k :: p <= k < end.value ==> text[k] in "\r\n \t"
  {
    var i := if p < |text| && text[p] == '\r' then p + 1 else p;
    if i < |text| && text[i] == '\n' then
      var j := SkipBlanks(text, i + 1);
      var k := if j < |text| && text[j] == '\r' then j + 1 else j;
      if k < |text| && text[k] == '\n' then Some(k + 1) else None
    else None
  }

  predicate LineEnd(s: string) {
    s == "\n" || s == "\r\n"
  }

  predicate AllBlank(s: string) {
    forall i :: 0 <= i < |s| ==> s[i] in " \t"
  }

  /** Two ends of line with nothing but blanks between them. */
  ghost predicate BlankLine(s: string) {
    exists head, blanks, tail :: LineEnd(head) && AllBlank(blanks) && LineEnd(tail) && s == head + blanks + tail
  }

  /** The pattern matches exactly blank lines. */
  lemma SeparatorExactly(text: string, p: nat, e: nat)
    requires p <= e <= |text|
    ensures SeparatorEnd(text, p) == Some(e) <==> BlankLine(text[p..e])
  {
    hide SkipBlanks;
    if SeparatorEnd(text, p) == Some(e) {
      SeparatorIsBlankLine(text, p);
    }
    if BlankLine(text[p..e]) {
      var head, blanks, tail :| LineEnd(head) && AllBlank(blanks) && LineEnd(tail) && text[p..e] == head + blanks + tail;
      BlankLineSeparates(text, p, e, head, blanks, tail);
    }
  }

  lemma LineEndAt(text: string, p: nat, q: nat)
    requires p <= q <= |text|
    ensures LineEnd(text[p..q]) <==>
            (q == p + 1 && text[p] == '\n') || (q == p + 2 && text[p] == '\r' && text[p + 1] == '\n')
  {
    if q == p + 1 {
      assert text[p..q] == [text[p]];
    } else if q == p + 2 {
      assert text[p..q] == [text[p], text[p + 1]];
    }
  }

  lemma SeparatorIsBlankLine(text: string, p: nat)
    requires p <= |text| && SeparatorEnd(text, p).Some?
    ensures BlankLine(text[p..SeparatorEnd(text, p).value])
  {
    hide SkipBlanks, LineEnd, BlankLine;
    var i := if text[p] == '\r' then p + 1 else p;
    var j := SkipBlanks(text, i + 1);
    var k := if text[j] == '\r' then j + 1 else j;
    LineEndAt(text, p, i + 1);
    LineEndAt(text, j, k + 1);
    assert SeparatorEnd(text, p) == Some(k + 1);
    PartsMakeBlankLine(text, p, i + 1, j, k + 1);
  }

  lemma PartsMakeBlankLine(text: string, p: nat, m: nat, n: nat, e: nat)
    requires p <= m <= n <= e <= |text| && LineEnd(text[p..m]) && AllBlank(text[m..n]) && LineEnd(text[n..e])
    ensures BlankLine(text[p..e])
  {
    hide LineEnd, AllBlank;
    assert text[p..e] == text[p..m] + text[m..n] + text[n..e];
  }

  lemma BlankLineSeparates(text: string, p: nat, e: nat, head: string, blanks: string, tail: string)
    requires p <= e <= |text| && LineEnd(head) && AllBlank(blanks) && LineEnd(tail) && text[p..e] == head + blanks + tail
    ensures SeparatorEnd(text, p) == Some(e)
  {
    hide LineEnd, AllBlank, SeparatorEnd;
    var m := p + |head|;
    var n := m + |blanks|;
    PartAt(text, p, p, e, "", head, blanks + tail);
    PartAt(text, p, m, e, head, blanks, tail);
    PartAt(text, p, n, e, head + blanks, tail, "");
    PartsSeparate(text, p, m, n, e);
  }

  lemma PartAt(text: string, p: nat, q: nat, e: nat, before: string, part: string, rest: string)
    requires p <= e <= |text| && text[p..e] == before + part + rest && q == p + |before|
    ensures q + |part| <= e && text[q..q + |part|] == part
  {
    assert |text[p..e]| == |before| + |part| + |rest|;
    var whole := text[p..e];
    forall k | 0 <= k < |part| ensures text[q + k] == part[k] {
      assert whole[|before| + k] == text[q + k];
      assert (before + part + rest)[|before| + k] == part[k];
    }
    assert |text[q..q + |part|]| == |part|;
  }

  lemma PartsSeparate(text: string, p: nat, m: nat, n: nat, e: nat)
    requires p <= m <= n <= e <= |text| && LineEnd(text[p..m]) && AllBlank(text[m..n]) && LineEnd(text[n..e])
    ensures SeparatorEnd(text, p) == Some(e)
  {
    hide SkipBlanks, LineEnd;
    LineEndAt(text, p, m);
    LineEndAt(text, n, e);
    forall k | m <= k < n ensures IsBlank(text[k]) {
      assert text[m..n][k - m] == text[k];
    }
    var j := SkipBlanks(text, m);
    assert !IsBlank(text[n]);
    assert !(j < n) && !(n < j);
  }

  /** The leftmost match at or after `from`. */
  function NextSeparator(text: string, from: nat): (m: Option<Range>)
    requires from <= |text|
    ensures m.Some? ==> from <= m.value.start < m.value.end <= |text|
    ensures m.Some? ==> SeparatorEnd(text, m.value.start) == Some(m.value.end)
    ensures forall p :: from <= p < (if m.Some? then m.value.start else |text|) ==> SeparatorEnd(text, p).None?
    decreases |text| - from
  {
    if from == |text| then None
    else
      match SeparatorEnd(text, from)
      case Some(end) => Some(Range(from, end))
      case None => NextSeparator(text, from + 1)
  }

  // ---------------------------------------------------------------- paragraphs

  function TrimStart(text: string, isSpace: char -> bool, a: nat, b: nat): (s: nat)
    requires a <= b <= |text|
    ensures a <= s <= b
    ensures forall k :: a <= k < s ==> isSpace(text[k])
    ensures s < b ==> !isSpace(text[s])
    decreases b - a
  {
    if a < b && isSpace(text[a]) then TrimStart(text, isSpace, a + 1, b) else a
  }

  function TrimEnd(text: string, isSpace: char -> bool, a: nat, b: nat): (e: nat)
    requires a <= b <= |text|
    ensures a <= e <= b
    ensures forall k :: e <= k < b ==> isSpace(text[k])
    ensures a < e ==> !isSpace(text[e - 1])
    decreases b - a
  {
    if a < b && isSpace(text[b - 1]) then TrimEnd(text, isSpace, a, b - 1) else b
  }

  /** The trimmed range between two separators, if anything is left of it. */
  function Segment(text: string, isSpace: char -> bool, a: nat, b: nat): seq<Range>
    requires a <= b <= |text|
  {
    var s := TrimStart(text, isSpace, a, b);
    var e := TrimEnd(text, isSpace, s, b);
    if s < e then [Range(s, e)] else []
  }

  function ParagraphsFrom(text: string, isSpace: char -> bool, from: nat): seq<Range>
    requires from <= |text|
    decreases |text| - from
  {
    match NextSeparator(text, from)
    case None => Segment(text, isSpace, from, |text|)
    case Some(sep) => Segment(text, isSpace, from, sep.start) + ParagraphsFrom(text, isSpace, sep.end)
  }

  function Paragraphs(text: string, isSpace: char -> bool): seq<Range> {
    ParagraphsFrom(text, isSpace, 0)
  }

  /** The generator `_paragraph_slices`: one cursor, one leftmost match at a time. */
  method ParagraphSlices(text: string, isSpace: char -> bool) returns (slices: seq<Range>)
    ensures slices == Paragraphs(text, isSpace)
  {
    hide NextSeparator, SeparatorEnd, Segment;
    slices := [];
    var start := 0;
    var separator := NextSeparator(text, start);
    while separator.Some?
      invariant start <= |text|
      invariant separator == NextSeparator(text, start)
      invariant slices + ParagraphsFrom(text, isSpace, start) == Paragraphs(text, isSpace)
      decreases |text| - start
    {
      var end := separator.value.start;
      var next := TrimRange(text, isSpace, start, end);
      slices := slices + next;
      start := separator.value.end;
      separator := NextSeparator(text, start);
    }
    var last := TrimRange(text, isSpace, start, |text|);
    slices := slices + last;
  }

  /** The two inner loops that strip white space off both ends of a range. */
  method TrimRange(text: string, isSpace: char -> bool, a: nat, b: nat) returns (r: seq<Range>)
    requires a <= b <= |text|
    ensures r == Segment(text, isSpace, a, b)
  {
    var start, end := a, b;
    while start < end && isSpace(text[start])
      invariant a <= start <= end == b
      invariant TrimStart(text, isSpace, a, b) == TrimStart(text, isSpace, start, b)
    {
      start := start + 1;
    }
    while end > start && isSpace(text[end - 1])
      invariant start <= end <= b
      invariant TrimEnd(text, isSpace, start, b) == TrimEnd(text, isSpace, start, end)
    {
      end := end - 1;
    }
    r := if start < end then [Range(start, end)] else [];
  }

  /** `r` lies within `[lo, |text|)`, is non-empty, and starts and ends on text. */
  ghost predicate TrimmedRange(text: string, isSpace: char -> bool, r: Range, lo: nat) {
    && lo <= r.start < r.end <= |text|
    && !isSpace(text[r.start]) && !isSpace(text[r.end - 1])
  }

  ghost predicate Trimmed(text: string, isSpace: char -> bool, r: seq<Range>, lo: nat) {
    forall i :: 0 <= i < |r| ==> TrimmedRange(text, isSpace, r[i], lo)
  }

  /** A separator lies between the offsets `a` and `b`. */
  ghost predicate SeparatorWithin(text: string, a: nat, b: nat) {
    exists p: nat :: a <= p <= |text| && SeparatorEnd(text, p).Some? && SeparatorEnd(text, p).value <= b
  }

  /** A separator lies between any two ranges, so they are ordered and disjoint. */
  ghost predicate Separated(text: string, r: seq<Range>) {
    forall i, j :: 0 <= i < j < |r| ==> SeparatorWithin(text, r[i].end, r[j].start)
  }

  ghost predicate InRange(r: Range, k: nat) {
    r.start <= k < r.end
  }

  /** No separator starts inside a range. */
  ghost predicate Unbroken(text: string, r: seq<Range>) {
    forall i, p: nat :: 0 <= i < |r| && InRange(r[i], p) && p <= |text| ==> SeparatorEnd(text, p).None?
  }

  ghost predicate Covered(r: seq<Range>, k: nat) {
    exists i :: 0 <= i < |r| && InRange(r[i], k)
  }

  lemma {:induction false} ParagraphsTrimmed(text: string, isSpace: char -> bool, from: nat)
    requires from <= |text|
    ensures Trimmed(text, isSpace, ParagraphsFrom(text, isSpace, from), from)
    decreases |text| - from
  {
    hide NextSeparator, SeparatorEnd, TrimStart, TrimEnd;
    var sep := NextSeparator(text, from);
    if sep.Some? {
      var head := Segment(text, isSpace, from, sep.value.start);
      var tail := ParagraphsFrom(text, isSpace, sep.value.end);
      ParagraphsTrimmed(text, isSpace, sep.value.end);
      assert Trimmed(text, isSpace, head, from);
      forall i | 0 <= i < |tail| ensures TrimmedRange(text, isSpace, tail[i], from) {
        assert TrimmedRange(text, isSpace, tail[i], sep.value.end);
      }
      assert ParagraphsFrom(text, isSpace, from) == head + tail;
    }
  }

  lemma {:induction false} ParagraphsSeparated(text: string, isSpace: char -> bool, from: nat)
    requires from <= |text|
    ensures Separated(text, ParagraphsFrom(text, isSpace, from))
    decreases |text| - from
  {
    hide NextSeparator, SeparatorEnd, TrimStart, TrimEnd;
    var sep := NextSeparator(text, from);
    if sep.Some? {
      var head := Segment(text, isSpace, from, sep.value.start);
      var tail := ParagraphsFrom(text, isSpace, sep.value.end);
      ParagraphsSeparated(text, isSpace, sep.value.end);
      ParagraphsTrimmed(text, isSpace, sep.value.end);
      var r: seq<Range> := head + tail;
      forall i, j | 0 <= i < j < |r|
        ensures SeparatorWithin(text, r[i].end, r[j].start)
      {
        if i >= |head| {
          assert SeparatorWithin(text, tail[i - |head|].end, tail[j - |head|].start);
        } else {
          assert SeparatorEnd(text, sep.value.start).Some?;
          assert tail[j - |head|].start >= sep.value.end;
        }
      }
    }
  }

  lemma {:induction false} ParagraphsUnbroken(text: string, isSpace: char -> bool, from: nat)
    requires from <= |text|
    ensures Unbroken(text, ParagraphsFrom(text, isSpace, from))
    decreases |text| - from
  {
    hide NextSeparator, SeparatorEnd, TrimStart, TrimEnd;
    var sep := NextSeparator(text, from);
    if sep.Some? {
      var head := Segment(text, isSpace, from, sep.value.start);
      var tail := ParagraphsFrom(text, isSpace, sep.value.end);
      ParagraphsUnbroken(text, isSpace, sep.value.end);
      assert Unbroken(text, head);
      forall i, p: nat | 0 <= i < |head + tail| && InRange((head + tail)[i], p) && p <= |text|
        ensures SeparatorEnd(text, p).None?
      {
        if i < |head| {
          assert (head + tail)[i] == head[i];
        } else {
          assert (head + tail)[i] == tail[i - |head|];
        }
      }
    }
  }

  lemma SegmentCovers(text: string, isSpace: char -> bool, a: nat, b: nat, k: nat)
    requires a <= k < b <= |text| && !isSpace(text[k])
    ensures var r := Segment(text, isSpace, a, b); |r| == 1 && InRange(r[0], k)
  {
    hide TrimStart, TrimEnd;
    var s := TrimStart(text, isSpace, a, b);
    assert s <= k;
    assert k < TrimEnd(text, isSpace, s, b);
  }

  lemma {:induction false} ParagraphsCover(text: string, isSpace: char -> bool, from: nat, k: nat)
    requires KnowsBlanks(isSpace) && from <= k < |text| && !isSpace(text[k])
    ensures Covered(ParagraphsFrom(text, isSpace, from), k)
    decreases |text| - from
  {
    hide NextSeparator, SeparatorEnd, Segment;
    var sep := NextSeparator(text, from);
    if sep.Some? {
      var head := Segment(text, isSpace, from, sep.value.start);
      var tail := ParagraphsFrom(text, isSpace, sep.value.end);
      assert ParagraphsFrom(text, isSpace, from) == head + tail;
      if k < sep.value.start {
        SegmentCovers(text, isSpace, from, sep.value.start, k);
        assert (head + tail)[0] == head[0];
      } else {
        assert k >= sep.value.end by { assert isSpace('\r') && isSpace('\n') && isSpace(' ') && isSpace('\t'); }
        ParagraphsCover(text, isSpace, sep.value.end, k);
        var i :| 0 <= i < |tail| && InRange(tail[i], k);
        assert (head + tail)[|head| + i] == tail[i];
      }
    } else {
      SegmentCovers(text, isSpace, from, |text|, k);
    }
  }

  /** A blank line lies between the offsets `a` and `b`. */
  ghost predicate BlankLineWithin(text: string, a: nat, b: nat) {
    exists p: nat, e: nat :: a <= p <= e <= b && e <= |text| && BlankLine(text[p..e])
  }

  ghost predicate BlankLineInside(text: string, r: Range) {
    exists p: nat, e: nat :: InRange(r, p) && p <= e <= |text| && BlankLine(text[p..e])
  }

  lemma BlankLineBetween(text: string, a: nat, b: nat)
    requires SeparatorWithin(text, a, b)
    ensures BlankLineWithin(text, a, b)
  {
    hide SeparatorEnd, BlankLine;
    var p: nat :| a <= p <= |text| && SeparatorEnd(text, p).Some? && SeparatorEnd(text, p).value <= b;
    SeparatorExactly(text, p, SeparatorEnd(text, p).value);
  }

  lemma NoBlankLineInside(text: string, r: seq<Range>, i: nat)
    requires Unbroken(text, r) && i < |r|
    ensures !BlankLineInside(text, r[i])
  {
    hide SeparatorEnd, BlankLine;
    if BlankLineInside(text, r[i]) {
      var p: nat, e: nat :| InRange(r[i], p) && p <= e <= |text| && BlankLine(text[p..e]);
      SeparatorExactly(text, p, e);
    }
  }

  /** Paragraph ranges are ordered, disjoint and non-empty, start and end on text, and are the
      stretches between blank-line separators: one lies between any two, none starts inside. */
  lemma ParagraphsExact(text: string, isSpace: char -> bool)
    ensures var r := Paragraphs(text, isSpace);
            && Trimmed(text, isSpace, r, 0)
            && (forall i :: 0 <= i < |r| ==> !BlankLineInside(text, r[i]))
            && (forall i, j :: 0 <= i < j < |r| ==> r[i].end < r[j].start && BlankLineWithin(text, r[i].end, r[j].start))
  {
    hide SeparatorEnd, BlankLine, BlankLineInside, BlankLineWithin;
    ParagraphsTrimmed(text, isSpace, 0);
    ParagraphsSeparated(text, isSpace, 0);
    ParagraphsUnbroken(text, isSpace, 0);
    var r := Paragraphs(text, isSpace);
    forall i | 0 <= i < |r| ensures !BlankLineInside(text, r[i]) {
      NoBlankLineInside(text, r, i);
    }
    forall i, j | 0 <= i < j < |r| ensures r[i].end < r[j].start && BlankLineWithin(text, r[i].end, r[j].start) {
      assert SeparatorWithin(text, r[i].end, r[j].start);
      BlankLineBetween(text, r[i].end, r[j].start);
    }
  }

  lemma ParagraphsCoverAll(text: string, isSpace: char -> bool, k: nat)
    requires KnowsBlanks(isSpace) && k < |text| && !isSpace(text[k])
    ensures Covered(Paragraphs(text, isSpace), k)
  {
    ParagraphsCover(text, isSpace, 0, k);
  }

  /** Every code point that is not white space lies in exactly one paragraph. */
  lemma ParagraphsPartitionText(text: string, isSpace: char -> bool, k: nat)
    requires KnowsBlanks(isSpace) && k < |text| && !isSpace(text[k])
    ensures var r := Paragraphs(text, isSpace);
            exists i :: 0 <= i < |r| && InRange(r[i], k)
              && forall j :: 0 <= j < |r| && InRange(r[j], k) ==> j == i
  {
    hide Paragraphs;
    hide Trimmed, BlankLineInside, BlankLineWithin;
    assert Covered(Paragraphs(text, isSpace), k) by { ParagraphsCoverAll(text, isSpace, k); }
    ParagraphsExact(text, isSpace);
    var r := Paragraphs(text, isSpace);
    var i :| 0 <= i < |r| && InRange(r[i], k);
    forall j | 0 <= j < |r| && InRange(r[j], k) ensures j == i {
    }
  }

  // ---------------------------------------------------------------- context windows

  datatype WindowError = OutsideText | SpanTooLong

  function Min(a: int, b: int): int {
    if a <= b then a else b
  }

  /** The window a span is shown in: as many code points as the limit and the text allow, with
      the span in the middle unless the text's ends push the window to one side. */
  function WindowOf(length: nat, span: Range): Range
    requires span.start < span.end <= length && span.end - span.start <= MAX_CONTEXT_CHARS
  {
    var width := Min(MAX_CONTEXT_CHARS, length);
    var ideal := span.start - (MAX_CONTEXT_CHARS - (span.end - span.start)) / 2;
    var start := if ideal < 0 then 0 else if ideal > length - width then length - width else ideal;
    Range(start, start + width)
  }

  /** `_bounded_context_slice`: give to each side in turn what the other side left unused. */
  method BoundedContextSlice(text: string, startOffset: int, endOffset: int)
      returns (r: Result<Range, WindowError>)
    ensures r.Err? && r.error == OutsideText <==> !(0 <= startOffset < endOffset <= |text|)
    ensures r.Err? && r.error == SpanTooLong <==>
            0 <= startOffset < endOffset <= |text| && endOffset - startOffset > MAX_CONTEXT_CHARS
    ensures r.Ok? ==> r.value == WindowOf(|text|, Range(startOffset, endOffset))
  {
    var spanLength := endOffset - startOffset;
    if !(0 <= startOffset < endOffset <= |text|) {
      return Err(OutsideText);
    }
    if spanLength > MAX_CONTEXT_CHARS {
      return Err(SpanTooLong);
    }
    var remaining := MAX_CONTEXT_CHARS - spanLength;
    var before := Min(startOffset, remaining / 2);
    var after := Min(|text| - endOffset, remaining - before);
    remaining := remaining - (before + after);
    if remaining != 0 {
      var extraBefore := Min(startOffset - before, remaining);
      before := before + extraBefore;
      remaining := remaining - extraBefore;
    }
    if remaining != 0 {
      after := after + Min(|text| - endOffset - after, remaining);
    }
    r := Ok(Range(startOffset - before, endOffset + after));
  }

  /** The window lies in the text, holds the span, and has exactly the permitted length. */
  lemma WindowExact(length: nat, span: Range)
    requires span.start < span.end <= length && span.end - span.start <= MAX_CONTEXT_CHARS
    ensures var w := WindowOf(length, span);
            && w.start <= span.start && span.end <= w.end <= length
            && w.end - w.start == Min(MAX_CONTEXT_CHARS, length)
  {
  }
}
