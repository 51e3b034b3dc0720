/** The per-line pass of the document loader, put together.

    For each event the engine resolves its style, strips its tags, and, when
    the style resolved, measures and places the line and then segments it
    into words, syllables and characters, each measured and, when the script
    has a positive play resolution, placed. A final pass over the lines of
    each style sets their lead-in and lead-out. */
module Engine {
  import opened Common
  import opened Records
  import Tags
  import Karaoke
  import Words
  import Chars
  import opened Layout
  import LeadTimes
  import Coverage

  /** What the placement of a line's elements reads: the alignment, the
      play resolution, the width of a space and the style's spacing. */
  datatype Frame = Frame(a: int, playResX: int, playResY: int, space: real, spacing: real)

  /** The room a word or syllable takes in a walk: its padding, each padding
      character as wide as a space plus the spacing, and one more spacing. */
  function PaddedSpan(f: Frame, pre: nat, width: real, post: nat): Span {
    Span(PadWidth(f, pre), width, PadWidth(f, post) + f.spacing)
  }

  /** The width of n padding characters: each a space plus the spacing. */
  function PadWidth(f: Frame, n: nat): real {
    n as real * (f.space + f.spacing)
  }

  /** The spans of padded elements (words or syllables), given each one's
      prespace and postspace. */
  function PaddedSpans<T>(f: Frame, items: seq<T>, pad: T -> (nat, nat), sizes: seq<Size>): (sp: seq<Span>)
    requires |sizes| == |items|
    ensures |sp| == |items|
    ensures forall k :: 0 <= k < |sp| ==> sp[k] == PaddedSpan(f, pad(items[k]).0, sizes[k].width, pad(items[k]).1)
  {
    seq(|items|, k requires 0 <= k < |items| => PaddedSpan(f, pad(items[k]).0, sizes[k].width, pad(items[k]).1))
  }

  function WordPad(w: Word): (nat, nat) {
    (w.prespace, w.postspace)
  }

  function SylPad(s: Syllable): (nat, nat) {
    (s.prespace, s.postspace)
  }

  /** Word boxes: walked from the line's left edge, or, in the middle row,
      stacked on the play area (alignment 5 centres on half its width). */
  function WordBoxes(f: Frame, line: Box, ws: seq<Word>, sizes: seq<Size>): (bs: seq<Box>)
    requires |sizes| == |ws|
    ensures |bs| == |ws|
  {
    if Stacks(f.a) then Stack(f.a, sizes, f.playResY, line, Half(f.playResX))
    else WalkBoxes(f.a, line, PaddedSpans(f, ws, WordPad, sizes))
  }

  /** Syllable boxes: stacked only in the middle row and with vertical kanji,
      against the restacked line and centred on its centre; walked otherwise. */
  function SylBoxes(f: Frame, verticalKanji: bool, line: Box, ss: seq<Syllable>, sizes: seq<Size>): (bs: seq<Box>)
    requires |sizes| == |ss|
    ensures |bs| == |ss|
  {
    if Stacks(f.a) && verticalKanji then Stack(f.a, sizes, f.playResY, line, line.center)
    else WalkBoxes(f.a, line, PaddedSpans(f, ss, SylPad, sizes))
  }

  /** Character boxes: walked with the spacing after each character, or, in
      the middle row, stacked like words. */
  function CharBoxes(f: Frame, line: Box, sizes: seq<Size>): (bs: seq<Box>)
    ensures |bs| == |sizes|
  {
    if Stacks(f.a) then Stack(f.a, sizes, f.playResY, line, Half(f.playResX))
    else WalkBoxes(f.a, line, seq(|sizes|, k requires 0 <= k < |sizes| => Span(0.0, sizes[k].width, f.spacing)))
  }

  /** Elements with their sizes and, when there are boxes, their boxes. */
  function Place<T>(items: seq<T>, sizes: seq<Size>, boxes: Option<seq<Box>>): (ps: seq<Placed<T>>)
    requires |sizes| == |items|
    requires boxes.Some? ==> |boxes.value| == |items|
    ensures |ps| == |items|
    ensures forall k :: 0 <= k < |ps| ==> ps[k].item == items[k] && ps[k].size == sizes[k]
    ensures forall k :: 0 <= k < |ps| ==> ps[k].pos.Some? == boxes.Some?
    ensures boxes.Some? ==> forall k :: 0 <= k < |ps| ==> ps[k].pos == Some(boxes.value[k])
  {
    seq(|items|, k requires 0 <= k < |items| => Placed(items[k], sizes[k], if boxes.Some? then Some(boxes.value[k]) else None))
  }

  /** The stripped text of a raw line. */
  function LineText(raw: string): string {
    Tags.StripTags(raw)
  }

  function LineWords(ev: Event): seq<Word> {
    Words.Words(LineText(ev.rawText), ev.startTime, ev.endTime)
  }

  function LineSyllables(ev: Event): seq<Syllable> {
    Karaoke.Syllables(Tags.Chunks(ev.rawText))
  }

  function LineChars(ev: Event): seq<Char> {
    Chars.Chars(LineSyllables(ev), LineWords(ev))
  }

  /** Each element measured by the font on its own text. */
  function Sizes<T>(font: Font, style: Style, items: seq<T>, text: T -> string): (sizes: seq<Size>)
    ensures |sizes| == |items|
    ensures forall k :: 0 <= k < |items| ==> sizes[k] == font.extents(style, text(items[k]))
  {
    seq(|items|, k requires 0 <= k < |items| => font.extents(style, text(items[k])))
  }

  function WordText(w: Word): string {
    w.text
  }

  function SylText(s: Syllable): string {
    s.text
  }

  /** A character is measured as a one-character string. */
  function CharText(c: Char): string {
    [c.text]
  }

  /** Whether the syllable pass restacks the line box. */
  predicate Restacks(style: Style, meta: Meta, verticalKanji: bool, ss: seq<Syllable>) {
    meta.playResX > 0 && meta.playResY > 0 && |ss| > 0 && Stacks(style.alignment) && verticalKanji
  }

  function LineFrame(style: Style, meta: Meta, font: Font): Frame {
    Frame(style.alignment, meta.playResX, meta.playResY, font.extents(style, " ").width, style.spacing)
  }

  /** The line's box as first placed. */
  function LineBox(ev: Event, style: Style, meta: Meta, font: Font): Option<Box> {
    PlaceLine(meta, style, ev.marginL, ev.marginR, ev.marginV, font.extents(style, LineText(ev.rawText)))
  }

  /** The line's box after the syllable pass. */
  function SylLineBox(ev: Event, style: Style, meta: Meta, font: Font, verticalKanji: bool): (b: Option<Box>)
    ensures b.Some? == LineBox(ev, style, meta, font).Some?
  {
    var ss := LineSyllables(ev);
    if Restacks(style, meta, verticalKanji, ss) then
      Some(Restack(style.alignment, LineBox(ev, style, meta, font).value, Sizes(font, style, ss, SylText), meta.playResY).0)
    else LineBox(ev, style, meta, font)
  }

  /** The layout of a line whose style resolved, in the order the source
      computes it: the line box, then words, syllables (which may restack the
      line box) and characters (placed against the box as it then is). */
  function LayoutLine(ev: Event, style: Style, meta: Meta, font: Font, verticalKanji: bool): (l: LineLayout)
    ensures l.metrics == font.metrics(style)
    ensures l.pos.Some? <==> meta.playResX > 0 && meta.playResY > 0
    ensures l.pos == SylLineBox(ev, style, meta, font, verticalKanji)
    ensures |l.words| == |LineWords(ev)| && |l.syls| == |LineSyllables(ev)| && |l.chars| == |LineChars(ev)|
    ensures forall k :: 0 <= k < |l.words| ==> l.words[k].pos.Some? == l.pos.Some?
    ensures forall k :: 0 <= k < |l.syls| ==> l.syls[k].pos.Some? == l.pos.Some?
    ensures forall k :: 0 <= k < |l.chars| ==> l.chars[k].pos.Some? == l.pos.Some?
    ensures !Restacks(style, meta, verticalKanji, LineSyllables(ev)) ==> l.size == font.extents(style, LineText(ev.rawText))
    ensures Restacks(style, meta, verticalKanji, LineSyllables(ev)) ==>
              l.size == Size(MaxWidth(Sizes(font, style, LineSyllables(ev), SylText)), SumHeights(Sizes(font, style, LineSyllables(ev), SylText)))
  {
    var f := LineFrame(style, meta, font);
    var pos := LineBox(ev, style, meta, font);
    var ws := LineWords(ev);
    var wsz := Sizes(font, style, ws, WordText);
    var ss := LineSyllables(ev);
    var ssz := Sizes(font, style, ss, SylText);
    var linePos := SylLineBox(ev, style, meta, font, verticalKanji);
    var size := if Restacks(style, meta, verticalKanji, ss) then Size(MaxWidth(ssz), SumHeights(ssz)) else font.extents(style, LineText(ev.rawText));
    var cs := LineChars(ev);
    var csz := Sizes(font, style, cs, CharText);
    LineLayout(
      size,
      font.metrics(style),
      linePos,
      Place(ws, wsz, if pos.Some? then Some(WordBoxes(f, pos.value, ws, wsz)) else None),
      Place(ss, ssz, if pos.Some? then Some(SylBoxes(f, verticalKanji, linePos.value, ss, ssz)) else None),
      Place(cs, csz, if pos.Some? then Some(CharBoxes(f, linePos.value, csz)) else None))
  }

  /** The layout's words are the line's words, measured by the font, and
      placed against the line's first box. */
  lemma LayoutWords(ev: Event, style: Style, meta: Meta, font: Font, verticalKanji: bool)
    ensures var l := LayoutLine(ev, style, meta, font, verticalKanji); var w := LineWords(ev);
      var sz := Sizes(font, style, w, WordText); var line := LineBox(ev, style, meta, font);
      forall k :: 0 <= k < |l.words| ==>
        && l.words[k].item == w[k] && l.words[k].size == sz[k]
        && (line.Some? ==> l.words[k].pos == Some(WordBoxes(LineFrame(style, meta, font), line.value, w, sz)[k]))
  {
  }

  /** The layout's syllables are the line's syllables, measured by the font,
      and placed against the line's box after the syllable pass. */
  lemma LayoutSyllables(ev: Event, style: Style, meta: Meta, font: Font, verticalKanji: bool)
    ensures var l := LayoutLine(ev, style, meta, font, verticalKanji); var ss := LineSyllables(ev);
      var sz := Sizes(font, style, ss, SylText); var line := SylLineBox(ev, style, meta, font, verticalKanji);
      forall k :: 0 <= k < |l.syls| ==>
        && l.syls[k].item == ss[k] && l.syls[k].size == sz[k]
        && (line.Some? ==> l.syls[k].pos == Some(SylBoxes(LineFrame(style, meta, font), verticalKanji, line.value, ss, sz)[k]))
  {
  }

  /** The layout's characters are the line's characters, each measured on
      its own, and placed against the line's box after the syllable pass. */
  lemma LayoutChars(ev: Event, style: Style, meta: Meta, font: Font, verticalKanji: bool)
    ensures var l := LayoutLine(ev, style, meta, font, verticalKanji); var cs := LineChars(ev);
      var sz := Sizes(font, style, cs, CharText); var line := SylLineBox(ev, style, meta, font, verticalKanji);
      && (forall k :: 0 <= k < |l.chars| ==> l.chars[k].item == cs[k] && l.chars[k].size == font.extents(style, [cs[k].text]))
      && (forall k :: 0 <= k < |l.chars| ==> line.Some? ==> l.chars[k].pos == Some(CharBoxes(LineFrame(style, meta, font), line.value, sz)[k]))
  {
  }

  /** Outside the middle row, words are walked along the line: each keeps
      the line's vertical extent, the first starts its leading padding after
      the line's left edge, and each next one starts the previous one's
      trailing padding, one spacing and its own leading padding after the
      previous one's right edge, every padding character as wide as a space
      plus the spacing. */
  lemma WalkedWords(f: Frame, line: Box, ws: seq<Word>, sizes: seq<Size>)
    requires |sizes| == |ws| && !Stacks(f.a)
    ensures var bs := WordBoxes(f, line, ws, sizes);
      && (forall k :: 0 <= k < |bs| ==> bs[k].top == line.top && bs[k].bottom == line.bottom && bs[k].y == line.y)
      && (forall k :: 0 <= k < |bs| ==> bs[k].right == bs[k].left + sizes[k].width)
      && (|bs| > 0 ==> bs[0].left == line.left + PadWidth(f, ws[0].prespace))
      && (forall j, k :: 0 <= j && k == j + 1 && k < |bs| ==>
            bs[k].left == bs[j].right + PadWidth(f, ws[j].postspace) + f.spacing + PadWidth(f, ws[k].prespace))
  {
    var sp := PaddedSpans(f, ws, WordPad, sizes);
    var bs := WalkBoxes(f.a, line, sp);
    WalkPlacement(f.a, line, sp);
    PaddedGaps(f, line, bs, sp, ws, WordPad);
  }

  /** Syllables that are not stacked (any row but the middle one, or the
      middle row without vertical kanji) are walked along the line exactly
      as words are, with their own padding. */
  lemma WalkedSyllables(f: Frame, verticalKanji: bool, line: Box, ss: seq<Syllable>, sizes: seq<Size>)
    requires |sizes| == |ss| && !(Stacks(f.a) && verticalKanji)
    ensures var bs := SylBoxes(f, verticalKanji, line, ss, sizes);
      && (forall k :: 0 <= k < |bs| ==> bs[k].top == line.top && bs[k].bottom == line.bottom && bs[k].y == line.y)
      && (forall k :: 0 <= k < |bs| ==> bs[k].right == bs[k].left + sizes[k].width)
      && (|bs| > 0 ==> bs[0].left == line.left + PadWidth(f, ss[0].prespace))
      && (forall j, k :: 0 <= j && k == j + 1 && k < |bs| ==>
            bs[k].left == bs[j].right + PadWidth(f, ss[j].postspace) + f.spacing + PadWidth(f, ss[k].prespace))
  {
    var sp := PaddedSpans(f, ss, SylPad, sizes);
    var bs := WalkBoxes(f.a, line, sp);
    WalkPlacement(f.a, line, sp);
    PaddedGaps(f, line, bs, sp, ss, SylPad);
  }

  /** Walked boxes of padded spans, restated through the elements' padding. */
  lemma PaddedGaps<T>(f: Frame, line: Box, bs: seq<Box>, sp: seq<Span>, items: seq<T>, pad: T -> (nat, nat))
    requires |bs| == |sp| == |items|
    requires forall k :: 0 <= k < |sp| ==> sp[k] == PaddedSpan(f, pad(items[k]).0, sp[k].width, pad(items[k]).1)
    requires |bs| > 0 ==> bs[0].left == line.left + sp[0].pre
    requires forall j, k :: 0 <= j && k == j + 1 && k < |bs| ==> bs[k].left == bs[j].right + sp[j].post + sp[k].pre
    ensures |bs| > 0 ==> bs[0].left == line.left + PadWidth(f, pad(items[0]).0)
    ensures forall j, k :: 0 <= j && k == j + 1 && k < |bs| ==>
              bs[k].left == bs[j].right + PadWidth(f, pad(items[j]).1) + f.spacing + PadWidth(f, pad(items[k]).0)
  {
  }

  /** Outside the middle row, characters are walked along the line, the
      first from its left edge and each next one exactly one spacing after
      the previous one's right edge. */
  lemma WalkedChars(f: Frame, line: Box, sizes: seq<Size>)
    requires !Stacks(f.a)
    ensures var bs := CharBoxes(f, line, sizes);
      && (forall k :: 0 <= k < |bs| ==> bs[k].top == line.top && bs[k].bottom == line.bottom && bs[k].y == line.y)
      && (forall k :: 0 <= k < |bs| ==> bs[k].right == bs[k].left + sizes[k].width)
      && (|bs| > 0 ==> bs[0].left == line.left)
      && (forall j, k :: 0 <= j && k == j + 1 && k < |bs| ==> bs[k].left == bs[j].right + f.spacing)
  {
    WalkPlacement(f.a, line, seq(|sizes|, k requires 0 <= k < |sizes| => Span(0.0, sizes[k].width, f.spacing)));
  }

  /** In the middle row words are stacked: each starts where the previous
      one ends, the column is centred on half the play height, and all are
      centred on one axis, which for alignment 5 is half the play width
      whatever the line's margins. */
  lemma StackedWords(f: Frame, line: Box, ws: seq<Word>, sizes: seq<Size>)
    requires |sizes| == |ws| && Stacks(f.a)
    ensures var bs := WordBoxes(f, line, ws, sizes); var h := SumHeights(sizes);
      && (|bs| > 0 ==> bs[0].top == Half(f.playResY) - h / 2.0 && bs[|bs| - 1].bottom == Half(f.playResY) + h / 2.0)
      && (forall j, k :: 0 <= j && k == j + 1 && k < |bs| ==> bs[k].top == bs[j].bottom)
      && (forall k :: 0 <= k < |bs| ==> bs[k].center == Axis(f.a, MaxWidth(sizes), line, Half(f.playResX)))
      && (f.a == 5 ==> forall k :: 0 <= k < |bs| ==> bs[k].center == Half(f.playResX))
  {
    if |sizes| > 0 {
      StackVertical(f.a, sizes, f.playResY, line, Half(f.playResX));
    }
    StackHorizontal(f.a, sizes, f.playResY, line, Half(f.playResX));
  }

  /** With vertical kanji in the middle row, syllables are stacked inside
      the restacked line box and centred on its centre; with alignment 5
      that is the line's own centre, not half the play width. */
  lemma StackedSyllables(f: Frame, line: Box, ss: seq<Syllable>, sizes: seq<Size>)
    requires |sizes| == |ss| > 0 && Stacks(f.a)
    ensures var box := Restack(f.a, line, sizes, f.playResY).0; var bs := SylBoxes(f, true, box, ss, sizes);
      && (forall k :: 0 <= k < |bs| ==>
            && box.left <= bs[k].left && bs[k].right <= box.right
            && box.top <= bs[k].top && bs[k].bottom <= box.bottom
            && bs[k].center == box.center)
      && (f.a == 5 ==> forall k :: 0 <= k < |bs| ==> bs[k].center == line.center)
  {
    RestackContains(f.a, line, sizes, f.playResY);
  }

  /** In the middle row characters are stacked like words: they touch top
      to bottom, the column is centred on half the play height, and all are
      centred on one axis, which reads the line box only for its left edge
      (alignment 4) or right edge (alignment 6), and which for alignment 5
      is half the play width. */
  lemma StackedChars(f: Frame, line: Box, sizes: seq<Size>)
    requires Stacks(f.a)
    ensures var bs := CharBoxes(f, line, sizes); var h := SumHeights(sizes);
      && (|bs| > 0 ==> bs[0].top == Half(f.playResY) - h / 2.0 && bs[|bs| - 1].bottom == Half(f.playResY) + h / 2.0)
      && (forall j, k :: 0 <= j && k == j + 1 && k < |bs| ==> bs[k].top == bs[j].bottom)
      && (forall k :: 0 <= k < |bs| ==> bs[k].center == Axis(f.a, MaxWidth(sizes), line, Half(f.playResX)))
      && (f.a == 5 ==> forall k :: 0 <= k < |bs| ==> bs[k].center == Half(f.playResX))
  {
    if |sizes| > 0 {
      StackVertical(f.a, sizes, f.playResY, line, Half(f.playResX));
    }
    StackHorizontal(f.a, sizes, f.playResY, line, Half(f.playResX));
  }

  /** Words never depend on the vertical-kanji switch. */
  lemma WordsIgnoreVerticalKanji(ev: Event, style: Style, meta: Meta, font: Font)
    ensures LayoutLine(ev, style, meta, font, true).words == LayoutLine(ev, style, meta, font, false).words
  {
    var a := LayoutLine(ev, style, meta, font, true).words;
    var b := LayoutLine(ev, style, meta, font, false).words;
    LayoutWords(ev, style, meta, font, true);
    LayoutWords(ev, style, meta, font, false);
    assert forall k :: 0 <= k < |a| ==> a[k] == b[k];
  }

  /** Every element has a box. */
  predicate AllPlaced<T>(ps: seq<Placed<T>>) {
    forall k :: 0 <= k < |ps| ==> ps[k].pos.Some?
  }

  /** The boxes of elements that all have one. */
  function Boxes<T>(ps: seq<Placed<T>>): (bs: seq<Box>)
    requires AllPlaced(ps)
  {
    seq(|ps|, k requires 0 <= k < |ps| => ps[k].pos.value)
  }

  lemma BoxesOf<T>(ps: seq<Placed<T>>, bs: seq<Box>)
    requires |ps| == |bs| && forall k :: 0 <= k < |ps| ==> ps[k].pos == Some(bs[k])
    ensures AllPlaced(ps) && Boxes(ps) == bs
  {
  }

  /** Outside the middle row, a placed line's words are walked along its
      box: each keeps the line's vertical extent and is as wide as the font
      measures its text; the first starts its leading padding after the
      line's left edge, and each next one starts the previous one's trailing
      padding, one spacing and its own leading padding after the previous
      one's right edge. */
  lemma LineWordsWalked(ev: Event, style: Style, meta: Meta, font: Font, verticalKanji: bool)
    requires !Stacks(style.alignment)
    ensures var l := LayoutLine(ev, style, meta, font, verticalKanji);
      l.pos.Some? ==> AllPlaced(l.words) && PaddedWalk(Boxes(l.words), l.pos.value, LineWords(ev), WordText, WordPad, style, LineFrame(style, meta, font), font)
  {
    var l := LayoutLine(ev, style, meta, font, verticalKanji);
    var line := LineBox(ev, style, meta, font);
    assert !Restacks(style, meta, verticalKanji, LineSyllables(ev));
    if line.Some? {
      var f := LineFrame(style, meta, font);
      var w := LineWords(ev);
      var sz := Sizes(font, style, w, WordText);
      LayoutWords(ev, style, meta, font, verticalKanji);
      BoxesOf(l.words, WordBoxes(f, line.value, w, sz));
      WalkedWordsMeasured(f, line.value, w, font, style);
    }
  }

  /** Walked word boxes: each keeps the line's vertical extent and is as
      wide as the font measures its text; the first starts its leading
      padding after the line's left edge, and each next one starts the
      previous one's trailing padding, one spacing and its own leading
      padding after the previous one's right edge. */
  predicate PaddedWalk<T>(bs: seq<Box>, line: Box, items: seq<T>, text: T -> string, pad: T -> (nat, nat), style: Style, f: Frame, font: Font)
    requires |bs| == |items|
  {
    && (forall k :: 0 <= k < |bs| ==> bs[k].top == line.top && bs[k].bottom == line.bottom)
    && (forall k :: 0 <= k < |bs| ==> bs[k].right == bs[k].left + font.extents(style, text(items[k])).width)
    && (|bs| > 0 ==> bs[0].left == line.left + PadWidth(f, pad(items[0]).0))
    && (forall j, k :: 0 <= j < |bs| && k == j + 1 && k < |bs| ==>
          bs[k].left == bs[j].right + PadWidth(f, pad(items[j]).1) + f.spacing + PadWidth(f, pad(items[k]).0))
  }

  lemma WalkedWordsMeasured(f: Frame, line: Box, w: seq<Word>, font: Font, style: Style)
    requires !Stacks(f.a)
    ensures PaddedWalk(WordBoxes(f, line, w, Sizes(font, style, w, WordText)), line, w, WordText, WordPad, style, f, font)
  {
    WalkedWords(f, line, w, Sizes(font, style, w, WordText));
  }

  lemma WalkedSylsMeasured(f: Frame, verticalKanji: bool, line: Box, ss: seq<Syllable>, font: Font, style: Style)
    requires !(Stacks(f.a) && verticalKanji)
    ensures PaddedWalk(SylBoxes(f, verticalKanji, line, ss, Sizes(font, style, ss, SylText)), line, ss, SylText, SylPad, style, f, font)
  {
    WalkedSyllables(f, verticalKanji, line, ss, Sizes(font, style, ss, SylText));
  }

  /** Unless they are stacked, a placed line's syllables are walked along
      its box like words: each keeps the line's vertical extent and is as
      wide as the font measures its text; the first starts its leading
      padding after the line's left edge, and each next one starts the
      previous one's trailing padding, one spacing and its own leading
      padding after the previous one's right edge. In the middle row without
      vertical kanji this holds even though the words there are stacked. */
  lemma LineSyllablesWalked(ev: Event, style: Style, meta: Meta, font: Font, verticalKanji: bool)
    requires !(Stacks(style.alignment) && verticalKanji)
    ensures var l := LayoutLine(ev, style, meta, font, verticalKanji);
      l.pos.Some? ==> AllPlaced(l.syls) && PaddedWalk(Boxes(l.syls), l.pos.value, LineSyllables(ev), SylText, SylPad, style, LineFrame(style, meta, font), font)
  {
    var l := LayoutLine(ev, style, meta, font, verticalKanji);
    var line := SylLineBox(ev, style, meta, font, verticalKanji);
    assert !Restacks(style, meta, verticalKanji, LineSyllables(ev));
    if line.Some? {
      var f := LineFrame(style, meta, font);
      var ss := LineSyllables(ev);
      var sz := Sizes(font, style, ss, SylText);
      LayoutSyllables(ev, style, meta, font, verticalKanji);
      BoxesOf(l.syls, SylBoxes(f, verticalKanji, line.value, ss, sz));
      WalkedSylsMeasured(f, verticalKanji, line.value, ss, font, style);
    }
  }

  /** A stacked column: boxes touch top to bottom, the column is centred on
      half the play height, and with alignment 5 every box is centred on
      half the play width. */
  predicate Column(bs: seq<Box>, h: real, f: Frame) {
    && (|bs| > 0 ==> bs[0].top == Half(f.playResY) - h / 2.0 && bs[|bs| - 1].bottom == Half(f.playResY) + h / 2.0)
    && (forall j, k :: 0 <= j < |bs| && k == j + 1 && k < |bs| ==> bs[k].top == bs[j].bottom)
    && (f.a == 5 ==> forall k :: 0 <= k < |bs| ==> bs[k].center == Half(f.playResX))
  }

  lemma WordsColumn(f: Frame, line: Box, w: seq<Word>, font: Font, style: Style)
    requires Stacks(f.a)
    ensures Column(WordBoxes(f, line, w, Sizes(font, style, w, WordText)), SumHeights(Sizes(font, style, w, WordText)), f)
  {
    StackedWords(f, line, w, Sizes(font, style, w, WordText));
  }

  /** In the middle row, a placed line's words form a column centred on half
      the play height, as tall as all of them, and, with alignment 5, centred
      on half the play width. */
  lemma LineWordsStacked(ev: Event, style: Style, meta: Meta, font: Font, verticalKanji: bool)
    requires Stacks(style.alignment)
    ensures var l := LayoutLine(ev, style, meta, font, verticalKanji);
      l.pos.Some? ==> AllPlaced(l.words) &&
                      Column(Boxes(l.words), SumHeights(Sizes(font, style, LineWords(ev), WordText)), LineFrame(style, meta, font))
  {
    var l := LayoutLine(ev, style, meta, font, verticalKanji);
    var line := LineBox(ev, style, meta, font);
    if line.Some? {
      var f := LineFrame(style, meta, font);
      var w := LineWords(ev);
      LayoutWords(ev, style, meta, font, verticalKanji);
      BoxesOf(l.words, WordBoxes(f, line.value, w, Sizes(font, style, w, WordText)));
      WordsColumn(f, line.value, w, font, style);
    }
  }

  /** Every box lies inside the given box and shares its centre. */
  predicate Inside(bs: seq<Box>, box: Box) {
    forall k :: 0 <= k < |bs| ==>
      && box.left <= bs[k].left && bs[k].right <= box.right
      && box.top <= bs[k].top && bs[k].bottom <= box.bottom
      && bs[k].center == box.center
  }

  lemma SylsInside(f: Frame, line: Box, ss: seq<Syllable>, font: Font, style: Style)
    requires Stacks(f.a) && |ss| > 0
    ensures var box := Restack(f.a, line, Sizes(font, style, ss, SylText), f.playResY).0;
      Inside(SylBoxes(f, true, box, ss, Sizes(font, style, ss, SylText)), box)
  {
    StackedSyllables(f, line, ss, Sizes(font, style, ss, SylText));
  }

  /** With vertical kanji in the middle row, a placed line's syllables lie
      inside the line's (restacked) box and are centred on its centre. */
  lemma LineSyllablesStacked(ev: Event, style: Style, meta: Meta, font: Font)
    requires Stacks(style.alignment) && |LineSyllables(ev)| > 0
    ensures var l := LayoutLine(ev, style, meta, font, true);
      l.pos.Some? ==> AllPlaced(l.syls) && Inside(Boxes(l.syls), l.pos.value)
  {
    var l := LayoutLine(ev, style, meta, font, true);
    var line := LineBox(ev, style, meta, font);
    if line.Some? {
      var f := LineFrame(style, meta, font);
      var ss := LineSyllables(ev);
      var sz := Sizes(font, style, ss, SylText);
      var box := Restack(f.a, line.value, sz, f.playResY).0;
      assert l.pos == Some(box);
      LayoutSyllables(ev, style, meta, font, true);
      BoxesOf(l.syls, SylBoxes(f, true, box, ss, sz));
      SylsInside(f, line.value, ss, font, style);
    }
  }

  /** Walked character boxes: each keeps the line's vertical extent and is
      as wide as the font measures the character alone; the first starts at
      the line's left edge and each next one exactly one spacing after the
      previous one's right edge. */
  predicate CharsWalked(bs: seq<Box>, line: Box, cs: seq<Char>, style: Style, font: Font)
    requires |bs| == |cs|
  {
    && (forall k :: 0 <= k < |bs| ==> bs[k].top == line.top && bs[k].bottom == line.bottom)
    && (forall k :: 0 <= k < |bs| ==> bs[k].right == bs[k].left + font.extents(style, [cs[k].text]).width)
    && (|bs| > 0 ==> bs[0].left == line.left)
    && (forall j, k :: 0 <= j < |bs| && k == j + 1 && k < |bs| ==> bs[k].left == bs[j].right + style.spacing)
  }

  lemma WalkedCharsMeasured(f: Frame, line: Box, cs: seq<Char>, font: Font, style: Style)
    requires !Stacks(f.a) && f.spacing == style.spacing
    ensures CharsWalked(CharBoxes(f, line, Sizes(font, style, cs, CharText)), line, cs, style, font)
  {
    WalkedChars(f, line, Sizes(font, style, cs, CharText));
  }

  /** Outside the middle row, a placed line's characters are walked along
      its box. */
  lemma LineCharsWalked(ev: Event, style: Style, meta: Meta, font: Font, verticalKanji: bool)
    requires !Stacks(style.alignment)
    ensures var l := LayoutLine(ev, style, meta, font, verticalKanji);
      l.pos.Some? ==> AllPlaced(l.chars) && CharsWalked(Boxes(l.chars), l.pos.value, LineChars(ev), style, font)
  {
    var l := LayoutLine(ev, style, meta, font, verticalKanji);
    var line := SylLineBox(ev, style, meta, font, verticalKanji);
    if line.Some? {
      var f := LineFrame(style, meta, font);
      var cs := LineChars(ev);
      LayoutChars(ev, style, meta, font, verticalKanji);
      BoxesOf(l.chars, CharBoxes(f, line.value, Sizes(font, style, cs, CharText)));
      WalkedCharsMeasured(f, line.value, cs, font, style);
    }
  }

  lemma CharsColumn(f: Frame, line: Box, cs: seq<Char>, font: Font, style: Style)
    requires Stacks(f.a)
    ensures Column(CharBoxes(f, line, Sizes(font, style, cs, CharText)), SumHeights(Sizes(font, style, cs, CharText)), f)
  {
    StackedChars(f, line, Sizes(font, style, cs, CharText));
  }

  /** In the middle row, a placed line's characters form a column centred on
      half the play height, as tall as all of them, and, with alignment 5,
      centred on half the play width. */
  lemma LineCharsStacked(ev: Event, style: Style, meta: Meta, font: Font, verticalKanji: bool)
    requires Stacks(style.alignment)
    ensures var l := LayoutLine(ev, style, meta, font, verticalKanji);
      l.pos.Some? ==> AllPlaced(l.chars) &&
                      Column(Boxes(l.chars), SumHeights(Sizes(font, style, LineChars(ev), CharText)), LineFrame(style, meta, font))
  {
    var l := LayoutLine(ev, style, meta, font, verticalKanji);
    var line := SylLineBox(ev, style, meta, font, verticalKanji);
    if line.Some? {
      var f := LineFrame(style, meta, font);
      var cs := LineChars(ev);
      LayoutChars(ev, style, meta, font, verticalKanji);
      BoxesOf(l.chars, CharBoxes(f, line.value, Sizes(font, style, cs, CharText)));
      CharsColumn(f, line.value, cs, font, style);
    }
  }

  /** What the lead-time pass reads of each event. */
  function Timings(events: seq<Event>): (ts: seq<LeadTimes.Timing>)
    ensures |ts| == |events|
    ensures forall n :: 0 <= n < |events| ==>
              ts[n] == LeadTimes.Timing(events[n].style, events[n].startTime, events[n].endTime)
  {
    seq(|events|, n requires 0 <= n < |events| => LeadTimes.Timing(events[n].style, events[n].startTime, events[n].endTime))
  }

  /** One line of the document, given its lead times: its style resolved
      by name, its text stripped of tags, its duration, and, exactly when the
      style resolved, the layout of the event under that style. */
  function BuildLine(ev: Event, styles: map<string, Style>, meta: Meta, font: Font, verticalKanji: bool, lead: (real, real)): (l: Line)
    ensures l.i == ev.i && l.style == ev.style && l.rawText == ev.rawText
    ensures l.startTime == ev.startTime && l.endTime == ev.endTime && l.duration == ev.endTime - ev.startTime
    ensures l.text == Tags.StripTags(ev.rawText)
    ensures l.styleref.Some? <==> ev.style in styles
    ensures l.styleref.Some? ==> l.styleref.value == styles[ev.style]
    ensures l.layout.Some? <==> l.styleref.Some?
    ensures l.layout.Some? ==> l.layout.value == LayoutLine(ev, styles[ev.style], meta, font, verticalKanji)
    ensures l.leadin == lead.0 && l.leadout == lead.1
  {
    var styleref := if ev.style in styles then Some(styles[ev.style]) else None;
    Line(
      ev.i, ev.comment, ev.layer, ev.startTime, ev.endTime, ev.endTime - ev.startTime,
      lead.0, lead.1, ev.style, styleref, ev.actor, ev.marginL, ev.marginR, ev.marginV, ev.effect,
      ev.rawText, LineText(ev.rawText),
      if styleref.Some? then Some(LayoutLine(ev, styleref.value, meta, font, verticalKanji)) else None)
  }

  /** The lines of a document: one per event, in order, each with the lead
      times of its place among the lines of its style name (styled or not). */
  function Document(events: seq<Event>, styles: map<string, Style>, meta: Meta, font: Font, verticalKanji: bool): (ls: seq<Line>)
    ensures |ls| == |events|
    ensures forall n :: 0 <= n < |ls| ==>
              ls[n] == BuildLine(events[n], styles, meta, font, verticalKanji,
                                 (LeadTimes.LeadIn(Timings(events), n), LeadTimes.LeadOut(Timings(events), n)))
  {
    var lead := LeadTimes.LeadTimes(Timings(events));
    seq(|events|, n requires 0 <= n < |events| => BuildLine(events[n], styles, meta, font, verticalKanji, lead[n]))
  }

  /** The first line of a style (in start order, ties in document order)
      has the sentinel as lead-in, and only it. */
  lemma DocumentLeadIn(events: seq<Event>, styles: map<string, Style>, meta: Meta, font: Font, verticalKanji: bool, n: nat)
    requires n < |events|
    ensures Document(events, styles, meta, font, verticalKanji)[n].leadin == LeadTimes.Sentinel <==> !LeadTimes.HasPrevious(Timings(events), n)
  {
    var ls := Document(events, styles, meta, font, verticalKanji);
    assert ls[n].leadin == LeadTimes.LeadIn(Timings(events), n);
    LeadTimes.LeadInSpec(Timings(events), n);
  }

  /** When line m comes right before line n among the lines of their style,
      the gap after m is the gap before n: n's start less m's end. */
  lemma DocumentChain(events: seq<Event>, styles: map<string, Style>, meta: Meta, font: Font, verticalKanji: bool, m: nat, n: nat)
    requires m < |events| && n < |events| && LeadTimes.IsPrevious(Timings(events), m, n)
    ensures Document(events, styles, meta, font, verticalKanji)[m].leadout == Document(events, styles, meta, font, verticalKanji)[n].leadin
    ensures Document(events, styles, meta, font, verticalKanji)[n].leadin == (events[n].startTime - events[m].endTime) as real
  {
    var ts := Timings(events);
    DocumentLeads(events, styles, meta, font, verticalKanji, m);
    DocumentLeads(events, styles, meta, font, verticalKanji, n);
    assert ts[n].startTime == events[n].startTime && ts[m].endTime == events[m].endTime;
    LeadTimes.LeadInSpec(ts, n);
    LeadTimes.LeadChain(ts, m, n);
  }

  lemma DocumentLeads(events: seq<Event>, styles: map<string, Style>, meta: Meta, font: Font, verticalKanji: bool, n: nat)
    requires n < |events|
    ensures Document(events, styles, meta, font, verticalKanji)[n].leadin == LeadTimes.LeadIn(Timings(events), n)
    ensures Document(events, styles, meta, font, verticalKanji)[n].leadout == LeadTimes.LeadOut(Timings(events), n)
  {
  }

  /** Characters come from the syllables when the line has any and from
      the words otherwise; on a karaoke line they are exactly as many as the
      characters of the stripped text, and on any other line they spell the
      stripped text with each whitespace character as a space. */
  lemma LineCharsCover(ev: Event)
    ensures var text := LineText(ev.rawText); var cs := LineChars(ev);
      && (Karaoke.AllKaraoke(Tags.Chunks(ev.rawText)) ==> |LineSyllables(ev)| > 0 && |cs| == |text|)
      && (!Karaoke.AllKaraoke(Tags.Chunks(ev.rawText)) ==> LineSyllables(ev) == [])
      && (!Karaoke.AllKaraoke(Tags.Chunks(ev.rawText)) && AllSpace(text) ==> cs == [])
      && (!Karaoke.AllKaraoke(Tags.Chunks(ev.rawText)) && !AllSpace(text) ==> |cs| == |text|)
      && (!Karaoke.AllKaraoke(Tags.Chunks(ev.rawText)) && !AllSpace(text) ==>
            forall j :: 0 <= j < |cs| ==> cs[j].text == if IsSpace(text[j]) then ' ' else text[j])
  {
    if Karaoke.AllKaraoke(Tags.Chunks(ev.rawText)) {
      Coverage.KaraokeCharCount(ev.rawText, LineWords(ev));
    } else {
      Coverage.PlainChars(LineText(ev.rawText), ev.startTime, ev.endTime);
    }
  }
}
