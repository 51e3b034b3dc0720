/** Placement on the 9-cell alignment grid.

    Alignment codes follow the numeric keypad: 1-3 bottom row, 4-6 middle
    row, 7-9 top row; within a row the code modulo 3 picks the left (1),
    centre (2) or right (0) column. A line is placed from its margins and
    the play resolution; its words, syllables and characters are then either
    walked left to right along the line or, in the middle row, stacked top
    to bottom around one vertical axis. */
module Layout {
  import opened Common
  import opened Records

  datatype Column = LeftColumn | CenterColumn | RightColumn

  datatype Row = TopRow | MiddleRow | BottomRow

  /** `(alignment - 1) % 3 == 0` picks the left column, `(alignment - 2) % 3
      == 0` the centre one, anything else the right one; Python's `%` and
      Dafny's agree for a positive divisor. */
  function ColumnOf(a: int): (c: Column)
    ensures c == LeftColumn <==> a % 3 == 1
    ensures c == CenterColumn <==> a % 3 == 2
    ensures c == RightColumn <==> a % 3 == 0
  {
    if (a - 1) % 3 == 0 then LeftColumn
    else if (a - 2) % 3 == 0 then CenterColumn
    else RightColumn
  }

  function RowOf(a: int): Row {
    if a > 6 then TopRow else if a > 3 then MiddleRow else BottomRow
  }

  /** Middle-row alignments stack their elements instead of walking them. */
  predicate Stacks(a: int) {
    !(a > 6 || a < 4)
  }

  /** The anchor x of an element of the given column. */
  function XAt(c: Column, left: real, width: real): real {
    match c
    case LeftColumn => left
    case CenterColumn => left + width / 2.0
    case RightColumn => left + width
  }

  /** A margin of the line, or the style's when the line's is 0. */
  function Margin(own: int, fallback: int): int {
    if own != 0 then own else fallback
  }

  function Half(n: int): real {
    n as real / 2.0
  }

  /** A box whose horizontal extent is consistent: it is `width` wide and
      its centre lies halfway; likewise vertically. */
  predicate Spans(b: Box, width: real, height: real) {
    && b.right - b.left == width && b.center == b.left + width / 2.0
    && b.bottom - b.top == height && b.middle == b.top + height / 2.0
  }

  /** The line's box: present only when both play-resolution dimensions are
      positive. The column fixes the left edge at the left margin, the centre
      halfway between the margins, or the right edge at the right margin; the
      row fixes the top at the vertical margin, the middle at half the
      height, or the bottom at the vertical margin from the bottom. The
      anchor (x, y) is the edge or centre the alignment names. */
  function PlaceLine(meta: Meta, style: Style, marginL: int, marginR: int, marginV: int, size: Size): (b: Option<Box>)
    ensures b.Some? <==> meta.playResX > 0 && meta.playResY > 0
    ensures b.Some? ==> Spans(b.value, size.width, size.height)
    ensures b.Some? ==> var ml, mr := Margin(marginL, style.marginL), Margin(marginR, style.marginR);
      match ColumnOf(style.alignment)
      case LeftColumn => b.value.left == ml as real && b.value.x == b.value.left
      case CenterColumn => b.value.center == Half(meta.playResX + ml - mr) && b.value.x == b.value.center
      case RightColumn => b.value.right == (meta.playResX - mr) as real && b.value.x == b.value.right
    ensures b.Some? ==> var mv := Margin(marginV, style.marginV);
      match RowOf(style.alignment)
      case TopRow => b.value.top == mv as real && b.value.y == b.value.top
      case MiddleRow => b.value.middle == Half(meta.playResY) && b.value.y == b.value.middle
      case BottomRow => b.value.bottom == (meta.playResY - mv) as real && b.value.y == b.value.bottom
  {
    if meta.playResX > 0 && meta.playResY > 0 then
      var w, h := size.width, size.height;
      var ml := Margin(marginL, style.marginL) as real;
      var mr := Margin(marginR, style.marginR) as real;
      var mv := Margin(marginV, style.marginV) as real;
      var col := ColumnOf(style.alignment);
      var left :=
        match col
        case LeftColumn => ml
        case CenterColumn => Half(meta.playResX) - w / 2.0 + ml / 2.0 - mr / 2.0
        case RightColumn => meta.playResX as real - mr - w;
      var row := RowOf(style.alignment);
      var top :=
        match row
        case TopRow => mv
        case MiddleRow => Half(meta.playResY) - h / 2.0
        case BottomRow => meta.playResY as real - mv - h;
      var y :=
        match row
        case TopRow => top
        case MiddleRow => top + h / 2.0
        case BottomRow => top + h;
      Some(Box(XAt(col, left, w), y, left, left + w / 2.0, left + w, top, top + h / 2.0, top + h))
    else None
  }

  /** The horizontal room an element takes in a walk: space before it, its
      width, and space after it (the style's spacing included). */
  datatype Span = Span(pre: real, width: real, post: real) {

    function Advance(): real {
      pre + width + post
    }
  }

  /** Left edges of elements walked from x. */
  function Walk(x: real, spans: seq<Span>): (lefts: seq<real>)
    ensures |lefts| == |spans|
    ensures |spans| > 0 ==> lefts[0] == x + spans[0].pre
    ensures forall j, k :: 0 <= j && k == j + 1 && k < |spans| ==>
              lefts[k] == lefts[j] + spans[j].width + spans[j].post + spans[k].pre
    decreases |spans|
  {
    if |spans| == 0 then []
    else
      var l := x + spans[0].pre;
      var rest := Walk(l + spans[0].width + spans[0].post, spans[1..]);
      assert forall k :: 0 < k < |spans| ==> spans[k] == spans[1..][k - 1];
      [l] + rest
  }

  /** Sum of the advances of spans[..n]. */
  function AdvanceBefore(spans: seq<Span>, n: nat): real
    requires n <= |spans|
  {
    if n == 0 then 0.0 else AdvanceBefore(spans, n - 1) + spans[n - 1].Advance()
  }

  /** Each element starts after everything before it and its own leading
      space. */
  lemma {:induction false} WalkClosedForm(x: real, spans: seq<Span>, k: nat)
    requires k < |spans|
    ensures Walk(x, spans)[k] == x + AdvanceBefore(spans, k) + spans[k].pre
  {
    if k > 0 {
      WalkClosedForm(x, spans, k - 1);
    }
  }

  /** With no negative room, walked elements follow each other without
      overlapping. */
  lemma WalkOrdered(x: real, spans: seq<Span>)
    requires forall k :: 0 <= k < |spans| ==> spans[k].pre >= 0.0 && spans[k].width >= 0.0 && spans[k].post >= 0.0
    ensures forall j, k :: 0 <= j && k == j + 1 && k < |spans| ==> Walk(x, spans)[j] + spans[j].width <= Walk(x, spans)[k]
    ensures forall k :: 0 <= k < |spans| ==> x <= Walk(x, spans)[k]
  {
    var ls := Walk(x, spans);
    forall k | 0 <= k < |spans|
      ensures x <= ls[k]
    {
      WalkClosedForm(x, spans, k);
      AdvanceNonNegative(spans, k);
    }
  }

  lemma {:induction false} AdvanceNonNegative(spans: seq<Span>, n: nat)
    requires n <= |spans|
    requires forall k :: 0 <= k < |spans| ==> spans[k].pre >= 0.0 && spans[k].width >= 0.0 && spans[k].post >= 0.0
    ensures AdvanceBefore(spans, n) >= 0.0
  {
    if n > 0 {
      AdvanceNonNegative(spans, n - 1);
    }
  }

  /** The box of a walked element: its own horizontal extent, the line's
      vertical one. */
  function WalkedBox(c: Column, left: real, width: real, line: Box): Box {
    Box(XAt(c, left, width), line.y, left, left + width / 2.0, left + width, line.top, line.middle, line.bottom)
  }

  /** The boxes of elements walked along a line from its left edge. */
  function WalkBoxes(a: int, line: Box, spans: seq<Span>): (bs: seq<Box>)
    ensures |bs| == |spans|
    ensures forall k :: 0 <= k < |bs| ==> bs[k] == WalkedBox(ColumnOf(a), Walk(line.left, spans)[k], spans[k].width, line)
  {
    var ls := Walk(line.left, spans);
    seq(|spans|, k requires 0 <= k < |spans| => WalkedBox(ColumnOf(a), ls[k], spans[k].width, line))
  }

  /** Walked elements keep the line's vertical extent and anchor; each is
      as wide as its span, anchored by the line's column, starts its leading
      space after the line's left edge (the first) or after the previous
      element's right edge and trailing space (the others). */
  lemma WalkPlacement(a: int, line: Box, spans: seq<Span>)
    ensures var bs := WalkBoxes(a, line, spans);
      && (forall k :: 0 <= k < |bs| ==>
            bs[k].top == line.top && bs[k].middle == line.middle && bs[k].bottom == line.bottom && bs[k].y == line.y)
      && (forall k :: 0 <= k < |bs| ==>
            bs[k].right == bs[k].left + spans[k].width && bs[k].x == XAt(ColumnOf(a), bs[k].left, spans[k].width))
      && (|bs| > 0 ==> bs[0].left == line.left + spans[0].pre)
      && (forall j, k :: 0 <= j && k == j + 1 && k < |bs| ==> bs[k].left == bs[j].right + spans[j].post + spans[k].pre)
  {
  }

  /** The widest of the sizes, and 0 when there are none. */
  function MaxWidth(sizes: seq<Size>): (m: real)
    ensures m >= 0.0
    ensures forall k :: 0 <= k < |sizes| ==> sizes[k].width <= m
    ensures |sizes| > 0 ==> exists k :: 0 <= k < |sizes| && sizes[k].width == m
  {
    if |sizes| == 0 then 0.0
    else
      var m := MaxWidth(sizes[..|sizes| - 1]);
      assert forall k :: 0 <= k < |sizes| - 1 ==> sizes[k] == sizes[..|sizes| - 1][k];
      if sizes[|sizes| - 1].width > m then sizes[|sizes| - 1].width else m
  }

  function SumHeights(sizes: seq<Size>): (h: real)
    ensures h >= 0.0
  {
    if |sizes| == 0 then 0.0 else SumHeights(sizes[..|sizes| - 1]) + sizes[|sizes| - 1].height
  }

  /** Top of element k of a column stacked downwards and centred
      vertically on the play area. */
  function StackTop(sizes: seq<Size>, playResY: int, k: nat): real
    requires k <= |sizes|
  {
    Half(playResY) - SumHeights(sizes) / 2.0 + SumHeights(sizes[..k])
  }

  /** The vertical axis stacked elements are centred on: half the widest
      element in from the line's left edge (alignment 4) or right edge
      (alignment 6), or the given centre (alignment 5). */
  function Axis(a: int, maxW: real, line: Box, cx: real): real {
    if a == 4 then line.left + maxW / 2.0
    else if a == 5 then cx
    else line.right - maxW / 2.0
  }

  /** The box of a stacked element. */
  function StackedBox(a: int, size: Size, top: real, maxW: real, line: Box, cx: real): (b: Box)
    ensures Spans(b, size.width, size.height)
    ensures b.top == top && b.center == Axis(a, maxW, line, cx)
    ensures b.y == b.middle
  {
    var w, h := size.width, size.height;
    var xFix := (maxW - w) / 2.0;
    if a == 4 then
      var left := line.left + xFix;
      Box(left, top + h / 2.0, left, left + w / 2.0, left + w, top, top + h / 2.0, top + h)
    else if a == 5 then
      var left := cx - w / 2.0;
      Box(left + w / 2.0, top + h / 2.0, left, left + w / 2.0, left + w, top, top + h / 2.0, top + h)
    else
      var left := line.right - w - xFix;
      Box(left + w, top + h / 2.0, left, left + w / 2.0, left + w, top, top + h / 2.0, top + h)
  }

  /** Elements stacked top to bottom, the whole column centred vertically on
      the play area; cx is the centre used by alignment 5. */
  function Stack(a: int, sizes: seq<Size>, playResY: int, line: Box, cx: real): (bs: seq<Box>)
    ensures |bs| == |sizes|
    ensures forall k :: 0 <= k < |bs| ==> bs[k] == StackedBox(a, sizes[k], StackTop(sizes, playResY, k), MaxWidth(sizes), line, cx)
  {
    var maxW := MaxWidth(sizes);
    seq(|sizes|, k requires 0 <= k < |sizes| => StackedBox(a, sizes[k], StackTop(sizes, playResY, k), maxW, line, cx))
  }

  lemma SumHeightsStep(sizes: seq<Size>, k: nat)
    requires k < |sizes|
    ensures SumHeights(sizes[..k + 1]) == SumHeights(sizes[..k]) + sizes[k].height
  {
    assert sizes[..k + 1][..k] == sizes[..k];
  }

  /** Stacked elements touch: each starts where the previous ends, the
      first at half the play height less half the total height and the last
      ending symmetrically below. */
  lemma StackVertical(a: int, sizes: seq<Size>, playResY: int, line: Box, cx: real)
    requires |sizes| > 0
    ensures var bs := Stack(a, sizes, playResY, line, cx); var h := SumHeights(sizes);
      && bs[0].top == Half(playResY) - h / 2.0
      && bs[|bs| - 1].bottom == Half(playResY) + h / 2.0
      && (forall j, k :: 0 <= j && k == j + 1 && k < |bs| ==> bs[k].top == bs[j].bottom)
  {
    var n := |sizes|;
    forall j, k | 0 <= j && k == j + 1 && k < n
      ensures Stack(a, sizes, playResY, line, cx)[k].top == Stack(a, sizes, playResY, line, cx)[j].bottom
    {
      StackTouch(a, sizes, playResY, line, cx, j);
    }
    StackEnds(a, sizes, playResY, line, cx);
  }

  lemma StackTouch(a: int, sizes: seq<Size>, playResY: int, line: Box, cx: real, j: nat)
    requires j + 1 < |sizes|
    ensures Stack(a, sizes, playResY, line, cx)[j + 1].top == Stack(a, sizes, playResY, line, cx)[j].bottom
  {
    SumHeightsStep(sizes, j);
  }

  lemma StackEnds(a: int, sizes: seq<Size>, playResY: int, line: Box, cx: real)
    requires |sizes| > 0
    ensures var bs := Stack(a, sizes, playResY, line, cx); var h := SumHeights(sizes);
      bs[0].top == Half(playResY) - h / 2.0 && bs[|bs| - 1].bottom == Half(playResY) + h / 2.0
  {
    var n := |sizes|;
    var bs := Stack(a, sizes, playResY, line, cx);
    var h := SumHeights(sizes);
    assert sizes[..0] == [];
    assert bs[0].top == StackTop(sizes, playResY, 0);
    SumHeightsStep(sizes, n - 1);
    assert sizes[..n] == sizes;
    var t := StackTop(sizes, playResY, n - 1);
    assert t + sizes[n - 1].height == Half(playResY) - h / 2.0 + h;
    assert bs[n - 1].bottom == t + sizes[n - 1].height;
  }

  /** No prefix of a column is taller than the whole column. */
  lemma {:induction false} PrefixHeights(sizes: seq<Size>, k: nat)
    requires k <= |sizes|
    ensures SumHeights(sizes[..k]) <= SumHeights(sizes)
    decreases |sizes| - k
  {
    if k < |sizes| {
      SumHeightsStep(sizes, k);
      PrefixHeights(sizes, k + 1);
    } else {
      assert sizes[..k] == sizes;
    }
  }

  /** Every stacked element lies between the column's top and bottom. */
  lemma StackWithin(a: int, sizes: seq<Size>, playResY: int, line: Box, cx: real, k: nat)
    requires k < |sizes|
    ensures var bs := Stack(a, sizes, playResY, line, cx); var top := Half(playResY) - SumHeights(sizes) / 2.0;
      top <= bs[k].top && bs[k].bottom <= top + SumHeights(sizes)
  {
    SumHeightsStep(sizes, k);
    PrefixHeights(sizes, k + 1);
  }

  /** Stacked elements are all centred on one axis, and each lies within
      half the widest element's width of it. */
  lemma StackHorizontal(a: int, sizes: seq<Size>, playResY: int, line: Box, cx: real)
    ensures var bs := Stack(a, sizes, playResY, line, cx); var m := MaxWidth(sizes); var ax := Axis(a, m, line, cx);
      && (forall k :: 0 <= k < |bs| ==> Spans(bs[k], sizes[k].width, sizes[k].height))
      && (forall k :: 0 <= k < |bs| ==> bs[k].center == ax)
      && (forall k :: 0 <= k < |bs| ==> ax - m / 2.0 <= bs[k].left && bs[k].right <= ax + m / 2.0)
  {
  }

  /** The line's box after its syllables are stacked: as wide as the widest
      syllable and as tall as all of them, vertically centred on the play
      area; alignment 4 keeps its left edge, 5 its centre, 6 (and anything
      else) its right edge. The anchor (x, y) is not touched. */
  function Restack(a: int, line: Box, sizes: seq<Size>, playResY: int): (r: (Box, Size))
    ensures Spans(r.0, MaxWidth(sizes), SumHeights(sizes))
    ensures r.0.x == line.x && r.0.y == line.y
    ensures r.0.middle == Half(playResY)
    ensures a == 4 ==> r.0.left == line.left
    ensures a == 5 ==> r.0.center == line.center
    ensures a != 4 && a != 5 ==> r.0.right == line.right
    ensures r.1.width == MaxWidth(sizes) && r.1.height == SumHeights(sizes)
  {
    var w, h := MaxWidth(sizes), SumHeights(sizes);
    var top := Half(playResY) - h / 2.0;
    var b :=
      if a == 4 then line.(top := top, middle := Half(playResY), bottom := top + h, center := line.left + w / 2.0, right := line.left + w)
      else if a == 5 then
        var left := line.center - w / 2.0;
        line.(top := top, middle := Half(playResY), bottom := top + h, left := left, right := left + w)
      else
        var left := line.right - w;
        line.(top := top, middle := Half(playResY), bottom := top + h, left := left, center := left + w / 2.0);
    (b, Size(w, h))
  }

  /** Syllables stacked against the restacked line sit inside it, centred on
      its centre. */
  lemma RestackContains(a: int, line: Box, sizes: seq<Size>, playResY: int)
    requires |sizes| > 0
    ensures var nl := Restack(a, line, sizes, playResY).0; var bs := Stack(a, sizes, playResY, nl, nl.center);
      forall k :: 0 <= k < |bs| ==>
        nl.left <= bs[k].left && bs[k].right <= nl.right &&
        nl.top <= bs[k].top && bs[k].bottom <= nl.bottom && bs[k].center == nl.center
  {
    var nl := Restack(a, line, sizes, playResY).0;
    var bs := Stack(a, sizes, playResY, nl, nl.center);
    StackHorizontal(a, sizes, playResY, nl, nl.center);
    var h := SumHeights(sizes);
    assert nl.top == Half(playResY) - h / 2.0 && nl.bottom == nl.top + h;
    forall k | 0 <= k < |bs|
      ensures nl.top <= bs[k].top && bs[k].bottom <= nl.bottom
    {
      StackWithin(a, sizes, playResY, nl, nl.center, k);
    }
  }
}
