/** The karaoke syllable extractor.

    Each chunk's tag string is peeled from the front: every karaoke marker
    (`\k`, `\K`, `\ko`, `\kf`, `\Ko`, `\Kf`) followed by a decimal duration in
    centiseconds yields one syllable, whose tags are whatever stood before
    the marker. All syllables of a chunk but the last are hidden (no text,
    no padding); the last takes the rest of the tag string and the chunk's
    text. A chunk whose tags hold no marker discards the whole line's
    syllables. */
module Karaoke {
  import opened Common
  import opened Records
  import opened Tags

  predicate IsKaraokeKey(c: char) {
    c == 'k' || c == 'K'
  }

  predicate IsKaraokeVariant(c: char) {
    c == 'o' || c == 'f'
  }

  /** `\\[kK][of]?\d` matches at position i of t. */
  predicate KaraokeAt(t: string, i: nat) {
    i + 2 < |t| && t[i] == '\\' && IsKaraokeKey(t[i + 1]) &&
    (IsDigit(t[i + 2]) || (IsKaraokeVariant(t[i + 2]) && i + 3 < |t| && IsDigit(t[i + 3])))
  }

  predicate NoKaraoke(t: string) {
    forall i :: 0 <= i < |t| ==> !KaraokeAt(t, i)
  }

  /** Where the duration digits of the marker at i begin. */
  function DigitsAt(t: string, i: nat): (d: nat)
    requires KaraokeAt(t, i)
    ensures i + 2 <= d <= i + 3 && d < |t| && IsDigit(t[d])
  {
    if IsDigit(t[i + 2]) then i + 2 else i + 3
  }

  /** The leftmost marker at or after p. */
  function FindKaraoke(t: string, p: nat): (i: Option<nat>)
    requires p <= |t|
    ensures i.Some? ==> p <= i.value < |t| && KaraokeAt(t, i.value)
    decreases |t| - p
  {
    if p == |t| then None
    else if KaraokeAt(t, p) then Some(p)
    else FindKaraoke(t, p + 1)
  }

  lemma {:induction false} FindKaraokeFirst(t: string, p: nat)
    requires p <= |t|
    ensures forall k :: p <= k < |t| && (FindKaraoke(t, p).None? || k < FindKaraoke(t, p).value) ==> !KaraokeAt(t, k)
    decreases |t| - p
  {
    if p < |t| && !KaraokeAt(t, p) {
      FindKaraokeFirst(t, p + 1);
    }
  }

  /** The shape of a marker: a backslash, `k` or `K`, and optionally `o` or `f`. */
  predicate IsMarker(s: string) {
    2 <= |s| <= 3 && s[0] == '\\' && IsKaraokeKey(s[1]) && (|s| == 3 ==> IsKaraokeVariant(s[2]))
  }

  /** One peeled marker: the tags before it, the marker, its digits and the
      duration they spell. */
  datatype Mark = Mark(pre: string, marker: string, digits: string, centis: nat) {

    function Source(): string {
      pre + marker + digits
    }
  }

  datatype KaraokeMatch = KaraokeMatch(mark: Mark, post: string)

  /** `re.match(r"(.*?)\\[kK][of]?(\d+)(.*)", t)`: the tags before the
      leftmost marker, the marker, its maximal run of digits, and the rest. */
  function MatchKaraoke(t: string): (m: Option<KaraokeMatch>)
    ensures m.Some? ==> t == m.value.mark.Source() + m.value.post
    ensures m.Some? ==> IsMarker(m.value.mark.marker) && |m.value.mark.digits| > 0 && AllDigits(m.value.mark.digits)
    ensures m.Some? ==> m.value.mark.centis == DecimalValue(m.value.mark.digits)
    ensures m.Some? ==> |m.value.post| > 0 ==> !IsDigit(m.value.post[0])
  {
    match FindKaraoke(t, 0)
    case None => None
    case Some(i) =>
      var d := DigitsAt(t, i);
      var n := DigitRun(t[d..]);
      assert t[d..][..n] == t[d .. d + n];
      assert t == t[..i] + t[i..d] + t[d .. d + n] + t[d + n..];
      Some(KaraokeMatch(Mark(t[..i], t[i..d], t[d .. d + n], DecimalValue(t[d .. d + n])), t[d + n..]))
  }

  /** The match is the leftmost one, and there is none exactly when t holds
      no marker. */
  lemma MatchKaraokeLeftmost(t: string)
    ensures MatchKaraoke(t).None? <==> NoKaraoke(t)
    ensures MatchKaraoke(t).Some? ==> NoKaraoke(MatchKaraoke(t).value.mark.pre)
  {
    FindKaraokeFirst(t, 0);
    match FindKaraoke(t, 0)
    case None =>
    case Some(i) =>
      var pre := t[..i];
      forall k | 0 <= k < |pre|
        ensures !KaraokeAt(pre, k)
      {
        assert !KaraokeAt(t, k);
      }
  }

  /** A tag string taken apart into its markers and what follows the last. */
  datatype Peeled = Peeled(marks: seq<Mark>, rest: string)

  function Peel(t: string): (p: Peeled)
    decreases |t|
  {
    match MatchKaraoke(t)
    case None => Peeled([], t)
    case Some(m) =>
      var p := Peel(m.post);
      Peeled([m.mark] + p.marks, p.rest)
  }

  /** Writing the markers back in front of the rest. */
  function Unpeel(p: Peeled): string
    decreases |p.marks|
  {
    if |p.marks| == 0 then p.rest
    else p.marks[0].Source() + Unpeel(Peeled(p.marks[1..], p.rest))
  }

  /** The tags written after mark j: the later marks and the rest. */
  function Following(p: Peeled, j: nat): string
    requires j < |p.marks|
  {
    Unpeel(Peeled(p.marks[j + 1..], p.rest))
  }

  /** Every mark took the whole run of digits after its marker: what follows
      it does not start with a digit. */
  predicate DigitsMaximal(p: Peeled) {
    forall j :: 0 <= j < |p.marks| ==> |Following(p, j)| > 0 ==> !IsDigit(Following(p, j)[0])
  }

  /** Peeling loses nothing: writing the markers back gives the tag string;
      the rest holds no marker; every mark is a well-formed marker with its
      maximal digit run, preceded by tags with no marker in them. */
  lemma {:induction false} PeelRoundTrip(t: string)
    ensures Unpeel(Peel(t)) == t
    ensures NoKaraoke(Peel(t).rest)
    ensures |Peel(t).marks| == 0 <==> NoKaraoke(t)
    ensures forall j :: 0 <= j < |Peel(t).marks| ==>
              IsMarker(Peel(t).marks[j].marker) && AllDigits(Peel(t).marks[j].digits) &&
              |Peel(t).marks[j].digits| > 0 && NoKaraoke(Peel(t).marks[j].pre) &&
              Peel(t).marks[j].centis == DecimalValue(Peel(t).marks[j].digits)
    ensures DigitsMaximal(Peel(t))
    decreases |t|
  {
    MatchKaraokeLeftmost(t);
    PeelMaximal(t);
    match MatchKaraoke(t)
    case None =>
    case Some(m) =>
      PeelRoundTrip(m.post);
      var p := Peel(m.post);
      assert Peel(t) == Peeled([m.mark] + p.marks, p.rest);
      assert ([m.mark] + p.marks)[1..] == p.marks;
  }

  lemma {:induction false} PeelUnpeel(t: string)
    ensures Unpeel(Peel(t)) == t
    decreases |t|
  {
    match MatchKaraoke(t)
    case None =>
    case Some(m) =>
      PeelUnpeel(m.post);
      var p := Peel(m.post);
      assert ([m.mark] + p.marks)[1..] == p.marks;
  }

  lemma {:induction false} PeelMaximal(t: string)
    ensures DigitsMaximal(Peel(t))
    decreases |t|
  {
    match MatchKaraoke(t)
    case None =>
    case Some(m) =>
      PeelMaximal(m.post);
      PeelUnpeel(m.post);
      var p := Peel(m.post);
      var q := Peeled([m.mark] + p.marks, p.rest);
      assert Peel(t) == q;
      assert q.marks[1..] == p.marks;
      assert Following(q, 0) == m.post;
      forall j | 1 <= j < |q.marks|
        ensures Following(q, j) == Following(p, j - 1)
      {
        assert q.marks[j + 1..] == p.marks[j..];
      }
  }

  /** `\\\-([^\\]+)` matches at position i of t. */
  predicate FxAt(t: string, i: nat) {
    i + 2 < |t| && t[i] == '\\' && t[i + 1] == '-' && t[i + 2] != '\\'
  }

  function FindFx(t: string, p: nat): (i: Option<nat>)
    requires p <= |t|
    ensures i.Some? ==> p <= i.value < |t| && FxAt(t, i.value)
    decreases |t| - p
  {
    if p == |t| then None
    else if FxAt(t, p) then Some(p)
    else FindFx(t, p + 1)
  }

  lemma {:induction false} FindFxFirst(t: string, p: nat)
    requires p <= |t|
    ensures forall k :: p <= k < |t| && (FindFx(t, p).None? || k < FindFx(t, p).value) ==> !FxAt(t, k)
    decreases |t| - p
  {
    if p < |t| && !FxAt(t, p) {
      FindFxFirst(t, p + 1);
    }
  }

  /** Length of the longest prefix of s without a backslash. */
  function NameRun(s: string): (n: nat)
    ensures n <= |s|
    ensures forall k :: 0 <= k < n ==> s[k] != '\\'
    ensures n < |s| ==> s[n] == '\\'
  {
    if |s| == 0 || s[0] == '\\' then 0 else 1 + NameRun(s[1..])
  }

  /** The name of the leftmost inline effect `\-name` in t: everything after
      the `\-` up to the next backslash or the end. */
  function InlineFx(t: string): (name: Option<string>)
    ensures name.Some? <==> FindFx(t, 0).Some?
    ensures name.None? <==> forall k :: 0 <= k < |t| ==> !FxAt(t, k)
    ensures name.Some? ==> FxAt(t, FindFx(t, 0).value) && forall k :: 0 <= k < FindFx(t, 0).value ==> !FxAt(t, k)
    ensures name.Some? ==> |name.value| > 0 && forall k :: 0 <= k < |name.value| ==> name.value[k] != '\\'
    ensures name.Some? ==> var e := FindFx(t, 0).value + 2 + |name.value|;
              e <= |t| && t[FindFx(t, 0).value + 2 .. e] == name.value && (e == |t| || t[e] == '\\')
  {
    FindFxFirst(t, 0);
    match FindFx(t, 0)
    case None => None
    case Some(i) =>
      var n := NameRun(t[i + 2..]);
      assert t[i + 2..][..n] == t[i + 2 .. i + 2 + n];
      Some(t[i + 2 .. i + 2 + n])
  }

  /** The inline effect a syllable with these tags carries: its own when its
      tags name one, otherwise the one carried from before. */
  function FxAfter(tags: string, carried: string): string {
    InlineFx(tags).GetOr(carried)
  }

  /** Padding counts that cut t into whitespace, a text and whitespace. */
  predicate Splits(t: string, p: Padding) {
    && p.pre + p.post <= |t|
    && p.text == t[p.pre .. |t| - p.post]
    && AllSpace(t[..p.pre])
    && AllSpace(t[|t| - p.post..])
  }

  /** The leading and trailing whitespace of a text that is not all
      whitespace, cut off. */
  function Trim(t: string): (p: Padding)
    requires !IsBlank(t) && |t| > 0
    ensures Splits(t, p)
    ensures |p.text| > 0 && !IsSpace(p.text[0]) && !IsSpace(p.text[|p.text| - 1])
  {
    var a := LeadingSpaces(t);
    TrimLeading(t);
    var u := t[a..];
    var b := TrailingSpaces(u);
    assert u[0] == t[a];
    TrimTrailing(u);
    SliceOfSuffix(t, a, b);
    Padding(a, u[..|u| - b], b)
  }

  /** Text that is not all whitespace has a non-whitespace character after its
      leading whitespace. */
  lemma TrimLeading(t: string)
    requires !IsBlank(t) && |t| > 0
    ensures LeadingSpaces(t) < |t|
  {
    assert t[..|t|] == t;
  }

  lemma TrimTrailing(u: string)
    requires |u| > 0 && !IsSpace(u[0])
    ensures TrailingSpaces(u) < |u|
  {
    assert u[0..] == u;
  }

  lemma SliceOfSuffix(t: string, a: nat, b: nat)
    requires a + b <= |t|
    ensures t[a..][..|t| - a - b] == t[a .. |t| - b]
    ensures t[a..][|t| - a - b..] == t[|t| - b..]
  {
  }

  /** `syl.prespace, syl.text, syl.postspace` for a chunk's text: whitespace
      text is kept whole with no padding; otherwise the leading and trailing
      whitespace become the padding counts. */
  function SplitPadding(t: string): (p: Padding)
    ensures Splits(t, p) && p.Width() == |t|
    ensures IsBlank(t) ==> p == Padding(0, t, 0)
    ensures !IsBlank(t) && |t| > 0 ==> |p.text| > 0 && !IsSpace(p.text[0]) && !IsSpace(p.text[|p.text| - 1])
  {
    if IsBlank(t) || |t| == 0 then
      assert t[0..|t|] == t;
      Padding(0, t, 0)
    else
      Trim(t)
  }

  /** The running state of the extractor between syllables: the next
      syllable index, the karaoke clock and the carried inline effect. */
  datatype Carry = Carry(si: nat, clock: int, fx: string)

  /** The state after a run of syllables. */
  function After(s: seq<Syllable>, k: Carry): Carry {
    if |s| == 0 then k else Carry(k.si + |s|, s[|s| - 1].endTime, s[|s| - 1].inlineFx)
  }

  /** Syllables are numbered on from the carried index. */
  predicate Indexed(s: seq<Syllable>, k: Carry) {
    forall j :: 0 <= j < |s| ==> s[j].i == k.si + j
  }

  /** Each syllable lasts its duration and starts where the previous one (or
      the carried clock) ends. */
  predicate Timed(s: seq<Syllable>, k: Carry) {
    && (forall j :: 0 <= j < |s| ==> s[j].duration >= 0 && s[j].endTime == s[j].startTime + s[j].duration)
    && (|s| > 0 ==> s[0].startTime == k.clock)
    && (forall j, m :: 0 <= j < |s| && m == j + 1 && m < |s| ==> s[m].startTime == s[j].endTime)
  }

  /** Each syllable's inline effect is the one its own tags name, or else the
      previous syllable's (or the carried one). */
  predicate FxCarried(s: seq<Syllable>, k: Carry) {
    && (|s| > 0 ==> s[0].inlineFx == FxAfter(s[0].tags, k.fx))
    && (forall j, m :: 0 <= j < |s| && m == j + 1 && m < |s| ==> s[m].inlineFx == FxAfter(s[m].tags, s[j].inlineFx))
  }

  predicate Chain(s: seq<Syllable>, k: Carry) {
    Indexed(s, k) && Timed(s, k) && FxCarried(s, k)
  }

  lemma ChainAppend(a: seq<Syllable>, b: seq<Syllable>, k: Carry)
    requires Chain(a, k) && Chain(b, After(a, k))
    ensures Chain(a + b, k)
  {
    if |a| > 0 {
      var s := a + b;
      forall j | 0 <= j < |s|
        ensures s[j].i == k.si + j
      {
        if j >= |a| {
          assert s[j] == b[j - |a|];
        }
      }
      forall j, m | 0 <= j && m == j + 1 && m < |s|
        ensures s[m].startTime == s[j].endTime
        ensures s[m].inlineFx == FxAfter(s[m].tags, s[j].inlineFx)
      {
        if j >= |a| {
          assert s[j] == b[j - |a|] && s[m] == b[m - |a|];
        } else if m == |a| {
          assert s[m] == b[0];
        }
      }
    } else {
      assert a + b == b;
    }
  }

  /** Syllable s is made from mark m of ms: it has the chunk's word index and
      the mark's duration; a syllable before the chunk's last is hidden and
      keeps only the tags before its marker; the last one also keeps the tags
      after the final marker and takes the chunk's text, split into padding. */
  predicate MarkSyllable(s: Syllable, ms: seq<Mark>, m: nat, rest: string, pad: Padding, wi: nat) {
    && m < |ms|
    && s.wordI == wi
    && s.duration == 10 * ms[m].centis
    && if m < |ms| - 1 then
         s.text == [] && s.prespace == 0 && s.postspace == 0 && s.tags == ms[m].pre
       else
         s.text == pad.text && s.prespace == pad.pre && s.postspace == pad.post && s.tags == ms[m].pre + rest
  }

  /** Syllable s is made from mark m of chunk c. */
  predicate FromMark(s: Syllable, c: Chunk, m: nat) {
    var p := Peel(c.tags);
    c.wordI == Some(s.wordI) && MarkSyllable(s, p.marks, m, p.rest, SplitPadding(c.text), s.wordI)
  }

  /** The syllables of the marks ms[j..] of one chunk. */
  function MarkSyllables(ms: seq<Mark>, j: nat, rest: string, pad: Padding, wi: nat, k: Carry): (r: seq<Syllable>)
    requires j < |ms|
    ensures |r| == |ms| - j
    ensures Chain(r, k)
    ensures forall n :: 0 <= n < |r| ==> MarkSyllable(r[n], ms, j + n, rest, pad, wi)
    decreases |ms| - j
  {
    var d := 10 * ms[j].centis;
    if j == |ms| - 1 then
      var tags := ms[j].pre + rest;
      [Syllable(k.si, wi, k.clock, k.clock + d, d, pad.text, tags, FxAfter(tags, k.fx), pad.pre, pad.post)]
    else
      var fx := FxAfter(ms[j].pre, k.fx);
      var s := Syllable(k.si, wi, k.clock, k.clock + d, d, [], ms[j].pre, fx, 0, 0);
      var tail := MarkSyllables(ms, j + 1, rest, pad, wi, Carry(k.si + 1, k.clock + d, fx));
      ChainAppend([s], tail, k);
      MarkSyllablesCons(s, tail, ms, j, rest, pad, wi);
      [s] + tail
  }

  lemma MarkSyllablesCons(s: Syllable, tail: seq<Syllable>, ms: seq<Mark>, j: nat, rest: string, pad: Padding, wi: nat)
    requires MarkSyllable(s, ms, j, rest, pad, wi)
    requires forall n :: 0 <= n < |tail| ==> MarkSyllable(tail[n], ms, j + 1 + n, rest, pad, wi)
    ensures forall n :: 0 <= n < |[s] + tail| ==> MarkSyllable(([s] + tail)[n], ms, j + n, rest, pad, wi)
  {
    forall n | 0 < n < |[s] + tail|
      ensures MarkSyllable(([s] + tail)[n], ms, j + n, rest, pad, wi)
    {
      assert ([s] + tail)[n] == tail[n - 1];
    }
  }

  predicate HasKaraoke(t: string) {
    MatchKaraoke(t).Some?
  }

  /** Tags holding a marker are not empty. */
  lemma KaraokeTagged(t: string)
    requires HasKaraoke(t)
    ensures |t| > 0
  {
    var m := MatchKaraoke(t).value;
    assert |m.mark.Source()| >= |m.mark.marker| >= 2;
  }

  /** The syllables of one chunk whose tags hold a marker. */
  function ChunkSyllables(c: Chunk, k: Carry): (r: seq<Syllable>)
    requires HasKaraoke(c.tags) && c.wordI.Some?
    ensures |r| == |Peel(c.tags).marks| > 0
    ensures Chain(r, k)
    ensures forall m :: 0 <= m < |r| ==> FromMark(r[m], c, m)
  {
    var p := Peel(c.tags);
    MarkSyllables(p.marks, 0, p.rest, SplitPadding(c.text), c.wordI.value, k)
  }

  /** Every chunk's tags hold a marker. */
  predicate AllKaraoke(cs: seq<Chunk>) {
    forall k :: 0 <= k < |cs| ==> HasKaraoke(cs[k].tags)
  }

  /** Only a chunk without tags may lack a word index. */
  predicate Untagged(cs: seq<Chunk>) {
    forall k :: 0 <= k < |cs| && cs[k].wordI.None? ==> cs[k].tags == []
  }

  /** The syllables of the chunks cs[n..]. */
  function SyllablesFrom(cs: seq<Chunk>, n: nat, k: Carry): (r: seq<Syllable>)
    requires n <= |cs| && AllKaraoke(cs) && Untagged(cs)
    ensures Chain(r, k)
    ensures n < |cs| ==> |r| > 0
    decreases |cs| - n
  {
    if n == |cs| then []
    else
      KaraokeTagged(cs[n].tags);
      var a := ChunkSyllables(cs[n], k);
      var b := SyllablesFrom(cs, n + 1, After(a, k));
      ChainAppend(a, b, k);
      a + b
  }

  /** The source's `line.syls`: every syllable when each chunk's tags hold a
      marker, none otherwise. Syllables are numbered from 0 and timed from a
      karaoke clock that starts at 0, not at the line's start. */
  function Syllables(cs: seq<Chunk>): (r: seq<Syllable>)
    requires Untagged(cs)
    ensures Chain(r, Carry(0, 0, []))
    ensures |r| > 0 <==> |cs| > 0 && AllKaraoke(cs)
  {
    if AllKaraoke(cs) then SyllablesFrom(cs, 0, Carry(0, 0, [])) else []
  }

  /** How many markers each chunk's tags hold. */
  function MarkCounts(cs: seq<Chunk>): (r: seq<nat>)
    ensures |r| == |cs| && forall i :: 0 <= i < |cs| ==> r[i] == |Peel(cs[i].tags).marks|
  {
    seq(|cs|, i requires 0 <= i < |cs| => |Peel(cs[i].tags).marks|)
  }

  /** For chunks holding counts[n..] markers: which chunk and which of its
      marks each syllable comes from. */
  function Origins(counts: seq<nat>, n: nat): (o: seq<(nat, nat)>)
    requires n <= |counts|
    ensures forall j :: 0 <= j < |o| ==> n <= o[j].0 < |counts| && o[j].1 < counts[o[j].0]
    decreases |counts| - n
  {
    if n == |counts| then [] else Marks(n, counts[n]) + Origins(counts, n + 1)
  }

  /** The marks 0 .. count - 1 of chunk n. */
  function Marks(n: nat, count: nat): (o: seq<(nat, nat)>)
    ensures |o| == count && forall j :: 0 <= j < count ==> o[j] == (n, j)
  {
    if count == 0 then [] else Marks(n, count - 1) + [(n, count - 1)]
  }

  /** Syllable j of ss is made from mark o[j].1 of chunk o[j].0. */
  predicate Traced(ss: seq<Syllable>, cs: seq<Chunk>, o: seq<(nat, nat)>) {
    |ss| == |o| && forall j :: 0 <= j < |o| ==> o[j].0 < |cs| && FromMark(ss[j], cs[o[j].0], o[j].1)
  }

  lemma TracedAppend(a: seq<Syllable>, b: seq<Syllable>, cs: seq<Chunk>, here: seq<(nat, nat)>, rest: seq<(nat, nat)>)
    requires Traced(a, cs, here) && Traced(b, cs, rest)
    ensures Traced(a + b, cs, here + rest)
  {
    forall j | 0 <= j < |here + rest|
      ensures (here + rest)[j].0 < |cs| && FromMark((a + b)[j], cs[(here + rest)[j].0], (here + rest)[j].1)
    {
      if j < |a| {
        assert here[j].0 < |cs| && FromMark(a[j], cs[here[j].0], here[j].1);
        assert (a + b)[j] == a[j] && (here + rest)[j] == here[j];
      } else {
        var i := j - |a|;
        assert rest[i].0 < |cs| && FromMark(b[i], cs[rest[i].0], rest[i].1);
        assert (a + b)[j] == b[i] && (here + rest)[j] == rest[i];
      }
    }
  }

  lemma {:induction false} SyllablesFromOrigins(cs: seq<Chunk>, n: nat, k: Carry)
    requires n <= |cs| && AllKaraoke(cs) && Untagged(cs)
    ensures Traced(SyllablesFrom(cs, n, k), cs, Origins(MarkCounts(cs), n))
    decreases |cs| - n
  {
    if n < |cs| {
      var counts := MarkCounts(cs);
      var a := ChunkSyllables(cs[n], k);
      var b := SyllablesFrom(cs, n + 1, After(a, k));
      SyllablesFromOrigins(cs, n + 1, After(a, k));
      var here := Marks(n, counts[n]);
      assert |a| == counts[n] == |here|;
      forall j | 0 <= j < |here|
        ensures here[j].0 < |cs| && FromMark(a[j], cs[here[j].0], here[j].1)
      {
        assert here[j] == (n, j);
      }
      TracedAppend(a, b, cs, here, Origins(counts, n + 1));
      assert SyllablesFrom(cs, n, k) == a + b;
      assert Origins(counts, n) == here + Origins(counts, n + 1);
    }
  }

  /** Syllable j of a karaoke line comes from mark `o[j].1` of chunk
      `o[j].0`, where o lists every chunk's marks in order: the syllables are
      the marks of every chunk in order, with the word indices, durations,
      tags, texts and padding FromMark describes. */
  lemma SyllableOrigins(cs: seq<Chunk>)
    requires Untagged(cs) && AllKaraoke(cs)
    ensures var o := Origins(MarkCounts(cs), 0);
      && |Syllables(cs)| == |o|
      && forall j :: 0 <= j < |o| ==> FromMark(Syllables(cs)[j], cs[o[j].0], o[j].1)
  {
    SyllablesFromOrigins(cs, 0, Carry(0, 0, []));
  }

  /** Sum of the syllables' durations. */
  function TotalDuration(s: seq<Syllable>): int {
    if |s| == 0 then 0 else TotalDuration(s[..|s| - 1]) + s[|s| - 1].duration
  }

  /** A timed run of syllables ends at its start clock plus the sum of its
      durations. */
  lemma {:induction false} TimedEnd(s: seq<Syllable>, k: Carry)
    requires Timed(s, k) && |s| > 0
    ensures s[|s| - 1].endTime == k.clock + TotalDuration(s)
    decreases |s|
  {
    if |s| > 1 {
      var s' := s[..|s| - 1];
      assert Timed(s', k);
      TimedEnd(s', k);
    }
  }

  /** Sum of the durations the chunks' markers spell, in milliseconds. */
  function MarkedDuration(cs: seq<Chunk>, n: nat): int
    requires n <= |cs|
    decreases |cs| - n
  {
    if n == |cs| then 0 else MarksDuration(Peel(cs[n].tags).marks) + MarkedDuration(cs, n + 1)
  }

  function MarksDuration(ms: seq<Mark>): int {
    if |ms| == 0 then 0 else MarksDuration(ms[..|ms| - 1]) + 10 * ms[|ms| - 1].centis
  }

  lemma {:induction false} TotalDurationAppend(a: seq<Syllable>, b: seq<Syllable>)
    ensures TotalDuration(a + b) == TotalDuration(a) + TotalDuration(b)
    decreases |b|
  {
    if |b| == 0 {
      assert a + b == a;
    } else {
      assert (a + b)[..|a + b| - 1] == a + b[..|b| - 1];
      TotalDurationAppend(a, b[..|b| - 1]);
    }
  }

  lemma {:induction false} MarkSyllablesDuration(ms: seq<Mark>, j: nat, rest: string, pad: Padding, wi: nat, k: Carry)
    requires j < |ms|
    ensures TotalDuration(MarkSyllables(ms, j, rest, pad, wi, k)) == MarksDuration(ms[j..])
    decreases |ms| - j
  {
    var r := MarkSyllables(ms, j, rest, pad, wi, k);
    var n := |ms| - j;
    assert r[..n] == r;
    assert ms[j..][..n] == ms[j..];
    SumPrefix(r, ms[j..], n);
  }

  lemma {:induction false} SumPrefix(r: seq<Syllable>, ms: seq<Mark>, n: nat)
    requires n <= |r| == |ms|
    requires forall i :: 0 <= i < |r| ==> r[i].duration == 10 * ms[i].centis
    ensures TotalDuration(r[..n]) == MarksDuration(ms[..n])
  {
    if n > 0 {
      SumPrefix(r, ms, n - 1);
      assert r[..n][..n - 1] == r[..n - 1];
      assert ms[..n][..n - 1] == ms[..n - 1];
    }
  }

  lemma {:induction false} SyllablesFromDuration(cs: seq<Chunk>, n: nat, k: Carry)
    requires n <= |cs| && AllKaraoke(cs) && Untagged(cs)
    ensures TotalDuration(SyllablesFrom(cs, n, k)) == MarkedDuration(cs, n)
    decreases |cs| - n
  {
    if n < |cs| {
      var a := ChunkSyllables(cs[n], k);
      var b := SyllablesFrom(cs, n + 1, After(a, k));
      SyllablesFromDuration(cs, n + 1, After(a, k));
      var p := Peel(cs[n].tags);
      MarkSyllablesDuration(p.marks, 0, p.rest, SplitPadding(cs[n].text), cs[n].wordI.value, k);
      assert p.marks[0..] == p.marks;
      TotalDurationAppend(a, b);
    }
  }

  /** On a karaoke line the last syllable ends at the sum of the durations
      the markers spell (the clock starts at 0). */
  lemma SyllablesEnd(cs: seq<Chunk>)
    requires Untagged(cs) && AllKaraoke(cs) && |cs| > 0
    ensures var s := Syllables(cs); s[|s| - 1].endTime == MarkedDuration(cs, 0)
  {
    SyllablesFromDuration(cs, 0, Carry(0, 0, []));
    TimedEnd(Syllables(cs), Carry(0, 0, []));
  }
}
