/** The word segmenter: `re.findall(r"(\s*)([^\s]+)(\s*)", line.text)`.

    Each match is one word: the whitespace before it, its run of
    non-whitespace characters, and the whitespace after it. Matches follow
    each other directly, so only the first word can have whitespace before
    it; the whitespace between two words goes to the earlier one. */
module Words {
  import opened Common
  import opened Records

  /** End of the whitespace run starting at p. */
  function SpaceEnd(s: string, p: nat): (a: nat)
    requires p <= |s|
    ensures p <= a <= |s| && AllSpace(s[p..a])
    ensures a < |s| ==> !IsSpace(s[a])
  {
    assert s[p..][..LeadingSpaces(s[p..])] == s[p .. p + LeadingSpaces(s[p..])];
    p + LeadingSpaces(s[p..])
  }

  /** End of the run of non-whitespace characters starting at a. */
  function WordEnd(s: string, a: nat): (e: nat)
    requires a < |s| && !IsSpace(s[a])
    ensures a < e <= |s|
    ensures forall i :: a <= i < e ==> !IsSpace(s[i])
    ensures e < |s| ==> IsSpace(s[e])
  {
    var n := NonSpaceRun(s[a..]);
    assert forall i :: a <= i < a + n ==> s[i] == s[a..][i - a];
    a + n
  }

  /** The matches from position p on. */
  function WordsFrom(s: string, p: nat): (ws: seq<Padding>)
    requires p <= |s|
    decreases |s| - p
  {
    var a := SpaceEnd(s, p);
    if a == |s| then []
    else
      var e := WordEnd(s, a);
      var f := SpaceEnd(s, e);
      [Padding(a - p, s[a..e], f - e)] + WordsFrom(s, f)
  }

  /** The `(prespace, text, postspace)` triples of a line's text. */
  function SplitWords(s: string): seq<Padding> {
    WordsFrom(s, 0)
  }

  /** What a word segmentation of s[p..] looks like: every word is a
      non-empty run without whitespace; only the first word may have
      whitespace before it; every word but the last has whitespace after it. */
  predicate Segmented(ws: seq<Padding>) {
    && (forall k :: 0 <= k < |ws| ==> |ws[k].text| > 0 && !HasSpace(ws[k].text))
    && (forall k :: 0 < k < |ws| ==> ws[k].pre == 0)
    && (forall k :: 0 <= k < |ws| - 1 ==> ws[k].post > 0)
  }

  predicate HasSpace(t: string) {
    exists i :: 0 <= i < |t| && IsSpace(t[i])
  }

  /** s with every whitespace character replaced by a space, from p on. */
  function BlankedFrom(s: string, p: nat): (b: string)
    requires p <= |s|
    ensures |b| == |s| - p
  {
    seq(|s| - p, i requires 0 <= i < |s| - p => if IsSpace(s[p + i]) then ' ' else s[p + i])
  }

  /** The padded texts of words, concatenated. */
  function PaddedText(ws: seq<Padding>): string {
    if |ws| == 0 then [] else ws[0].Padded() + PaddedText(ws[1..])
  }

  /** One match: the whitespace before the word, the word and the whitespace
      after it, with each whitespace character written as a space, are the
      blanked text between p and f. */
  lemma OneWord(s: string, p: nat, a: nat, e: nat, f: nat)
    requires p <= a < e <= f <= |s|
    requires AllSpace(s[p..a]) && AllSpace(s[e..f])
    requires forall i :: a <= i < e ==> !IsSpace(s[i])
    ensures Padding(a - p, s[a..e], f - e).Padded() == BlankedFrom(s, p)[..f - p]
  {
    var w := Padding(a - p, s[a..e], f - e);
    var b := BlankedFrom(s, p);
    forall i | 0 <= i < f - p
      ensures w.Padded()[i] == b[i]
    {
      if i < a - p {
        assert s[p..a][i] == s[p + i];
      } else if i >= e - p {
        assert s[e..f][i - (e - p)] == s[p + i];
      }
    }
  }

  lemma {:induction false} WordsFromShape(s: string, p: nat)
    requires p <= |s|
    ensures Segmented(WordsFrom(s, p))
    ensures p < |s| && !IsSpace(s[p]) ==> |WordsFrom(s, p)| > 0 && WordsFrom(s, p)[0].pre == 0
    ensures |WordsFrom(s, p)| == 0 <==> AllSpace(s[p..])
    ensures |WordsFrom(s, p)| > 0 ==> PaddedText(WordsFrom(s, p)) == BlankedFrom(s, p)
    decreases |s| - p
  {
    var a := SpaceEnd(s, p);
    if a == |s| {
      assert s[p..] == s[p..a];
    } else {
      var e := WordEnd(s, a);
      var f := SpaceEnd(s, e);
      var w := Padding(a - p, s[a..e], f - e);
      var rest := WordsFrom(s, f);
      WordsFromShape(s, f);
      assert WordsFrom(s, p) == [w] + rest;
      assert !AllSpace(s[p..]) by {
        assert s[p..][a - p] == s[a];
      }
      OneWord(s, p, a, e, f);
      WordText(s, a, e);
      assert |rest| > 0 ==> f < |s|;
      SegmentedCons(w, rest);
      PaddedCons(s, p, f, w, rest);
    }
  }

  lemma WordText(s: string, a: nat, e: nat)
    requires a < e <= |s|
    requires forall i :: a <= i < e ==> !IsSpace(s[i])
    ensures |s[a..e]| > 0 && !HasSpace(s[a..e])
  {
    forall i | 0 <= i < e - a
      ensures !IsSpace(s[a..e][i])
    {
      assert s[a..e][i] == s[a + i];
    }
  }

  lemma SegmentedCons(w: Padding, rest: seq<Padding>)
    requires |w.text| > 0 && !HasSpace(w.text)
    requires Segmented(rest)
    requires |rest| > 0 ==> rest[0].pre == 0 && w.post > 0
    ensures Segmented([w] + rest)
  {
    var ws := [w] + rest;
    forall k | 0 < k < |ws|
      ensures ws[k] == rest[k - 1]
    {
    }
  }

  lemma BlankedSplit(s: string, p: nat, f: nat)
    requires p <= f <= |s|
    ensures BlankedFrom(s, p) == BlankedFrom(s, p)[..f - p] + BlankedFrom(s, f)
  {
    var b := BlankedFrom(s, p);
    var c := BlankedFrom(s, f);
    forall i | f - p <= i < |b|
      ensures b[i] == c[i - (f - p)]
    {
    }
  }

  lemma PaddedCons(s: string, p: nat, f: nat, w: Padding, rest: seq<Padding>)
    requires p < f <= |s|
    requires w.Padded() == BlankedFrom(s, p)[..f - p]
    requires |rest| > 0 ==> PaddedText(rest) == BlankedFrom(s, f)
    requires |rest| == 0 ==> f == |s|
    ensures PaddedText([w] + rest) == BlankedFrom(s, p)
  {
    assert ([w] + rest)[1..] == rest;
    assert PaddedText([w] + rest) == w.Padded() + PaddedText(rest);
    BlankedSplit(s, p, f);
    if |rest| == 0 {
      assert BlankedFrom(s, f) == [];
    }
  }

  /** The segmentation of a line's text has the expected shape; it is empty
      exactly when the text is all whitespace (or empty); otherwise writing
      the words back with their padding as spaces gives the text with every
      whitespace character replaced by a space, so no character is lost. */
  lemma SplitWordsRoundTrip(s: string)
    ensures Segmented(SplitWords(s))
    ensures |SplitWords(s)| == 0 <==> AllSpace(s)
    ensures |SplitWords(s)| > 0 ==> PaddedText(SplitWords(s)) == BlankedFrom(s, 0)
  {
    WordsFromShape(s, 0);
    assert s[0..] == s;
  }

  /** The source's `line.words`: numbered from 0 and timed like the line. */
  function Words(s: string, startTime: int, endTime: int): (ws: seq<Word>)
    ensures |ws| == |SplitWords(s)|
    ensures forall k :: 0 <= k < |ws| ==>
              ws[k].i == k && ws[k].startTime == startTime && ws[k].endTime == endTime &&
              ws[k].duration == endTime - startTime
    ensures forall k :: 0 <= k < |ws| ==>
              Padding(ws[k].prespace, ws[k].text, ws[k].postspace) == SplitWords(s)[k]
  {
    var ps := SplitWords(s);
    seq(|ps|, k requires 0 <= k < |ps| =>
      Word(k, startTime, endTime, endTime - startTime, ps[k].text, ps[k].pre, ps[k].post))
  }
}
