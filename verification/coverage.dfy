/** How the characters of a line cover its text.

    On a line with syllables, the hidden syllables of a chunk are empty and
    the chunk's last syllable holds its whole text split into padding, so
    the line has one character per character of its stripped text. On a line
    without syllables the characters come from the words, whose padding
    stands for the whitespace between them, so the characters spell the
    stripped text with every whitespace character written as a space. */
module Coverage {
  import opened Common
  import opened Records
  import Tags
  import Karaoke
  import Words
  import Chars

  lemma {:induction false} SylWidthAppend(a: seq<Syllable>, b: seq<Syllable>)
    ensures Chars.SylWidth(a + b) == Chars.SylWidth(a) + Chars.SylWidth(b)
    decreases |a|
  {
    if |a| > 0 {
      assert (a + b)[1..] == a[1..] + b;
      SylWidthAppend(a[1..], b);
    } else {
      assert a + b == b;
    }
  }

  /** The syllables made from the marks ms[j..] of a chunk are as wide as
      the chunk's padded text: the hidden ones are empty. */
  lemma {:induction false} MarkedWidth(r: seq<Syllable>, ms: seq<Karaoke.Mark>, j: nat, rest: string, pad: Padding, wi: nat)
    requires j < |ms| && |r| == |ms| - j
    requires forall n :: 0 <= n < |r| ==> Karaoke.MarkSyllable(r[n], ms, j + n, rest, pad, wi)
    ensures Chars.SylWidth(r) == pad.Width()
    decreases |r|
  {
    assert Karaoke.MarkSyllable(r[0], ms, j, rest, pad, wi);
    if |r| > 1 {
      forall n | 0 <= n < |r[1..]|
        ensures Karaoke.MarkSyllable(r[1..][n], ms, j + 1 + n, rest, pad, wi)
      {
        assert r[1..][n] == r[n + 1];
      }
      MarkedWidth(r[1..], ms, j + 1, rest, pad, wi);
    } else {
      assert r[1..] == [];
    }
  }

  /** A chunk's syllables are exactly as wide as its text. */
  lemma ChunkWidth(c: Tags.Chunk, k: Karaoke.Carry)
    requires Karaoke.HasKaraoke(c.tags) && c.wordI.Some?
    ensures Chars.SylWidth(Karaoke.ChunkSyllables(c, k)) == |c.text|
  {
    var r := Karaoke.ChunkSyllables(c, k);
    var p := Karaoke.Peel(c.tags);
    var pad := Karaoke.SplitPadding(c.text);
    forall n | 0 <= n < |r|
      ensures Karaoke.MarkSyllable(r[n], p.marks, n, p.rest, pad, c.wordI.value)
    {
      assert Karaoke.FromMark(r[n], c, n);
    }
    MarkedWidth(r, p.marks, 0, p.rest, pad, c.wordI.value);
  }

  lemma {:induction false} SyllablesFromWidth(cs: seq<Tags.Chunk>, n: nat, k: Karaoke.Carry)
    requires n <= |cs| && Karaoke.AllKaraoke(cs) && Karaoke.Untagged(cs)
    ensures Chars.SylWidth(Karaoke.SyllablesFrom(cs, n, k)) == |Tags.Text(cs[n..])|
    decreases |cs| - n
  {
    if n < |cs| {
      var a := SyllablesFromStep(cs, n, k);
      var b := Karaoke.SyllablesFrom(cs, n + 1, Karaoke.After(a, k));
      SyllablesFromWidth(cs, n + 1, Karaoke.After(a, k));
      SylWidthAppend(a, b);
      ChunkWidth(cs[n], k);
      TextStep(cs, n);
    } else {
      assert cs[n..] == [];
    }
  }

  /** The syllables of cs[n..] are those of chunk n followed by the rest. */
  lemma SyllablesFromStep(cs: seq<Tags.Chunk>, n: nat, k: Karaoke.Carry) returns (a: seq<Syllable>)
    requires n < |cs| && Karaoke.AllKaraoke(cs) && Karaoke.Untagged(cs)
    ensures Karaoke.HasKaraoke(cs[n].tags) && cs[n].wordI.Some?
    ensures a == Karaoke.ChunkSyllables(cs[n], k)
    ensures Karaoke.SyllablesFrom(cs, n, k) == a + Karaoke.SyllablesFrom(cs, n + 1, Karaoke.After(a, k))
  {
    Karaoke.KaraokeTagged(cs[n].tags);
    a := Karaoke.ChunkSyllables(cs[n], k);
  }

  lemma TextStep(cs: seq<Tags.Chunk>, n: nat)
    requires n < |cs|
    ensures Tags.Text(cs[n..]) == cs[n].text + Tags.Text(cs[n + 1..])
  {
    assert cs[n..] == [cs[n]] + cs[n + 1..];
    Tags.TextCons(cs[n], cs[n + 1..]);
  }

  /** On a line whose every chunk carries a marker there is one character
      per character of the stripped text, whatever the words are. */
  lemma KaraokeCharCount(raw: string, words: seq<Word>)
    requires Karaoke.AllKaraoke(Tags.Chunks(raw))
    ensures |Karaoke.Syllables(Tags.Chunks(raw))| > 0
    ensures |Chars.Chars(Karaoke.Syllables(Tags.Chunks(raw)), words)| == |Tags.StripTags(raw)|
  {
    var cs := Tags.Chunks(raw);
    var syls := Karaoke.Syllables(cs);
    Chars.CharCount(syls, words);
    SyllablesFromWidth(cs, 0, Karaoke.Carry(0, 0, []));
    assert syls[0..] == syls && cs[0..] == cs;
    Tags.ChunksText(raw);
  }

  lemma {:induction false} WordPiecesText(ws: seq<Word>, s: string, n: nat)
    requires |ws| == |Words.SplitWords(s)| && n <= |ws|
    requires forall k :: 0 <= k < |ws| ==> Padding(ws[k].prespace, ws[k].text, ws[k].postspace) == Words.SplitWords(s)[k]
    ensures Chars.PiecesText(Chars.Pieces([], ws), n) == Words.PaddedText(Words.SplitWords(s)[n..])
    decreases |ws| - n
  {
    var sw := Words.SplitWords(s);
    if n < |ws| {
      WordPiecesText(ws, s, n + 1);
      assert sw[n..][1..] == sw[n + 1..];
    } else {
      assert sw[n..] == [];
    }
  }

  /** On a line without syllables the characters spell the stripped text
      with each whitespace character as a space; text that is all whitespace
      has no words and so no characters. */
  lemma PlainChars(text: string, startTime: int, endTime: int)
    ensures var cs := Chars.Chars([], Words.Words(text, startTime, endTime));
      && (AllSpace(text) ==> cs == [])
      && (!AllSpace(text) ==> |cs| == |text|)
      && (!AllSpace(text) ==> forall j :: 0 <= j < |cs| ==> cs[j].text == if IsSpace(text[j]) then ' ' else text[j])
  {
    var ws := Words.Words(text, startTime, endTime);
    var cs := Chars.Chars([], ws);
    var ps := Chars.Pieces([], ws);
    Chars.CharsSpec([], ws);
    Words.SplitWordsRoundTrip(text);
    if AllSpace(text) {
      assert |ps| == 0;
    } else {
      WordPiecesText(ws, text, 0);
      assert Words.SplitWords(text)[0..] == Words.SplitWords(text);
      var b := Words.BlankedFrom(text, 0);
      forall j | 0 <= j < |cs|
        ensures cs[j].text == if IsSpace(text[j]) then ' ' else text[j]
      {
        assert cs[j].text == b[j];
      }
    }
  }
}
