/** The char segmenter: every character of the padded text of each syllable
    (or, on a line without syllables, of each word) becomes one character
    record, numbered across the whole line. */
module Chars {
  import opened Common
  import opened Records

  /** The element a run of characters is cut from: its owning word, its
      syllable index when it is a syllable, its timing and its padded text. */
  datatype Piece = Piece(wordI: nat, sylI: Option<nat>, startTime: int, endTime: int, duration: int, text: string)

  function SylPiece(s: Syllable): Piece {
    Piece(s.wordI, Some(s.i), s.startTime, s.endTime, s.duration, Padding(s.prespace, s.text, s.postspace).Padded())
  }

  function WordPiece(w: Word): Piece {
    Piece(w.i, None, w.startTime, w.endTime, w.duration, Padding(w.prespace, w.text, w.postspace).Padded())
  }

  /** Character ci of piece p, numbered i on the line. */
  function MakeChar(p: Piece, i: nat, ci: nat): Char
    requires ci < |p.text|
  {
    Char(i, p.wordI, p.sylI, if p.sylI.Some? then Some(ci) else None, p.startTime, p.endTime, p.duration, p.text[ci])
  }

  /** The characters of ps[n..], numbered from base. */
  function CharsFrom(ps: seq<Piece>, n: nat, base: nat): seq<Char>
    requires n <= |ps|
    decreases |ps| - n
  {
    if n == |ps| then []
    else
      seq(|ps[n].text|, ci requires 0 <= ci < |ps[n].text| => MakeChar(ps[n], base + ci, ci))
      + CharsFrom(ps, n + 1, base + |ps[n].text|)
  }

  /** The piece and the position in it of every character of ps[n..]. */
  function CharOrigins(ps: seq<Piece>, n: nat): (o: seq<(nat, nat)>)
    requires n <= |ps|
    ensures forall j :: 0 <= j < |o| ==> n <= o[j].0 < |ps| && o[j].1 < |ps[o[j].0].text|
    decreases |ps| - n
  {
    if n == |ps| then []
    else seq(|ps[n].text|, ci => (n, ci)) + CharOrigins(ps, n + 1)
  }

  /** The pieces' texts, concatenated. */
  function PiecesText(ps: seq<Piece>, n: nat): string
    requires n <= |ps|
    decreases |ps| - n
  {
    if n == |ps| then [] else ps[n].text + PiecesText(ps, n + 1)
  }

  lemma {:induction false} OriginsLength(ps: seq<Piece>, n: nat, base: nat)
    requires n <= |ps|
    ensures |CharsFrom(ps, n, base)| == |CharOrigins(ps, n)| == |PiecesText(ps, n)|
    decreases |ps| - n
  {
    if n < |ps| {
      OriginsLength(ps, n + 1, base + |ps[n].text|);
    }
  }

  /** Every character is made from the piece and position its origin names. */
  lemma {:induction false} CharsFromAt(ps: seq<Piece>, n: nat, base: nat)
    requires n <= |ps|
    requires |CharsFrom(ps, n, base)| == |CharOrigins(ps, n)|
    ensures forall j :: 0 <= j < |CharOrigins(ps, n)| ==>
              CharsFrom(ps, n, base)[j] == MakeChar(ps[CharOrigins(ps, n)[j].0], base + j, CharOrigins(ps, n)[j].1)
    decreases |ps| - n
  {
    if n < |ps| {
      var m := |ps[n].text|;
      var here := seq(m, ci requires 0 <= ci < m => MakeChar(ps[n], base + ci, ci));
      var tail := CharsFrom(ps, n + 1, base + m);
      var rest := CharOrigins(ps, n + 1);
      var o := seq(m, ci => (n, ci)) + rest;
      OriginsLength(ps, n + 1, base + m);
      CharsFromAt(ps, n + 1, base + m);
      assert CharsFrom(ps, n, base) == here + tail;
      assert CharOrigins(ps, n) == o;
      forall j | 0 <= j < |o|
        ensures (here + tail)[j] == MakeChar(ps[o[j].0], base + j, o[j].1)
      {
        if j >= m {
          assert (here + tail)[j] == tail[j - m] && o[j] == rest[j - m];
        }
      }
    }
  }

  /** Each character of the concatenated texts is the one its origin names. */
  lemma {:induction false} OriginsText(ps: seq<Piece>, n: nat)
    requires n <= |ps|
    requires |CharOrigins(ps, n)| == |PiecesText(ps, n)|
    ensures forall j :: 0 <= j < |CharOrigins(ps, n)| ==>
              PiecesText(ps, n)[j] == ps[CharOrigins(ps, n)[j].0].text[CharOrigins(ps, n)[j].1]
    decreases |ps| - n
  {
    if n < |ps| {
      var m := |ps[n].text|;
      var rest := CharOrigins(ps, n + 1);
      var o := seq(m, ci => (n, ci)) + rest;
      var t := PiecesText(ps, n + 1);
      OriginsLength(ps, n + 1, 0);
      OriginsText(ps, n + 1);
      assert CharOrigins(ps, n) == o;
      assert PiecesText(ps, n) == ps[n].text + t;
      forall j | 0 <= j < |o|
        ensures (ps[n].text + t)[j] == ps[o[j].0].text[o[j].1]
      {
        if j >= m {
          assert (ps[n].text + t)[j] == t[j - m] && o[j] == rest[j - m];
        }
      }
    }
  }

  lemma CharsFromOrigins(ps: seq<Piece>, n: nat, base: nat)
    requires n <= |ps|
    ensures |CharsFrom(ps, n, base)| == |CharOrigins(ps, n)| == |PiecesText(ps, n)|
    ensures forall j :: 0 <= j < |CharOrigins(ps, n)| ==>
              CharsFrom(ps, n, base)[j] == MakeChar(ps[CharOrigins(ps, n)[j].0], base + j, CharOrigins(ps, n)[j].1)
    ensures forall j :: 0 <= j < |CharOrigins(ps, n)| ==> CharsFrom(ps, n, base)[j].text == PiecesText(ps, n)[j]
  {
    OriginsLength(ps, n, base);
    CharsFromAt(ps, n, base);
    OriginsText(ps, n);
  }

  /** The source's `words_or_syls`, as pieces. */
  function Pieces(syls: seq<Syllable>, words: seq<Word>): (ps: seq<Piece>)
    ensures |syls| > 0 ==> |ps| == |syls| && forall k :: 0 <= k < |ps| ==> ps[k] == SylPiece(syls[k])
    ensures |syls| == 0 ==> |ps| == |words| && forall k :: 0 <= k < |ps| ==> ps[k] == WordPiece(words[k])
  {
    if |syls| > 0 then seq(|syls|, k requires 0 <= k < |syls| => SylPiece(syls[k]))
    else seq(|words|, k requires 0 <= k < |words| => WordPiece(words[k]))
  }

  /** The source's `line.chars`. */
  function Chars(syls: seq<Syllable>, words: seq<Word>): seq<Char> {
    CharsFrom(Pieces(syls, words), 0, 0)
  }

  /** Character j of a line is character `CharOrigins(..)[j].1` of element
      `CharOrigins(..)[j].0` (a syllable when the line has any, else a word):
      it is numbered j, takes that character of the element's padded text,
      and the element's word index and timing; a character of a syllable also
      records the syllable's index and its position in it, a character of a
      word records neither. Reading the characters in order gives the padded
      texts of the elements, concatenated. */
  lemma CharsSpec(syls: seq<Syllable>, words: seq<Word>)
    ensures var ps := Pieces(syls, words); var cs := Chars(syls, words); var o := CharOrigins(ps, 0);
      && |cs| == |o| == |PiecesText(ps, 0)|
      && forall j :: 0 <= j < |cs| ==>
           && cs[j].i == j
           && cs[j].text == PiecesText(ps, 0)[j]
           && cs[j].text == ps[o[j].0].text[o[j].1]
           && cs[j].wordI == ps[o[j].0].wordI
           && cs[j].startTime == ps[o[j].0].startTime && cs[j].endTime == ps[o[j].0].endTime
           && cs[j].duration == ps[o[j].0].duration
           && (|syls| > 0 ==> cs[j].sylI == Some(syls[o[j].0].i) && cs[j].sylCharI == Some(o[j].1)
                              && cs[j].wordI == syls[o[j].0].wordI)
           && (|syls| == 0 ==> cs[j].sylI.None? && cs[j].sylCharI.None? && cs[j].wordI == words[o[j].0].i)
  {
    CharsFromOrigins(Pieces(syls, words), 0, 0);
  }

  /** Sum of the pieces' text lengths. */
  function Widths(ps: seq<Piece>, n: nat): nat
    requires n <= |ps|
    decreases |ps| - n
  {
    if n == |ps| then 0 else |ps[n].text| + Widths(ps, n + 1)
  }

  lemma {:induction false} TextWidths(ps: seq<Piece>, n: nat)
    requires n <= |ps|
    ensures |PiecesText(ps, n)| == Widths(ps, n)
    decreases |ps| - n
  {
    if n < |ps| {
      TextWidths(ps, n + 1);
    }
  }

  /** Padded width of a run of syllables: prespace, text and postspace. */
  function SylWidth(s: seq<Syllable>): nat {
    if |s| == 0 then 0 else Padding(s[0].prespace, s[0].text, s[0].postspace).Width() + SylWidth(s[1..])
  }

  /** Padded width of a run of words. */
  function WordWidth(ws: seq<Word>): nat {
    if |ws| == 0 then 0 else Padding(ws[0].prespace, ws[0].text, ws[0].postspace).Width() + WordWidth(ws[1..])
  }

  lemma {:induction false} SylPiecesWidth(syls: seq<Syllable>, words: seq<Word>, n: nat)
    requires |syls| > 0 && n <= |syls|
    ensures Widths(Pieces(syls, words), n) == SylWidth(syls[n..])
    decreases |syls| - n
  {
    if n < |syls| {
      SylPiecesWidth(syls, words, n + 1);
      assert syls[n..][1..] == syls[n + 1..];
    } else {
      assert syls[n..] == [];
    }
  }

  lemma {:induction false} WordPiecesWidth(words: seq<Word>, n: nat)
    requires n <= |words|
    ensures Widths(Pieces([], words), n) == WordWidth(words[n..])
    decreases |words| - n
  {
    if n < |words| {
      WordPiecesWidth(words, n + 1);
      assert words[n..][1..] == words[n + 1..];
    } else {
      assert words[n..] == [];
    }
  }

  /** A line has as many characters as the padded widths of its syllables
      add up to, or, when it has none, those of its words. */
  lemma CharCount(syls: seq<Syllable>, words: seq<Word>)
    ensures |Chars(syls, words)| == if |syls| > 0 then SylWidth(syls) else WordWidth(words)
  {
    var ps := Pieces(syls, words);
    CharsSpec(syls, words);
    TextWidths(ps, 0);
    if |syls| > 0 {
      SylPiecesWidth(syls, words, 0);
      assert syls[0..] == syls;
    } else {
      assert syls == [];
      WordPiecesWidth(words, 0);
      assert words[0..] == words;
    }
  }
}
