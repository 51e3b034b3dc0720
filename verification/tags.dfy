/** Tag stripping and the tag-chunk splitter.

    Override tags are written in brace groups. A group opens at a `{` that has
    a `}` somewhere after it and closes at the first such `}`: this is how the
    lazy patterns `\{.*?\}` and `(\{.*?\})+` match on a line that holds no line
    break (event lines never do). A run is a maximal sequence of groups that
    follow each other directly. */
module Tags {
  import opened Common

  /** A run's tags with the braces taken out, and the plain text up to the next
      run. `wordI` is the index of the word the text belongs to; the chunk the
      source makes for text before the first run carries none. */
  datatype Chunk = Chunk(tags: string, text: string, wordI: Option<nat>)

  /** Position of the first `}` at or after p. */
  function CloseFrom(r: string, p: nat): (q: Option<nat>)
    requires p <= |r|
    ensures q.Some? ==> p <= q.value < |r| && r[q.value] == '}'
    decreases |r| - p
  {
    if p == |r| then None
    else if r[p] == '}' then Some(p)
    else CloseFrom(r, p + 1)
  }

  /** No `}` at or after p. */
  predicate NoCloseFrom(r: string, p: nat) {
    forall k :: p <= k < |r| ==> r[k] != '}'
  }

  /** CloseFrom finds the first `}`, and finds none only when there is none. */
  lemma {:induction false} CloseFromFirst(r: string, p: nat)
    requires p <= |r|
    ensures CloseFrom(r, p).None? <==> NoCloseFrom(r, p)
    ensures CloseFrom(r, p).Some? ==> forall k :: p <= k < CloseFrom(r, p).value ==> r[k] != '}'
    decreases |r| - p
  {
    if p < |r| && r[p] != '}' {
      CloseFromFirst(r, p + 1);
    }
  }

  /** Putting a character in front of a string moves its first `}` by one. */
  lemma {:induction false} CloseFromShift(c: char, t: string, i: nat)
    requires i <= |t|
    ensures CloseFrom([c] + t, i + 1) == (if CloseFrom(t, i).Some? then Some(CloseFrom(t, i).value + 1) else None)
    decreases |t| - i
  {
    var u := [c] + t;
    if i < |t| {
      assert u[i + 1] == t[i];
      CloseFromShift(c, t, i + 1);
    }
  }

  predicate OpensGroup(r: string, p: nat) {
    p < |r| && r[p] == '{' && CloseFrom(r, p + 1).Some?
  }

  /** No brace group opens anywhere in r: no `{` has a `}` after it. */
  predicate NoGroups(r: string) {
    forall p :: 0 <= p < |r| ==> !OpensGroup(r, p)
  }

  /** s is where the first brace group of r opens. */
  predicate FirstGroup(r: string, s: nat) {
    OpensGroup(r, s) && forall k :: 0 <= k < s ==> !OpensGroup(r, k)
  }

  lemma OpensGroupShift(c: char, t: string, i: nat)
    requires 0 < i
    ensures OpensGroup([c] + t, i) <==> OpensGroup(t, i - 1)
  {
    if i <= |t| {
      CloseFromShift(c, t, i);
    }
  }

  /** One past the `}` that closes the group opening at p. */
  function GroupEnd(r: string, p: nat): (e: nat)
    requires OpensGroup(r, p)
    ensures p + 2 <= e <= |r| && r[e - 1] == '}'
  {
    CloseFrom(r, p + 1).value + 1
  }

  /** One past the last group of the run that starts at p. */
  function RunEnd(r: string, p: nat): (e: nat)
    requires OpensGroup(r, p)
    ensures p + 2 <= e <= |r| && r[e - 1] == '}'
    ensures !OpensGroup(r, e)
    decreases |r| - p
  {
    var q := GroupEnd(r, p);
    if OpensGroup(r, q) then RunEnd(r, q) else q
  }

  /** The leftmost run starting at or after p: `tag_pattern.search(raw, p)`. */
  function FindRun(r: string, p: nat): (s: Option<nat>)
    requires p <= |r|
    ensures s.Some? ==> p <= s.value < |r| && OpensGroup(r, s.value)
    decreases |r| - p
  {
    if p == |r| then None
    else if OpensGroup(r, p) then Some(p)
    else FindRun(r, p + 1)
  }

  /** FindRun finds the leftmost run. */
  lemma {:induction false} FindRunFirst(r: string, p: nat)
    requires p <= |r|
    ensures forall k :: p <= k < |r| && (FindRun(r, p).None? || k < FindRun(r, p).value) ==> !OpensGroup(r, k)
    decreases |r| - p
  {
    if p < |r| && !OpensGroup(r, p) {
      FindRunFirst(r, p + 1);
    }
  }

  /** The search from the start of the line finds nothing exactly when no
      group opens, and otherwise finds where the first group opens. */
  lemma FindRunStart(r: string)
    ensures FindRun(r, 0).None? <==> NoGroups(r)
    ensures forall s: nat :: FirstGroup(r, s) <==> FindRun(r, 0) == Some(s)
  {
    FindRunFirst(r, 0);
    var f := FindRun(r, 0);
    if f.Some? {
      assert !NoGroups(r) by {
        assert OpensGroup(r, f.value);
      }
    }
  }

  function StripFrom(r: string, p: nat): string
    requires p <= |r|
    decreases |r| - p
  {
    if p == |r| then []
    else if OpensGroup(r, p) then StripFrom(r, GroupEnd(r, p))
    else [r[p]] + StripFrom(r, p + 1)
  }

  /** `line.text`: the raw text with every brace group deleted. What is left
      holds no brace group, so stripping it again changes nothing. */
  function StripTags(r: string): (t: string)
    ensures |t| <= |r|
    ensures NoGroups(t)
    ensures StripFrom(t, 0) == t
  {
    StripFromShape(r, 0);
    StripWithoutGroups(StripFrom(r, 0));
    StripFrom(r, 0)
  }

  lemma {:induction false} StripFromShape(r: string, p: nat)
    requires p <= |r|
    ensures |StripFrom(r, p)| <= |r| - p
    ensures NoGroups(StripFrom(r, p))
    ensures CloseFrom(r, p).None? ==> CloseFrom(StripFrom(r, p), 0).None?
    decreases |r| - p
  {
    if p == |r| {
    } else if OpensGroup(r, p) {
      StripFromShape(r, GroupEnd(r, p));
    } else {
      var t' := StripFrom(r, p + 1);
      var t := [r[p]] + t';
      StripFromShape(r, p + 1);
      CloseFromShift(r[p], t', 0);
      forall i | 0 <= i < |t|
        ensures !OpensGroup(t, i)
      {
        if i > 0 {
          OpensGroupShift(r[p], t', i);
        }
      }
    }
  }

  /** Stripping text that holds no group returns it unchanged. */
  lemma StripWithoutGroups(r: string)
    requires NoGroups(r)
    ensures StripFrom(r, 0) == r
  {
    FindRunStart(r);
    StripUpTo(r, 0);
  }

  lemma SliceCons(r: string, p: nat, s: nat)
    requires p < s <= |r|
    ensures r[p..s] == [r[p]] + r[p + 1..s]
  {
  }

  /** Text before the next run survives stripping verbatim. */
  lemma {:induction false} StripUpTo(r: string, p: nat)
    requires p <= |r|
    ensures FindRun(r, p).None? ==> StripFrom(r, p) == r[p..|r|]
    ensures FindRun(r, p).Some? ==> StripFrom(r, p) == r[p .. FindRun(r, p).value] + StripFrom(r, FindRun(r, p).value)
    decreases |r| - p
  {
    if p < |r| && !OpensGroup(r, p) {
      StripUpTo(r, p + 1);
      var f := FindRun(r, p + 1);
      assert FindRun(r, p) == f;
      assert StripFrom(r, p) == [r[p]] + StripFrom(r, p + 1);
      SliceCons(r, p, if f.Some? then f.value else |r|);
    }
  }

  /** A whole run disappears when stripping. */
  lemma {:induction false} StripSkipsRun(r: string, s: nat)
    requires OpensGroup(r, s)
    ensures StripFrom(r, s) == StripFrom(r, RunEnd(r, s))
    decreases |r| - s
  {
    var q := GroupEnd(r, s);
    if OpensGroup(r, q) {
      StripSkipsRun(r, q);
    }
  }

  /** `str.replace("}{", "")`: occurrences removed left to right without overlap. */
  function RemoveSeparators(s: string): string
    decreases |s|
  {
    if |s| < 2 then s
    else if s[0] == '}' && s[1] == '{' then RemoveSeparators(s[2..])
    else [s[0]] + RemoveSeparators(s[1..])
  }

  /** The inner texts of the groups of the run starting at s, concatenated. */
  function RunInner(r: string, s: nat): string
    requires OpensGroup(r, s)
    decreases |r| - s
  {
    var q := GroupEnd(r, s);
    r[s + 1 .. q - 1] + (if OpensGroup(r, q) then RunInner(r, q) else [])
  }

  lemma {:induction false} RemoveSeparatorsSkips(a: string, b: string)
    requires forall i :: 0 <= i < |a| ==> a[i] != '}'
    ensures RemoveSeparators(a + b) == a + RemoveSeparators(b)
    decreases |a|
  {
    if |a| > 0 {
      if |a + b| >= 2 {
        assert (a + b)[1..] == a[1..] + b;
        RemoveSeparatorsSkips(a[1..], b);
        assert a == [a[0]] + a[1..];
      } else {
        assert b == [] && a + b == a;
      }
    } else {
      assert a + b == b;
    }
  }

  /** A group's inner text followed by a separator loses only the separator. */
  lemma RemoveSeparatorsJoin(a: string, b: string)
    requires forall i :: 0 <= i < |a| ==> a[i] != '}'
    ensures RemoveSeparators(a + ['}', '{'] + b) == a + RemoveSeparators(b)
  {
    assert a + ['}', '{'] + b == a + (['}', '{'] + b);
    RemoveSeparatorsSkips(a, ['}', '{'] + b);
    assert (['}', '{'] + b)[2..] == b;
  }

  /** The inner text of one group holds no `}`. */
  lemma GroupInner(r: string, s: nat)
    requires OpensGroup(r, s)
    ensures forall i :: s + 1 <= i < GroupEnd(r, s) - 1 ==> r[i] != '}'
  {
    CloseFromFirst(r, s + 1);
  }

  /** A slice around a `}{` separator, taken apart. */
  lemma SliceAround(r: string, a: nat, q: nat, e: nat)
    requires a < q < e <= |r|
    ensures r[a..e] == r[a..q - 1] + [r[q - 1], r[q]] + r[q + 1..e]
  {
  }

  /** A run's tag string, the run between its outer braces with every `}{`
      removed, is exactly the concatenation of the groups' inner texts, and
      so holds no `}`. */
  lemma RunTags(r: string, s: nat)
    requires OpensGroup(r, s)
    ensures RemoveSeparators(r[s + 1 .. RunEnd(r, s) - 1]) == RunInner(r, s)
    ensures forall i :: 0 <= i < |RunInner(r, s)| ==> RunInner(r, s)[i] != '}'
  {
    RunSeparators(r, s, RunEnd(r, s));
    RunInnerClean(r, s);
  }

  /** The run starting at s, which ends at e, with its separators removed. */
  lemma {:induction false} RunSeparators(r: string, s: nat, e: nat)
    requires OpensGroup(r, s) && e == RunEnd(r, s)
    ensures RemoveSeparators(r[s + 1 .. e - 1]) == RunInner(r, s)
    decreases |r| - s
  {
    var q := GroupEnd(r, s);
    if OpensGroup(r, q) {
      RunStep(r, s);
      RunSeparators(r, q, e);
      RunSeparatorsMore(r, s, q, e);
    } else {
      RunSeparatorsLast(r, s);
    }
  }

  /** A run of two or more groups, ending at e: when the rest of the run
      after the first group loses its separators correctly, so does the run. */
  lemma RunSeparatorsMore(r: string, s: nat, q: nat, e: nat)
    requires OpensGroup(r, s) && q == GroupEnd(r, s) && OpensGroup(r, q) && e == RunEnd(r, q)
    requires RemoveSeparators(r[q + 1 .. e - 1]) == RunInner(r, q)
    ensures RemoveSeparators(r[s + 1 .. e - 1]) == RunInner(r, s)
  {
    RunStep(r, s);
    SeparatorsStep(r, s, q, e);
  }

  lemma RunSeparatorsLast(r: string, s: nat)
    requires OpensGroup(r, s) && !OpensGroup(r, GroupEnd(r, s))
    ensures RemoveSeparators(r[s + 1 .. RunEnd(r, s) - 1]) == RunInner(r, s)
  {
    RunStep(r, s);
    GroupInner(r, s);
    RemoveSeparatorsNone(r[s + 1 .. GroupEnd(r, s) - 1]);
  }

  /** Text without a `}` has no separator to remove. */
  lemma RemoveSeparatorsNone(a: string)
    requires forall i :: 0 <= i < |a| ==> a[i] != '}'
    ensures RemoveSeparators(a) == a
  {
    RemoveSeparatorsSkips(a, []);
    assert a + [] == a;
  }

  /** A run is its first group followed by the run after it, if any. */
  lemma RunStep(r: string, s: nat)
    requires OpensGroup(r, s)
    ensures var q := GroupEnd(r, s);
      && (OpensGroup(r, q) ==> RunEnd(r, s) == RunEnd(r, q) && RunInner(r, s) == r[s + 1 .. q - 1] + RunInner(r, q))
      && (!OpensGroup(r, q) ==> RunEnd(r, s) == q && RunInner(r, s) == r[s + 1 .. q - 1])
  {
    assert r[s + 1 .. GroupEnd(r, s) - 1] + [] == r[s + 1 .. GroupEnd(r, s) - 1];
  }

  /** Removing the separators of a run of two or more groups: the first
      group's inner text, then the rest of the run with its separators
      removed. */
  lemma SeparatorsStep(r: string, s: nat, q: nat, e: nat)
    requires OpensGroup(r, s) && q == GroupEnd(r, s) && OpensGroup(r, q) && e == RunEnd(r, q)
    ensures RemoveSeparators(r[s + 1 .. e - 1]) == r[s + 1 .. q - 1] + RemoveSeparators(r[q + 1 .. e - 1])
  {
    GroupInner(r, s);
    SliceAround(r, s + 1, q, e - 1);
    RemoveSeparatorsJoin(r[s + 1 .. q - 1], r[q + 1 .. e - 1]);
  }

  lemma {:induction false} RunInnerClean(r: string, s: nat)
    requires OpensGroup(r, s)
    ensures forall i :: 0 <= i < |RunInner(r, s)| ==> RunInner(r, s)[i] != '}'
    decreases |r| - s
  {
    var q := GroupEnd(r, s);
    var inner := r[s + 1 .. q - 1];
    GroupInner(r, s);
    if OpensGroup(r, q) {
      RunInnerClean(r, q);
      var t := RunInner(r, q);
      assert RunInner(r, s) == inner + t;
      forall i | 0 <= i < |inner + t|
        ensures (inner + t)[i] != '}'
      {
        if i < |inner| {
          assert inner[i] == r[s + 1 + i];
        }
      }
    } else {
      assert RunInner(r, s) == inner + [];
      forall i | 0 <= i < |inner|
        ensures inner[i] != '}'
      {
        assert inner[i] == r[s + 1 + i];
      }
    }
  }

  /** The chunk of the run starting at s: its tags, and the text up to the
      next run or the end of the line. */
  function RunChunk(r: string, s: nat, wi: nat): Chunk
    requires OpensGroup(r, s)
  {
    var e := RunEnd(r, s);
    Chunk(RemoveSeparators(r[s + 1 .. e - 1]), r[e .. TextEnd(r, e)], Some(wi))
  }

  /** Where plain text starting at e stops: at the next run, or at the end of
      the line. */
  function TextEnd(r: string, e: nat): (q: nat)
    requires e <= |r|
    ensures e <= q <= |r|
  {
    if FindRun(r, e).Some? then FindRun(r, e).value else |r|
  }

  /** The source's `word_i` after a chunk: one more when its text ends in whitespace. */
  function NextWordIndex(c: Chunk, wi: nat): nat {
    if EndsWithSpace(c.text) then wi + 1 else wi
  }

  /** The chunks of the run starting at s and of every later run. */
  function RunChunks(r: string, s: nat, wi: nat): (cs: seq<Chunk>)
    requires OpensGroup(r, s)
    ensures |cs| >= 1 && cs[0].wordI == Some(wi)
    ensures forall k :: 0 <= k < |cs| ==> cs[k].wordI.Some?
    decreases |r| - s
  {
    var c := RunChunk(r, s, wi);
    var next := FindRun(r, RunEnd(r, s));
    [c] + (if next.Some? then RunChunks(r, next.value, NextWordIndex(c, wi)) else [])
  }

  /** The source's `text_chunks`. */
  function Chunks(r: string): (cs: seq<Chunk>)
    ensures |cs| >= 1
    ensures forall k :: 0 <= k < |cs| && cs[k].wordI.None? ==> k == 0 && cs[k].tags == []
  {
    match FindRun(r, 0)
    case None => [Chunk([], r, None)]
    case Some(s) => (if s == 0 then [] else [Chunk([], r[..s], None)]) + RunChunks(r, s, 0)
  }

  /** The chunk texts, concatenated. */
  function Text(cs: seq<Chunk>): string {
    if |cs| == 0 then [] else cs[0].text + Text(cs[1..])
  }

  /** Text with no brace group makes exactly one chunk, untagged, holding all
      of it; text whose first group opens later starts with an untagged chunk
      holding the prefix; text opening with a group starts with the chunk of
      word 0. */
  lemma ChunksLeading(r: string)
    ensures NoGroups(r) <==> Chunks(r) == [Chunk([], r, None)]
    ensures forall s: nat :: FirstGroup(r, s) && s > 0 ==>
              |Chunks(r)| >= 2 && Chunks(r)[0] == Chunk([], r[..s], None) && Chunks(r)[1].wordI == Some(0)
    ensures FirstGroup(r, 0) ==> Chunks(r)[0].wordI == Some(0)
  {
    FindRunStart(r);
    var f := FindRun(r, 0);
    if f.Some? {
      var rc := RunChunks(r, f.value, 0);
      if f.value == 0 {
        assert Chunks(r) == rc;
      } else {
        assert Chunks(r) == [Chunk([], r[..f.value], None)] + rc;
      }
    }
  }

  lemma TextCons(c: Chunk, cs: seq<Chunk>)
    ensures Text([c] + cs) == c.text + Text(cs)
  {
    assert ([c] + cs)[1..] == cs;
  }

  lemma {:induction false} RunChunksText(r: string, s: nat, wi: nat)
    requires OpensGroup(r, s)
    ensures Text(RunChunks(r, s, wi)) == StripFrom(r, s)
    decreases |r| - s
  {
    var c := RunChunk(r, s, wi);
    var e := RunEnd(r, s);
    var next := FindRun(r, e);
    StripSkipsRun(r, s);
    StripUpTo(r, e);
    if next.Some? {
      var tail := RunChunks(r, next.value, NextWordIndex(c, wi));
      RunChunksText(r, next.value, NextWordIndex(c, wi));
      assert RunChunks(r, s, wi) == [c] + tail;
      TextCons(c, tail);
    } else {
      assert RunChunks(r, s, wi) == [c] + [];
      TextCons(c, []);
    }
  }

  lemma ChunksStripUntagged(r: string)
    requires FindRun(r, 0).None?
    ensures Text(Chunks(r)) == StripFrom(r, 0)
  {
    StripUpTo(r, 0);
    TextCons(Chunk([], r, None), []);
    assert Chunks(r) == [Chunk([], r, None)] + [];
    assert r[0..|r|] == r;
  }

  lemma ChunksStripTagged(r: string, s: nat)
    requires FindRun(r, 0) == Some(s)
    ensures Text(Chunks(r)) == StripFrom(r, 0)
  {
    var rc := RunChunks(r, s, 0);
    RunChunksText(r, s, 0);
    StripUpTo(r, 0);
    if s > 0 {
      var lead := Chunk([], r[..s], None);
      assert Chunks(r) == [lead] + rc;
      TextCons(lead, rc);
      assert r[0..s] == r[..s];
    } else {
      assert Chunks(r) == rc;
    }
  }

  /** Concatenating the chunk texts gives back the raw text with every brace
      group deleted. */
  lemma ChunksText(r: string)
    ensures Text(Chunks(r)) == StripTags(r)
  {
    match FindRun(r, 0)
    case None => ChunksStripUntagged(r);
    case Some(s) => ChunksStripTagged(r, s);
  }

  /** c is the chunk of the run that opens at s: the groups' inner texts as
      its tags, and the plain text after the run up to the next one. */
  predicate ChunkOfRun(r: string, s: nat, c: Chunk) {
    OpensGroup(r, s) && c.tags == RunInner(r, s) && c.text == r[RunEnd(r, s) .. TextEnd(r, RunEnd(r, s))]
  }

  /** Where the run starting at s and every later run open: s first, each
      next one the search from where the previous run ends, and no run after
      the last. */
  function RunStarts(r: string, s: nat): (ss: seq<nat>)
    requires OpensGroup(r, s)
    ensures |ss| >= 1 && ss[0] == s
    ensures forall i :: 0 <= i < |ss| ==> s <= ss[i] && OpensGroup(r, ss[i])
    ensures forall i, j :: 0 <= i < |ss| && j == i + 1 && j < |ss| ==> FindRun(r, RunEnd(r, ss[i])) == Some(ss[j])
    ensures FindRun(r, RunEnd(r, ss[|ss| - 1])).None?
    decreases |r| - s
  {
    var next := FindRun(r, RunEnd(r, s));
    [s] + (if next.Some? then RunStarts(r, next.value) else [])
  }

  /** Chunk k of cs is the chunk of the run that opens at ss[k]. */
  predicate FromRuns(r: string, cs: seq<Chunk>, ss: seq<nat>)
    decreases |cs|
  {
    |cs| == |ss| && (|cs| > 0 ==> ChunkOfRun(r, ss[0], cs[0]) && FromRuns(r, cs[1..], ss[1..]))
  }

  lemma FromRunsCons(r: string, c: Chunk, cs: seq<Chunk>, s: nat, ss: seq<nat>)
    requires ChunkOfRun(r, s, c) && FromRuns(r, cs, ss)
    ensures FromRuns(r, [c] + cs, [s] + ss)
  {
    assert ([c] + cs)[1..] == cs && ([s] + ss)[1..] == ss;
  }

  lemma {:induction false} FromRunsAt(r: string, cs: seq<Chunk>, ss: seq<nat>, k: nat)
    requires FromRuns(r, cs, ss) && k < |cs|
    ensures ChunkOfRun(r, ss[k], cs[k])
    decreases k
  {
    if k > 0 {
      FromRunsAt(r, cs[1..], ss[1..], k - 1);
      assert cs[1..][k - 1] == cs[k] && ss[1..][k - 1] == ss[k];
    }
  }

  lemma RunChunkOfRun(r: string, s: nat, wi: nat)
    requires OpensGroup(r, s)
    ensures ChunkOfRun(r, s, RunChunk(r, s, wi))
  {
    RunTags(r, s);
  }

  lemma {:induction false} RunChunksFromRuns(r: string, s: nat, wi: nat)
    requires OpensGroup(r, s)
    ensures FromRuns(r, RunChunks(r, s, wi), RunStarts(r, s))
    decreases |r| - s
  {
    var c := RunChunk(r, s, wi);
    RunChunkOfRun(r, s, wi);
    var next := FindRun(r, RunEnd(r, s));
    if next.Some? {
      var tail := RunChunks(r, next.value, NextWordIndex(c, wi));
      RunChunksFromRuns(r, next.value, NextWordIndex(c, wi));
      FromRunsCons(r, c, tail, s, RunStarts(r, next.value));
      assert RunChunks(r, s, wi) == [c] + tail;
    } else {
      FromRunsCons(r, c, [], s, []);
      assert RunChunks(r, s, wi) == [c] + [];
      assert RunStarts(r, s) == [s] + [];
    }
  }

  /** The chunks after the leading untagged one, if any, are exactly the
      chunks of the line's runs, one per run and in order: chunk `lead + k`
      is the chunk of the k-th run. */
  lemma ChunksFollowRuns(r: string)
    ensures FindRun(r, 0).None? ==> Chunks(r) == [Chunk([], r, None)]
    ensures FindRun(r, 0).Some? ==>
      var s := FindRun(r, 0).value; var ss := RunStarts(r, s); var lead := if s == 0 then 0 else 1;
      && |Chunks(r)| == lead + |ss|
      && (lead == 1 ==> Chunks(r)[0] == Chunk([], r[..s], None))
      && forall k :: 0 <= k < |ss| ==> ChunkOfRun(r, ss[k], Chunks(r)[lead + k])
  {
    var cs := Chunks(r);
    match FindRun(r, 0)
    case None =>
    case Some(s) =>
      var rc := RunChunks(r, s, 0);
      var ss := RunStarts(r, s);
      var lead := if s == 0 then 0 else 1;
      RunChunksFromRuns(r, s, 0);
      if s > 0 {
        assert cs == [Chunk([], r[..s], None)] + rc;
      } else {
        assert cs == rc;
      }
      assert cs[lead..] == rc;
      forall k | 0 <= k < |ss|
        ensures ChunkOfRun(r, ss[k], cs[lead + k])
      {
        FromRunsAt(r, rc, ss, k);
        assert rc[k] == cs[lead + k];
      }
  }

  /** Each chunk of a run sequence carries the word index its predecessor
      passes on. */
  predicate WordSteps(cs: seq<Chunk>) {
    forall k, m :: 0 <= k < |cs| && m == k + 1 && m < |cs| && cs[k].wordI.Some? ==>
      cs[m].wordI == Some(NextWordIndex(cs[k], cs[k].wordI.value))
  }

  lemma WordStepsCons(c: Chunk, tail: seq<Chunk>)
    requires c.wordI.Some? && WordSteps(tail)
    requires |tail| > 0 ==> tail[0].wordI == Some(NextWordIndex(c, c.wordI.value))
    ensures WordSteps([c] + tail)
  {
    var cs := [c] + tail;
    forall k, m | 0 <= k && m == k + 1 && m < |cs| && cs[k].wordI.Some?
      ensures cs[m].wordI == Some(NextWordIndex(cs[k], cs[k].wordI.value))
    {
      if k > 0 {
        assert cs[k] == tail[k - 1] && cs[m] == tail[k];
      }
    }
  }

  lemma {:induction false} RunChunksSteps(r: string, s: nat, wi: nat)
    requires OpensGroup(r, s)
    ensures WordSteps(RunChunks(r, s, wi))
    decreases |r| - s
  {
    var c := RunChunk(r, s, wi);
    var next := FindRun(r, RunEnd(r, s));
    if next.Some? {
      var tail := RunChunks(r, next.value, NextWordIndex(c, wi));
      RunChunksSteps(r, next.value, NextWordIndex(c, wi));
      assert RunChunks(r, s, wi) == [c] + tail;
      WordStepsCons(c, tail);
    } else {
      assert RunChunks(r, s, wi) == [c] + [];
      WordStepsCons(c, []);
    }
  }

  /** Word indices start at 0 on the first tagged chunk and step by one
      exactly after a chunk whose text ends in whitespace. */
  lemma ChunkWordIndex(r: string)
    ensures WordSteps(Chunks(r))
  {
    match FindRun(r, 0)
    case None =>
    case Some(s) =>
      var rc := RunChunks(r, s, 0);
      RunChunksSteps(r, s, 0);
      if s > 0 {
        var lead := Chunk([], r[..s], None);
        assert Chunks(r) == [lead] + rc;
        var cs := [lead] + rc;
        forall k, m | 0 <= k && m == k + 1 && m < |cs| && cs[k].wordI.Some?
          ensures cs[m].wordI == Some(NextWordIndex(cs[k], cs[k].wordI.value))
        {
          assert cs[k] == rc[k - 1] && cs[m] == rc[k];
        }
      }
  }
}
