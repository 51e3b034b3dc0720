/** Lead-in and lead-out: the gap from the previous line of the same style
    to this one, and from this one to the next.

    Lines are grouped by their style name in document order, each group is
    sorted by start time with a stable sort, and neighbours in the sorted
    group give the gaps. The first line of a group has no lead-in and the
    last no lead-out; both are then the sentinel 1000.1. */
module LeadTimes {
  import opened Common

  const Sentinel: real := 1000.1

  /** What the pass reads of a line. */
  datatype Timing = Timing(style: string, startTime: int, endTime: int)

  /** Line m comes before line n in the sorted group: it starts earlier, or
      at the same time and earlier in the document (the sort is stable). */
  predicate Before(ls: seq<Timing>, m: nat, n: nat)
    requires m < |ls| && n < |ls|
  {
    ls[m].startTime < ls[n].startTime || (ls[m].startTime == ls[n].startTime && m < n)
  }

  predicate Indices(ls: seq<Timing>, s: seq<nat>) {
    forall j :: 0 <= j < |s| ==> s[j] < |ls|
  }

  /** The source's `lines_by_styles[style]`: the indices of the lines of
      that style among the first n, in document order. */
  function Group(ls: seq<Timing>, style: string, n: nat): (g: seq<nat>)
    requires n <= |ls|
    ensures Indices(ls, g)
    ensures forall j :: 0 <= j < |g| ==> g[j] < n && ls[g[j]].style == style
    ensures forall i, j :: 0 <= i < j < |g| ==> g[i] < g[j]
    ensures forall m :: 0 <= m < n && ls[m].style == style ==> m in g
  {
    if n == 0 then []
    else
      var g := Group(ls, style, n - 1);
      if ls[n - 1].style == style then g + [n - 1] else g
  }

  /** Sorted by start time, ties in document order. */
  predicate Sorted(ls: seq<Timing>, s: seq<nat>)
    requires Indices(ls, s)
  {
    forall i, j :: 0 <= i < j < |s| ==> Before(ls, s[i], s[j])
  }

  /** Inserting x behind every element that starts no later than it. */
  function Insert(ls: seq<Timing>, s: seq<nat>, x: nat): (r: seq<nat>)
    requires Indices(ls, s) && x < |ls|
    ensures Indices(ls, r)
    ensures multiset(r) == multiset(s) + multiset{x}
    decreases |s|
  {
    if |s| == 0 then [x]
    else
      var l := s[|s| - 1];
      if ls[l].startTime <= ls[x].startTime then s + [x]
      else
        var s' := s[..|s| - 1];
        assert s == s' + [l];
        Insert(ls, s', x) + [l]
  }

  /** The source's `sort(key=lambda x: x.start_time)`, as an insertion sort. */
  function Sort(ls: seq<Timing>, g: seq<nat>): (r: seq<nat>)
    requires Indices(ls, g)
    ensures Indices(ls, r)
    ensures multiset(r) == multiset(g)
    decreases |g|
  {
    if |g| == 0 then []
    else
      var g' := g[..|g| - 1];
      assert g == g' + [g[|g| - 1]];
      Insert(ls, Sort(ls, g'), g[|g| - 1])
  }

  /** Inserting an element later in the document than every element of a
      sorted sequence keeps it sorted. */
  lemma {:induction false} InsertSorted(ls: seq<Timing>, s: seq<nat>, x: nat)
    requires Indices(ls, s) && x < |ls| && Sorted(ls, s)
    requires forall j :: 0 <= j < |s| ==> s[j] < x
    ensures Sorted(ls, Insert(ls, s, x))
    decreases |s|
  {
    if |s| > 0 {
      var l := s[|s| - 1];
      if ls[l].startTime > ls[x].startTime {
        var s' := s[..|s| - 1];
        InsertSorted(ls, s', x);
        var t := Insert(ls, s', x);
        forall e | e in t
          ensures Before(ls, e, l)
        {
          assert e in multiset(t);
          if e != x {
            assert e in s';
            var q :| 0 <= q < |s'| && s'[q] == e;
            assert s[q] == e;
          }
        }
        forall i, j | 0 <= i < j < |t + [l]|
          ensures Before(ls, (t + [l])[i], (t + [l])[j])
        {
          if j == |t| {
            assert t[i] in t;
          }
        }
      }
    }
  }

  lemma {:induction false} SortSorted(ls: seq<Timing>, g: seq<nat>)
    requires Indices(ls, g)
    requires forall i, j :: 0 <= i < j < |g| ==> g[i] < g[j]
    ensures Sorted(ls, Sort(ls, g))
    decreases |g|
  {
    if |g| > 0 {
      var g' := g[..|g| - 1];
      var x := g[|g| - 1];
      SortSorted(ls, g');
      var s := Sort(ls, g');
      forall j | 0 <= j < |s|
        ensures s[j] < x
      {
        assert s[j] in multiset(s);
        assert s[j] in g';
      }
      InsertSorted(ls, s, x);
    }
  }

  /** The sorted group of line n's style. */
  function SortedGroup(ls: seq<Timing>, n: nat): (s: seq<nat>)
    requires n < |ls|
    ensures Indices(ls, s) && Sorted(ls, s)
    ensures forall m: nat :: m in s <==> m < |ls| && ls[m].style == ls[n].style
  {
    var g := Group(ls, ls[n].style, |ls|);
    SortSorted(ls, g);
    SortMembers(ls, ls[n].style);
    Sort(ls, g)
  }

  /** The sorted group holds exactly the lines of the style. */
  lemma SortMembers(ls: seq<Timing>, style: string)
    ensures forall m: nat :: m in Sort(ls, Group(ls, style, |ls|)) <==> m < |ls| && ls[m].style == style
  {
    var g := Group(ls, style, |ls|);
    var s := Sort(ls, g);
    forall m: nat
      ensures m in s <==> m < |ls| && ls[m].style == style
    {
      SameMembers(s, g, m);
      GroupMember(ls, style, m);
    }
  }

  lemma SameMembers(s: seq<nat>, g: seq<nat>, m: nat)
    requires multiset(s) == multiset(g)
    ensures m in s <==> m in g
  {
    assert m in s <==> m in multiset(s);
    assert m in g <==> m in multiset(g);
  }

  lemma GroupMember(ls: seq<Timing>, style: string, m: nat)
    ensures m in Group(ls, style, |ls|) <==> m < |ls| && ls[m].style == style
  {
    var g := Group(ls, style, |ls|);
    if m in g {
      var j :| 0 <= j < |g| && g[j] == m;
    }
  }

  /** Position of m in s. */
  function IndexOf(s: seq<nat>, m: nat): (p: nat)
    requires m in s
    ensures p < |s| && s[p] == m
  {
    if s[0] == m then 0 else 1 + IndexOf(s[1..], m)
  }

  /** The source's `line.leadin`. */
  function LeadIn(ls: seq<Timing>, n: nat): real
    requires n < |ls|
  {
    var s := SortedGroup(ls, n);
    var p := IndexOf(s, n);
    if p == 0 then Sentinel else (ls[n].startTime - ls[s[p - 1]].endTime) as real
  }

  /** The source's `line.leadout`. */
  function LeadOut(ls: seq<Timing>, n: nat): real
    requires n < |ls|
  {
    var s := SortedGroup(ls, n);
    var p := IndexOf(s, n);
    if p == |s| - 1 then Sentinel else (ls[s[p + 1]].startTime - ls[n].endTime) as real
  }

  /** m is the line right before n among the lines of n's style. */
  predicate IsPrevious(ls: seq<Timing>, m: nat, n: nat)
    requires n < |ls|
  {
    && m < |ls| && ls[m].style == ls[n].style && Before(ls, m, n)
    && forall k :: 0 <= k < |ls| && ls[k].style == ls[n].style && Before(ls, m, k) ==> !Before(ls, k, n)
  }

  predicate HasPrevious(ls: seq<Timing>, n: nat)
    requires n < |ls|
  {
    exists m :: 0 <= m < |ls| && ls[m].style == ls[n].style && Before(ls, m, n)
  }

  /** Some line of n's style comes after n. */
  predicate HasNext(ls: seq<Timing>, n: nat)
    requires n < |ls|
  {
    exists m :: 0 <= m < |ls| && ls[m].style == ls[n].style && Before(ls, n, m)
  }

  /** Neighbours in a sorted group are the line right before and the line
      right after each other. */
  lemma SortedNeighbours(ls: seq<Timing>, n: nat, q: nat)
    requires n < |ls| && q + 1 < |SortedGroup(ls, n)|
    ensures IsPrevious(ls, SortedGroup(ls, n)[q], SortedGroup(ls, n)[q + 1])
  {
    var s := SortedGroup(ls, n);
    assert s[q] in s && s[q + 1] in s;
    forall k | 0 <= k < |ls| && ls[k].style == ls[s[q + 1]].style && Before(ls, s[q], k)
      ensures !Before(ls, k, s[q + 1])
    {
      assert k in s;
      var i := IndexOf(s, k);
      SortedPosition(ls, s, q, i);
      if Before(ls, k, s[q + 1]) {
        SortedPosition(ls, s, i, q + 1);
      }
    }
  }

  lemma NotSentinel(i: int)
    ensures i as real != Sentinel
  {
  }

  /** In a sorted group, a line before n sits at a smaller position. */
  lemma SortedPosition(ls: seq<Timing>, s: seq<nat>, q: nat, p: nat)
    requires Indices(ls, s) && Sorted(ls, s) && q < |s| && p < |s|
    requires Before(ls, s[q], s[p])
    ensures q < p
  {
  }

  /** A line has the sentinel as lead-in exactly when no line of its style
      comes before it; otherwise its lead-in is its start less the end of
      the line right before it. */
  lemma LeadInSpec(ls: seq<Timing>, n: nat)
    requires n < |ls|
    ensures LeadIn(ls, n) == Sentinel <==> !HasPrevious(ls, n)
    ensures HasPrevious(ls, n) ==> exists m: nat :: IsPrevious(ls, m, n)
    ensures forall m: nat :: IsPrevious(ls, m, n) ==> LeadIn(ls, n) == (ls[n].startTime - ls[m].endTime) as real
  {
    var s := SortedGroup(ls, n);
    var p := IndexOf(s, n);
    if p == 0 {
      if HasPrevious(ls, n) {
        var m :| 0 <= m < |ls| && ls[m].style == ls[n].style && Before(ls, m, n);
        assert m in s;
        SortedPosition(ls, s, IndexOf(s, m), p);
        assert false;
      }
    } else {
      var m0 := s[p - 1];
      assert s[p - 1] in s;
      NotSentinel(ls[n].startTime - ls[m0].endTime);
      SortedNeighbours(ls, n, p - 1);
      forall m: nat | IsPrevious(ls, m, n)
        ensures m == m0
      {
        assert m in s;
        var q := IndexOf(s, m);
        SortedPosition(ls, s, q, p);
      }
    }
  }

  /** A line has the sentinel as lead-out exactly when no line of its style
      comes after it; otherwise its lead-out is the start of the line right
      after it less its own end. */
  lemma LeadOutSpec(ls: seq<Timing>, n: nat)
    requires n < |ls|
    ensures LeadOut(ls, n) == Sentinel <==> !HasNext(ls, n)
    ensures HasNext(ls, n) ==> exists m: nat :: m < |ls| && IsPrevious(ls, n, m)
    ensures forall m: nat :: m < |ls| && IsPrevious(ls, n, m) ==> LeadOut(ls, n) == (ls[m].startTime - ls[n].endTime) as real
  {
    var s := SortedGroup(ls, n);
    var p := IndexOf(s, n);
    if p == |s| - 1 {
      if m :| 0 <= m < |ls| && ls[m].style == ls[n].style && Before(ls, n, m) {
        assert m in s;
        SortedPosition(ls, s, p, IndexOf(s, m));
        assert false;
      }
    } else {
      var m0 := s[p + 1];
      assert s[p + 1] in s;
      NotSentinel(ls[m0].startTime - ls[n].endTime);
      SortedNeighbours(ls, n, p);
      forall m: nat | m < |ls| && IsPrevious(ls, n, m)
        ensures m == m0
      {
        assert m in s;
        var q := IndexOf(s, m);
        SortedPosition(ls, s, p, q);
      }
    }
  }

  /** The gap after a line is the gap before the next line of its style. */
  lemma LeadChain(ls: seq<Timing>, m: nat, n: nat)
    requires n < |ls| && IsPrevious(ls, m, n)
    ensures LeadOut(ls, m) == LeadIn(ls, n)
  {
    LeadInSpec(ls, n);
    LeadOutSpec(ls, m);
  }

  /** Both gaps of every line, in document order. */
  function LeadTimes(ls: seq<Timing>): (r: seq<(real, real)>)
    ensures |r| == |ls|
    ensures forall n :: 0 <= n < |ls| ==> r[n] == (LeadIn(ls, n), LeadOut(ls, n))
  {
    seq(|ls|, n requires 0 <= n < |ls| => (LeadIn(ls, n), LeadOut(ls, n)))
  }
}
