/** The JavaScript array scans the store uses: `find`, `findIndex` and `filter`. */
module Lists {
  import opened Base

  /** `s.findIndex(p)`: the first position whose element satisfies `p`
      (`None` stands for the `-1` result). */
  function FindIndex<T>(s: seq<T>, p: T -> bool): (r: Option<nat>)
    ensures r.Some? ==> r.value < |s| && p(s[r.value])
    ensures r.Some? ==> forall j :: 0 <= j < r.value ==> !p(s[j])
    ensures r.None? <==> forall j :: 0 <= j < |s| ==> !p(s[j])
  {
    if |s| == 0 then None
    else if p(s[0]) then Some(0)
    else match FindIndex(s[1..], p)
      case None => None
      case Some(i) => Some(i + 1)
  }

  /** The contract of `FindIndex` pins its result down: any answer meeting it is
      the answer. */
  lemma FindIndexUnique<T>(s: seq<T>, p: T -> bool, r: Option<nat>)
    requires r.Some? ==> r.value < |s| && p(s[r.value])
    requires r.Some? ==> forall j :: 0 <= j < r.value ==> !p(s[j])
    requires r.None? ==> forall j :: 0 <= j < |s| ==> !p(s[j])
    ensures FindIndex(s, p) == r
  {
  }

  /** Two tests that agree on every element find the same position. */
  lemma FindIndexAgree<T>(s: seq<T>, p: T -> bool, q: T -> bool)
    requires forall j :: 0 <= j < |s| ==> p(s[j]) == q(s[j])
    ensures FindIndex(s, p) == FindIndex(s, q)
  {
    FindIndexUnique(s, q, FindIndex(s, p));
  }

  /** `i` is the position `findIndex` reports: the first element satisfying `p`. */
  predicate First<T>(s: seq<T>, p: T -> bool, i: int)
  {
    0 <= i < |s| && p(s[i]) && forall j :: 0 <= j < i ==> !p(s[j])
  }

  /** `First` describes `FindIndex` exactly, and at most one position is first. */
  lemma FirstIsFindIndex<T>(s: seq<T>, p: T -> bool, i: int)
    ensures First(s, p, i) <==> FindIndex(s, p) == Some(i)
  {
    if FindIndex(s, p) == Some(i) {
      assert First(s, p, i);
    }
    if First(s, p, i) {
      FindIndexUnique(s, p, Some(i));
    }
  }

  /** `s.find(p)`: the first element satisfying `p`, if any. */
  function Find<T>(s: seq<T>, p: T -> bool): (r: Option<T>)
    ensures r.Some? <==> exists j :: 0 <= j < |s| && p(s[j])
    ensures r.Some? ==> r.value in s && p(r.value)
    ensures forall i :: First(s, p, i) ==> r == Some(s[i])
  {
    match FindIndex(s, p)
    case None => None
    case Some(i) => Some(s[i])
  }

  /** `s.filter(p)`: the elements satisfying `p`, in their original order. */
  function Filter<T>(s: seq<T>, p: T -> bool): (r: seq<T>)
    ensures |r| <= |s|
    ensures forall i :: 0 <= i < |r| ==> r[i] in s && p(r[i])
    ensures forall j :: 0 <= j < |s| && p(s[j]) ==> s[j] in r
  {
    if |s| == 0 then []
    else if p(s[0]) then [s[0]] + Filter(s[1..], p)
    else Filter(s[1..], p)
  }

  /** Filtering keeps everything exactly when every element passes. */
  lemma {:induction false} FilterKeepsAll<T>(s: seq<T>, p: T -> bool)
    ensures Filter(s, p) == s <==> forall j :: 0 <= j < |s| ==> p(s[j])
  {
    if |s| > 0 {
      FilterKeepsAll(s[1..], p);
      if !p(s[0]) {
        assert |Filter(s, p)| < |s|;
      } else if Filter(s, p) == s {
        assert Filter(s[1..], p) == s[1..];
      }
    }
  }

  /** Filtering twice with the same test is filtering once. */
  lemma FilterIdempotent<T>(s: seq<T>, p: T -> bool)
    ensures Filter(Filter(s, p), p) == Filter(s, p)
  {
    FilterKeepsAll(Filter(s, p), p);
  }

  /** The elements that pass and the elements that fail account for every
      element; `q` is any test that is the negation of `p` on `s`. */
  lemma {:induction false} FilterPartition<T>(s: seq<T>, p: T -> bool, q: T -> bool)
    requires forall j :: 0 <= j < |s| ==> q(s[j]) == !p(s[j])
    ensures |Filter(s, p)| + |Filter(s, q)| == |s|
  {
    if |s| > 0 {
      FilterPartition(s[1..], p, q);
    }
  }

  /** `r` can be obtained from `s` by deleting elements: it is a subsequence. */
  predicate Embeds<T(==)>(r: seq<T>, s: seq<T>)
    decreases |s|
  {
    if |r| == 0 then true
    else if |s| == 0 then false
    else if r[0] == s[0] then Embeds(r[1..], s[1..])
    else Embeds(r, s[1..])
  }

  /** Filtering only deletes: the survivors appear in their original order. */
  lemma {:induction false} FilterEmbeds<T>(s: seq<T>, p: T -> bool)
    ensures Embeds(Filter(s, p), s)
  {
    if |s| > 0 {
      FilterEmbeds(s[1..], p);
      var f := Filter(s[1..], p);
      if p(s[0]) {
        assert Filter(s, p) == [s[0]] + f;
        assert Filter(s, p)[1..] == f;
      } else {
        EmbedsCons(f, s[1..], s[0]);
        assert [s[0]] + s[1..] == s;
      }
    }
  }

  /** A subsequence stays one after its first element is dropped. */
  lemma {:induction false} EmbedsDropHead<T>(r: seq<T>, s: seq<T>)
    requires |r| > 0 && Embeds(r, s)
    ensures Embeds(r[1..], s)
    decreases |s|, 0
  {
    if r[0] == s[0] {
      EmbedsCons(r[1..], s[1..], s[0]);
    } else {
      EmbedsDropHead(r, s[1..]);
      EmbedsCons(r[1..], s[1..], s[0]);
    }
    assert [s[0]] + s[1..] == s;
  }

  /** Putting an element in front of `s` keeps every subsequence of `s`. */
  lemma {:induction false} EmbedsCons<T>(r: seq<T>, s: seq<T>, x: T)
    requires Embeds(r, s)
    ensures Embeds(r, [x] + s)
    decreases |s|, 1
  {
    assert ([x] + s)[1..] == s;
    if |r| > 0 && r[0] == x {
      EmbedsDropHead(r, s);
    }
  }
}
