/** List idioms that several fleet scripts share: the `--limit N` truncation of a profile list
    and the insertion order of a dictionary's keys. */
module Lists {
  import opened Common

  /** `xs[:limit]` guarded by `if limit and limit > 0`: a missing, zero or negative limit keeps
      the whole list. */
  function Limit<T>(xs: seq<T>, limit: Option<int>): (r: seq<T>)
    ensures |r| <= |xs| && r == xs[..|r|]
    ensures limit.Some? && 0 < limit.value <= |xs| ==> |r| == limit.value
    ensures !(limit.Some? && 0 < limit.value < |xs|) ==> r == xs
  {
    if limit.Some? && 0 < limit.value < |xs| then xs[..limit.value] else xs
  }

  /** No element occurs twice. */
  predicate Distinct<T(==)>(xs: seq<T>) {
    forall i, j :: 0 <= i < j < |xs| ==> xs[i] != xs[j]
  }

  /** The keys of a Python dictionary filled by assigning the elements of `xs` in turn: each
      element once, at the place of its first occurrence. */
  function Dedup<T(==)>(xs: seq<T>): (r: seq<T>)
    ensures |r| <= |xs|
  {
    if xs == [] then []
    else
      var d := Dedup(xs[..|xs| - 1]);
      if xs[|xs| - 1] in d then d else d + [xs[|xs| - 1]]
  }

  /** The keys are exactly the elements, each once. */
  lemma {:induction false} DedupFacts<T>(xs: seq<T>)
    ensures forall x :: x in Dedup(xs) <==> x in xs
    ensures Distinct(Dedup(xs))
  {
    if xs != [] {
      var init := xs[..|xs| - 1];
      DedupFacts(init);
      assert xs == init + [xs[|xs| - 1]];
    }
  }

  /** Assigning one more key: it is appended when new, and the keys stay as they are when it is
      already present. */
  lemma DedupSnoc<T>(xs: seq<T>, x: T)
    ensures Dedup(xs + [x]) == if x in Dedup(xs) then Dedup(xs) else Dedup(xs) + [x]
  {
    assert (xs + [x])[..|xs|] == xs;
  }

  /** The first element satisfying `p`, as a loop that returns at the first hit finds it. */
  function First<T>(xs: seq<T>, p: T -> bool): (r: Option<T>)
    ensures r.Some? ==> r.value in xs && p(r.value)
    ensures r.None? <==> forall i :: 0 <= i < |xs| ==> !p(xs[i])
  {
    if xs == [] then None
    else if p(xs[0]) then Some(xs[0])
    else
      assert forall i :: 1 <= i < |xs| ==> xs[i] == xs[1..][i - 1];
      First(xs[1..], p)
  }

  /** The element found comes before every other element satisfying `p`. */
  lemma {:induction false} FirstIsFirst<T>(xs: seq<T>, p: T -> bool)
    requires First(xs, p).Some?
    ensures exists i :: 0 <= i < |xs| && xs[i] == First(xs, p).value && forall j :: 0 <= j < i ==> !p(xs[j])
  {
    if !p(xs[0]) {
      FirstIsFirst(xs[1..], p);
      var i :| 0 <= i < |xs[1..]| && xs[1..][i] == First(xs[1..], p).value && forall j :: 0 <= j < i ==> !p(xs[1..][j]);
      assert xs[i + 1] == xs[1..][i];
      forall j | 0 <= j < i + 1 ensures !p(xs[j]) {
        if j > 0 {
          assert xs[j] == xs[1..][j - 1];
        }
      }
    } else {
      assert xs[0] == First(xs, p).value;
    }
  }

  /** Searching from position `k` finds what the whole search finds, once the elements before
      `k` are known to fail. */
  lemma FirstFrom<T>(xs: seq<T>, p: T -> bool, k: int)
    requires 0 <= k < |xs| && !p(xs[k])
    ensures First(xs[k..], p) == First(xs[k + 1..], p)
  {
    assert xs[k..][1..] == xs[k + 1..];
  }

  /** The results of `f` on the elements it keeps, in order: what a loop builds that appends
      `f(x)` to its output for each `x` for which `f` gives a value. */
  function FilterMap<T, U>(xs: seq<T>, f: T -> Option<U>): (r: seq<U>)
    ensures |r| <= |xs|
  {
    if xs == [] then []
    else FilterMap(xs[..|xs| - 1], f) + (if f(xs[|xs| - 1]).Some? then [f(xs[|xs| - 1]).value] else [])
  }

  /** One more element of a loop over `xs`: the output for the first `k + 1` elements is that
      for the first `k`, plus the result for element `k` when there is one. */
  lemma FilterMapStep<T, U>(xs: seq<T>, k: int, f: T -> Option<U>)
    requires 0 <= k < |xs|
    ensures FilterMap(xs[..k + 1], f) == FilterMap(xs[..k], f) + (if f(xs[k]).Some? then [f(xs[k]).value] else [])
  {
    assert xs[..k + 1][..k] == xs[..k];
  }

  /** Mapping a concatenation maps each part: the kept results stay in input order. */
  lemma {:induction false} FilterMapAppend<T, U>(a: seq<T>, b: seq<T>, f: T -> Option<U>)
    ensures FilterMap(a + b, f) == FilterMap(a, f) + FilterMap(b, f)
    decreases |b|
  {
    if b == [] {
      assert a + b == a;
    } else {
      var init := b[..|b| - 1];
      FilterMapAppend(a, init, f);
      assert (a + b)[..|a + b| - 1] == a + init;
      assert (a + b)[|a + b| - 1] == b[|b| - 1];
    }
  }

  /** A result is in the output exactly when some element gives it. */
  lemma {:induction false} FilterMapMember<T, U>(xs: seq<T>, f: T -> Option<U>, y: U)
    ensures y in FilterMap(xs, f) <==> exists i :: 0 <= i < |xs| && f(xs[i]) == Some(y)
  {
    if xs != [] {
      var init := xs[..|xs| - 1];
      FilterMapMember(init, f, y);
      forall i | 0 <= i < |init| ensures init[i] == xs[i] {
      }
    }
  }
}
