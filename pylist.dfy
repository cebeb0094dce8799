/** Python list operations the engine relies on: slicing with Python's
    clamping of out-of-range and negative bounds, indexing with negative
    indices, `[::-1]`, and `n * list`. */
module PyList {
  import opened Base

  /** A slice bound normalised against a length: a negative bound counts from
      the end, and the result is clamped to `0..len`; a missing bound takes
      the default. */
  function Bound(i: Option<int>, len: nat, default: nat): (r: nat)
    requires default <= len
    ensures r <= len
  {
    match i
    case None => default
    case Some(k) =>
      if k < 0 then (if len + k < 0 then 0 else len + k)
      else if k > len then len
      else k
  }

  /** `s[start:stop]`. */
  function Slice<T>(s: seq<T>, start: Option<int>, stop: Option<int>): seq<T> {
    var lo := Bound(start, |s|, 0);
    var hi := Bound(stop, |s|, |s|);
    if lo <= hi then s[lo..hi] else []
  }

  /** A slice is the run of elements between the two normalised bounds, and
      is empty when they cross. */
  lemma {:induction false} SliceShape<T>(s: seq<T>, start: Option<int>, stop: Option<int>)
    ensures var lo, hi := Bound(start, |s|, 0), Bound(stop, |s|, |s|);
            && |Slice(s, start, stop)| == (if lo <= hi then hi - lo else 0)
            && forall k :: 0 <= k < |Slice(s, start, stop)| ==> Slice(s, start, stop)[k] == s[lo + k]
  {
  }

  /** Slicing from a position inside the list starts exactly there, and never
      runs past the end. */
  lemma {:induction false} SliceFrom<T>(s: seq<T>, idx: nat, stop: int)
    requires idx <= |s|
    ensures var r := Slice(s, Some(idx), Some(stop));
            && idx + |r| <= |s|
            && r == s[idx..idx + |r|]
            && (idx <= stop <= |s| ==> |r| == stop - idx)
            && (stop > |s| ==> |r| == |s| - idx)
  {
    var hi := Bound(Some(stop), |s|, |s|);
    if idx <= hi {
      assert Slice(s, Some(idx), Some(stop)) == s[idx..hi];
    } else {
      assert Slice(s, Some(idx), Some(stop)) == s[idx..idx];
    }
  }

  /** `s[i]`: a negative index counts from the end; out of range raises
      `IndexError` (None). */
  function At<T>(s: seq<T>, i: int): (r: Option<T>)
    ensures r.Some? <==> -|s| <= i < |s|
    ensures r.Some? ==> r.value == s[(i + |s|) % |s|]
  {
    if 0 <= i < |s| then Some(s[i])
    else if -|s| <= i < 0 then Some(s[|s| + i])
    else None
  }

  /** `s[::-1]`. */
  function Reversed<T>(s: seq<T>): (r: seq<T>)
    ensures |r| == |s|
    ensures forall k :: 0 <= k < |s| ==> r[k] == s[|s| - 1 - k]
  {
    if s == [] then [] else Reversed(s[1..]) + [s[0]]
  }

  /** Reversing twice gives back the list. */
  lemma {:induction false} ReversedTwice<T>(s: seq<T>)
    ensures Reversed(Reversed(s)) == s
  {
    assert forall k :: 0 <= k < |s| ==> Reversed(Reversed(s))[k] == s[k];
  }

  /** Reversal turns a concatenation around. */
  lemma {:induction false} ReversedAppend<T>(a: seq<T>, b: seq<T>)
    ensures Reversed(a + b) == Reversed(b) + Reversed(a)
  {
    var l, r := Reversed(a + b), Reversed(b) + Reversed(a);
    assert |l| == |r|;
    forall k | 0 <= k < |l| ensures l[k] == r[k] {
      if k < |b| {
        assert l[k] == (a + b)[|a| + |b| - 1 - k] == b[|b| - 1 - k];
      } else {
        assert l[k] == (a + b)[|a| + |b| - 1 - k] == a[|a| - 1 - (k - |b|)];
      }
    }
  }

  /** `n * s`: `n` copies of the list one after the other, none when
      `n <= 0`. */
  function Repeat<T>(n: int, s: seq<T>): (r: seq<T>)
    ensures |r| == (if n > 0 then n * |s| else 0)
    decreases if n > 0 then n else 0
  {
    if n <= 0 then [] else s + Repeat(n - 1, s)
  }

  /** Every element of `n * s` is the element at the same offset in `s`. */
  lemma {:induction false} RepeatAt<T>(n: nat, s: seq<T>, q: nat, k: nat)
    requires q < n && k < |s|
    ensures q * |s| + k < |Repeat(n, s)| && Repeat(n, s)[q * |s| + k] == s[k]
  {
    if q > 0 {
      RepeatAt(n - 1, s, q - 1, k);
      assert q * |s| + k == |s| + ((q - 1) * |s| + k);
    }
  }

  /** `n * s` repeats with the period `|s|`. */
  lemma {:induction false} RepeatPeriodic<T>(n: nat, s: seq<T>, i: nat)
    requires i + |s| < |Repeat(n, s)|
    ensures Repeat(n, s)[i + |s|] == Repeat(n, s)[i]
  {
    var rest := Repeat(n - 1, s);
    assert Repeat(n, s) == s + rest;
    if i >= |s| {
      RepeatPeriodic(n - 1, s, i - |s|);
    } else {
      RepeatAt(n - 1, s, 0, i);
    }
  }
}
