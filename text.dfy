/** The string operations of Python's `str` that the engine relies on:
    `split(sep)` with a one-character separator, `split()` on whitespace,
    `strip()`/`lstrip()`, `startswith()` and `sep.join(parts)`. */
module Text {

  /** Characters that `str.strip()` and `str.split()` treat as whitespace:
      those for which `str.isspace()` holds. */
  predicate IsSpace(c: char) {
    if c <= ' ' then c == ' ' || '\t' <= c <= '\r' || '\U{001C}' <= c <= '\U{001F}'
    else '\U{0085}' <= c && WideSpace(c)
  }

  /** The whitespace characters above U+0080. */
  predicate WideSpace(c: char) {
    || c == '\U{0085}' || c == '\U{00A0}' || c == '\U{1680}' || '\U{2000}' <= c <= '\U{200A}'
    || c == '\U{2028}' || c == '\U{2029}' || c == '\U{202F}' || c == '\U{205F}' || c == '\U{3000}'
  }

  predicate StartsWith(s: string, prefix: string) {
    |prefix| <= |s| && s[..|prefix|] == prefix
  }

  /** Python's `s.split(sep)` for a non-empty separator: the pieces between
      the leftmost non-overlapping occurrences of `sep`, empty pieces included,
      so there is always at least one piece. */
  function Split(s: string, sep: string): (r: seq<string>)
    requires sep != []
    ensures |r| >= 1
    decreases |s|
  {
    if StartsWith(s, sep) then [""] + Split(s[|sep|..], sep)
    else if s == [] then [""]
    else
      var rest := Split(s[1..], sep);
      [[s[0]] + rest[0]] + rest[1..]
  }

  /** Python's `sep.join(parts)`. */
  function Join(parts: seq<string>, sep: string): string {
    if |parts| == 0 then ""
    else if |parts| == 1 then parts[0]
    else parts[0] + sep + Join(parts[1..], sep)
  }

  /** Joining the pieces of a split with the separator gives back the string. */
  lemma {:induction false} JoinSplit(s: string, sep: string)
    requires sep != []
    ensures Join(Split(s, sep), sep) == s
    decreases |s|, 1
  {
    if StartsWith(s, sep) {
      JoinSplitAtSep(s, sep);
    } else if s != [] {
      JoinSplitAtChar(s, sep);
    }
  }

  lemma {:induction false} JoinSplitAtSep(s: string, sep: string)
    requires sep != [] && StartsWith(s, sep)
    ensures Join(Split(s, sep), sep) == s
    decreases |s|, 0
  {
    var rest := Split(s[|sep|..], sep);
    JoinSplit(s[|sep|..], sep);
    assert Split(s, sep) == [""] + rest;
    assert ([""] + rest)[1..] == rest;
    assert s == sep + s[|sep|..];
  }

  lemma {:induction false} JoinSplitAtChar(s: string, sep: string)
    requires sep != [] && !StartsWith(s, sep) && s != []
    ensures Join(Split(s, sep), sep) == s
    decreases |s|, 0
  {
    var rest := Split(s[1..], sep);
    JoinSplit(s[1..], sep);
    assert Split(s, sep) == [[s[0]] + rest[0]] + rest[1..];
    JoinPrepend(s[0], rest, sep);
    assert s == [s[0]] + s[1..];
  }

  /** Prepending a character to the first part prepends it to the join. */
  lemma {:induction false} JoinPrepend(c: char, parts: seq<string>, sep: string)
    requires |parts| >= 1
    ensures Join([[c] + parts[0]] + parts[1..], sep) == [c] + Join(parts, sep)
  {
    var p := [[c] + parts[0]] + parts[1..];
    if |parts| > 1 {
      assert p[1..] == parts[1..];
    }
  }

  /** With a one-character separator, no piece of a split contains it. */
  lemma {:induction false} SplitPiecesFree(s: string, c: char)
    ensures forall k :: 0 <= k < |Split(s, [c])| ==> c !in Split(s, [c])[k]
    decreases |s|
  {
    if StartsWith(s, [c]) {
      SplitPiecesFree(s[1..], c);
    } else if s != [] {
      SplitPiecesFree(s[1..], c);
      assert s[0] != c;
    }
  }

  /** A split on a one-character separator yields a single piece exactly when
      the separator does not occur, and that piece is then the whole string. */
  lemma {:induction false} SplitSingle(s: string, c: char)
    ensures |Split(s, [c])| == 1 <==> c !in s
    ensures c !in s ==> Split(s, [c]) == [s]
    decreases |s|
  {
    if s != [] {
      SplitSingle(s[1..], c);
      assert c in s <==> s[0] == c || c in s[1..] by {
        assert s == [s[0]] + s[1..];
      }
      if c !in s {
        assert s == [s[0]] + s[1..];
      }
    }
  }

  /** Splitting `a + [c] + b` on `c`, when neither part contains `c`, gives
      back the two parts. */
  lemma {:induction false} SplitAround(a: string, b: string, c: char)
    requires c !in a && c !in b
    ensures Split(a + [c] + b, [c]) == [a, b]
    decreases |a|
  {
    if a == [] {
      assert a + [c] + b == [c] + b;
      assert ([c] + b)[1..] == b;
      SplitSingle(b, c);
    } else {
      SplitAround(a[1..], b, c);
      assert (a + [c] + b)[1..] == a[1..] + [c] + b;
      assert a == [a[0]] + a[1..];
    }
  }

  /** Python's `s.lstrip()`: the longest whitespace prefix removed. */
  function LStrip(s: string): (r: string)
    ensures |r| <= |s| && r == s[|s| - |r|..]
    ensures r == [] || !IsSpace(r[0])
    ensures forall i :: 0 <= i < |s| - |r| ==> IsSpace(s[i])
  {
    s[SpaceRun(s)..]
  }

  /** Length of the leading run of whitespace characters. */
  function SpaceRun(s: string): (k: nat)
    ensures k <= |s|
    ensures forall i :: 0 <= i < k ==> IsSpace(s[i])
    ensures k == |s| || !IsSpace(s[k])
  {
    if |s| > 0 && IsSpace(s[0]) then 1 + SpaceRun(s[1..]) else 0
  }

  /** Python's `s.rstrip()`: the longest whitespace suffix removed. */
  function RStrip(s: string): (r: string)
    ensures |r| <= |s| && r == s[..|r|]
    ensures r == [] || !IsSpace(r[|r| - 1])
    ensures forall i :: |r| <= i < |s| ==> IsSpace(s[i])
  {
    if |s| > 0 && IsSpace(s[|s| - 1]) then RStrip(s[..|s| - 1]) else s
  }

  predicate IsStripped(s: string) {
    s == [] || (!IsSpace(s[0]) && !IsSpace(s[|s| - 1]))
  }

  /** Python's `s.strip()`. */
  function Strip(s: string): (r: string)
    ensures IsStripped(r)
  {
    var l := LStrip(s);
    var r := RStrip(l);
    assert r != [] ==> r[0] == l[0];
    r
  }

  /** `s.strip()` is the piece of `s` left once a whitespace prefix and a
      whitespace suffix are cut off: `s[i..j]` with everything before `i`
      and from `j` on whitespace, and the piece itself stripped. */
  lemma {:induction false} StripSlice(s: string)
    ensures var r, i := Strip(s), SpaceRun(s);
            && i + |r| <= |s| && r == s[i..i + |r|]
            && (forall k :: 0 <= k < i ==> IsSpace(s[k]))
            && (forall k :: i + |r| <= k < |s| ==> IsSpace(s[k]))
            && IsStripped(r)
  {
    var i := SpaceRun(s);
    var l := LStrip(s);
    var r := RStrip(l);
    assert l == s[i..] && |l| == |s| - i;
    assert r == l[..|r|] && |r| <= |l|;
    assert l[..|r|] == s[i..i + |r|];
    forall k | i + |r| <= k < |s|
      ensures IsSpace(s[k])
    {
      assert s[k] == l[k - i];
    }
  }

  /** Length of the leading run of non-whitespace characters. */
  function TokenLength(t: string): (k: nat)
    ensures k <= |t|
    ensures forall i :: 0 <= i < k ==> !IsSpace(t[i])
    ensures k == |t| || IsSpace(t[k])
  {
    if |t| == 0 || IsSpace(t[0]) then 0 else 1 + TokenLength(t[1..])
  }

  /** Python's `s.split()`: the maximal runs of non-whitespace characters. */
  function Words(s: string): seq<string>
    decreases |s|
  {
    var t := LStrip(s);
    if t == [] then []
    else
      var k := TokenLength(t);
      [t[..k]] + Words(t[k..])
  }

  /** A stripped string is a single word (`len(s.split()) == 1`) exactly when
      it is non-empty and holds no whitespace. */
  lemma {:induction false} SingleWord(s: string)
    requires IsStripped(s)
    ensures |Words(s)| == 1 <==> s != [] && forall i :: 0 <= i < |s| ==> !IsSpace(s[i])
  {
    if s != [] {
      assert LStrip(s) == s;
      var k := TokenLength(s);
      if k == |s| {
        assert Words(s[k..]) == [];
      } else {
        var rest := s[k..];
        assert rest[|rest| - 1] == s[|s| - 1];
        assert LStrip(rest) != [];
        assert |Words(rest)| >= 1;
      }
    }
  }
}
