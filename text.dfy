/** Python's `str.split(c)`, `str.rsplit(c, maxsplit=1)` and `sep.join(parts)`
    on strings, with the facts the rest of the model needs about them. */
module Text {
  import opened Wrappers

  /** Number of occurrences of `c` in `s`. */
  function Count(s: string, c: char): nat
  {
    if s == [] then 0 else (if s[0] == c then 1 else 0) + Count(s[1..], c)
  }

  /** `s.split(c)`: the maximal pieces between occurrences of `c`, at least one. */
  function Split(s: string, c: char): (r: seq<string>)
    ensures |r| >= 1
  {
    if s == [] then [""]
    else if s[0] == c then [""] + Split(s[1..], c)
    else
      var t := Split(s[1..], c);
      [[s[0]] + t[0]] + t[1..]
  }

  /** `sep.join(parts)`. */
  function Join(parts: seq<string>, sep: string): string
  {
    if |parts| == 0 then ""
    else if |parts| == 1 then parts[0]
    else parts[0] + sep + Join(parts[1..], sep)
  }

  /** Last piece of `s.split(c)`, Python's `s.split(c)[-1]`. */
  function LastSegment(s: string, c: char): string
  {
    var parts := Split(s, c);
    parts[|parts| - 1]
  }

  /** Position of the last occurrence of `c` in `s`, if any. */
  function LastIndex(s: string, c: char): (r: Option<nat>)
    ensures r.Some? ==> r.value < |s| && s[r.value] == c
    ensures r.Some? ==> forall k :: r.value < k < |s| ==> s[k] != c
    ensures r.None? ==> forall k :: 0 <= k < |s| ==> s[k] != c
  {
    if s == [] then None
    else if s[|s| - 1] == c then Some(|s| - 1)
    else LastIndex(s[..|s| - 1], c)
  }

  /** `s.rsplit(c, maxsplit=1)`: one piece without `c`, or the text before and
      after the last `c`. */
  function RSplitOnce(s: string, c: char): (r: seq<string>)
    ensures 1 <= |r| <= 2
  {
    match LastIndex(s, c)
    case None => [s]
    case Some(k) => [s[..k], s[k + 1..]]
  }

  lemma {:induction false} SplitPiecesAvoid(s: string, c: char)
    ensures forall k :: 0 <= k < |Split(s, c)| ==> c !in Split(s, c)[k]
  {
    if s != [] {
      SplitPiecesAvoid(s[1..], c);
    }
  }

  lemma {:induction false} SplitCount(s: string, c: char)
    ensures |Split(s, c)| == Count(s, c) + 1
  {
    if s != [] {
      SplitCount(s[1..], c);
    }
  }

  /** Joining the pieces with the separator rebuilds the string. */
  lemma {:induction false} JoinSplit(s: string, c: char)
    ensures Join(Split(s, c), [c]) == s
  {
    if s != [] {
      JoinSplit(s[1..], c);
      var t := Split(s[1..], c);
      if s[0] != c {
        if |t| > 1 {
          assert Join(t, [c]) == t[0] + [c] + Join(t[1..], [c]);
          assert Split(s, c)[1..] == t[1..];
          assert s == [s[0]] + s[1..];
        }
      }
    }
  }

  /** A suffix of `s` free of `c` and preceded by `c` (or the whole of `s`) is
      the last piece of `s.split(c)`. */
  lemma {:induction false} LastSegmentUnique(s: string, c: char, k: nat)
    requires k <= |s|
    requires c !in s[k..]
    requires k == 0 || s[k - 1] == c
    ensures LastSegment(s, c) == s[k..]
  {
    if s != [] {
      if k == 0 {
        SplitCount(s, c);
        CountZero(s, c);
        SplitNoSep(s, c);
      } else {
        assert s[1..][k - 1..] == s[k..];
        LastSegmentUnique(s[1..], c, k - 1);
        if s[0] != c {
          SplitCount(s[1..], c);
          CountPositive(s[1..], c, k - 2);
        }
      }
    }
  }

  /** The last piece is the text after the last `c`, or all of `s`. */
  lemma LastSegmentAfterLastIndex(s: string, c: char)
    ensures LastSegment(s, c) == match LastIndex(s, c)
                                 case None => s
                                 case Some(k) => s[k + 1..]
  {
    match LastIndex(s, c)
    case None => LastSegmentUnique(s, c, 0);
    case Some(k) => LastSegmentUnique(s, c, k + 1);
  }

  lemma {:induction false} CountZero(s: string, c: char)
    requires c !in s
    ensures Count(s, c) == 0
  {
    if s != [] {
      CountZero(s[1..], c);
    }
  }

  lemma {:induction false} CountPositive(s: string, c: char, k: nat)
    requires k < |s| && s[k] == c
    ensures Count(s, c) > 0
  {
    if k > 0 {
      CountPositive(s[1..], c, k - 1);
    }
  }

  lemma {:induction false} SplitNoSep(s: string, c: char)
    requires c !in s
    ensures Split(s, c) == [s]
  {
    if s != [] {
      SplitNoSep(s[1..], c);
      assert s == [s[0]] + s[1..];
    }
  }

  lemma {:induction false} CountAppend(a: string, b: string, c: char)
    ensures Count(a + b, c) == Count(a, c) + Count(b, c)
  {
    if a != [] {
      assert (a + b)[0] == a[0] && (a + b)[1..] == a[1..] + b;
      CountAppend(a[1..], b, c);
    } else {
      assert a + b == b;
    }
  }

  /** A first piece without the separator comes off whole. */
  lemma {:induction false} SplitFirstPiece(a: string, b: string, c: char)
    requires c !in a
    ensures Split(a + [c] + b, c) == [a] + Split(b, c)
  {
    if a == [] {
      assert a + [c] + b == [c] + b;
    } else {
      SplitFirstPiece(a[1..], b, c);
      assert (a + [c] + b)[1..] == a[1..] + [c] + b;
      assert [a[0]] + a[1..] == a;
    }
  }
}
