/** Shared vocabulary: the Python exceptions the modelled code can raise,
    a Result type standing for "returns a value or raises", the NaN-bearing
    sample type, and small sequence/string helpers. */
module Common {

  /** The exception kinds raised by the modelled code (an `assert` that
      fails raises AssertionError). */
  datatype Error =
    | AssertionError
    | ValueError
    | KeyError
    | IndexError
    | ZeroDivisionError
    | AttributeError

  datatype Result<+T> = Ok(value: T) | Err(error: Error)

  datatype Option<+T> = None | Some(value: T)

  /** One floating-point sample: IEEE NaN stands for a missing value. */
  datatype Sample = NaN | Num(v: real)

  /** Python/numpy `==` on floats: NaN equals nothing, not even itself. */
  predicate SameValue(a: Sample, b: Sample) {
    a.Num? && b.Num? && a.v == b.v
  }

  /** `b - a` on floats: NaN as soon as one operand is NaN. */
  function Minus(b: Sample, a: Sample): Sample {
    if a.Num? && b.Num? then Num(b.v - a.v) else NaN
  }

  /** `s.startswith(p)`. */
  predicate StartsWith(s: string, p: string) {
    |p| <= |s| && s[..|p|] == p
  }

  /** `s.endswith(p)`. */
  predicate EndsWith(s: string, p: string) {
    |p| <= |s| && s[|s| - |p|..] == p
  }

  /** Strictly increasing, hence duplicate-free. */
  predicate StrictlyIncreasing(s: seq<int>) {
    forall i, j :: 0 <= i < j < |s| ==> s[i] < s[j]
  }

  /** Index of the first occurrence of `c` in `s`, as `str.find`. */
  function FirstIndex(s: string, c: char): (r: Option<nat>)
    ensures r.None? <==> c !in s
    ensures r.Some? ==> r.value < |s| && s[r.value] == c && c !in s[..r.value]
  {
    if |s| == 0 then None
    else if s[0] == c then Some(0)
    else
      match FirstIndex(s[1..], c)
      case None => None
      case Some(k) =>
        assert s[..k + 1] == [s[0]] + s[1..][..k];
        Some(k + 1)
  }

  /** The elements of `s` that satisfy `p`, in order (a list comprehension
      with a condition). */
  function Keep<T(!new)>(s: seq<T>, p: T -> bool): (r: seq<T>)
    ensures |r| <= |s|
    ensures forall x :: x in r <==> x in s && p(x)
  {
    if |s| == 0 then [] else Keep(s[..|s| - 1], p) + (if p(s[|s| - 1]) then [s[|s| - 1]] else [])
  }

  /** Keeping is done element by element, in place: a one-element
      sequence is kept or dropped whole, and keeping from two blocks keeps
      from each, the first block's survivors first. Together these fix the
      result as the passing elements in their original order. */
  lemma {:induction false} KeepConcat<T(!new)>(a: seq<T>, b: seq<T>, p: T -> bool)
    ensures Keep(a + b, p) == Keep(a, p) + Keep(b, p)
    ensures forall x :: Keep([x], p) == if p(x) then [x] else []
  {
    KeepAppend(a, b, p);
    forall x ensures Keep([x], p) == if p(x) then [x] else [] {
      KeepOne(x, p);
    }
  }

  lemma KeepOne<T(!new)>(x: T, p: T -> bool)
    ensures Keep([x], p) == if p(x) then [x] else []
  {
    assert [x][..0] == [];
  }

  lemma {:induction false} KeepAppend<T(!new)>(a: seq<T>, b: seq<T>, p: T -> bool)
    ensures Keep(a + b, p) == Keep(a, p) + Keep(b, p)
    decreases |b|
  {
    if |b| > 0 {
      var n := |b| - 1;
      assert (a + b)[..|a + b| - 1] == a + b[..n];
      KeepAppend(a, b[..n], p);
    } else {
      assert a + b == a;
    }
  }

  /** Keeping from a sequence whose elements all pass returns it whole. */
  lemma {:induction false} KeepAll<T(!new)>(s: seq<T>, p: T -> bool)
    requires forall x :: x in s ==> p(x)
    ensures Keep(s, p) == s
  {
    if |s| > 0 {
      var n := |s| - 1;
      forall x | x in s[..n] ensures p(x) {
        assert x in s;
      }
      KeepAll(s[..n], p);
      assert p(s[n]);
      assert Keep(s, p) == Keep(s[..n], p) + [s[n]];
      assert s[..n] + [s[n]] == s;
    }
  }

  /** The lists concatenated in order (`sum(lists, [])`, or
      `pd.concat` on the column lists of frames). */
  function Flatten<T>(ss: seq<seq<T>>): seq<T> {
    if |ss| == 0 then [] else Flatten(ss[..|ss| - 1]) + ss[|ss| - 1]
  }

  /** Concatenating one more list appends its elements. */
  lemma FlattenSnoc<T>(ss: seq<seq<T>>, s: seq<T>)
    ensures Flatten(ss + [s]) == Flatten(ss) + s
  {
    assert (ss + [s])[..|ss|] == ss;
  }

  /** The summed lengths of the lists. */
  function TotalLength<T>(ss: seq<seq<T>>): nat {
    if |ss| == 0 then 0 else TotalLength(ss[1..]) + |ss[0]|
  }

  /** The concatenation has one element per element of each list. */
  lemma {:induction false} FlattenLength<T>(ss: seq<seq<T>>)
    ensures |Flatten(ss)| == TotalLength(ss)
    decreases |ss|
  {
    if |ss| > 0 {
      var n := |ss| - 1;
      FlattenLength(ss[..n]);
      TotalLengthSnoc(ss[..n], ss[n]);
      assert ss[..n] + [ss[n]] == ss;
    }
  }

  /** Summing front to back, the last list adds its length. */
  lemma {:induction false} TotalLengthSnoc<T>(ss: seq<seq<T>>, s: seq<T>)
    ensures TotalLength(ss + [s]) == TotalLength(ss) + |s|
    decreases |ss|
  {
    if |ss| > 0 {
      assert (ss + [s])[1..] == ss[1..] + [s];
      TotalLengthSnoc(ss[1..], s);
    }
  }

  /** Inserts `v` into a strictly increasing sequence unless it is there. */
  function InsertSorted(s: seq<int>, v: int): (r: seq<int>)
    requires StrictlyIncreasing(s)
    ensures StrictlyIncreasing(r)
    ensures forall y :: y in r <==> y in s || y == v
  {
    if |s| == 0 then [v]
    else if v < s[0] then
      HeadIsLeast(s);
      PrependIncreasing(v, s);
      [v] + s
    else if v == s[0] then s
    else
      HeadIsLeast(s);
      var rest := InsertSorted(s[1..], v);
      PrependIncreasing(s[0], rest);
      [s[0]] + rest
  }

  /** In a strictly increasing sequence the head is below every later
      element. */
  lemma HeadIsLeast(s: seq<int>)
    requires StrictlyIncreasing(s) && |s| > 0
    ensures forall y :: y in s[1..] ==> s[0] < y
    ensures forall y :: y in s ==> s[0] <= y
  {
    forall y | y in s ensures s[0] <= y {
      var i :| 0 <= i < |s| && s[i] == y;
    }
    forall y | y in s[1..] ensures s[0] < y {
      var i :| 0 <= i < |s| - 1 && s[1..][i] == y;
      assert s[i + 1] == y;
    }
  }

  /** `np.unique(s)`, also `sorted(set(s))`: the distinct values in
      ascending order. */
  function SortedUnique(s: seq<int>): (r: seq<int>)
    ensures StrictlyIncreasing(r)
    ensures forall y :: y in r <==> y in s
  {
    if |s| == 0 then [] else InsertSorted(SortedUnique(s[..|s| - 1]), s[|s| - 1])
  }

  /** A strictly increasing sequence is determined by its elements. */
  lemma {:induction false} IncreasingDeterminedByElements(a: seq<int>, b: seq<int>)
    requires StrictlyIncreasing(a) && StrictlyIncreasing(b)
    requires forall y :: y in a <==> y in b
    ensures a == b
  {
    if |a| > 0 {
      assert a[0] in a;
    }
    if |b| > 0 {
      assert b[0] in b;
    }
    if |a| > 0 && |b| > 0 {
      assert a[0] == b[0] by {
        assert a[0] in b && b[0] in a;
      }
      forall y | y in a[1..] ensures y in b[1..] {
        assert y in b && y != b[0];
      }
      forall y | y in b[1..] ensures y in a[1..] {
        assert y in a && y != a[0];
      }
      IncreasingDeterminedByElements(a[1..], b[1..]);
    }
  }

  lemma PrependIncreasing(v: int, s: seq<int>)
    requires StrictlyIncreasing(s)
    requires forall y :: y in s ==> v < y
    ensures StrictlyIncreasing([v] + s)
  {
    forall i, j | 0 <= i < j < |s| + 1 ensures ([v] + s)[i] < ([v] + s)[j] {
      if i == 0 {
        assert ([v] + s)[j] == s[j - 1] && s[j - 1] in s;
      }
    }
  }

  lemma AppendIncreasing(s: seq<int>, v: int)
    requires StrictlyIncreasing(s)
    requires forall y :: y in s ==> y < v
    ensures StrictlyIncreasing(s + [v])
  {
    forall i, j | 0 <= i < j < |s| + 1 ensures (s + [v])[i] < (s + [v])[j] {
      if j == |s| {
        assert (s + [v])[i] == s[i] && s[i] in s;
      }
    }
  }
}
