/** Real-number helpers shared by the allocator: decimal rounding, sums,
    minima and maxima of sequences, and the first position of a value. */
module Numeric {

  /** The two precisions the allocator rounds to: `round(x, 3)` for
      money amounts and `round(x, 2)` for the summed edge. */
  datatype Places = Three | Two

  /** 10 to the power of the number of places. */
  function Unit(p: Places): (u: real)
    ensures u >= 100.0
  {
    match p
    case Three => 1000.0
    case Two => 100.0
  }

  /** Rounding to the given number of decimal places, ties upward.
      Python's `round` rounds ties to even on binary doubles; over the
      reals the two differ only on exact ties. */
  function Round(x: real, p: Places): real
  {
    (x * Unit(p) + 0.5).Floor as real / Unit(p)
  }

  /** Rounding moves a value by at most half a unit of the last place. */
  lemma RoundError(x: real, p: Places)
    ensures x - 0.5 / Unit(p) < Round(x, p) <= x + 0.5 / Unit(p)
  {
    var f := (x * Unit(p) + 0.5).Floor;
    assert f as real <= x * Unit(p) + 0.5 < f as real + 1.0;
  }

  /** A value already on the grid of the last place rounds to itself. */
  lemma RoundOnGrid(k: int, p: Places)
    ensures Round(k as real / Unit(p), p) == k as real / Unit(p)
  {
    match p
    case Three => assert (k as real / 1000.0 * 1000.0 + 0.5).Floor == k;
    case Two => assert (k as real / 100.0 * 100.0 + 0.5).Floor == k;
  }

  /** Rounding never reverses the order of two values. */
  lemma RoundMonotone(x: real, y: real, p: Places)
    requires x <= y
    ensures Round(x, p) <= Round(y, p)
  {
    var u := Unit(p);
    var a, b := x * u + 0.5, y * u + 0.5;
    assert a.Floor <= b.Floor by {
      assert a <= b by {
        match p
        case Three =>
        case Two =>
      }
    }
    match p
    case Three =>
    case Two =>
  }

  /** Sum of a sequence of reals (Python's `sum`). */
  function Sum(s: seq<real>): real
  {
    if |s| == 0 then 0.0 else s[0] + Sum(s[1..])
  }

  lemma {:induction false} SumAppend(a: seq<real>, b: seq<real>)
    ensures Sum(a + b) == Sum(a) + Sum(b)
  {
    if |a| == 0 {
      assert a + b == b;
    } else {
      assert (a + b)[1..] == a[1..] + b;
      SumAppend(a[1..], b);
    }
  }

  /** Replacing one entry changes the sum by exactly the difference. */
  lemma SumUpdate(s: seq<real>, i: nat, v: real)
    requires i < |s|
    ensures Sum(s[i := v]) == Sum(s) - s[i] + v
  {
    assert s == s[..i] + [s[i]] + s[i + 1..];
    assert s[i := v] == s[..i] + [v] + s[i + 1..];
    SumAppend(s[..i] + [s[i]], s[i + 1..]);
    SumAppend(s[..i], [s[i]]);
    SumAppend(s[..i] + [v], s[i + 1..]);
    SumAppend(s[..i], [v]);
  }

  /** The sum of everything but entry i is the total less that entry. */
  lemma SumExcept(s: seq<real>, i: nat)
    requires i < |s|
    ensures Sum(s[..i]) + Sum(s[i + 1..]) == Sum(s) - s[i]
  {
    assert s == s[..i] + ([s[i]] + s[i + 1..]);
    SumAppend(s[..i], [s[i]] + s[i + 1..]);
    SumAppend([s[i]], s[i + 1..]);
  }

  lemma {:induction false} SumOfZeros(s: seq<real>)
    requires forall k :: 0 <= k < |s| ==> s[k] == 0.0
    ensures Sum(s) == 0.0
  {
    if |s| > 0 {
      SumOfZeros(s[1..]);
    }
  }

  /** Python's `min` on a non-empty list of reals. */
  function MinReal(s: seq<real>): (r: real)
    requires |s| >= 1
    ensures forall k :: 0 <= k < |s| ==> r <= s[k]
    ensures exists k :: 0 <= k < |s| && r == s[k]
  {
    if |s| == 1 then s[0]
    else
      var m := MinReal(s[1..]);
      assert forall k :: 1 <= k < |s| ==> s[k] == s[1..][k - 1];
      if s[0] <= m then s[0] else m
  }

  /** Python's `max` on a non-empty list of reals. */
  function MaxReal(s: seq<real>): (r: real)
    requires |s| >= 1
    ensures forall k :: 0 <= k < |s| ==> s[k] <= r
    ensures exists k :: 0 <= k < |s| && r == s[k]
  {
    if |s| == 1 then s[0]
    else
      var m := MaxReal(s[1..]);
      assert forall k :: 1 <= k < |s| ==> s[k] == s[1..][k - 1];
      if s[0] >= m then s[0] else m
  }

  /** Python's `list.index`: the first position holding x. */
  function FirstIndex(s: seq<real>, x: real): (r: nat)
    requires x in s
    ensures r < |s| && s[r] == x
    ensures forall k :: 0 <= k < r ==> s[k] != x
  {
    if s[0] == x then 0
    else
      assert x in s[1..];
      1 + FirstIndex(s[1..], x)
  }
}
