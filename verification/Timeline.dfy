// Counting the instants of a sorted history that fall into a time window.
module Timeline {

  predicate Sorted(s: seq<real>)
  {
    forall i, j :: 0 <= i <= j < |s| ==> s[i] <= s[j]
  }

  function CountIf(s: seq<real>, p: real -> bool): nat
  {
    if s == [] then 0 else (if p(s[0]) then 1 else 0) + CountIf(s[1..], p)
  }

  /** The instants in [start, start + width). */
  function From(start: real, width: real): real -> bool
  {
    x => start <= x < start + width
  }

  /** The instants in (end - width, end]. */
  function UpTo(end: real, width: real): real -> bool
  {
    x => end - width < x <= end
  }

  /** The instants in [start, end]. */
  function Between(start: real, end: real): real -> bool
  {
    x => start <= x <= end
  }

  lemma {:induction false} CountAppend(a: seq<real>, b: seq<real>, p: real -> bool)
    ensures CountIf(a + b, p) == CountIf(a, p) + CountIf(b, p)
  {
    if a == [] {
      assert a + b == b;
    } else {
      assert (a + b)[1..] == a[1..] + b;
      CountAppend(a[1..], b, p);
    }
  }

  lemma {:induction false} CountAtMost(s: seq<real>, p: real -> bool)
    ensures CountIf(s, p) <= |s|
  {
    if s != [] { CountAtMost(s[1..], p); }
  }

  lemma {:induction false} CountNone(s: seq<real>, p: real -> bool)
    requires forall i :: 0 <= i < |s| ==> !p(s[i])
    ensures CountIf(s, p) == 0
  {
    if s != [] { CountNone(s[1..], p); }
  }

  lemma {:induction false} CountAll(s: seq<real>, p: real -> bool)
    requires forall i :: 0 <= i < |s| ==> p(s[i])
    ensures CountIf(s, p) == |s|
  {
    if s != [] { CountAll(s[1..], p); }
  }

  /** Every instant comes at least `width` after any that is `m` or more places before it. */
  predicate Spaced(s: seq<real>, m: nat, width: real)
  {
    forall i, j :: 0 <= i && i + m <= j < |s| ==> s[i] + width <= s[j]
  }

  /** In a sorted history spaced that way, a window narrower than `width` holds at most `m` instants. */
  lemma {:induction false} SpacedCount(s: seq<real>, m: nat, width: real, p: real -> bool)
    requires Sorted(s) && Spaced(s, m, width)
    requires forall x, y :: p(x) && p(y) ==> y - x < width
    ensures CountIf(s, p) <= m
  {
    if s == [] {
    } else if !p(s[0]) {
      SpacedCount(s[1..], m, width, p);
    } else if |s| <= m {
      CountAtMost(s, p);
    } else {
      assert s == s[..m] + s[m..];
      CountAppend(s[..m], s[m..], p);
      CountAtMost(s[..m], p);
      CountNone(s[m..], p);
    }
  }

  /** The instants of a window lie between the first and the last of them. */
  lemma {:induction false} CountSpan(s: seq<real>, p: real -> bool) returns (i: nat, j: nat)
    ensures i <= j <= |s| && CountIf(s, p) <= j - i
    ensures i < j ==> p(s[i]) && p(s[j - 1])
  {
    if s == [] {
      i, j := 0, 0;
    } else {
      i, j := CountSpan(s[1..], p);
      if p(s[0]) {
        i, j := 0, if i < j then j + 1 else 1;
      } else {
        i, j := i + 1, j + 1;
      }
    }
  }
}
