/** The Fisher-Yates shuffle of `shuffleArray`, with the random source replaced by
    an index oracle: `draws[i]` is the index picked when the loop stands at `i`. */
module Shuffle {

  /** Every draw lies in the range the source can pick from: `draws[i]` is in `0..i`. */
  predicate ValidDraws(draws: seq<nat>) {
    forall i | 0 <= i < |draws| :: draws[i] <= i
  }

  /** No value occurs twice. */
  predicate Distinct<T(==)>(s: seq<T>) {
    forall i, j | 0 <= i < j < |s| :: s[i] != s[j]
  }

  /** The sequence with the elements at `i` and `j` exchanged. */
  function Swap<T>(s: seq<T>, i: nat, j: nat): (r: seq<T>)
    requires i < |s| && j < |s|
    ensures |r| == |s| && r[i] == s[j] && r[j] == s[i]
    ensures forall k {:trigger r[k]} | 0 <= k < |s| && k != i && k != j :: r[k] == s[k]
  {
    s[i := s[j]][j := s[i]]
  }

  lemma SwapPermutes<T>(s: seq<T>, i: nat, j: nat)
    requires i < |s| && j < |s|
    ensures multiset(Swap(s, i, j)) == multiset(s)
  {
    var m := s[i := s[j]];
    assert multiset(m) == multiset(s) - multiset{s[i]} + multiset{s[j]};
    assert multiset(m[j := s[i]]) == multiset(m) - multiset{m[j]} + multiset{s[i]};
  }

  /** The outcome of the shuffle loop on `s` under `draws`. Once the loop has
      swapped position `i` it never touches it again, so the result is the
      shuffle of the first `i` elements after that swap, followed by the
      element now at `i`. */
  function FisherYates<T>(s: seq<T>, draws: seq<nat>): seq<T>
    requires ValidDraws(draws) && |s| <= |draws|
    decreases |s|
  {
    if s == [] then []
    else
      var i := |s| - 1;
      var t := Swap(s, i, draws[i]);
      FisherYates(t[..i], draws) + [t[i]]
  }

  /** The shuffle returns as many elements as it was given, and the same ones. */
  lemma {:induction false} FisherYatesPermutes<T>(s: seq<T>, draws: seq<nat>)
    requires ValidDraws(draws) && |s| <= |draws|
    ensures |FisherYates(s, draws)| == |s|
    ensures multiset(FisherYates(s, draws)) == multiset(s)
    decreases |s|
  {
    if s != [] {
      var i := |s| - 1;
      var t := Swap(s, i, draws[i]);
      FisherYatesPermutes(t[..i], draws);
      SwapPermutes(s, i, draws[i]);
      assert t == t[..i] + [t[i]];
    }
  }

  /** Inputs of length 0 or 1 come back unchanged: the loop body never runs. */
  lemma {:induction false} FisherYatesShort<T>(s: seq<T>, draws: seq<nat>)
    requires ValidDraws(draws) && |s| <= |draws|
    requires |s| <= 1
    ensures FisherYates(s, draws) == s
  {
    if s != [] {
      assert draws[0] == 0;
      assert Swap(s, 0, 0) == s;
      assert FisherYates(s[..0], draws) == [];
    }
  }

  /** Only the first `|s|` draws matter. */
  lemma {:induction false} FisherYatesUsesPrefix<T>(s: seq<T>, d1: seq<nat>, d2: seq<nat>)
    requires ValidDraws(d1) && |s| <= |d1|
    requires ValidDraws(d2) && |s| <= |d2|
    requires forall k | 0 <= k < |s| :: d1[k] == d2[k]
    ensures FisherYates(s, d1) == FisherYates(s, d2)
    decreases |s|
  {
    if s != [] {
      var i := |s| - 1;
      var t := Swap(s, i, d1[i]);
      FisherYatesUsesPrefix(t[..i], d1, d2);
    }
  }

  lemma SwapKeepsDistinct<T>(s: seq<T>, i: nat, j: nat)
    requires i < |s| && j < |s| && Distinct(s)
    ensures Distinct(Swap(s, i, j))
  {
    var r := Swap(s, i, j);
    forall a, b | 0 <= a < b < |r| ensures r[a] != r[b] {
      var a' := if a == i then j else if a == j then i else a;
      var b' := if b == i then j else if b == j then i else b;
      assert r[a] == s[a'] && r[b] == s[b'] && a' != b';
    }
  }

  /** The last position of the outcome holds the element drawn for it, and the
      positions before it hold the shuffle of the rest. */
  lemma {:induction false} FisherYatesSplit<T>(s: seq<T>, draws: seq<nat>)
    requires ValidDraws(draws) && |s| <= |draws| && s != []
    ensures var i := |s| - 1; var r := FisherYates(s, draws);
      |r| == |s| && r[i] == s[draws[i]] && r[..i] == FisherYates(Swap(s, i, draws[i])[..i], draws)
  {
    var i := |s| - 1;
    FisherYatesPermutes(Swap(s, i, draws[i])[..i], draws);
  }

  /** When the elements are distinct, different draw sequences give different
      orderings: each ordering comes from exactly one sequence of draws. */
  lemma {:induction false} FisherYatesInjective<T>(s: seq<T>, d1: seq<nat>, d2: seq<nat>)
    requires ValidDraws(d1) && |s| <= |d1|
    requires ValidDraws(d2) && |s| <= |d2|
    requires Distinct(s)
    requires FisherYates(s, d1) == FisherYates(s, d2)
    ensures d1[..|s|] == d2[..|s|]
    decreases |s|
  {
    if s != [] {
      var i := |s| - 1;
      FisherYatesSplit(s, d1);
      FisherYatesSplit(s, d2);
      assert s[d1[i]] == s[d2[i]];
      var t := Swap(s, i, d1[i]);
      SwapKeepsDistinct(s, i, d1[i]);
      FisherYatesInjective(t[..i], d1, d2);
      assert d1[..|s|] == d1[..i] + [d1[i]];
      assert d2[..|s|] == d2[..i] + [d2[i]];
    }
  }

  lemma DropSameLast<T>(u: seq<T>, t: seq<T>)
    requires multiset(u) == multiset(t) && u != [] && |u| == |t|
    requires u[|u| - 1] == t[|t| - 1]
    ensures multiset(u[..|u| - 1]) == multiset(t[..|t| - 1])
  {
    var i := |u| - 1;
    assert u == u[..i] + [u[i]];
    assert t == t[..i] + [t[i]];
    assert multiset(u[..i]) == multiset(u) - multiset{u[i]};
    assert multiset(t[..i]) == multiset(t) - multiset{t[i]};
  }

  /** Every rearrangement of `s` is a possible outcome: `d` is a sequence of
      valid draws that produces it. */
  lemma {:induction false} FisherYatesOnto<T>(s: seq<T>, t: seq<T>) returns (d: seq<nat>)
    requires multiset(t) == multiset(s)
    ensures ValidDraws(d) && |d| == |s| && FisherYates(s, d) == t
    decreases |s|
  {
    assert |t| == |multiset(t)| == |s|;
    if s == [] {
      d := [];
    } else {
      var i := |s| - 1;
      assert t == t[..i] + [t[i]];
      assert t[i] in multiset(s);
      var j :| 0 <= j < |s| && s[j] == t[i];
      var u := Swap(s, i, j);
      SwapPermutes(s, i, j);
      DropSameLast(u, t);
      var d' := FisherYatesOnto(u[..i], t[..i]);
      d := d' + [j];
      FisherYatesUsesPrefix(u[..i], d, d');
    }
  }

  /** The array the loop leaves when it runs from index `i` down to 1. */
  function SwapDown<T>(s: seq<T>, draws: seq<nat>, i: int): seq<T>
    requires ValidDraws(draws) && |s| <= |draws| && i < |s|
    decreases i
  {
    if i <= 0 then s else SwapDown(Swap(s, i, draws[i]), draws, i - 1)
  }

  /** Swapping inside a prefix commutes with taking that prefix. */
  lemma SwapPrefix<T>(a: seq<T>, i: nat, j: nat, n: nat)
    requires i < n <= |a| && j < n
    ensures Swap(a, i, j)[..n] == Swap(a[..n], i, j)
    ensures Swap(a, i, j)[n..] == a[n..]
  {
  }

  /** One turn of the loop at `i`: swapping `i` with `draws[i]` leaves the
      shuffle of the unfinished part, followed by the finished part, as it was. */
  lemma {:induction false} FisherYatesStep<T>(a: seq<T>, draws: seq<nat>, i: nat)
    requires ValidDraws(draws) && |a| <= |draws|
    requires 0 < i < |a|
    ensures var b := Swap(a, i, draws[i]);
      FisherYates(a[..i + 1], draws) + a[i + 1..] == FisherYates(b[..i], draws) + b[i..]
  {
    var j := draws[i];
    var b := Swap(a, i, j);
    var t := Swap(a[..i + 1], i, j);
    SwapPrefix(a, i, j, i + 1);
    assert t[..i] == b[..i] && t[i] == b[i];
    assert b[i..] == [b[i]] + b[i + 1..];
  }

  /** With nothing left to swap, the loop leaves its argument as it is, and so
      does the shuffle of its first element. */
  lemma {:induction false} SwapDownDone<T>(s: seq<T>, draws: seq<nat>, i: int)
    requires ValidDraws(draws) && |s| <= |draws| && i < |s|
    requires -1 <= i <= 0 && (s != [] ==> i == 0)
    ensures SwapDown(s, draws, i) == FisherYates(s[..i + 1], draws) + s[i + 1..]
  {
    if i == 0 {
      FisherYatesShort(s[..1], draws);
      assert s == s[..1] + s[1..];
    } else {
      assert s[..0] == [] && s[0..] == s;
    }
  }

  /** Running the loop from `i` down shuffles the first `i + 1` elements and
      leaves the rest in place. */
  lemma {:induction false} SwapDownIsFisherYates<T>(s: seq<T>, draws: seq<nat>, i: int)
    requires ValidDraws(draws) && |s| <= |draws| && i < |s|
    requires -1 <= i && (s != [] ==> 0 <= i)
    ensures SwapDown(s, draws, i) == FisherYates(s[..i + 1], draws) + s[i + 1..]
    decreases i
  {
    if i <= 0 {
      SwapDownDone(s, draws, i);
    } else {
      FisherYatesStep(s, draws, i);
      SwapDownIsFisherYates(Swap(s, i, draws[i]), draws, i - 1);
    }
  }

  /** `shuffleArray`: copies its argument into a fresh array and, for `i` from
      the last index down to 1, swaps `arr[i]` with `arr[draws[i]]`. The
      argument is a value, so it is left as it was. */
  method ShuffleArray<T>(input: seq<T>, draws: seq<nat>) returns (r: seq<T>)
    requires ValidDraws(draws) && |input| <= |draws|
    ensures r == FisherYates(input, draws)
  {
    var arr := new T[|input|](k requires 0 <= k < |input| => input[k]);
    var i: int := arr.Length - 1;
    assert arr[..] == input;
    while i > 0
      invariant -1 <= i < arr.Length
      invariant SwapDown(arr[..], draws, i) == SwapDown(input, draws, |input| - 1)
    {
      var j := draws[i];
      ghost var before := arr[..];
      arr[i], arr[j] := arr[j], arr[i];
      assert arr[..] == Swap(before, i, j);
      i := i - 1;
    }
    r := arr[..];
    SwapDownIsFisherYates(input, draws, |input| - 1);
    assert input[..|input|] == input;
  }
}
