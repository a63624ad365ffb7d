/** Durstenfeld's shuffle: with every choice in its range, the choices and the permutations of distinct
    elements correspond one to one. */
module Shuffle {
  /** One choice for each position: position `i` is swapped with one of `0..i`. */
  predicate IsChoice(ks: seq<nat>) {
    forall i :: 0 <= i < |ks| ==> ks[i] <= i
  }

  function Swap<T>(s: seq<T>, i: nat, k: nat): (r: seq<T>)
    requires i < |s| && k < |s|
    ensures |r| == |s|
  {
    s[i := s[k]][k := s[i]]
  }

  /** What the loop makes of the elements: the last one is locked, and the rest shuffled. */
  function Shuffled<T>(s: seq<T>, ks: seq<nat>): (r: seq<T>)
    requires |ks| == |s| && IsChoice(ks)
    ensures |r| == |s|
    decreases |s|
  {
    if |s| < 2 then s
    else
      var n := |s| - 1;
      var t := Swap(s, n, ks[n]);
      Shuffled(t[..n], ks[..n]) + [t[n]]
  }

  /** Elements up to `i` shuffled, the others locked in place. */
  ghost function Partly<T>(s: seq<T>, ks: seq<nat>, i: nat): seq<T>
    requires |ks| == |s| && IsChoice(ks) && i <= |s|
  {
    Shuffled(s[..i], ks[..i]) + s[i..]
  }

  method SwapCells<T>(a: array<T>, i: nat, k: nat)
    requires i < a.Length && k < a.Length
    modifies a
    ensures a[..] == Swap(old(a[..]), i, k)
  {
    a[i], a[k] := a[k], a[i];
  }

  /** `shuffle`, given the values that `gen_range` returns. */
  method ShuffleInPlace<T>(a: array<T>, ks: seq<nat>)
    requires |ks| == a.Length && IsChoice(ks)
    modifies a
    ensures a[..] == Shuffled(old(a[..]), ks)
  {
    hide Partly, Swap, Shuffled;
    var i := a.Length;
    Whole(a[..], ks);
    while i >= 2
      invariant 0 <= i <= a.Length
      invariant Partly(a[..], ks, i) == Shuffled(old(a[..]), ks)
    {
      i := i - 1;
      Turn(a[..], ks, i);
      SwapCells(a, i, ks[i]);
    }
    Locked(a[..], ks, i);
  }

  lemma Whole<T>(s: seq<T>, ks: seq<nat>)
    requires |ks| == |s| && IsChoice(ks)
    ensures Partly(s, ks, |s|) == Shuffled(s, ks)
  {
    assert s[..|s|] == s && ks[..|s|] == ks && s[|s|..] == [];
  }

  lemma Locked<T>(s: seq<T>, ks: seq<nat>, i: nat)
    requires |ks| == |s| && IsChoice(ks) && i <= |s| && i < 2
    ensures Partly(s, ks, i) == s
  {
    assert s == s[..i] + s[i..];
  }

  /** Locking element `i` in place. */
  lemma Turn<T>(s: seq<T>, ks: seq<nat>, i: nat)
    requires |ks| == |s| && IsChoice(ks) && 1 <= i < |s|
    ensures Partly(Swap(s, i, ks[i]), ks, i) == Partly(s, ks, i + 1)
  {
    var t, u := Swap(s[..i + 1], i, ks[i]), Swap(s, i, ks[i]);
    assert ks[..i + 1][..i] == ks[..i];
    assert u[..i] == t[..i] && u[i..] == [t[i]] + s[i + 1..];
    assert Shuffled(s[..i + 1], ks[..i + 1]) == Shuffled(t[..i], ks[..i]) + [t[i]];
    Assoc(Shuffled(t[..i], ks[..i]), [t[i]], s[i + 1..]);
  }

  lemma Assoc<T>(a: seq<T>, b: seq<T>, c: seq<T>)
    ensures (a + b) + c == a + (b + c)
  {
  }

  // Every run yields a permutation ------------------------------------------------------------------

  lemma SwapPermutes<T>(s: seq<T>, i: nat, k: nat)
    requires i < |s| && k < |s|
    ensures multiset(Swap(s, i, k)) == multiset(s) && |Swap(s, i, k)| == |s| && Swap(s, i, k)[i] == s[k]
  {
  }

  lemma Front<T>(s: seq<T>)
    requires s != []
    ensures multiset(s) == multiset(s[..|s| - 1]) + multiset{s[|s| - 1]}
  {
    assert s == s[..|s| - 1] + [s[|s| - 1]];
  }

  lemma {:induction false} ShuffledPermutes<T>(s: seq<T>, ks: seq<nat>)
    requires |ks| == |s| && IsChoice(ks)
    ensures multiset(Shuffled(s, ks)) == multiset(s)
    decreases |s|
  {
    hide Swap;
    if |s| >= 2 {
      var n := |s| - 1;
      var t := Swap(s, n, ks[n]);
      SwapPermutes(s, n, ks[n]);
      ShuffledPermutes(t[..n], ks[..n]);
      Front(t);
      Front(Shuffled(s, ks));
      assert Shuffled(s, ks)[..n] == Shuffled(t[..n], ks[..n]);
    }
  }

  // No two vectors of choices yield the same one ------------------------------------------------------

  ghost predicate Distinct<T>(s: seq<T>) {
    forall i, j :: 0 <= i < j < |s| ==> s[i] != s[j]
  }

  lemma SwapDistinct<T>(s: seq<T>, i: nat, k: nat)
    requires Distinct(s) && i < |s| && k < |s|
    ensures Distinct(Swap(s, i, k)) && Distinct(Swap(s, i, k)[..i])
  {
  }

  lemma {:induction false} ChoicesInjective<T>(s: seq<T>, ks: seq<nat>, ls: seq<nat>)
    requires |ks| == |ls| == |s| && IsChoice(ks) && IsChoice(ls) && Distinct(s)
    requires Shuffled(s, ks) == Shuffled(s, ls)
    ensures ks == ls
    decreases |s|
  {
    if |s| >= 2 {
      var n := |s| - 1;
      var t, u := Swap(s, n, ks[n]), Swap(s, n, ls[n]);
      var x, y := Shuffled(s, ks), Shuffled(s, ls);
      assert x[n] == t[n] == s[ks[n]] && y[n] == u[n] == s[ls[n]];
      assert ks[n] == ls[n];
      assert x[..n] == Shuffled(t[..n], ks[..n]) && y[..n] == Shuffled(u[..n], ls[..n]);
      SwapDistinct(s, n, ks[n]);
      ChoicesInjective(t[..n], ks[..n], ls[..n]);
      assert ks == ks[..n] + [ks[n]] && ls == ls[..n] + [ls[n]];
    }
  }

  // Every permutation is the yield of some vector of choices --------------------------------------------

  /** Where an element is. */
  ghost function IndexOf<T>(s: seq<T>, x: T): (i: nat)
    requires x in s
    ensures i < |s| && s[i] == x
  {
    if s[0] == x then 0 else 1 + IndexOf(s[1..], x)
  }

  /** The choices that turn `s` into its permutation `t`. */
  ghost function ChoicesFor<T>(s: seq<T>, t: seq<T>): (ks: seq<nat>)
    requires multiset(s) == multiset(t)
    ensures |ks| == |s| == |t| && IsChoice(ks)
    decreases |s|
  {
    SameLength(s, t);
    if |s| < 2 then seq(|s|, _ => 0)
    else
      var n := |s| - 1;
      assert t[n] in multiset(t);
      var k := IndexOf(s, t[n]);
      SwapRest(s, t, k);
      ChoicesFor(Swap(s, n, k)[..n], t[..n]) + [k]
  }

  lemma SameLength<T>(s: seq<T>, t: seq<T>)
    requires multiset(s) == multiset(t)
    ensures |s| == |t|
  {
    assert |s| == |multiset(s)| && |t| == |multiset(t)|;
  }

  lemma SwapRest<T>(s: seq<T>, t: seq<T>, k: nat)
    requires multiset(s) == multiset(t) && |s| == |t| && s != [] && k < |s| && s[k] == t[|t| - 1]
    ensures multiset(Swap(s, |s| - 1, k)[..|s| - 1]) == multiset(t[..|s| - 1])
  {
    hide Swap;
    var n := |s| - 1;
    var u := Swap(s, n, k);
    SwapPermutes(s, n, k);
    Front(u);
    Front(t);
    Cancel(multiset(u[..n]), multiset(t[..n]), t[n]);
  }

  lemma Cancel<T>(a: multiset<T>, b: multiset<T>, x: T)
    requires a + multiset{x} == b + multiset{x}
    ensures a == b
  {
    assert a == (a + multiset{x}) - multiset{x};
  }

  lemma {:induction false} ChoicesReach<T>(s: seq<T>, t: seq<T>)
    requires multiset(s) == multiset(t)
    ensures Shuffled(s, ChoicesFor(s, t)) == t
    decreases |s|
  {
    hide Swap, IndexOf;
    SameLength(s, t);
    if |s| == 1 {
      assert s[0] in multiset(t);
    } else if |s| >= 2 {
      var n := |s| - 1;
      assert t[n] in multiset(t);
      var k := IndexOf(s, t[n]);
      var u := Swap(s, n, k);
      SwapPermutes(s, n, k);
      SwapRest(s, t, k);
      ChoicesReach(u[..n], t[..n]);
      var ks := ChoicesFor(s, t);
      assert ks == ChoicesFor(u[..n], t[..n]) + [k];
      assert ks[..n] == ChoicesFor(u[..n], t[..n]) && ks[n] == k;
      assert t == t[..n] + [t[n]];
    }
  }

  /** On distinct elements the vectors of choices and the permutations correspond one to one: a
      permutation is reached by exactly one vector. */
  lemma ChoicesBijective<T>(s: seq<T>, t: seq<T>, ks: seq<nat>)
    requires Distinct(s) && |ks| == |s| && IsChoice(ks)
    ensures Shuffled(s, ks) == t <==> multiset(s) == multiset(t) && ks == ChoicesFor(s, t)
  {
    ShuffledPermutes(s, ks);
    if multiset(s) == multiset(t) {
      ChoicesReach(s, t);
      if Shuffled(s, ks) == t {
        ChoicesInjective(s, ks, ChoicesFor(s, t));
      }
    }
  }
}
