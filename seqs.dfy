/** Sequence helpers for the id arrays (`followers`, `likes`, `replies`, ...) that the controllers edit. */
module Seqs {

  /** No element occurs twice: the array is used as a set. */
  predicate NoDup<T(==)>(s: seq<T>) {
    forall i, j :: 0 <= i < j < |s| ==> s[i] != s[j]
  }

  /** `arr.filter(v => v.toString() !== x.toString())`: every occurrence of `x` goes, the rest keep their order. */
  function Removed<T(==,!new)>(s: seq<T>, x: T): (r: seq<T>)
    ensures forall y :: y in r <==> y in s && y != x
    ensures |r| <= |s|
  {
    if s == [] then []
    else if s[0] == x then Removed(s[1..], x)
    else [s[0]] + Removed(s[1..], x)
  }

  lemma NoDupCons<T(!new)>(x: T, s: seq<T>)
    ensures NoDup([x] + s) <==> x !in s && NoDup(s)
  {
    var t := [x] + s;
    if x !in s && NoDup(s) {
      forall i, j | 0 <= i < j < |t| ensures t[i] != t[j] {
        if i > 0 { assert t[i] == s[i - 1] && t[j] == s[j - 1]; }
        else { assert t[j] == s[j - 1]; }
      }
    }
    if NoDup(t) {
      forall i, j | 0 <= i < j < |s| ensures s[i] != s[j] {
        assert s[i] == t[i + 1] && s[j] == t[j + 1];
      }
      forall k | 0 <= k < |s| ensures s[k] != x {
        assert t[0] == x && t[k + 1] == s[k];
      }
    }
  }

  /** Filtering out an absent value changes nothing. */
  lemma {:induction false} RemovedAbsent<T(!new)>(s: seq<T>, x: T)
    requires x !in s
    ensures Removed(s, x) == s
  {
    if s != [] {
      RemovedAbsent(s[1..], x);
      assert s == [s[0]] + s[1..];
    }
  }

  /** Filtering distributes over concatenation, so the survivors keep their relative order. */
  lemma {:induction false} RemovedConcat<T(!new)>(a: seq<T>, b: seq<T>, x: T)
    ensures Removed(a + b, x) == Removed(a, x) + Removed(b, x)
  {
    if a == [] {
      assert a + b == b;
    } else {
      assert (a + b)[0] == a[0];
      assert (a + b)[1..] == a[1..] + b;
      RemovedConcat(a[1..], b, x);
    }
  }

  /** Removing a value that `push` just appended gives back the array before the push. */
  lemma RemovedAfterAppend<T(!new)>(s: seq<T>, x: T)
    requires x !in s
    ensures Removed(s + [x], x) == s
  {
    RemovedConcat(s, [x], x);
    RemovedAbsent(s, x);
    assert Removed([x], x) == [];
  }

  /** Removing a value that `unshift` just prepended gives back the array before the unshift. */
  lemma RemovedAfterPrepend<T(!new)>(s: seq<T>, x: T)
    requires x !in s
    ensures Removed([x] + s, x) == s
  {
    assert ([x] + s)[1..] == s;
    RemovedAbsent(s, x);
  }

  /** Filtering keeps an array duplicate-free. */
  lemma {:induction false} RemovedNoDup<T(!new)>(s: seq<T>, x: T)
    requires NoDup(s)
    ensures NoDup(Removed(s, x))
  {
    if s != [] {
      assert s == [s[0]] + s[1..];
      NoDupCons(s[0], s[1..]);
      RemovedNoDup(s[1..], x);
      if s[0] != x {
        NoDupCons(s[0], Removed(s[1..], x));
      }
    }
  }

  /** In a duplicate-free array, filtering out a present value shortens it by exactly one. */
  lemma {:induction false} RemovedOnce<T(!new)>(s: seq<T>, x: T)
    requires NoDup(s) && x in s
    ensures |Removed(s, x)| == |s| - 1
  {
    assert s == [s[0]] + s[1..];
    NoDupCons(s[0], s[1..]);
    if s[0] == x {
      RemovedAbsent(s[1..], x);
    } else {
      RemovedOnce(s[1..], x);
    }
  }

  /** Appending a value that is not yet present keeps an array duplicate-free. */
  lemma AppendNoDup<T(!new)>(s: seq<T>, x: T)
    requires NoDup(s) && x !in s
    ensures NoDup(s + [x])
  {
    var t := s + [x];
    forall i, j | 0 <= i < j < |t| ensures t[i] != t[j] {
      if j < |s| { assert t[i] == s[i] && t[j] == s[j]; }
      else { assert t[i] == s[i]; }
    }
  }
}
