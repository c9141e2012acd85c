/** Facts about sequences that several parts of the model share. */
module Seqs {

  datatype Option<+T> = None | Some(value: T)

  datatype Result<+T, +E> = Ok(value: T) | Err(error: E)

  lemma Regroup<T>(a: seq<T>, b: seq<T>, c: seq<T>)
    ensures a + b + c == a + (b + c)
  {
  }

  function Elements<T>(s: seq<T>): (r: set<T>)
  {
    set x | x in s
  }

  ghost predicate Distinct<T>(s: seq<T>)
  {
    forall i, j :: 0 <= i < j < |s| ==> s[i] != s[j]
  }

  /** The elements x of s with p(x) == want, in order. */
  ghost function Filter<T>(s: seq<T>, p: T -> bool, want: bool): seq<T>
  {
    if s == [] then []
    else (if p(s[0]) == want then [s[0]] else []) + Filter(s[1..], p, want)
  }

  lemma {:induction false} FilterMembers<T>(s: seq<T>, p: T -> bool, want: bool)
    ensures forall x :: x in Filter(s, p, want) <==> x in s && p(x) == want
  {
    if s != [] {
      assert s == [s[0]] + s[1..];
      FilterMembers(s[1..], p, want);
    }
  }

  /** s without the element at index k. */
  ghost function Without<T>(s: seq<T>, k: nat): seq<T>
    requires k < |s|
  {
    s[..k] + s[k + 1..]
  }

  /** The first index at which x occurs in s. */
  ghost function IndexOf<T>(s: seq<T>, x: T): (k: nat)
    requires x in s
    ensures k < |s| && s[k] == x && x !in s[..k]
  {
    if s[0] == x then 0 else
      assert forall i :: 0 < i < |s| ==> s[i] == s[1..][i - 1];
      var k' := IndexOf(s[1..], x);
      assert s[..k' + 1] == [s[0]] + s[1..][..k'];
      k' + 1
  }

  /** Deleting x, if it is there. */
  ghost function Delete<T>(s: seq<T>, x: T): seq<T>
  {
    if x in s then Without(s, IndexOf(s, x)) else s
  }

  lemma WithoutDistinct<T>(s: seq<T>, k: nat)
    requires Distinct(s) && k < |s|
    ensures Distinct(Without(s, k))
  {
    var d := Without(s, k);
    forall i, j | 0 <= i < j < |d|
      ensures d[i] != d[j]
    {
      var i', j' := if i < k then i else i + 1, if j < k then j else j + 1;
      assert d[i] == s[i'] && d[j] == s[j'];
    }
  }

  lemma WithoutElements<T>(s: seq<T>, k: nat)
    requires Distinct(s) && k < |s|
    ensures Elements(Without(s, k)) == Elements(s) - {s[k]}
  {
    var d := Without(s, k);
    forall y
      ensures y in d <==> y in s && y != s[k]
    {
      if y in s && y != s[k] {
        var i :| 0 <= i < |s| && s[i] == y;
        assert y == d[if i < k then i else i - 1];
      }
      if y in d {
        var i :| 0 <= i < |d| && d[i] == y;
        assert y == s[if i < k then i else i + 1];
      }
    }
  }

  lemma DeleteMembers<T>(s: seq<T>, x: T)
    requires Distinct(s)
    ensures Distinct(Delete(s, x))
    ensures Elements(Delete(s, x)) == Elements(s) - {x}
  {
    if x in s {
      WithoutDistinct(s, IndexOf(s, x));
      WithoutElements(s, IndexOf(s, x));
    }
  }

  /** The slot of logical position i in a ring of the given capacity starting at head. */
  ghost function Slot(head: nat, capacity: nat, i: nat): nat
  {
    if head + i < capacity then head + i else head + i - capacity
  }

  lemma SlotMeets(head: nat, capacity: nat, k: nat, n: nat)
    requires head < capacity && k <= n < capacity
    ensures Slot(head, capacity, k) == Slot(head, capacity, n) <==> k == n
  {
  }

  /** Within one turn, the slot is the position modulo the capacity. */
  lemma SlotWraps(head: nat, capacity: nat, i: nat)
    requires head < capacity && i <= capacity
    ensures Slot(head, capacity, i) == (head + i) % capacity
  {
    ModWraps(head + i, capacity);
  }

  lemma ModWraps(n: nat, m: nat)
    requires 0 < m && n < 2 * m
    ensures n % m == if n < m then n else n - m
  {
    if n >= m {
      assert n == (n - m) + m * 1;
    }
  }

  /** a comes out of b by leaving elements out. */
  ghost predicate Subsequence<T>(a: seq<T>, b: seq<T>)
    decreases b
  {
    a == [] ||
    (b != [] &&
     (|| (a[|a| - 1] == b[|b| - 1] && Subsequence(a[..|a| - 1], b[..|b| - 1]))
      || Subsequence(a, b[..|b| - 1])))
  }

  lemma SubsequenceSnoc<T>(a: seq<T>, b: seq<T>, x: T)
    requires Subsequence(a, b)
    ensures Subsequence(a + [x], b + [x])
    ensures Subsequence(a, b + [x])
  {
    assert (a + [x])[..|a|] == a && (b + [x])[..|b|] == b;
  }

  lemma {:induction false} SubsequencePrefix<T>(a: seq<T>, c: seq<T>, b: seq<T>)
    requires Subsequence(a + c, b)
    ensures Subsequence(a, b)
    decreases |c| + |b|
  {
    var s := a + c;
    if c == [] {
      assert s == a;
    } else if s[|s| - 1] == b[|b| - 1] && Subsequence(s[..|s| - 1], b[..|b| - 1]) {
      assert s[..|s| - 1] == a + c[..|c| - 1];
      SubsequencePrefix(a, c[..|c| - 1], b[..|b| - 1]);
    } else {
      SubsequencePrefix(a, c, b[..|b| - 1]);
    }
  }

  /** Leaving out some more, wherever it stands. */
  lemma {:induction false} SubsequenceLess<T>(a: seq<T>, m: seq<T>, c: seq<T>, b: seq<T>)
    requires Subsequence(a + m + c, b)
    ensures Subsequence(a + c, b)
    decreases |c| + |b|
  {
    var s := a + m + c;
    if c == [] {
      assert s == a + m && a + c == a;
      SubsequencePrefix(a, m, b);
    } else if s[|s| - 1] == b[|b| - 1] && Subsequence(s[..|s| - 1], b[..|b| - 1]) {
      assert s[..|s| - 1] == a + m + c[..|c| - 1] && (a + c)[..|a + c| - 1] == a + c[..|c| - 1];
      SubsequenceLess(a, m, c[..|c| - 1], b[..|b| - 1]);
    } else {
      SubsequenceLess(a, m, c, b[..|b| - 1]);
    }
  }

  lemma {:induction false} SubsequenceMore<T>(a: seq<T>, b: seq<T>, c: seq<T>)
    requires Subsequence(a, b)
    ensures Subsequence(a + c, b + c)
    decreases c
  {
    if c == [] {
      assert a + c == a && b + c == b;
    } else {
      SubsequenceSnoc(a, b, c[0]);
      SubsequenceMore(a + [c[0]], b + [c[0]], c[1..]);
      assert c == [c[0]] + c[1..];
      Regroup(a, [c[0]], c[1..]);
      Regroup(b, [c[0]], c[1..]);
    }
  }
}
