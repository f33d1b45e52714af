/**
 * The pending container of both schedulers: a SortedSet whose comparer
 * (CompareTo) looks at the start time only. Two items with the same start
 * time compare equal, so the set holds at most one item per start time;
 * modelled as a sequence whose start times strictly increase.
 */
module SortedStartSet {
  import opened Wrappers

  /** Start times strictly increase along `s`: the set's order, without ties. */
  predicate Ascending<T>(s: seq<T>, startOf: T -> int)
  {
    forall i, j :: 0 <= i < j < |s| ==> startOf(s[i]) < startOf(s[j])
  }

  /** Some element starts at `t`: the set holds an item that compares equal to one starting at `t`. */
  predicate HasStart<T>(s: seq<T>, startOf: T -> int, t: int)
  {
    exists i :: 0 <= i < |s| && startOf(s[i]) == t
  }

  /** The number of elements that start before `t`: where an item starting at `t` sits in the order. */
  function Rank<T>(s: seq<T>, startOf: T -> int, t: int): (k: nat)
    requires Ascending(s, startOf)
    ensures k <= |s|
    ensures forall i :: 0 <= i < k ==> startOf(s[i]) < t
    ensures forall i :: k <= i < |s| ==> t <= startOf(s[i])
    decreases |s|
  {
    if s == [] || t <= startOf(s[0]) then 0 else 1 + Rank(s[1..], startOf, t)
  }

  /** A split point with everything before `t` on its left and nothing before `t` on its right is the rank. */
  lemma RankUnique<T>(s: seq<T>, startOf: T -> int, t: int, k: nat)
    requires Ascending(s, startOf) && k <= |s|
    requires forall i :: 0 <= i < k ==> startOf(s[i]) < t
    requires forall i :: k <= i < |s| ==> t <= startOf(s[i])
    ensures Rank(s, startOf, t) == k
  {
    var r := Rank(s, startOf, t);
    var m := if k < r then k else r;
    if m < |s| {
      assert (startOf(s[m]) < t) == (m < k) == (m < r);
    }
  }

  /** In an ascending sequence an element starting at `t` can only sit at the rank of `t`. */
  lemma HasStartAtRank<T>(s: seq<T>, startOf: T -> int, t: int)
    requires Ascending(s, startOf)
    ensures HasStart(s, startOf, t) <==>
      Rank(s, startOf, t) < |s| && startOf(s[Rank(s, startOf, t)]) == t
  {
    var k := Rank(s, startOf, t);
    if HasStart(s, startOf, t) {
      var i :| 0 <= i < |s| && startOf(s[i]) == t;
      assert k <= i;
      assert startOf(s[k]) <= startOf(s[i]);
    }
  }

  /** Elements before `t`, then `x` starting at `t`, then elements after `t` are in ascending order. */
  lemma SplitAscending<T>(s: seq<T>, startOf: T -> int, x: T, k: nat)
    requires Ascending(s, startOf) && k <= |s|
    requires forall i :: 0 <= i < k ==> startOf(s[i]) < startOf(x)
    requires forall i :: k <= i < |s| ==> startOf(x) < startOf(s[i])
    ensures Ascending(s[..k] + [x] + s[k..], startOf)
  {
    var r := s[..k] + [x] + s[k..];
    forall i, j | 0 <= i < j < |r| ensures startOf(r[i]) < startOf(r[j]) {
      if j < k {
        assert r[i] == s[i] && r[j] == s[j];
      } else if j == k {
        assert r[i] == s[i] && r[j] == x;
      } else if i == k {
        assert r[j] == s[j - 1];
      } else if i < k {
        assert r[i] == s[i] && r[j] == s[j - 1];
      } else {
        assert r[i] == s[i - 1] && r[j] == s[j - 1];
      }
    }
  }

  /** Puts `x` at its place in the order; `x` must not share a start time with an element. */
  function Insert<T>(s: seq<T>, startOf: T -> int, x: T): (r: seq<T>)
    requires Ascending(s, startOf) && !HasStart(s, startOf, startOf(x))
    ensures Ascending(r, startOf)
    ensures multiset(r) == multiset(s) + multiset{x}
    ensures |r| == |s| + 1
  {
    var k := Rank(s, startOf, startOf(x));
    assert forall i :: k <= i < |s| ==> startOf(x) < startOf(s[i]) by {
      forall i | k <= i < |s| ensures startOf(x) < startOf(s[i]) {
        assert startOf(s[i]) != startOf(x);
      }
    }
    SplitAscending(s, startOf, x, k);
    assert s == s[..k] + s[k..];
    s[..k] + [x] + s[k..]
  }

  /** An element starting after every element goes last: adding in increasing order appends. */
  lemma InsertAfterLast<T>(s: seq<T>, startOf: T -> int, x: T)
    requires Ascending(s, startOf) && (s == [] || startOf(s[|s| - 1]) < startOf(x))
    ensures !HasStart(s, startOf, startOf(x))
    ensures Insert(s, startOf, x) == s + [x]
  {
    if s != [] {
      assert forall i | 0 <= i < |s| :: startOf(s[i]) <= startOf(s[|s| - 1]);
    }
    RankUnique(s, startOf, startOf(x), |s|);
    assert s[..|s|] == s;
  }

  /** After an insert, the set holds a start time exactly when it held it before or it is the new element's. */
  lemma InsertStarts<T>(s: seq<T>, startOf: T -> int, x: T, t: int)
    requires Ascending(s, startOf) && !HasStart(s, startOf, startOf(x))
    ensures HasStart(Insert(s, startOf, x), startOf, t) <==> HasStart(s, startOf, t) || t == startOf(x)
  {
    var r := Insert(s, startOf, x);
    if HasStart(r, startOf, t) {
      var i :| 0 <= i < |r| && startOf(r[i]) == t;
      assert r[i] in multiset(s) + multiset{x};
      if r[i] != x {
        var j :| 0 <= j < |s| && s[j] == r[i];
      }
    }
    if HasStart(s, startOf, t) {
      var j :| 0 <= j < |s| && startOf(s[j]) == t;
      assert s[j] in multiset(r);
      var i :| 0 <= i < |r| && r[i] == s[j];
    }
    if t == startOf(x) {
      assert x in multiset(r);
      var i :| 0 <= i < |r| && r[i] == x;
    }
  }

  /** `SortedSet.Add`: None (Add returned false) when an item with the same start time is present. */
  function Add<T>(s: seq<T>, startOf: T -> int, x: T): (r: Option<seq<T>>)
    requires Ascending(s, startOf)
    ensures r.None? <==> HasStart(s, startOf, startOf(x))
    ensures r.Some? ==> r.value == Insert(s, startOf, x)
  {
    if HasStart(s, startOf, startOf(x)) then None else Some(Insert(s, startOf, x))
  }

  /** `SortedSet.Remove(item)`: drops the element whose start time equals `t`, if there is one. */
  function Remove<T>(s: seq<T>, startOf: T -> int, t: int): (r: seq<T>)
    requires Ascending(s, startOf)
    ensures Ascending(r, startOf)
    ensures !HasStart(r, startOf, t)
    ensures forall y | y in r :: y in s
    ensures forall y | y in s :: y in r <==> startOf(y) != t
    ensures |r| == if HasStart(s, startOf, t) then |s| - 1 else |s|
  {
    var k := Rank(s, startOf, t);
    HasStartAtRank(s, startOf, t);
    if k < |s| && startOf(s[k]) == t then
      DropAt(s, startOf, k);
      s[..k] + s[k + 1..]
    else
      s
  }

  /** Dropping the element at `k` keeps the order and every other element, and leaves nothing starting at its start time. */
  lemma DropAt<T>(s: seq<T>, startOf: T -> int, k: nat)
    requires Ascending(s, startOf) && k < |s|
    ensures Ascending(s[..k] + s[k + 1..], startOf)
    ensures !HasStart(s[..k] + s[k + 1..], startOf, startOf(s[k]))
    ensures forall y | y in s[..k] + s[k + 1..] :: y in s && startOf(y) != startOf(s[k])
    ensures forall y | y in s && startOf(y) != startOf(s[k]) :: y in s[..k] + s[k + 1..]
    ensures |s[..k] + s[k + 1..]| == |s| - 1
  {
    var r := s[..k] + s[k + 1..];
    assert forall i | 0 <= i < |r| :: r[i] == if i < k then s[i] else s[i + 1];
    forall i | 0 <= i < |r| ensures startOf(r[i]) != startOf(s[k]) {
      if i < k { assert startOf(s[i]) < startOf(s[k]); } else { assert startOf(s[k]) < startOf(s[i + 1]); }
    }
    forall i | 0 <= i < |s| && startOf(s[i]) != startOf(s[k]) ensures s[i] in r {
      if i < k { assert r[i] == s[i]; } else { assert i != k && r[i - 1] == s[i]; }
    }
  }

  /** An ascending sequence repeats no element: the set holds each item once. */
  lemma AscendingDistinct<T>(s: seq<T>, startOf: T -> int)
    requires Ascending(s, startOf)
    ensures forall i, j | 0 <= i < j < |s| :: s[i] != s[j]
  {
    forall i, j | 0 <= i < j < |s| ensures s[i] != s[j] {
      assert startOf(s[i]) < startOf(s[j]);
    }
  }

  /** How many leading elements are due at `now`: the items the drain loop pops. */
  function DueCount<T>(s: seq<T>, startOf: T -> int, now: int): (k: nat)
    requires Ascending(s, startOf)
    ensures k <= |s|
    ensures forall i :: 0 <= i < k ==> startOf(s[i]) <= now
    ensures forall i :: k <= i < |s| ==> now < startOf(s[i])
  {
    Rank(s, startOf, now + 1)
  }

  /** The drain stops at the first element that is not due: that position is the due count. */
  lemma DueCountAt<T>(s: seq<T>, startOf: T -> int, now: int, k: nat)
    requires Ascending(s, startOf) && k <= |s|
    requires forall i :: 0 <= i < k ==> startOf(s[i]) <= now
    requires k < |s| ==> now < startOf(s[k])
    ensures DueCount(s, startOf, now) == k
  {
    forall i | k <= i < |s| ensures now + 1 <= startOf(s[i]) {
      assert startOf(s[k]) <= startOf(s[i]);
    }
    RankUnique(s, startOf, now + 1, k);
  }

  /**
   * One insertion moves the minimum and the maximum as a running minimum and
   * maximum would: `x` becomes the first element exactly when it starts
   * before the old first, and the last exactly when it starts after the old
   * last.
   */
  lemma InsertMinMax<T>(s: seq<T>, startOf: T -> int, x: T)
    requires Ascending(s, startOf) && !HasStart(s, startOf, startOf(x)) && s != []
    ensures Insert(s, startOf, x)[0] == if startOf(x) < startOf(s[0]) then x else s[0]
    ensures Insert(s, startOf, x)[|Insert(s, startOf, x)| - 1] == if startOf(s[|s| - 1]) < startOf(x) then x else s[|s| - 1]
  {
    var k := Rank(s, startOf, startOf(x));
    assert startOf(s[0]) != startOf(x) && startOf(s[|s| - 1]) != startOf(x);
    assert Insert(s, startOf, x) == s[..k] + [x] + s[k..];
  }
}
