/** The list building blocks the views share: a ticket filter by status and
    the stable sort that `Array.prototype.sort` performs with a numeric
    comparator. */
module Selection {
  import opened Types
  import opened Seqs

  /** `tickets.filter(t => t.status === st)`. */
  function WithStatus(ts: seq<Ticket>, st: TicketStatus): (r: seq<Ticket>)
    ensures forall i :: 0 <= i < |r| ==> r[i].status == st
    ensures forall t :: t in r <==> t in ts && t.status == st
    ensures forall t: Ticket :: t.status == st ==> multiset(r)[t] == multiset(ts)[t]
    ensures Subsequence(r, ts)
  {
    Filter(ts, (t: Ticket) => t.status == st)
  }

  lemma WithStatusAppend(ts: seq<Ticket>, t: Ticket, st: TicketStatus)
    ensures WithStatus(ts + [t], st) == WithStatus(ts, st) + (if t.status == st then [t] else [])
  {
    FilterAppend(ts, [t], (x: Ticket) => x.status == st);
  }

  // ------------------------------------------------------------ stable sort

  /** Ascending by `key`: the order a comparator `(a, b) => key(a) - key(b)` asks for. */
  ghost predicate SortedBy<T>(s: seq<T>, key: T -> int) {
    forall i, j :: 0 <= i < j < |s| ==> key(s[i]) <= key(s[j])
  }

  /** The elements whose key is `k`, in list order. */
  function WithKey<T(==,!new)>(s: seq<T>, key: T -> int, k: int): (r: seq<T>)
    ensures forall x :: x in r <==> x in s && key(x) == k
  {
    if s == [] then []
    else
      assert s == [s[0]] + s[1..];
      (if key(s[0]) == k then [s[0]] else []) + WithKey(s[1..], key, k)
  }

  lemma WithKeyCons<T(!new)>(x: T, s: seq<T>, key: T -> int, k: int)
    ensures WithKey([x] + s, key, k) == (if key(x) == k then [x] else []) + WithKey(s, key, k)
  {
    assert ([x] + s)[0] == x;
    assert ([x] + s)[1..] == s;
  }

  /** The specification of a stable sort: `r` is ascending, and for every key
      the elements carrying that key appear in `r` in the order they have in `s`. */
  ghost predicate IsStableSortOf<T(!new)>(r: seq<T>, s: seq<T>, key: T -> int) {
    SortedBy(r, key) && forall k :: WithKey(r, key, k) == WithKey(s, key, k)
  }

  /** Put `x` in front of the first element whose key is not smaller. */
  function InsertBy<T(==)>(x: T, s: seq<T>, key: T -> int): (r: seq<T>)
    requires SortedBy(s, key)
    ensures SortedBy(r, key)
    ensures multiset(r) == multiset(s) + multiset{x}
    ensures |r| == |s| + 1
  {
    if s == [] || key(x) <= key(s[0]) then
      ConsSorted(x, s, key);
      [x] + s
    else
      assert s == [s[0]] + s[1..];
      SortedTail(s, key);
      var rest := InsertBy(x, s[1..], key);
      HeadBelowRest(x, s, rest, key);
      ConsSorted(s[0], rest, key);
      [s[0]] + rest
  }

  /** A sorted list stays sorted with an element in front of it that is no
      larger than anything in it. */
  lemma ConsSorted<T>(h: T, s: seq<T>, key: T -> int)
    requires SortedBy(s, key)
    requires forall i :: 0 <= i < |s| ==> key(h) <= key(s[i])
    ensures SortedBy([h] + s, key)
  {
    forall i, j | 0 <= i < j < |s| + 1 ensures key(([h] + s)[i]) <= key(([h] + s)[j]) {
      assert ([h] + s)[j] == s[j - 1];
      if i > 0 { assert ([h] + s)[i] == s[i - 1]; }
    }
  }

  /** The head of a sorted list is no larger than anything the insertion
      into its tail produces, when the inserted element is larger. */
  lemma HeadBelowRest<T>(x: T, s: seq<T>, rest: seq<T>, key: T -> int)
    requires SortedBy(s, key) && s != [] && key(s[0]) < key(x)
    requires multiset(rest) == multiset(s[1..]) + multiset{x}
    ensures forall i :: 0 <= i < |rest| ==> key(s[0]) <= key(rest[i])
  {
    forall i | 0 <= i < |rest| ensures key(s[0]) <= key(rest[i]) {
      assert rest[i] in multiset(rest);
      if rest[i] != x {
        assert rest[i] in multiset(s[1..]);
        var j :| 0 <= j < |s[1..]| && s[1..][j] == rest[i];
        assert s[j + 1] == rest[i];
      }
    }
  }

  /** A stable insertion sort, ascending by `key`. */
  function SortBy<T(==)>(s: seq<T>, key: T -> int): (r: seq<T>)
    ensures SortedBy(r, key)
    ensures multiset(r) == multiset(s)
    ensures |r| == |s|
  {
    if s == [] then []
    else
      assert s == [s[0]] + s[1..];
      InsertBy(s[0], SortBy(s[1..], key), key)
  }

  /** Sorting keeps exactly the elements it was given. */
  lemma SortByMembers<T>(s: seq<T>, key: T -> int)
    ensures forall x :: x in SortBy(s, key) <==> x in s
  {
    var r := SortBy(s, key);
    forall x ensures x in r <==> x in s {
      assert x in r <==> x in multiset(r);
      assert x in s <==> x in multiset(s);
    }
  }

  lemma {:induction false} InsertByWithKey<T(!new)>(x: T, s: seq<T>, key: T -> int, k: int)
    requires SortedBy(s, key)
    ensures WithKey(InsertBy(x, s, key), key, k) == (if key(x) == k then [x] else []) + WithKey(s, key, k)
  {
    if s == [] || key(x) <= key(s[0]) {
      WithKeyCons(x, s, key, k);
    } else {
      SortedTail(s, key);
      var tail := s[1..];
      var rest := InsertBy(x, tail, key);
      assert InsertBy(x, s, key) == [s[0]] + rest;
      assert s == [s[0]] + tail;
      InsertByWithKey(x, tail, key, k);
      WithKeyCons(s[0], rest, key, k);
      WithKeyCons(s[0], tail, key, k);
      if key(x) == k {
        assert key(s[0]) != k;
        assert WithKey(s, key, k) == WithKey(tail, key, k);
        assert WithKey([s[0]] + rest, key, k) == WithKey(rest, key, k);
      } else {
        assert WithKey(rest, key, k) == WithKey(tail, key, k);
      }
    }
  }

  /** `SortBy` meets the specification of a stable sort. */
  lemma {:induction false} SortByIsStable<T(!new)>(s: seq<T>, key: T -> int)
    ensures IsStableSortOf(SortBy(s, key), s, key)
  {
    if s != [] {
      SortByIsStable(s[1..], key);
      assert s == [s[0]] + s[1..];
      forall k ensures WithKey(SortBy(s, key), key, k) == WithKey(s, key, k) {
        InsertByWithKey(s[0], SortBy(s[1..], key), key, k);
        WithKeyCons(s[0], s[1..], key, k);
      }
    }
  }

  /** A non-empty `WithKey` list names an element of the list. */
  lemma WithKeyHead<T(!new)>(s: seq<T>, key: T -> int)
    requires s != []
    ensures WithKey(s, key, key(s[0])) != [] && WithKey(s, key, key(s[0]))[0] == s[0]
  {
    assert s == [s[0]] + s[1..];
    WithKeyCons(s[0], s[1..], key, key(s[0]));
  }

  lemma SortedTail<T>(s: seq<T>, key: T -> int)
    requires SortedBy(s, key) && s != []
    ensures SortedBy(s[1..], key)
  {
    forall i, j | 0 <= i < j < |s| - 1 ensures key(s[1..][i]) <= key(s[1..][j]) {
      assert s[1..][i] == s[i + 1] && s[1..][j] == s[j + 1];
    }
  }

  lemma SortedHeadIsMinimal<T>(s: seq<T>, key: T -> int, x: T)
    requires SortedBy(s, key) && x in s
    ensures key(s[0]) <= key(x)
  {
    var i :| 0 <= i < |s| && s[i] == x;
    if i > 0 { assert key(s[0]) <= key(s[i]); }
  }

  lemma WithKeyTails<T(!new)>(a: seq<T>, b: seq<T>, key: T -> int)
    requires a != [] && b != [] && a[0] == b[0]
    requires forall k :: WithKey(a, key, k) == WithKey(b, key, k)
    ensures forall k :: WithKey(a[1..], key, k) == WithKey(b[1..], key, k)
  {
    assert a == [a[0]] + a[1..];
    assert b == [b[0]] + b[1..];
    forall k ensures WithKey(a[1..], key, k) == WithKey(b[1..], key, k) {
      WithKeyCons(a[0], a[1..], key, k);
      WithKeyCons(b[0], b[1..], key, k);
      var p := if key(a[0]) == k then [a[0]] else [];
      assert WithKey(a, key, k) == p + WithKey(a[1..], key, k);
      assert WithKey(b, key, k) == p + WithKey(b[1..], key, k);
      assert WithKey(a[1..], key, k) == (p + WithKey(a[1..], key, k))[|p|..];
      assert WithKey(b[1..], key, k) == (p + WithKey(b[1..], key, k))[|p|..];
    }
  }

  /** Two stable sorts of one list agree: both start with the earliest
      element carrying the minimal key, and agree on the rest by induction. */
  lemma {:induction false} StableSortsAgree<T(!new)>(a: seq<T>, b: seq<T>, key: T -> int)
    requires SortedBy(a, key) && SortedBy(b, key)
    requires forall k :: WithKey(a, key, k) == WithKey(b, key, k)
    ensures a == b
    decreases |a|
  {
    if a == [] {
      assert b == [] by {
        if b != [] {
          WithKeyHead(b, key);
          assert false;
        }
      }
    } else {
      WithKeyHead(a, key);
      var m := key(a[0]);
      assert WithKey(b, key, m) != [];
      assert b != [];
      WithKeyHead(b, key);
      var m' := key(b[0]);
      assert a[0] in WithKey(b, key, m);
      SortedHeadIsMinimal(b, key, a[0]);
      assert b[0] in WithKey(a, key, m');
      SortedHeadIsMinimal(a, key, b[0]);
      assert m == m';
      assert a[0] == WithKey(a, key, m)[0] == WithKey(b, key, m)[0] == b[0];
      WithKeyTails(a, b, key);
      SortedTail(a, key);
      SortedTail(b, key);
      StableSortsAgree(a[1..], b[1..], key);
      assert a == [a[0]] + a[1..];
      assert b == [b[0]] + b[1..];
    }
  }

  /** A stable sort is unique, so `SortBy` is the list any stable sort returns. */
  lemma StableSortIsSortBy<T(!new)>(r: seq<T>, s: seq<T>, key: T -> int)
    requires IsStableSortOf(r, s, key)
    ensures r == SortBy(s, key)
  {
    SortByIsStable(s, key);
    StableSortsAgree(r, SortBy(s, key), key);
  }
}
