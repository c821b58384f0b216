/** The effect of `SELECT ... WHERE ... ORDER BY key` over a table kept as a
    map from row id to row: rows are enumerated in ascending id order, the
    filter is applied, and an insertion sort orders them by the sort key. */
module Rows {

  predicate SortedBy<T>(s: seq<T>, key: T -> int)
  {
    forall i, j :: 0 <= i < j < |s| ==> key(s[i]) <= key(s[j])
  }

  predicate Distinct<T(==)>(s: seq<T>)
  {
    forall i, j :: 0 <= i < j < |s| ==> s[i] != s[j]
  }

  /** Inserts `x` into a sorted sequence before the first element whose key is not smaller. */
  function InsertBy<T(==)>(x: T, s: seq<T>, key: T -> int): (r: seq<T>)
    requires SortedBy(s, key)
    ensures SortedBy(r, key)
    ensures multiset(r) == multiset(s) + multiset{x}
  {
    if s == [] then [x]
    else if key(x) <= key(s[0]) then [x] + s
    else
      var tail := InsertBy(x, s[1..], key);
      assert s == [s[0]] + s[1..];
      HeadBelowInsertion(s[0], x, s[1..], tail, key);
      [s[0]] + tail
  }

  /** An element whose key bounds `x` and every element of `rest` bounds every
      element of a permutation of `rest` with `x` added. */
  lemma HeadBelowInsertion<T>(h: T, x: T, rest: seq<T>, tail: seq<T>, key: T -> int)
    requires multiset(tail) == multiset(rest) + multiset{x}
    requires key(h) <= key(x)
    requires forall j :: 0 <= j < |rest| ==> key(h) <= key(rest[j])
    ensures forall j :: 0 <= j < |tail| ==> key(h) <= key(tail[j])
  {
    forall j | 0 <= j < |tail| ensures key(h) <= key(tail[j]) {
      assert tail[j] in multiset(tail);
      if tail[j] != x {
        assert tail[j] in multiset(rest);
        var k :| 0 <= k < |rest| && rest[k] == tail[j];
      }
    }
  }

  /** Insertion sort by `key`: the result is sorted and a permutation of the input. */
  function SortBy<T(==)>(s: seq<T>, key: T -> int): (r: seq<T>)
    ensures SortedBy(r, key)
    ensures multiset(r) == multiset(s)
  {
    if s == [] then []
    else
      assert s == [s[0]] + s[1..];
      InsertBy(s[0], SortBy(s[1..], key), key)
  }

  lemma {:induction false} DistinctCount<T>(s: seq<T>, x: T)
    requires Distinct(s)
    ensures multiset(s)[x] <= 1
  {
    if s != [] {
      assert s == [s[0]] + s[1..];
      DistinctCount(s[1..], x);
      if x == s[0] {
        assert x !in s[1..];
      }
    }
  }

  /** A permutation of a sequence without repetitions has no repetitions. */
  lemma PermutationKeepsDistinct<T>(s: seq<T>, t: seq<T>)
    requires multiset(s) == multiset(t) && Distinct(t)
    ensures Distinct(s)
  {
    forall i, j | 0 <= i < j < |s| ensures s[i] != s[j] {
      if s[i] == s[j] {
        var x := s[i];
        assert s == s[..j] + s[j..];
        assert x in s[..j];
        assert x in s[j..];
        assert multiset(s)[x] == multiset(s[..j])[x] + multiset(s[j..])[x];
        DistinctCount(t, x);
        assert false;
      }
    }
  }

  lemma MinExists(s: set<nat>)
    requires s != {}
    ensures exists m :: m in s && forall y :: y in s ==> m <= y
  {
    var x :| x in s;
    MinBelow(s, x);
  }

  /** Descends from a member of `s` to its least member. */
  lemma {:induction false} MinBelow(s: set<nat>, x: nat)
    requires x in s
    ensures exists m :: m in s && forall y :: y in s ==> m <= y
    decreases x
  {
    if exists y :: y in s && y < x {
      var y :| y in s && y < x;
      MinBelow(s, y);
    } else {
      assert forall y :: y in s ==> x <= y;
    }
  }

  lemma {:induction false} MaxExists(s: set<nat>)
    requires s != {}
    ensures exists m :: m in s && forall y :: y in s ==> y <= m
    decreases s
  {
    var x :| x in s;
    if s != {x} {
      MaxExists(s - {x});
      var m :| m in s - {x} && forall y :: y in s - {x} ==> y <= m;
      var most := if m < x then x else m;
      forall y | y in s ensures y <= most {
        if y != x { assert y in s - {x}; }
      }
      assert most in s;
    } else {
      assert forall y :: y in s ==> y <= x;
    }
  }

  function MinOf(s: set<nat>): (m: nat)
    requires s != {}
    ensures m in s && forall y :: y in s ==> m <= y
  {
    MinExists(s);
    var m :| m in s && forall y :: y in s ==> m <= y; m
  }

  /** The SQL `MAX(...)` of a non-empty set of values. */
  function MaxOf(s: set<nat>): (m: nat)
    requires s != {}
    ensures m in s && forall y :: y in s ==> y <= m
  {
    MaxExists(s);
    var m :| m in s && forall y :: y in s ==> y <= m; m
  }

  /** `COALESCE(MAX(x), -1) + 1`: one past the largest value, or 0 for none. */
  function NextAfter(s: set<nat>): (r: nat)
    ensures s == {} ==> r == 0
    ensures s != {} ==> r - 1 in s
    ensures forall x :: x in s ==> x < r
  {
    if s == {} then 0 else MaxOf(s) + 1
  }

  /** The ids of `s` in strictly ascending order. */
  function Ascending(s: set<nat>): (r: seq<nat>)
    ensures forall x :: x in r <==> x in s
    ensures forall i, j :: 0 <= i < j < |r| ==> r[i] < r[j]
    decreases |s|
  {
    if s == {} then []
    else
      var m := MinOf(s);
      var tail := Ascending(s - {m});
      assert forall j :: 0 <= j < |tail| ==> m < tail[j] by {
        forall j | 0 <= j < |tail| ensures m < tail[j] {
          assert tail[j] in s - {m};
        }
      }
      [m] + tail
  }

  /** The rows of a table, as (id, row) pairs in ascending id order. */
  function RowsOf<V>(m: map<nat, V>): (r: seq<(nat, V)>)
    ensures forall i :: 0 <= i < |r| ==> r[i].0 in m && r[i].1 == m[r[i].0]
    ensures forall k :: k in m ==> exists i :: 0 <= i < |r| && r[i].0 == k
    ensures forall i, j :: 0 <= i < j < |r| ==> r[i].0 < r[j].0
  {
    var ks := Ascending(m.Keys);
    KeysListed(m, ks);
    PairsOfKeys(m, ks);
    Pairs(m, ks)
  }

  /** Pairing the keys of `m`, listed once each in ascending order, with
      their rows lists every row once, in ascending id order. */
  lemma PairsOfKeys<V>(m: map<nat, V>, ks: seq<nat>)
    requires forall i :: 0 <= i < |ks| ==> ks[i] in m
    requires forall k :: k in m ==> exists i :: 0 <= i < |ks| && ks[i] == k
    requires forall i, j :: 0 <= i < j < |ks| ==> ks[i] < ks[j]
    ensures forall i :: 0 <= i < |Pairs(m, ks)| ==> Pairs(m, ks)[i].0 in m && Pairs(m, ks)[i].1 == m[Pairs(m, ks)[i].0]
    ensures forall k :: k in m ==> exists i :: 0 <= i < |Pairs(m, ks)| && Pairs(m, ks)[i].0 == k
    ensures forall i, j :: 0 <= i < j < |Pairs(m, ks)| ==> Pairs(m, ks)[i].0 < Pairs(m, ks)[j].0
  {
    var r := Pairs(m, ks);
    forall k | k in m ensures exists i :: 0 <= i < |r| && r[i].0 == k {
      var i :| 0 <= i < |ks| && ks[i] == k;
      assert r[i].0 == k;
    }
  }

  /** A sequence holding exactly the keys of `m` lists each of them. */
  lemma KeysListed<V>(m: map<nat, V>, ks: seq<nat>)
    requires forall x :: x in ks <==> x in m.Keys
    ensures forall i :: 0 <= i < |ks| ==> ks[i] in m
    ensures forall k :: k in m ==> exists i :: 0 <= i < |ks| && ks[i] == k
  {
    forall i | 0 <= i < |ks| ensures ks[i] in m {
      assert ks[i] in ks;
    }
    forall k | k in m ensures exists i :: 0 <= i < |ks| && ks[i] == k {
      assert k in ks;
    }
  }

  /** The rows of the keys `ks`, in the order of `ks`. */
  function Pairs<V>(m: map<nat, V>, ks: seq<nat>): (r: seq<(nat, V)>)
    requires forall i :: 0 <= i < |ks| ==> ks[i] in m
    ensures |r| == |ks|
    ensures forall i :: 0 <= i < |r| ==> r[i] == (ks[i], m[ks[i]])
  {
    seq(|ks|, i requires 0 <= i < |ks| => (ks[i], m[ks[i]]))
  }

  /** `WHERE keep(row)`. */
  function Restrict<V>(m: map<nat, V>, keep: V -> bool): (r: map<nat, V>)
    ensures forall k :: k in r <==> k in m && keep(m[k])
    ensures forall k :: k in r ==> r[k] == m[k]
  {
    map k | k in m && keep(m[k]) :: m[k]
  }

  /** What a `SELECT * FROM m WHERE keep ORDER BY key` answers: every kept row exactly once
      and nothing else, ordered by `key`. */
  ghost predicate IsListing<V>(r: seq<(nat, V)>, m: map<nat, V>, keep: V -> bool, key: V -> int)
  {
    && (forall i :: 0 <= i < |r| ==> r[i].0 in m && m[r[i].0] == r[i].1 && keep(r[i].1))
    && (forall k :: k in m && keep(m[k]) ==> exists i :: 0 <= i < |r| && r[i].0 == k)
    && (forall i, j :: 0 <= i < j < |r| ==> r[i].0 != r[j].0)
    && (forall i, j :: 0 <= i < j < |r| ==> key(r[i].1) <= key(r[j].1))
  }

  /** The sort key of an (id, row) pair: the key of its row. */
  function OnRow<V>(key: V -> int): ((nat, V)) -> int
  {
    (p: (nat, V)) => key(p.1)
  }

  lemma RowsOfDistinct<V>(m: map<nat, V>)
    ensures Distinct(RowsOf(m))
  {
    var rows := RowsOf(m);
    forall i, j | 0 <= i < j < |rows| ensures rows[i] != rows[j] {
      assert rows[i].0 < rows[j].0;
    }
  }

  lemma PermutedRowsSound<V>(m: map<nat, V>, keep: V -> bool, r: seq<(nat, V)>)
    requires multiset(r) == multiset(RowsOf(Restrict(m, keep)))
    ensures forall i :: 0 <= i < |r| ==> r[i].0 in m && m[r[i].0] == r[i].1 && keep(r[i].1)
  {
    var rows := RowsOf(Restrict(m, keep));
    forall i | 0 <= i < |r| ensures r[i] in rows {
      assert r[i] in multiset(r);
    }
  }

  lemma PermutedRowsComplete<V>(m: map<nat, V>, keep: V -> bool, r: seq<(nat, V)>)
    requires multiset(r) == multiset(RowsOf(Restrict(m, keep)))
    ensures forall k :: k in m && keep(m[k]) ==> exists i :: 0 <= i < |r| && r[i].0 == k
  {
    var sub := Restrict(m, keep);
    var rows := RowsOf(sub);
    forall k | k in m && keep(m[k]) ensures exists i :: 0 <= i < |r| && r[i].0 == k {
      assert k in sub;
      var j :| 0 <= j < |rows| && rows[j].0 == k;
      assert rows[j] in multiset(rows);
      assert rows[j] in r;
    }
  }

  lemma PermutedRowsDistinctIds<V>(m: map<nat, V>, keep: V -> bool, r: seq<(nat, V)>)
    requires multiset(r) == multiset(RowsOf(Restrict(m, keep)))
    ensures forall i, j :: 0 <= i < j < |r| ==> r[i].0 != r[j].0
  {
    var sub := Restrict(m, keep);
    RowsOfDistinct(sub);
    PermutationKeepsDistinct(r, RowsOf(sub));
    PermutedRowsSound(m, keep, r);
  }

  /** Any ordering by `key` of the kept rows answers the query. */
  lemma SortedRowsAreListing<V>(m: map<nat, V>, keep: V -> bool, key: V -> int, r: seq<(nat, V)>)
    requires multiset(r) == multiset(RowsOf(Restrict(m, keep)))
    requires SortedBy(r, OnRow(key))
    ensures IsListing(r, m, keep, key)
  {
    PermutedRowsSound(m, keep, r);
    PermutedRowsComplete(m, keep, r);
    PermutedRowsDistinctIds(m, keep, r);
    forall i, j | 0 <= i < j < |r| ensures key(r[i].1) <= key(r[j].1) {
      assert OnRow(key)(r[i]) <= OnRow(key)(r[j]);
    }
  }

  function Listing<V(==)>(m: map<nat, V>, keep: V -> bool, key: V -> int): (r: seq<(nat, V)>)
    ensures IsListing(r, m, keep, key)
  {
    var r := SortBy(RowsOf(Restrict(m, keep)), OnRow(key));
    SortedRowsAreListing(m, keep, key, r);
    r
  }
}
