/** Strictly ascending id sequences and the hash accelerators built over them. */
module Sorted {
  ghost predicate Ascending(s: seq<nat>) {
    forall i, j :: 0 <= i < j < |s| ==> s[i] < s[j]
  }

  ghost function Elems<T>(s: seq<T>): set<T> {
    set x | x in s
  }

  /** The largest element of a non-empty set. */
  ghost function Max(s: set<nat>): (m: nat)
    requires s != {}
    ensures m in s && forall x :: x in s ==> x <= m
  {
    var x :| x in s;
    if s == {x} then x
    else
      var m := Max(s - {x});
      assert forall y :: y in s ==> y == x || y in s - {x};
      if m < x then x else m
  }

  /** A value between two neighbours of an ascending sequence is not in it. */
  lemma NotBetween(keys: seq<nat>, k: nat, v: nat)
    requires Ascending(keys) && k <= |keys|
    requires (k > 0 ==> keys[k - 1] < v) && (k < |keys| ==> v < keys[k])
    ensures v !in keys
  {
    forall i | 0 <= i < |keys| ensures keys[i] != v {
      assert i < k ==> keys[i] <= keys[k - 1];
      assert i >= k ==> keys[k] <= keys[i];
    }
  }

  /** The ascending listing of a set. */
  ghost function Listing(s: set<nat>): seq<nat> {
    if s == {} then [] else Listing(s - {Max(s)}) + [Max(s)]
  }

  lemma {:induction false} ListingIsAscending(s: set<nat>)
    ensures Ascending(Listing(s)) && |Listing(s)| == |s|
    ensures forall x :: x in Listing(s) <==> x in s
  {
    if s != {} {
      var m := Max(s);
      var q := Listing(s - {m});
      ListingIsAscending(s - {m});
      forall i | 0 <= i < |q| ensures q[i] < m {
        assert q[i] in q;
      }
      assert forall x :: x in q + [m] <==> x in q || x == m;
    }
  }

  /** An ascending sequence is the listing of its elements. */
  lemma {:induction false} ListingUnique(q: seq<nat>)
    requires Ascending(q)
    ensures Listing(Elems(q)) == q
  {
    if q != [] {
      var n := |q| - 1;
      var init, last := q[..n], q[n];
      assert q == init + [last];
      assert forall x :: x in q <==> x in init || x == last;
      assert Max(Elems(q)) == last by {
        assert last in Elems(q);
        var m := Max(Elems(q));
        assert m in q;
        var k :| 0 <= k < |q| && q[k] == m;
      }
      assert last !in init;
      assert Elems(q) - {last} == Elems(init);
      ListingUnique(init);
    } else {
      assert Elems(q) == {};
    }
  }

  /** A hash index over a key sequence: key to position, and nothing else. */
  ghost predicate IsIndex(keys: seq<nat>, index: map<nat, nat>) {
    && (forall i :: 0 <= i < |keys| ==> keys[i] in index && index[keys[i]] == i)
    && (forall k :: k in index ==> index[k] < |keys| && keys[index[k]] == k)
  }

  /** RebuildAccelerator of every sorted store in the program. */
  method RebuildAccelerator(keys: seq<nat>) returns (index: map<nat, nat>)
    requires Ascending(keys)
    ensures IsIndex(keys, index)
    ensures |index| == |keys|
  {
    index := map[];
    for i := 0 to |keys|
      invariant IsIndex(keys[..i], index)
      invariant |index| == i
    {
      assert keys[i] !in index;
      index := index[keys[i] := i];
    }
    assert keys[..|keys|] == keys;
  }

  /** std::lower_bound: the first position whose key is not below v. */
  method LowerBound(keys: seq<nat>, v: nat) returns (lo: nat)
    requires Ascending(keys)
    ensures lo <= |keys|
    ensures forall i :: 0 <= i < lo ==> keys[i] < v
    ensures forall i :: lo <= i < |keys| ==> v <= keys[i]
  {
    lo := 0;
    var hi := |keys|;
    while lo < hi
      invariant 0 <= lo <= hi <= |keys|
      invariant forall i :: 0 <= i < lo ==> keys[i] < v
      invariant forall i :: hi <= i < |keys| ==> v <= keys[i]
    {
      var mid := lo + (hi - lo) / 2;
      if keys[mid] < v {
        lo := mid + 1;
      } else {
        hi := mid;
      }
    }
  }

  /** At its lower bound a key is either present, or absent and smaller than everything from there on. */
  lemma LowerBoundDecides(keys: seq<nat>, at: nat, v: nat)
    requires Ascending(keys) && at <= |keys|
    requires forall i :: 0 <= i < at ==> keys[i] < v
    requires forall i :: at <= i < |keys| ==> v <= keys[i]
    ensures v in keys <==> at < |keys| && keys[at] == v
    ensures v !in keys ==> forall i :: at <= i < |keys| ==> v < keys[i]
  {
  }

  lemma AscendingSnoc(s: seq<nat>, x: nat)
    ensures Ascending(s + [x]) <==> Ascending(s) && (s != [] ==> s[|s| - 1] < x)
  {
    if Ascending(s + [x]) {
      forall i, j | 0 <= i < j < |s| ensures s[i] < s[j] {
        assert (s + [x])[i] < (s + [x])[j];
      }
      assert s != [] ==> (s + [x])[|s| - 1] < (s + [x])[|s|];
    }
  }

  /** What a scan of the first i keys has seen. */
  ghost predicate AscendingTo(keys: seq<nat>, i: nat)
    requires i <= |keys|
  {
    Ascending(keys[..i])
  }

  /** One more key of a scan: it must be above its left neighbour. */
  lemma AscendingNext(keys: seq<nat>, i: nat)
    requires i < |keys|
    ensures AscendingTo(keys, i + 1) <==> AscendingTo(keys, i) && (i > 0 ==> keys[i - 1] < keys[i])
  {
    assert keys[..i + 1] == keys[..i] + [keys[i]];
    AscendingSnoc(keys[..i], keys[i]);
  }

  /** Nothing scanned is in order, and a full scan decides the order. */
  lemma AscendingWhole(keys: seq<nat>)
    ensures AscendingTo(keys, 0)
    ensures AscendingTo(keys, |keys|) <==> Ascending(keys)
  {
    assert keys[..|keys|] == keys;
  }

  /** The scan every ValidateConsistency makes over its vector: neighbours in order, no zero id. */
  method ScanOrder(keys: seq<nat>) returns (sorted: bool, noZero: bool)
    ensures sorted <==> Ascending(keys)
    ensures noZero <==> 0 !in keys
  {
    sorted, noZero := true, true;
    for i := 0 to |keys|
      invariant noZero <==> 0 !in keys[..i]
      invariant sorted <==> AscendingTo(keys, i)
    {
      assert keys[..i + 1] == keys[..i] + [keys[i]];
      if keys[i] == 0 {
        noZero := false;
      }
      AscendingNext(keys, i);
      if i > 0 && !(keys[i - 1] < keys[i]) {
        sorted := false;
      }
    }
    assert keys[..|keys|] == keys;
    AscendingWhole(keys);
  }

  /** Inserting an absent key at its lower bound, and erasing a position, keep the order. */
  lemma InsertKeepsAscending(keys: seq<nat>, at: nat, v: nat)
    requires Ascending(keys) && at <= |keys|
    requires forall i :: 0 <= i < at ==> keys[i] < v
    requires forall i :: at <= i < |keys| ==> v < keys[i]
    ensures Ascending(keys[..at] + [v] + keys[at..])
    ensures Elems(keys[..at] + [v] + keys[at..]) == Elems(keys) + {v}
  {
    var r := keys[..at] + [v] + keys[at..];
    assert keys == keys[..at] + keys[at..];
    assert forall x :: x in r <==> x in keys[..at] || x == v || x in keys[at..];
    assert forall x :: x in keys <==> x in keys[..at] || x in keys[at..];
  }

  lemma EraseKeepsAscending(keys: seq<nat>, at: nat)
    requires Ascending(keys) && at < |keys|
    ensures Ascending(keys[..at] + keys[at + 1..])
    ensures Elems(keys[..at] + keys[at + 1..]) == Elems(keys) - {keys[at]}
  {
    var r := keys[..at] + keys[at + 1..];
    assert keys == keys[..at] + [keys[at]] + keys[at + 1..];
    assert forall x :: x in r <==> x in keys[..at] || x in keys[at + 1..];
    assert forall x :: x in keys <==> x in keys[..at] || x == keys[at] || x in keys[at + 1..];
  }
}
