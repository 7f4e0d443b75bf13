/** A sorted vector read as a map: keys in order, one row each. */
module SortedStore {
  import opened Prelude
  import opened Sorted

  ghost function ToMap<T>(keys: seq<nat>, rows: seq<T>): map<nat, T>
    requires |keys| == |rows|
  {
    if keys == [] then map[]
    else
      var n := |keys| - 1;
      ToMap(keys[..n], rows[..n])[keys[n] := rows[n]]
  }

  lemma {:induction false} ToMapKeys<T>(keys: seq<nat>, rows: seq<T>)
    requires |keys| == |rows|
    ensures forall k :: k in ToMap(keys, rows) <==> k in keys
  {
    if keys != [] {
      var n := |keys| - 1;
      ToMapKeys(keys[..n], rows[..n]);
      assert forall k :: k in keys <==> k in keys[..n] || k == keys[n];
    }
  }

  lemma {:induction false} ToMapAt<T>(keys: seq<nat>, rows: seq<T>, i: nat)
    requires |keys| == |rows| && Ascending(keys) && i < |keys|
    ensures keys[i] in ToMap(keys, rows) && ToMap(keys, rows)[keys[i]] == rows[i]
  {
    var n := |keys| - 1;
    if i < n {
      ToMapAt(keys[..n], rows[..n], i);
    }
  }

  lemma {:induction false} ToMapSnoc<T>(keys: seq<nat>, rows: seq<T>, k: nat, v: T)
    requires |keys| == |rows|
    ensures ToMap(keys + [k], rows + [v]) == ToMap(keys, rows)[k := v]
  {
    SnocSplit(keys, k);
    SnocSplit(rows, v);
  }

  lemma {:induction false} ToMapInserted<T>(keys: seq<nat>, rows: seq<T>, at: nat, k: nat, v: T)
    requires |keys| == |rows| && at <= |keys| && k !in keys
    ensures ToMap(keys[..at] + [k] + keys[at..], rows[..at] + [v] + rows[at..]) == ToMap(keys, rows)[k := v]
  {
    if at == |keys| {
      assert keys[..at] == keys && rows[..at] == rows;
      assert keys[..at] + [k] + keys[at..] == keys + [k] && rows[..at] + [v] + rows[at..] == rows + [v];
      ToMapSnoc(keys, rows, k, v);
    } else {
      var n := |keys| - 1;
      var ki, ri := keys[..n], rows[..n];
      assert keys[..at] + [k] + keys[at..] == (ki[..at] + [k] + ki[at..]) + [keys[n]];
      assert rows[..at] + [v] + rows[at..] == (ri[..at] + [v] + ri[at..]) + [rows[n]];
      ToMapInserted(ki, ri, at, k, v);
      ToMapSnoc(ki[..at] + [k] + ki[at..], ri[..at] + [v] + ri[at..], keys[n], rows[n]);
      assert keys[n] != k;
    }
  }

  lemma {:induction false} ToMapPut<T>(keys: seq<nat>, rows: seq<T>, at: nat, v: T)
    requires |keys| == |rows| && at < |keys| && Ascending(keys)
    ensures ToMap(keys, rows[at := v]) == ToMap(keys, rows)[keys[at] := v]
  {
    var n := |keys| - 1;
    if at < n {
      assert rows[at := v][..n] == rows[..n][at := v];
      ToMapPut(keys[..n], rows[..n], at, v);
      assert keys[n] != keys[at];
    } else {
      assert rows[at := v][..n] == rows[..n];
    }
  }

  lemma ErasedSnoc<T>(s: seq<T>, at: nat)
    requires at + 1 < |s|
    ensures var n := |s| - 1;
            s[..at] + s[at + 1..] == (s[..n][..at] + s[..n][at + 1..]) + [s[n]]
  {
    var n := |s| - 1;
    assert s[..n][..at] == s[..at];
    assert s[at + 1..] == s[..n][at + 1..] + [s[n]];
  }

  lemma {:induction false} ToMapErased<T>(keys: seq<nat>, rows: seq<T>, at: nat)
    requires |keys| == |rows| && at < |keys| && Ascending(keys)
    ensures ToMap(keys[..at] + keys[at + 1..], rows[..at] + rows[at + 1..]) == ToMap(keys, rows) - {keys[at]}
  {
    var n := |keys| - 1;
    var ki, ri := keys[..n], rows[..n];
    if at == n {
      assert keys[..at] + keys[at + 1..] == ki && rows[..at] + rows[at + 1..] == ri;
      ToMapKeys(ki, ri);
      assert keys[n] !in ki;
      assert ToMap(ki, ri)[keys[n] := rows[n]] - {keys[n]} == ToMap(ki, ri);
    } else {
      ErasedSnoc(keys, at);
      ErasedSnoc(rows, at);
      ToMapErased(ki, ri, at);
      ToMapSnoc(ki[..at] + ki[at + 1..], ri[..at] + ri[at + 1..], keys[n], rows[n]);
      assert keys[n] != keys[at];
      assert (ToMap(ki, ri) - {keys[at]})[keys[n] := rows[n]] == ToMap(ki, ri)[keys[n] := rows[n]] - {keys[at]};
    }
  }

  /** The listing of the map's keys is the key vector; the sizes agree. */
  lemma {:induction false} ToMapListing<T>(keys: seq<nat>, rows: seq<T>)
    requires |keys| == |rows| && Ascending(keys)
    ensures Listing(ToMap(keys, rows).Keys) == keys
    ensures |ToMap(keys, rows)| == |keys|
  {
    ToMapKeys(keys, rows);
    assert ToMap(keys, rows).Keys == Elems(keys);
    ListingUnique(keys);
    ListingIsAscending(Elems(keys));
    assert |ToMap(keys, rows)| == |ToMap(keys, rows).Keys|;
  }

  /** A sorted vector with its accelerator. */
  ghost predicate Indexed<T>(keys: seq<nat>, rows: seq<T>, index: map<nat, nat>) {
    |keys| == |rows| && Ascending(keys) && IsIndex(keys, index) && |index| == |keys|
  }

  /** Through the accelerator, a lookup is a lookup in the map. */
  lemma {:induction false} IndexFinds<T>(keys: seq<nat>, rows: seq<T>, index: map<nat, nat>, k: nat)
    requires Indexed(keys, rows, index)
    ensures k in index <==> k in ToMap(keys, rows)
    ensures k in index ==> index[k] < |keys| && keys[index[k]] == k && rows[index[k]] == ToMap(keys, rows)[k]
  {
    ToMapKeys(keys, rows);
    if k in index {
      ToMapAt(keys, rows, index[k]);
    }
    if k in keys {
      var i :| 0 <= i < |keys| && keys[i] == k;
    }
  }

  lemma {:induction false} IndexedAppended<T>(keys: seq<nat>, rows: seq<T>, index: map<nat, nat>, k: nat, v: T)
    requires Indexed(keys, rows, index) && forall i :: 0 <= i < |keys| ==> keys[i] < k
    ensures Indexed(keys + [k], rows + [v], index[k := |keys|])
    ensures ToMap(keys + [k], rows + [v]) == ToMap(keys, rows)[k := v]
  {
    assert k !in index;
    ToMapSnoc(keys, rows, k, v);
  }
}
