/** Finite tables: ordered traversal as a `BTreeMap` iterates, images of tables, and sums over them. */
module Tables {

  predicate Ascending(ks: seq<nat>) {
    forall i, j :: 0 <= i < j < |ks| ==> ks[i] < ks[j]
  }

  predicate IsLeast(m: nat, s: set<nat>) {
    m in s && forall k :: k in s ==> m <= k
  }

  lemma {:induction false} LeastExists(s: set<nat>) returns (m: nat)
    requires s != {}
    ensures IsLeast(m, s)
  {
    m :| m in s;
    if !IsLeast(m, s) {
      var y :| y in s && y < m;
      var lower := set k | k in s && k < m;
      assert y in lower && lower < s;
      var low := LeastExists(lower);
      assert forall k :: k in s && k < m ==> k in lower;
      m := low;
    }
  }

  lemma SomeLeast(s: set<nat>)
    requires s != {}
    ensures exists m :: m in s && IsLeast(m, s)
  {
    var m := LeastExists(s);
  }

  function Least(s: set<nat>): (m: nat)
    requires s != {}
    ensures m in s && forall k :: k in s ==> m <= k
  {
    SomeLeast(s);
    var m :| m in s && IsLeast(m, s);
    m
  }

  /** The keys of a `BTreeMap` in iteration order. */
  function SortedKeys(s: set<nat>): (ks: seq<nat>)
    ensures Ascending(ks)
    ensures forall k :: k in ks <==> k in s
    ensures |ks| == |s|
  {
    if s == {} then [] else
      var m := Least(s);
      var rest := SortedKeys(s - {m});
      [m] + rest
  }

  /** A table seen through a view of its values. */
  function Image<V, W>(m: map<nat, V>, view: V -> W): map<nat, W> {
    map k | k in m :: view(m[k])
  }

  lemma ImageUpdate<V, W>(m: map<nat, V>, view: V -> W, k: nat, v: V)
    ensures Image(m[k := v], view) == Image(m, view)[k := view(v)]
  {
  }

  lemma ImageSame<V, W>(m: map<nat, V>, view: V -> W, k: nat, v: V)
    requires k in m && view(m[k]) == view(v)
    ensures Image(m[k := v], view) == Image(m, view)
  {
  }

  lemma ImageRemove<V, W>(m: map<nat, V>, view: V -> W, k: nat)
    ensures Image(m - {k}, view) == Image(m, view) - {k}
  {
  }

  ghost function MapSum(m: map<nat, nat>): (total: nat)
    decreases m.Keys
  {
    if m.Keys == {} then 0 else
      var k :| k in m;
      m[k] + MapSum(m - {k})
  }

  lemma {:induction false} MapSumRemove(m: map<nat, nat>, k: nat)
    requires k in m
    ensures MapSum(m) == m[k] + MapSum(m - {k})
    decreases m.Keys
  {
    var j :| j in m && MapSum(m) == m[j] + MapSum(m - {j});
    if j != k {
      MapSumRemove(m - {j}, k);
      MapSumRemove(m - {k}, j);
      assert m - {j} - {k} == m - {k} - {j};
    }
  }

  lemma MapSumUpdate(m: map<nat, nat>, k: nat, v: nat)
    ensures MapSum(m[k := v]) == (if k in m then MapSum(m) - m[k] else MapSum(m)) + v
  {
    MapSumRemove(m[k := v], k);
    assert m[k := v] - {k} == m - {k};
    if k in m {
      MapSumRemove(m, k);
    } else {
      assert m - {k} == m;
    }
  }

  /** The sum of a quantity over all values of a table. */
  ghost function Total<V>(m: map<nat, V>, quantity: V -> nat): nat {
    MapSum(Image(m, quantity))
  }

  lemma TotalUpdate<V>(m: map<nat, V>, quantity: V -> nat, k: nat, v: V)
    ensures Total(m[k := v], quantity) ==
      (if k in m then Total(m, quantity) - quantity(m[k]) else Total(m, quantity)) + quantity(v)
  {
    ImageUpdate(m, quantity, k, v);
    MapSumUpdate(Image(m, quantity), k, quantity(v));
  }

  lemma TotalEmpty<V>(m: map<nat, V>, quantity: V -> nat)
    requires m == map[]
    ensures Total(m, quantity) == 0
  {
    assert Image(m, quantity) == map[];
  }

  // ---------------------------------------------------------------- prefixes

  lemma PrefixSnoc<T>(list: seq<T>, full: seq<T>)
    requires list <= full && |list| < |full|
    ensures list + [full[|list|]] <= full
  {
  }

  lemma PrefixWhole<T>(list: seq<T>, full: seq<T>)
    requires list <= full && |list| == |full|
    ensures list == full
  {
  }
}
