/**
 * `groups = defaultdict(list)` filled by `groups[key(x)].append(x)` for the
 * items that have a key: the groups in the order their keys first appear
 * (a Python dict keeps insertion order), each with its items in input order.
 */
module Grouping {
  import opened Common

  datatype Group<K, T> = Group(key: K, members: seq<T>)

  /** The items whose key is `k`, in input order. */
  function Members<K(==), T>(xs: seq<T>, key: T -> Option<K>, k: K): (g: seq<T>)
    ensures forall x :: x in g ==> x in xs && key(x) == Some(k)
    decreases |xs|
  {
    if xs == [] then []
    else
      var n := |xs| - 1;
      Members(xs[..n], key, k) + (if key(xs[n]) == Some(k) then [xs[n]] else [])
  }

  lemma MembersSnoc<K, T>(xs: seq<T>, x: T, key: T -> Option<K>, k: K)
    ensures Members(xs + [x], key, k) == Members(xs, key, k) + (if key(x) == Some(k) then [x] else [])
  {
    assert (xs + [x])[..|xs|] == xs;
  }

  /** The keys, each once, in the order they first appear. */
  function KeysOf<K(==), T>(xs: seq<T>, key: T -> Option<K>): (ks: seq<K>)
    decreases |xs|
  {
    if xs == [] then []
    else
      var n := |xs| - 1;
      var ks := KeysOf(xs[..n], key);
      if key(xs[n]).Some? && key(xs[n]).value !in ks then ks + [key(xs[n]).value] else ks
  }

  lemma KeysSnoc<K, T>(xs: seq<T>, x: T, key: T -> Option<K>)
    ensures KeysOf(xs + [x], key) ==
      if key(x).Some? && key(x).value !in KeysOf(xs, key) then KeysOf(xs, key) + [key(x).value] else KeysOf(xs, key)
  {
    assert (xs + [x])[..|xs|] == xs;
  }

  /** Each key is listed once, and exactly the keys some item has are listed. */
  lemma {:induction false} KeysOfSound<K, T>(xs: seq<T>, key: T -> Option<K>)
    ensures Distinct(KeysOf(xs, key))
    ensures forall k :: k in KeysOf(xs, key) <==> Members(xs, key, k) != []
    decreases |xs|
  {
    if xs != [] {
      var n := |xs| - 1;
      KeysOfSound(xs[..n], key);
      assert xs == xs[..n] + [xs[n]];
      KeysSnoc(xs[..n], xs[n], key);
      forall k ensures k in KeysOf(xs, key) <==> Members(xs, key, k) != [] {
        MembersSnoc(xs[..n], xs[n], key, k);
      }
    }
  }

  /** The groups the loop builds. */
  function Groups<K(==), T>(xs: seq<T>, key: T -> Option<K>): (gs: seq<Group<K, T>>)
    ensures |gs| == |KeysOf(xs, key)|
    ensures forall i :: 0 <= i < |gs| ==> gs[i] == Group(KeysOf(xs, key)[i], Members(xs, key, KeysOf(xs, key)[i]))
  {
    var ks := KeysOf(xs, key);
    seq(|ks|, i requires 0 <= i < |ks| => Group(ks[i], Members(xs, key, ks[i])))
  }

  /** `groups[k].append(x)`: the group for `k` grows by `x`, or a new group `[x]` goes last. */
  function Append<K(==), T>(gs: seq<Group<K, T>>, k: K, x: T): (r: seq<Group<K, T>>)
    decreases |gs|
  {
    if gs == [] then [Group(k, [x])]
    else if gs[0].key == k then [Group(k, gs[0].members + [x])] + gs[1..]
    else [gs[0]] + Append(gs[1..], k, x)
  }

  lemma {:induction false} AppendExisting<K, T>(gs: seq<Group<K, T>>, k: K, x: T, i: nat)
    requires i < |gs| && gs[i].key == k && forall j :: 0 <= j < i ==> gs[j].key != k
    ensures Append(gs, k, x) == gs[i := Group(k, gs[i].members + [x])]
    decreases i
  {
    if i > 0 {
      AppendExisting(gs[1..], k, x, i - 1);
      assert gs[1..][i - 1 := Group(k, gs[i].members + [x])] == gs[i := Group(k, gs[i].members + [x])][1..];
    }
  }

  lemma {:induction false} AppendNew<K, T>(gs: seq<Group<K, T>>, k: K, x: T)
    requires forall j :: 0 <= j < |gs| ==> gs[j].key != k
    ensures Append(gs, k, x) == gs + [Group(k, [x])]
    decreases |gs|
  {
    if gs != [] {
      AppendNew(gs[1..], k, x);
      assert gs == [gs[0]] + gs[1..];
    }
  }

  /** One more item: the loop's `groups[key].append(track)` keeps it equal to `Groups`. */
  lemma GroupsSnoc<K, T>(xs: seq<T>, x: T, key: T -> Option<K>)
    ensures Groups(xs + [x], key) == if key(x).Some? then Append(Groups(xs, key), key(x).value, x) else Groups(xs, key)
  {
    KeysSnoc(xs, x, key);
    KeysOfSound(xs, key);
    if key(x).Some? {
      if key(x).value in KeysOf(xs, key) {
        GroupsSnocExisting(xs, x, key);
      } else {
        GroupsSnocNew(xs, x, key);
        AppendNew(Groups(xs, key), key(x).value, x);
      }
    } else {
      var lhs := Groups(xs + [x], key);
      forall j | 0 <= j < |lhs| ensures lhs[j] == Groups(xs, key)[j] {
        MembersSnoc(xs, x, key, KeysOf(xs, key)[j]);
      }
    }
  }

  lemma GroupsSnocExisting<K, T>(xs: seq<T>, x: T, key: T -> Option<K>)
    requires key(x).Some? && key(x).value in KeysOf(xs, key)
    ensures Groups(xs + [x], key) == Append(Groups(xs, key), key(x).value, x)
  {
    var ks := KeysOf(xs, key);
    var gs := Groups(xs, key);
    var k := key(x).value;
    KeysSnoc(xs, x, key);
    assert KeysOf(xs + [x], key) == ks;
    KeysOfSound(xs, key);
    var i :| 0 <= i < |ks| && ks[i] == k;
    forall j | 0 <= j < i ensures gs[j].key != k {
      assert gs[j].key == ks[j];
    }
    AppendExisting(gs, k, x, i);
    var lhs := Groups(xs + [x], key);
    var rhs := gs[i := Group(k, gs[i].members + [x])];
    assert |lhs| == |rhs|;
    forall j | 0 <= j < |lhs| ensures lhs[j] == rhs[j] {
      MembersSnoc(xs, x, key, ks[j]);
      if j != i { assert ks[j] != k; }
    }
    SameAt(lhs, rhs);
  }

  lemma GroupsSnocNew<K, T>(xs: seq<T>, x: T, key: T -> Option<K>)
    requires key(x).Some? && key(x).value !in KeysOf(xs, key)
    ensures Groups(xs + [x], key) == Groups(xs, key) + [Group(key(x).value, [x])]
  {
    var ks := KeysOf(xs, key);
    var gs := Groups(xs, key);
    var k := key(x).value;
    KeysSnoc(xs, x, key);
    assert KeysOf(xs + [x], key) == ks + [k];
    KeysOfSound(xs, key);
    var lhs := Groups(xs + [x], key);
    var rhs := gs + [Group(k, [x])];
    assert |lhs| == |rhs|;
    forall j | 0 <= j < |lhs| ensures lhs[j] == rhs[j] {
      if j < |gs| {
        MembersSnoc(xs, x, key, ks[j]);
        assert ks[j] != k;
      } else {
        MembersSnoc(xs, x, key, k);
        assert Members(xs, key, k) == [];
      }
    }
    SameAt(lhs, rhs);
  }

  /** Every item that has a key is in the group for that key, and only there. */
  lemma GroupsPartition<K, T>(xs: seq<T>, key: T -> Option<K>, x: T)
    requires x in xs && key(x).Some?
    ensures exists i :: 0 <= i < |Groups(xs, key)| && Groups(xs, key)[i].key == key(x).value && x in Groups(xs, key)[i].members
    ensures forall i, j :: 0 <= i < j < |Groups(xs, key)| ==> Groups(xs, key)[i].key != Groups(xs, key)[j].key
  {
    KeysOfSound(xs, key);
    var k := key(x).value;
    MemberOf(xs, key, x);
    var ks := KeysOf(xs, key);
    assert Members(xs, key, k) != [];
    assert k in ks;
    var i :| 0 <= i < |ks| && ks[i] == k;
    assert Groups(xs, key)[i].key == k;
  }

  lemma {:induction false} MemberOf<K, T>(xs: seq<T>, key: T -> Option<K>, x: T)
    requires x in xs && key(x).Some?
    ensures x in Members(xs, key, key(x).value)
    decreases |xs|
  {
    var n := |xs| - 1;
    if xs[n] != x {
      assert x in xs[..n] by {
        var j :| 0 <= j < |xs| && xs[j] == x;
        assert j < n && xs[..n][j] == x;
      }
      MemberOf(xs[..n], key, x);
    }
  }

  /** The total size of the groups. */
  function Size<K, T>(gs: seq<Group<K, T>>): nat
    decreases |gs|
  {
    if gs == [] then 0 else |gs[0].members| + Size(gs[1..])
  }

  lemma {:induction false} AppendSize<K, T>(gs: seq<Group<K, T>>, k: K, x: T)
    ensures Size(Append(gs, k, x)) == Size(gs) + 1
    decreases |gs|
  {
    if gs != [] && gs[0].key != k {
      AppendSize(gs[1..], k, x);
      assert Append(gs, k, x)[1..] == Append(gs[1..], k, x);
    } else if gs != [] {
      assert Append(gs, k, x)[1..] == gs[1..];
    }
  }

  function HasKey<K, T>(key: T -> Option<K>): T -> bool {
    x => key(x).Some?
  }

  /** The groups hold exactly as many items as have a key. */
  lemma {:induction false} GroupsSize<K, T>(xs: seq<T>, key: T -> Option<K>)
    ensures Size(Groups(xs, key)) == CountWhere(xs, HasKey(key))
    decreases |xs|
  {
    if xs != [] {
      var n := |xs| - 1;
      GroupsSize(xs[..n], key);
      assert xs == xs[..n] + [xs[n]];
      GroupsSnoc(xs[..n], xs[n], key);
      if key(xs[n]).Some? {
        AppendSize(Groups(xs[..n], key), key(xs[n]).value, xs[n]);
      }
    }
  }

  /** `groups.get(k, [])` */
  function Lookup<K(==), T>(gs: seq<Group<K, T>>, k: K): seq<T>
    decreases |gs|
  {
    if gs == [] then [] else if gs[0].key == k then gs[0].members else Lookup(gs[1..], k)
  }

  lemma {:induction false} LookupAt<K, T>(gs: seq<Group<K, T>>, k: K, i: nat)
    requires i < |gs| && gs[i].key == k && forall j :: 0 <= j < i ==> gs[j].key != k
    ensures Lookup(gs, k) == gs[i].members
    decreases i
  {
    if i > 0 {
      LookupAt(gs[1..], k, i - 1);
    }
  }

  lemma {:induction false} LookupMissing<K, T>(gs: seq<Group<K, T>>, k: K)
    requires forall j :: 0 <= j < |gs| ==> gs[j].key != k
    ensures Lookup(gs, k) == []
    decreases |gs|
  {
    if gs != [] {
      LookupMissing(gs[1..], k);
    }
  }

  /** Looking a key up in the groups gives the items with that key, and nothing for a key no item has. */
  lemma LookupGroups<K, T>(xs: seq<T>, key: T -> Option<K>, k: K)
    ensures Lookup(Groups(xs, key), k) == Members(xs, key, k)
  {
    var ks := KeysOf(xs, key);
    KeysOfSound(xs, key);
    if k in ks {
      var i :| 0 <= i < |ks| && ks[i] == k;
      LookupAt(Groups(xs, key), k, i);
    } else {
      LookupMissing(Groups(xs, key), k);
    }
  }

  /** The items whose key is `k`. */
  function Where<K(==), T>(key: T -> Option<K>, k: K): T -> bool {
    x => key(x) == Some(k)
  }

  /** A group holds as many items as have its key. */
  lemma {:induction false} MembersCount<K, T>(xs: seq<T>, key: T -> Option<K>, k: K)
    ensures |Members(xs, key, k)| == CountWhere(xs, Where(key, k))
    decreases |xs|
  {
    if xs != [] {
      MembersCount(xs[..|xs| - 1], key, k);
    }
  }
}
