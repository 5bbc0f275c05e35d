/** PHP's ordered arrays as the grouping functions use them: a dictionary from
    string keys to buckets that remembers insertion order. `$a[$k] = $v`
    replaces the value in place when the key exists and appends otherwise;
    `unset($a[$k])` removes the key; `ksort` / `krsort` order the keys. */
module OrderedArray {
  import opened Php

  /** One element of a bucket, under its PHP array key. */
  datatype Entry<V> = Entry(key: nat, value: V)

  /** One key of the grouped dictionary and the bucket stored under it. */
  datatype Group<V> = Group(key: string, bucket: seq<Entry<V>>)

  predicate KeysDistinct<V>(gs: seq<Group<V>>) {
    forall p, q | 0 <= p < q < |gs| :: gs[p].key != gs[q].key
  }

  predicate HasKey<V>(gs: seq<Group<V>>, k: string) {
    exists p | 0 <= p < |gs| :: gs[p].key == k
  }

  /** The position of key `k`, if present. */
  function Find<V>(gs: seq<Group<V>>, k: string): (r: Option<nat>)
    ensures r.Some? ==> r.value < |gs| && gs[r.value].key == k
    ensures r.None? ==> forall p | 0 <= p < |gs| :: gs[p].key != k
  {
    if gs == [] then None
    else if gs[|gs| - 1].key == k then Some(|gs| - 1)
    else Find(gs[..|gs| - 1], k)
  }

  /** `$a[$k] ?? []`: the bucket under `k`, or an empty one. */
  function Lookup<V>(gs: seq<Group<V>>, k: string): (b: seq<Entry<V>>)
    ensures !HasKey(gs, k) ==> b == []
    ensures KeysDistinct(gs) ==> forall p | 0 <= p < |gs| && gs[p].key == k :: b == gs[p].bucket
  {
    match Find(gs, k)
    case None => []
    case Some(p) => gs[p].bucket
  }

  /** `$a[$k] = $b`: replaced in place when `k` is present, appended otherwise. */
  function Assign<V>(gs: seq<Group<V>>, k: string, b: seq<Entry<V>>): (r: seq<Group<V>>)
    ensures Group(k, b) in r
    ensures forall g | g in r :: g in gs || g == Group(k, b)
    ensures forall g | g in gs && g.key != k :: g in r
    ensures !HasKey(gs, k) ==> r == gs + [Group(k, b)]
    ensures KeysDistinct(gs) ==> KeysDistinct(r)
    ensures KeysDistinct(gs) ==> forall p | 0 <= p < |gs| && gs[p].key == k :: r == gs[p := Group(k, b)]
  {
    match Find(gs, k)
    case None => gs + [Group(k, b)]
    case Some(p) =>
      var r := gs[p := Group(k, b)];
      assert r[p] == Group(k, b);
      assert forall g | g in gs && g.key != k :: g in r by {
        forall g | g in gs && g.key != k ensures g in r {
          var q :| 0 <= q < |gs| && gs[q] == g;
          assert r[q] == g;
        }
      }
      r
  }

  /** `unset($a[$k])`: every group keyed `k` goes, the others keep their order. */
  function Unset<V>(gs: seq<Group<V>>, k: string): (r: seq<Group<V>>)
    ensures !HasKey(gs, k) ==> r == gs
  {
    if gs == [] then []
    else
      var rest := Unset(gs[1..], k);
      if gs[0].key == k then rest else [gs[0]] + rest
  }

  lemma {:induction false} UnsetMembers<V>(gs: seq<Group<V>>, k: string)
    ensures forall g | g in Unset(gs, k) :: g in gs && g.key != k
    ensures forall g | g in gs && g.key != k :: g in Unset(gs, k)
  {
    if gs != [] {
      UnsetMembers(gs[1..], k);
      assert gs == [gs[0]] + gs[1..];
    }
  }

  lemma TailKeysDistinct<V>(gs: seq<Group<V>>)
    requires KeysDistinct(gs) && gs != []
    ensures KeysDistinct(gs[1..])
    ensures !HasKey(gs[1..], gs[0].key)
  {
    var tail := gs[1..];
    forall i, j | 0 <= i < j < |tail| ensures tail[i].key != tail[j].key {
      assert tail[i] == gs[i + 1] && tail[j] == gs[j + 1];
    }
    forall q | 0 <= q < |tail| ensures tail[q].key != gs[0].key {
      assert tail[q] == gs[q + 1];
    }
  }

  /** With distinct keys, unsetting a present key cuts out exactly its group. */
  lemma {:induction false} UnsetAt<V>(gs: seq<Group<V>>, p: nat)
    requires KeysDistinct(gs) && p < |gs|
    ensures Unset(gs, gs[p].key) == gs[..p] + gs[p + 1..]
  {
    var k := gs[p].key;
    var tail := gs[1..];
    TailKeysDistinct(gs);
    if p == 0 {
      assert Unset(gs, k) == Unset(tail, k) == tail;
      assert gs[..0] + gs[1..] == tail;
    } else {
      assert gs[0].key != k;
      assert tail[p - 1] == gs[p];
      UnsetAt(tail, p - 1);
      assert Unset(gs, k) == [gs[0]] + (tail[..p - 1] + tail[p..]);
      assert tail[..p - 1] == gs[1..p] && tail[p..] == gs[p + 1..];
      assert gs[..p] == [gs[0]] + gs[1..p];
    }
  }

  /** Assigning under `k` changes what `k` reads and nothing else. */
  lemma LookupAssign<V>(gs: seq<Group<V>>, k: string, b: seq<Entry<V>>, t: string)
    requires KeysDistinct(gs)
    ensures Lookup(Assign(gs, k, b), t) == if t == k then b else Lookup(gs, t)
  {
    var r := Assign(gs, k, b);
    if t == k {
      var p :| 0 <= p < |r| && r[p] == Group(k, b);
    } else if HasKey(gs, t) {
      var p :| 0 <= p < |gs| && gs[p].key == t;
      assert gs[p] in r;
      var q :| 0 <= q < |r| && r[q] == gs[p];
    } else {
      assert !HasKey(r, t) by {
        forall q | 0 <= q < |r| ensures r[q].key != t {
          assert r[q] in gs || r[q] == Group(k, b);
        }
      }
    }
  }

  lemma {:induction false} UnsetKeysDistinct<V>(gs: seq<Group<V>>, k: string)
    requires KeysDistinct(gs)
    ensures KeysDistinct(Unset(gs, k))
  {
    if gs != [] {
      TailKeysDistinct(gs);
      UnsetKeysDistinct(gs[1..], k);
      UnsetMembers(gs[1..], k);
      var rest := Unset(gs[1..], k);
      if gs[0].key != k {
        assert !HasKey(rest, gs[0].key) by {
          forall q | 0 <= q < |rest| ensures rest[q].key != gs[0].key {
            assert rest[q] in gs[1..];
          }
        }
        ConsKeysDistinct(gs[0], rest);
      }
    }
  }

  /** A group whose key is new can head a dictionary with distinct keys. */
  lemma ConsKeysDistinct<V>(h: Group<V>, gs: seq<Group<V>>)
    requires KeysDistinct(gs) && !HasKey(gs, h.key)
    ensures KeysDistinct([h] + gs)
  {
    var r := [h] + gs;
    forall p, q | 0 <= p < q < |r| ensures r[p].key != r[q].key {
      assert r[q] == gs[q - 1];
      if p > 0 {
        assert r[p] == gs[p - 1];
      }
    }
  }

  // ---------------------------------------------------------------------------
  // ksort / krsort

  datatype SortOrder = Ascending | Descending

  /** The sort function named by `$direction` in `$direction($grouped)`. */
  function SortFunction(direction: Value): Option<SortOrder> {
    if direction == Str("ksort") then Some(Ascending)
    else if direction == Str("krsort") then Some(Descending)
    else None
  }

  predicate Precedes(order: SortOrder, a: string, b: string) {
    match order
    case Ascending => Less(a, b)
    case Descending => Less(b, a)
  }

  predicate SortedBy<V>(gs: seq<Group<V>>, order: SortOrder) {
    forall p, q | 0 <= p < q < |gs| :: Precedes(order, gs[p].key, gs[q].key)
  }

  lemma PrecedesTotal(order: SortOrder, a: string, b: string)
    requires a != b
    ensures Precedes(order, a, b) || Precedes(order, b, a)
    ensures !(Precedes(order, a, b) && Precedes(order, b, a))
  {
    LessTotal(a, b);
    if Less(a, b) && Less(b, a) {
      LessTransitive(a, b, a);
      LessIrreflexive(a);
    }
  }

  lemma PrecedesTransitive(order: SortOrder, a: string, b: string, c: string)
    requires Precedes(order, a, b) && Precedes(order, b, c)
    ensures Precedes(order, a, c)
  {
    if order == Ascending { LessTransitive(a, b, c); } else { LessTransitive(c, b, a); }
  }

  /** A strictly ordered key sequence has no key twice. */
  lemma SortedKeysDistinct<V>(gs: seq<Group<V>>, order: SortOrder)
    requires SortedBy(gs, order)
    ensures KeysDistinct(gs)
  {
    forall p, q | 0 <= p < q < |gs| ensures gs[p].key != gs[q].key {
      LessIrreflexive(gs[p].key);
    }
  }

  function Insert<V>(g: Group<V>, gs: seq<Group<V>>, order: SortOrder): (r: seq<Group<V>>)
    ensures multiset(r) == multiset(gs) + multiset{g}
  {
    if gs == [] then [g]
    else if Precedes(order, g.key, gs[0].key) then [g] + gs
    else
      assert gs == [gs[0]] + gs[1..];
      [gs[0]] + Insert(g, gs[1..], order)
  }

  /** The dictionary after `ksort` (Ascending) or `krsort` (Descending). */
  function KSort<V>(gs: seq<Group<V>>, order: SortOrder): (r: seq<Group<V>>)
    ensures multiset(r) == multiset(gs)
  {
    if gs == [] then []
    else
      assert gs == [gs[0]] + gs[1..];
      Insert(gs[0], KSort(gs[1..], order), order)
  }

  lemma {:induction false} InsertSorted<V>(g: Group<V>, gs: seq<Group<V>>, order: SortOrder)
    requires SortedBy(gs, order)
    requires !HasKey(gs, g.key)
    ensures SortedBy(Insert(g, gs, order), order)
  {
    if gs == [] {
    } else if Precedes(order, g.key, gs[0].key) {
      forall x | x in gs ensures Precedes(order, g.key, x.key) {
        var q :| 0 <= q < |gs| && gs[q] == x;
        if q > 0 {
          PrecedesTransitive(order, g.key, gs[0].key, x.key);
        }
      }
      ConsSorted(g, gs, order);
    } else {
      InsertSorted(g, gs[1..], order);
      HeadPrecedesInsert(g, gs, order);
      ConsSorted(gs[0], Insert(g, gs[1..], order), order);
    }
  }

  /** A group whose key precedes every key of a sorted dictionary can head it. */
  lemma ConsSorted<V>(h: Group<V>, gs: seq<Group<V>>, order: SortOrder)
    requires SortedBy(gs, order)
    requires forall x | x in gs :: Precedes(order, h.key, x.key)
    ensures SortedBy([h] + gs, order)
  {
    var r := [h] + gs;
    forall p, q | 0 <= p < q < |r| ensures Precedes(order, r[p].key, r[q].key) {
      if p == 0 {
        assert r[q] in gs;
      } else {
        assert r[p] == gs[p - 1] && r[q] == gs[q - 1];
      }
    }
  }

  /** When `g` goes after the first group, that group precedes everything the
      insertion into the rest yields. */
  lemma HeadPrecedesInsert<V>(g: Group<V>, gs: seq<Group<V>>, order: SortOrder)
    requires SortedBy(gs, order) && gs != []
    requires !HasKey(gs, g.key)
    requires !Precedes(order, g.key, gs[0].key)
    ensures forall x | x in Insert(g, gs[1..], order) :: Precedes(order, gs[0].key, x.key)
  {
    var tail := Insert(g, gs[1..], order);
    PrecedesTotal(order, g.key, gs[0].key);
    forall x | x in tail ensures Precedes(order, gs[0].key, x.key) {
      assert x in multiset(tail);
      if x != g {
        assert x in gs[1..];
        var q :| 0 <= q < |gs[1..]| && gs[1..][q] == x;
        assert gs[q + 1] == x;
      }
    }
  }

  /** ksort / krsort leave the keys strictly ordered in the chosen direction. */
  lemma {:induction false} KSortSorted<V>(gs: seq<Group<V>>, order: SortOrder)
    requires KeysDistinct(gs)
    ensures SortedBy(KSort(gs, order), order)
  {
    if gs != [] {
      var rest := gs[1..];
      assert KeysDistinct(rest) by {
        forall p, q | 0 <= p < q < |rest| ensures rest[p].key != rest[q].key {
          assert rest[p] == gs[p + 1] && rest[q] == gs[q + 1];
        }
      }
      KSortSorted(rest, order);
      var sorted := KSort(rest, order);
      forall x | x in sorted ensures x.key != gs[0].key {
        assert x in multiset(sorted);
        assert x in rest;
        var q :| 0 <= q < |rest| && rest[q] == x;
        assert gs[q + 1] == x;
      }
      InsertSorted(gs[0], sorted, order);
    }
  }

  /** Sorting neither adds nor drops a group. */
  lemma KSortSameGroups<V>(gs: seq<Group<V>>, order: SortOrder)
    ensures |KSort(gs, order)| == |gs|
    ensures forall g | g in KSort(gs, order) :: g in gs
    ensures forall g | g in gs :: g in KSort(gs, order)
  {
    var r := KSort(gs, order);
    assert |multiset(r)| == |multiset(gs)|;
    forall g | g in r ensures g in gs {
      assert g in multiset(r);
    }
    forall g | g in gs ensures g in r {
      assert g in multiset(gs);
    }
  }
}
