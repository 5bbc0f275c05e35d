/** The grouping helpers of the articles module: `groupBy` (by a named
    property), `groupByDate` (by a year or year-month prefix of a date) and
    `groupByTags` (by tag title). Each fills an ordered dictionary in a loop and
    then sorts it by key with `ksort` or `krsort`. */
module Grouping {
  import opened Php
  import opened OrderedArray
  import opened Article

  /** The `$list` argument of groupBy / groupByDate: an array of items, the empty
      string, or a single item that is not wrapped in an array. */
  datatype ListArg = Items(items: seq<Item>) | EmptyString | Single(item: Item)

  function ListItems(list: ListArg): seq<Item> {
    match list
    case Items(xs) => xs
    case EmptyString => []
    case Single(x) => [x]
  }

  /** What groupBy stores in a bucket: the item, or one of its properties when
      `$fieldNameToKeep` is given. */
  datatype Kept = Whole(item: Item) | Field(value: string)

  // ---------------------------------------------------------------------------
  // Partitions

  predicate EntriesAscending<V>(b: seq<Entry<V>>) {
    forall p, q | 0 <= p < q < |b| :: b[p].key < b[q].key
  }

  /** A non-empty bucket of entries `Entry(i, store(items[i]))`, in input order,
      all with key `g.key`. */
  ghost predicate GroupOf<T, V>(g: Group<V>, items: seq<T>, keyOf: T -> string, store: T -> V) {
    && g.bucket != []
    && EntriesAscending(g.bucket)
    && forall e | e in g.bucket :: e.key < |items| && keyOf(items[e.key]) == g.key && e.value == store(items[e.key])
  }

  /** Item `i` sits in the bucket of its own key. */
  ghost predicate Placed<T, V>(gs: seq<Group<V>>, items: seq<T>, keyOf: T -> string, store: T -> V, i: nat)
    requires i < |items|
  {
    exists g | g in gs :: g.key == keyOf(items[i]) && Entry(i, store(items[i])) in g.bucket
  }

  /** `gs` partitions `items` by `keyOf`: one bucket per key, each item placed
      under its own list key in the bucket of its key, buckets in input order. */
  ghost predicate IsPartition<T, V>(gs: seq<Group<V>>, items: seq<T>, keyOf: T -> string, store: T -> V) {
    && KeysDistinct(gs)
    && (forall g | g in gs :: GroupOf(g, items, keyOf, store))
    && (forall i | 0 <= i < |items| :: Placed(gs, items, keyOf, store, i))
  }

  /** One step of the grouping loop: put item `n` into the bucket of its key,
      creating the bucket first when the key is new. */
  function AddItem<T, V>(gs: seq<Group<V>>, items: seq<T>, keyOf: T -> string, store: T -> V, n: nat): seq<Group<V>>
    requires n < |items|
  {
    var k := keyOf(items[n]);
    var created := if Find(gs, k).None? then Assign(gs, k, []) else gs;
    Assign(created, k, Lookup(created, k) + [Entry(n, store(items[n]))])
  }

  lemma AddItemKeepsPartition<T, V>(gs: seq<Group<V>>, items: seq<T>, keyOf: T -> string, store: T -> V, n: nat)
    requires n < |items|
    requires IsPartition(gs, items[..n], keyOf, store)
    ensures IsPartition(AddItem(gs, items, keyOf, store, n), items[..n + 1], keyOf, store)
  {
    var k := keyOf(items[n]);
    var e := Entry(n, store(items[n]));
    match Find(gs, k)
    case None =>
      var created := Assign(gs, k, []);
      assert created == gs + [Group(k, [])];
      assert created[|gs|].key == k && KeysDistinct(created);
      assert Lookup(created, k) == [];
      assert Assign(created, k, [e]) == created[|gs| := Group(k, [e])] == gs + [Group(k, [e])];
      assert [] + [e] == [e];
      assert AddItem(gs, items, keyOf, store, n) == Assign(created, k, [] + [e]);
      assert !HasKey(gs, k);
      NewKeyKeepsPartition(gs, items, keyOf, store, n);
    case Some(p) =>
      assert AddItem(gs, items, keyOf, store, n) == gs[p := Group(k, gs[p].bucket + [e])];
      KnownKeyKeepsPartition(gs, items, keyOf, store, n, p);
  }

  /** An item whose key is new opens a bucket of its own at the end. */
  lemma NewKeyKeepsPartition<T, V>(gs: seq<Group<V>>, items: seq<T>, keyOf: T -> string, store: T -> V, n: nat)
    requires n < |items|
    requires IsPartition(gs, items[..n], keyOf, store)
    requires !HasKey(gs, keyOf(items[n]))
    ensures IsPartition(gs + [Group(keyOf(items[n]), [Entry(n, store(items[n]))])], items[..n + 1], keyOf, store)
  {
    var added := Group(keyOf(items[n]), [Entry(n, store(items[n]))]);
    var r := gs + [added];
    forall p, q | 0 <= p < q < |r| ensures r[p].key != r[q].key {
      assert r[p] == gs[p];
    }
    ExtendedBucket(items, keyOf, store, n, []);
    forall g | g in r ensures GroupOf(g, items[..n + 1], keyOf, store) {
      if g in gs {
        OlderGroup(g, items, keyOf, store, n);
      }
    }
    var after := items[..n + 1];
    forall i | 0 <= i < |after| ensures Placed(r, after, keyOf, store, i) {
      if i == n {
        assert added in r;
      } else {
        assert after[i] == items[..n][i];
        assert Placed(gs, items[..n], keyOf, store, i);
      }
    }
  }

  /** An item whose key is present joins the end of that key's bucket. */
  lemma KnownKeyKeepsPartition<T, V>(gs: seq<Group<V>>, items: seq<T>, keyOf: T -> string, store: T -> V,
                                     n: nat, p: nat)
    requires n < |items|
    requires IsPartition(gs, items[..n], keyOf, store)
    requires p < |gs| && gs[p].key == keyOf(items[n])
    ensures IsPartition(gs[p := Group(gs[p].key, gs[p].bucket + [Entry(n, store(items[n]))])], items[..n + 1],
                        keyOf, store)
  {
    var grown := Group(gs[p].key, gs[p].bucket + [Entry(n, store(items[n]))]);
    var r := gs[p := grown];
    assert gs[p] in gs;
    ExtendedBucket(items, keyOf, store, n, gs[p].bucket);
    forall g | g in r ensures GroupOf(g, items[..n + 1], keyOf, store) {
      var q :| 0 <= q < |r| && r[q] == g;
      if q != p {
        assert gs[q] in gs;
        OlderGroup(g, items, keyOf, store, n);
      }
    }
    var after := items[..n + 1];
    forall i | 0 <= i < |after| ensures Placed(r, after, keyOf, store, i) {
      if i == n {
        assert r[p] == grown;
      } else {
        assert after[i] == items[..n][i];
        assert Placed(gs, items[..n], keyOf, store, i);
        var g :| g in gs && g.key == keyOf(items[i]) && Entry(i, store(items[i])) in g.bucket;
        var q :| 0 <= q < |gs| && gs[q] == g;
        assert r[q] in r;
      }
    }
  }

  /** The bucket of the new item's key, with the item appended, is a group of
      the longer prefix. */
  lemma ExtendedBucket<T, V>(items: seq<T>, keyOf: T -> string, store: T -> V, n: nat, b: seq<Entry<V>>)
    requires n < |items|
    requires b == [] || GroupOf(Group(keyOf(items[n]), b), items[..n], keyOf, store)
    ensures GroupOf(Group(keyOf(items[n]), b + [Entry(n, store(items[n]))]), items[..n + 1], keyOf, store)
  {
    var before, after := items[..n], items[..n + 1];
    var nb := b + [Entry(n, store(items[n]))];
    forall x | x in nb
      ensures x.key < |after| && keyOf(after[x.key]) == keyOf(items[n]) && x.value == store(after[x.key])
    {
      if x in b {
        assert after[x.key] == before[x.key];
      }
    }
    forall p, q | 0 <= p < q < |nb| ensures nb[p].key < nb[q].key {
      if q < |b| {
        assert nb[p] == b[p] && nb[q] == b[q];
      } else {
        assert nb[p] in b;
      }
    }
  }

  /** A group of a prefix is still a group of a longer prefix. */
  lemma OlderGroup<T, V>(g: Group<V>, items: seq<T>, keyOf: T -> string, store: T -> V, n: nat)
    requires n < |items|
    requires GroupOf(g, items[..n], keyOf, store)
    ensures GroupOf(g, items[..n + 1], keyOf, store)
  {
    forall x | x in g.bucket ensures items[..n + 1][x.key] == items[..n][x.key] { }
  }

  /** The grouping loop shared by groupBy and groupByDate: every item goes into
      the bucket of its key, under its position in the list. */
  method Bucketize<T, V>(items: seq<T>, keyOf: T -> string, store: T -> V) returns (grouped: seq<Group<V>>)
    ensures IsPartition(grouped, items, keyOf, store)
  {
    grouped := [];
    var i := 0;
    while i < |items|
      invariant i <= |items|
      invariant IsPartition(grouped, items[..i], keyOf, store)
    {
      ghost var previous := grouped;
      var k := keyOf(items[i]);
      if Find(grouped, k).None? {
        grouped := Assign(grouped, k, []);
      }
      grouped := Assign(grouped, k, Lookup(grouped, k) + [Entry(i, store(items[i]))]);
      assert grouped == AddItem(previous, items, keyOf, store, i);
      AddItemKeepsPartition(previous, items, keyOf, store, i);
      i := i + 1;
    }
    assert items[..i] == items;
  }

  /** ksort / krsort only reorder the buckets, so the partition survives and the
      keys come out strictly ordered. */
  lemma PartitionSurvivesSort<T, V>(gs: seq<Group<V>>, items: seq<T>, keyOf: T -> string, store: T -> V, order: SortOrder)
    requires IsPartition(gs, items, keyOf, store)
    ensures IsPartition(KSort(gs, order), items, keyOf, store)
    ensures SortedBy(KSort(gs, order), order)
  {
    var sorted := KSort(gs, order);
    KSortSameGroups(gs, order);
    KSortSorted(gs, order);
    SortedKeysDistinct(sorted, order);
    forall i | 0 <= i < |items| ensures Placed(sorted, items, keyOf, store, i) {
      assert Placed(gs, items, keyOf, store, i);
      var g :| g in gs && g.key == keyOf(items[i]) && Entry(i, store(items[i])) in g.bucket;
      assert g in sorted;
    }
  }

  /** In a partition, an item appears in exactly one bucket and exactly once in it. */
  lemma EachItemPlacedOnce<T, V>(gs: seq<Group<V>>, items: seq<T>, keyOf: T -> string, store: T -> V,
                                  p: nat, j: nat, p': nat, j': nat)
    requires IsPartition(gs, items, keyOf, store)
    requires p < |gs| && j < |gs[p].bucket| && p' < |gs| && j' < |gs[p'].bucket|
    requires gs[p].bucket[j].key == gs[p'].bucket[j'].key
    ensures p == p' && j == j'
  {
    var i := gs[p].bucket[j].key;
    assert GroupOf(gs[p], items, keyOf, store) && gs[p].bucket[j] in gs[p].bucket;
    assert GroupOf(gs[p'], items, keyOf, store) && gs[p'].bucket[j'] in gs[p'].bucket;
    assert gs[p].key == keyOf(items[i]) == gs[p'].key;
    assert p == p';
    assert EntriesAscending(gs[p].bucket);
  }

  /** There is one bucket per distinct key value of the items, and no other. */
  lemma PartitionKeys<T, V>(gs: seq<Group<V>>, items: seq<T>, keyOf: T -> string, store: T -> V, k: string)
    requires IsPartition(gs, items, keyOf, store)
    ensures HasKey(gs, k) <==> exists i | 0 <= i < |items| :: keyOf(items[i]) == k
  {
    if HasKey(gs, k) {
      var p :| 0 <= p < |gs| && gs[p].key == k;
      assert GroupOf(gs[p], items, keyOf, store);
      assert gs[p].bucket[0] in gs[p].bucket;
    }
    if exists i | 0 <= i < |items| :: keyOf(items[i]) == k {
      var i :| 0 <= i < |items| && keyOf(items[i]) == k;
      assert Placed(gs, items, keyOf, store, i);
      var g :| g in gs && g.key == keyOf(items[i]) && Entry(i, store(items[i])) in g.bucket;
      var p :| 0 <= p < |gs| && gs[p] == g;
    }
  }

  // ---------------------------------------------------------------------------
  // groupBy

  /** The group key of groupBy: `$item->$fieldName`. */
  function PropertyKey(fieldName: string): Item -> string {
    (item: Item) => Property(item, fieldName)
  }

  /** What groupBy stores for an item. */
  function KeepFn(fieldNameToKeep: Option<string>): Item -> Kept {
    match fieldNameToKeep
    case None => (item: Item) => Whole(item)
    case Some(f) => (item: Item) => Field(Property(item, f))
  }

  /** groupBy($list, $fieldName, $direction, $fieldNameToKeep). */
  method GroupBy(list: ListArg, fieldName: string, direction: Value, fieldNameToKeep: Option<string>)
    returns (r: Result<seq<Group<Kept>>>)
    ensures list.EmptyString? ==> r == Success([])
    ensures !list.EmptyString? ==> (r.Success? <==> SortFunction(direction).Some?)
    ensures r.Failure? ==> r.fault == SortCallNotModelled(direction)
    ensures r.Success? ==> IsPartition(r.value, ListItems(list), PropertyKey(fieldName), KeepFn(fieldNameToKeep))
    ensures r.Success? && !list.EmptyString? ==> SortedBy(r.value, SortFunction(direction).value)
  {
    if list.EmptyString? {
      return Success([]);
    }
    var items := ListItems(list);
    var grouped := Bucketize(items, PropertyKey(fieldName), KeepFn(fieldNameToKeep));
    match SortFunction(direction) {
      case None =>
        r := Failure(SortCallNotModelled(direction));
      case Some(order) =>
        PartitionSurvivesSort(grouped, items, PropertyKey(fieldName), KeepFn(fieldNameToKeep), order);
        r := Success(KSort(grouped, order));
    }
  }

  // ---------------------------------------------------------------------------
  // groupByDate

  /** StringHelper::substr($s, 0, $n). */
  function Prefix(s: string, n: nat): (p: string)
    ensures |p| == if |s| <= n then |s| else n
    ensures p == s[..|p|]
  {
    if |s| <= n then s else s[..n]
  }

  /** The raw group key of groupByDate: the first 7 characters of the date for
      'month_year' (`switch` compares loosely), the first 4 for every other type. */
  function DateKey(groupingType: Value, field: string): Item -> string {
    (item: Item) => Prefix(Property(item, field), DateWidth(groupingType))
  }

  function DateWidth(groupingType: Value): (width: nat)
    ensures width == 7 || width == 4
  {
    if LooseEqualsLabel(groupingType, "month_year") then 7 else 4
  }

  function ItemSelf(): Item -> Item {
    (item: Item) => item
  }

  /** `(new Date($group))->format($monthYearFormat)`, the date formatting being
      the `formatDate` collaborator. */
  function MonthLabel(formatDate: (string, string) -> string, monthYearFormat: string): string -> string {
    (group: string) => formatDate(group, monthYearFormat)
  }

  /** Each group renamed by `labelOf`, in the same order. */
  function Relabelled<V>(gs: seq<Group<V>>, labelOf: string -> string): (r: seq<Group<V>>)
    ensures |r| == |gs|
    ensures forall p | 0 <= p < |gs| :: r[p] == Group(labelOf(gs[p].key), gs[p].bucket)
  {
    if gs == [] then []
    else Relabelled(gs[..|gs| - 1], labelOf) + [Group(labelOf(gs[|gs| - 1].key), gs[|gs| - 1].bucket)]
  }

  /** No label is one of the raw keys, and distinct raw keys get distinct labels. */
  ghost predicate FreshLabels<V>(gs: seq<Group<V>>, labelOf: string -> string) {
    && (forall p, q | 0 <= p < |gs| && 0 <= q < |gs| :: labelOf(gs[p].key) != gs[q].key)
    && (forall p, q | 0 <= p < |gs| && 0 <= q < |gs| && labelOf(gs[p].key) == labelOf(gs[q].key) :: p == q)
  }

  /** The format reproduces every key. */
  ghost predicate LabelsAreKeys<V>(gs: seq<Group<V>>, labelOf: string -> string) {
    forall h | h in gs :: labelOf(h.key) == h.key
  }

  /** What the relabelling loop of groupByDate guarantees: keys stay distinct and
      every bucket left is an original bucket under the label of its key; with
      fresh, injective labels the result is the relabelled dictionary in the same
      order; when a label equals its own key, `unset` deletes the group, so a
      format that reproduces every key empties the dictionary. */
  ghost predicate RelabelOutcome<V>(before: seq<Group<V>>, after: seq<Group<V>>, labelOf: string -> string) {
    && KeysDistinct(after)
    && (forall g | g in after :: exists h | h in before :: g == Group(labelOf(h.key), h.bucket))
    && (FreshLabels(before, labelOf) ==> after == Relabelled(before, labelOf))
    && (LabelsAreKeys(before, labelOf) ==> after == [])
  }

  /** The second loop of groupByDate: `$grouped[$label] = $items; unset($grouped[$group]);`
      for each group of the sorted dictionary, iterating over a snapshot of it. */
  method RelabelGroups<V>(sorted: seq<Group<V>>, labelOf: string -> string) returns (r: seq<Group<V>>)
    requires KeysDistinct(sorted)
    ensures RelabelOutcome(sorted, r, labelOf)
  {
    r := sorted;
    var i := 0;
    while i < |sorted|
      invariant i <= |sorted|
      invariant KeysDistinct(r)
      invariant forall g | g in r ::
        (exists h | h in sorted[..i] :: g == Group(labelOf(h.key), h.bucket)) || g in sorted[i..]
      invariant FreshLabels(sorted, labelOf) ==> r == sorted[i..] + Relabelled(sorted[..i], labelOf)
      invariant LabelsAreKeys(sorted, labelOf) ==> r == sorted[i..]
    {
      var g := sorted[i];
      ghost var previous := r;
      r := Assign(r, labelOf(g.key), g.bucket);
      ghost var withLabel := r;
      r := Unset(r, g.key);
      RelabelStepMembers(sorted, labelOf, i, previous, withLabel, r);
      if FreshLabels(sorted, labelOf) {
        FreshLabelAbsent(sorted, labelOf, i);
        RelabelStepFresh(sorted, i, Group(labelOf(g.key), g.bucket), Relabelled(sorted[..i], labelOf),
                         previous, withLabel, r);
        RelabelledSnoc(sorted, labelOf, i);
      }
      if LabelsAreKeys(sorted, labelOf) {
        RelabelStepIdentity(sorted, labelOf, i, previous, withLabel, r);
      }
      i := i + 1;
    }
    assert sorted[..i] == sorted;
  }

  lemma RelabelStepMembers<V>(sorted: seq<Group<V>>, labelOf: string -> string, i: nat,
                              previous: seq<Group<V>>, withLabel: seq<Group<V>>, r: seq<Group<V>>)
    requires KeysDistinct(sorted) && i < |sorted|
    requires KeysDistinct(previous)
    requires forall g | g in previous ::
        (exists h | h in sorted[..i] :: g == Group(labelOf(h.key), h.bucket)) || g in sorted[i..]
    requires withLabel == Assign(previous, labelOf(sorted[i].key), sorted[i].bucket)
    requires r == Unset(withLabel, sorted[i].key)
    ensures KeysDistinct(r)
    ensures forall g | g in r ::
        (exists h | h in sorted[..i + 1] :: g == Group(labelOf(h.key), h.bucket)) || g in sorted[i + 1..]
  {
    var g := sorted[i];
    var k, l := g.key, labelOf(g.key);
    UnsetMembers(withLabel, k);
    UnsetKeysDistinct(withLabel, k);
    assert sorted[..i + 1] == sorted[..i] + [g];
    forall x | x in r
      ensures (exists h | h in sorted[..i + 1] :: x == Group(labelOf(h.key), h.bucket)) || x in sorted[i + 1..]
    {
      assert x in withLabel && x.key != k;
      if x == Group(l, g.bucket) {
        assert g in sorted[..i + 1];
      } else {
        assert x in previous;
        if exists h | h in sorted[..i] :: x == Group(labelOf(h.key), h.bucket) {
          var h :| h in sorted[..i] && x == Group(labelOf(h.key), h.bucket);
          assert h in sorted[..i + 1];
        } else {
          assert x in sorted[i..];
          var q :| i <= q < |sorted| && sorted[q] == x;
          assert q != i;
          assert x in sorted[i + 1..];
        }
      }
    }
  }

  /** With fresh labels, one step moves the next group from the front of the
      dictionary to its end, under its label. */
  lemma RelabelStepFresh<V>(sorted: seq<Group<V>>, i: nat, moved: Group<V>, relabelled: seq<Group<V>>,
                            previous: seq<Group<V>>, withLabel: seq<Group<V>>, r: seq<Group<V>>)
    requires i < |sorted|
    requires previous == sorted[i..] + relabelled
    requires !HasKey(previous, moved.key)
    requires KeysDistinct(withLabel)
    requires withLabel == Assign(previous, moved.key, moved.bucket)
    requires r == Unset(withLabel, sorted[i].key)
    ensures r == sorted[i + 1..] + (relabelled + [moved])
  {
    DropHead(sorted, i, relabelled, moved);
    UnsetAt(withLabel, 0);
  }

  lemma DropHead<X>(s: seq<X>, i: nat, t: seq<X>, x: X)
    requires i < |s|
    ensures (s[i..] + t + [x])[0] == s[i]
    ensures (s[i..] + t + [x])[..0] + (s[i..] + t + [x])[1..] == s[i + 1..] + (t + [x])
  {
    assert (s[i..] + t + [x])[1..] == s[i + 1..] + (t + [x]);
  }

  /** The label of the next group is not yet a key of the dictionary. */
  lemma FreshLabelAbsent<V>(sorted: seq<Group<V>>, labelOf: string -> string, i: nat)
    requires i < |sorted| && FreshLabels(sorted, labelOf)
    ensures !HasKey(sorted[i..] + Relabelled(sorted[..i], labelOf), labelOf(sorted[i].key))
  {
    var previous := sorted[i..] + Relabelled(sorted[..i], labelOf);
    var l := labelOf(sorted[i].key);
    forall p | 0 <= p < |previous| ensures previous[p].key != l {
      if p < |sorted| - i {
        assert previous[p] == sorted[i + p];
      } else {
        var q := p - (|sorted| - i);
        assert previous[p].key == labelOf(sorted[q].key);
      }
    }
  }

  lemma RelabelledSnoc<V>(sorted: seq<Group<V>>, labelOf: string -> string, i: nat)
    requires i < |sorted|
    ensures Relabelled(sorted[..i + 1], labelOf)
         == Relabelled(sorted[..i], labelOf) + [Group(labelOf(sorted[i].key), sorted[i].bucket)]
  {
    assert sorted[..i + 1][..i] == sorted[..i];
  }

  lemma RelabelStepIdentity<V>(sorted: seq<Group<V>>, labelOf: string -> string, i: nat,
                               previous: seq<Group<V>>, withLabel: seq<Group<V>>, r: seq<Group<V>>)
    requires KeysDistinct(sorted) && i < |sorted|
    requires LabelsAreKeys(sorted, labelOf)
    requires previous == sorted[i..]
    requires withLabel == Assign(previous, labelOf(sorted[i].key), sorted[i].bucket)
    requires r == Unset(withLabel, sorted[i].key)
    ensures r == sorted[i + 1..]
  {
    var g := sorted[i];
    assert g in sorted;
    assert KeysDistinct(previous) by {
      forall p, q | 0 <= p < q < |previous| ensures previous[p].key != previous[q].key {
        assert previous[p] == sorted[i + p] && previous[q] == sorted[i + q];
      }
    }
    assert previous[0] == g;
    assert withLabel == previous[0 := Group(g.key, g.bucket)] == previous;
    UnsetAt(previous, 0);
    assert previous[..0] + previous[1..] == sorted[i + 1..];
  }
  /** groupByDate($list, $direction, $type, $monthYearFormat, $field); `byKey`
      is the dictionary after sorting and before the month_year relabelling. */
  method GroupByDate(list: ListArg, direction: Value, groupingType: Value, monthYearFormat: string, field: string,
                     formatDate: (string, string) -> string)
    returns (r: Result<seq<Group<Item>>>, ghost byKey: seq<Group<Item>>)
    ensures list.EmptyString? ==> r == Success([])
    ensures !list.EmptyString? ==> (r.Success? <==> SortFunction(direction).Some?)
    ensures r.Failure? ==> r.fault == SortCallNotModelled(direction)
    ensures r.Success? ==> IsPartition(byKey, ListItems(list), DateKey(groupingType, field), ItemSelf())
    ensures r.Success? && !list.EmptyString? ==> SortedBy(byKey, SortFunction(direction).value)
    ensures r.Success? && groupingType != Str("month_year") ==> r.value == byKey
    ensures r.Success? && groupingType == Str("month_year") ==>
              RelabelOutcome(byKey, r.value, MonthLabel(formatDate, monthYearFormat))
  {
    byKey := [];
    if list.EmptyString? {
      return Success([]), byKey;
    }
    var items := ListItems(list);
    var grouped := Bucketize(items, DateKey(groupingType, field), ItemSelf());
    match SortFunction(direction) {
      case None =>
        r := Failure(SortCallNotModelled(direction));
      case Some(order) =>
        PartitionSurvivesSort(grouped, items, DateKey(groupingType, field), ItemSelf(), order);
        grouped := KSort(grouped, order);
        SortedKeysDistinct(grouped, order);
        byKey := grouped;
        if groupingType == Str("month_year") {
          grouped := RelabelGroups(grouped, MonthLabel(formatDate, monthYearFormat));
        }
        r := Success(grouped);
    }
  }

  /** The raw keys of groupByDate are the first four ('year') or seven
      ('month_year') characters of the date of every item in their bucket; a
      date shorter than that is its own key. */
  lemma DateKeysArePrefixes(gs: seq<Group<Item>>, items: seq<Item>, groupingType: Value, field: string)
    requires IsPartition(gs, items, DateKey(groupingType, field), ItemSelf())
    ensures forall g | g in gs :: |g.key| <= DateWidth(groupingType)
    ensures forall g, e | g in gs && e in g.bucket ::
              && g.key == Property(e.value, field)[..|g.key|]
              && (|g.key| == DateWidth(groupingType) || g.key == Property(e.value, field))
  {
    forall g | g in gs ensures |g.key| <= DateWidth(groupingType) {
      assert GroupOf(g, items, DateKey(groupingType, field), ItemSelf());
      assert g.bucket[0] in g.bucket;
    }
    forall g, e | g in gs && e in g.bucket
      ensures g.key == Property(e.value, field)[..|g.key|]
      ensures |g.key| == DateWidth(groupingType) || g.key == Property(e.value, field)
    {
      assert GroupOf(g, items, DateKey(groupingType, field), ItemSelf());
      assert e.value == items[e.key];
    }
  }

  // ---------------------------------------------------------------------------
  // groupByTags

  /** The key under which groupByTags puts the articles without tags. */
  const UntaggedKey := "MOD_ARTICLES_UNTAGGED"

  /** How many of `tags` carry the title `t`. */
  function TitleCount(tags: seq<Tag>, t: string): nat {
    if tags == [] then 0
    else TitleCount(tags[..|tags| - 1], t) + (if tags[|tags| - 1].title == t then 1 else 0)
  }

  function Repeat<X>(x: X, n: nat): (r: seq<X>)
    ensures |r| == n && forall k | 0 <= k < n :: r[k] == x
  {
    if n == 0 then [] else Repeat(x, n - 1) + [x]
  }

  /** The articles filed under tag title `t`, in list order, an article once for
      every tag of it with that title. */
  function TagBucket(list: seq<Item>, t: string): seq<Item> {
    if list == [] then []
    else TagBucket(list[..|list| - 1], t) + Repeat(list[|list| - 1], TitleCount(list[|list| - 1].tags, t))
  }

  /** The articles without tags, in list order. */
  function UntaggedItems(list: seq<Item>): seq<Item> {
    if list == [] then []
    else UntaggedItems(list[..|list| - 1]) + (if list[|list| - 1].tags == [] then [list[|list| - 1]] else [])
  }

  /** A list as PHP's `$a[] = $x` builds it: keys 0, 1, 2, ... */
  function Numbering<X>(xs: seq<X>): (r: seq<Entry<X>>)
    ensures |r| == |xs| && forall k | 0 <= k < |xs| :: r[k] == Entry(k, xs[k])
  {
    if xs == [] then [] else Numbering(xs[..|xs| - 1]) + [Entry(|xs| - 1, xs[|xs| - 1])]
  }

  /** `grouped` holds, for every tag title, exactly the articles of `list`
      carrying that title, and no empty bucket. */
  ghost predicate TagGrouping(grouped: seq<Group<Item>>, list: seq<Item>) {
    && KeysDistinct(grouped)
    && (forall g | g in grouped :: g.bucket != [])
    && (forall t :: Lookup(grouped, t) == Numbering(TagBucket(list, t)))
  }

  /** Filing one tag of an article: `$grouped[$tag->title][] = $item`. */
  lemma FileTagStep(grouped: seq<Group<Item>>, done: seq<Item>, item: Item, tags: seq<Tag>, j: nat)
    requires j < |tags|
    requires KeysDistinct(grouped) && forall g | g in grouped :: g.bucket != []
    requires forall t :: Lookup(grouped, t) == Numbering(TagBucket(done, t) + Repeat(item, TitleCount(tags[..j], t)))
    ensures var title := tags[j].title;
            var after := Assign(grouped, title, Lookup(grouped, title) + [Entry(|Lookup(grouped, title)|, item)]);
            && KeysDistinct(after) && (forall g | g in after :: g.bucket != [])
            && forall t :: Lookup(after, t) == Numbering(TagBucket(done, t) + Repeat(item, TitleCount(tags[..j + 1], t)))
  {
    var title := tags[j].title;
    var b := Lookup(grouped, title);
    var after := Assign(grouped, title, b + [Entry(|b|, item)]);
    forall t ensures Lookup(after, t) == Numbering(TagBucket(done, t) + Repeat(item, TitleCount(tags[..j + 1], t))) {
      LookupAssign(grouped, title, b + [Entry(|b|, item)], t);
      OneMoreTag(done, item, tags, j, t);
      if t == title {
        NumberingSnoc(TagBucket(done, t) + Repeat(item, TitleCount(tags[..j], t)), item);
      }
    }
  }

  /** One more tag of the article adds one copy of it to the bucket of its title. */
  lemma OneMoreTag(done: seq<Item>, item: Item, tags: seq<Tag>, j: nat, t: string)
    requires j < |tags|
    ensures TagBucket(done, t) + Repeat(item, TitleCount(tags[..j + 1], t))
         == TagBucket(done, t) + Repeat(item, TitleCount(tags[..j], t)) + (if tags[j].title == t then [item] else [])
  {
    assert tags[..j + 1][..j] == tags[..j];
  }

  lemma NumberingSnoc<X>(xs: seq<X>, x: X)
    ensures Numbering(xs + [x]) == Numbering(xs) + [Entry(|xs|, x)]
  {
    assert (xs + [x])[..|xs|] == xs;
  }

  /** Filing one more article: its copies follow the buckets built so far. */
  lemma TagBucketSnoc(done: seq<Item>, item: Item, t: string)
    ensures TagBucket(done + [item], t) == TagBucket(done, t) + Repeat(item, TitleCount(item.tags, t))
    ensures UntaggedItems(done + [item]) == UntaggedItems(done) + (if item.tags == [] then [item] else [])
  {
    assert (done + [item])[..|done|] == done;
  }

  /** The inner loop of groupByTags: the article is filed under the title of
      each of its tags, in tag order. */
  method FileTags(grouped: seq<Group<Item>>, done: seq<Item>, item: Item) returns (r: seq<Group<Item>>)
    requires TagGrouping(grouped, done)
    ensures TagGrouping(r, done + [item])
  {
    r := grouped;
    var tags := item.tags;
    var j := 0;
    while j < |tags|
      invariant j <= |tags|
      invariant KeysDistinct(r) && forall g | g in r :: g.bucket != []
      invariant forall t :: Lookup(r, t) == Numbering(TagBucket(done, t) + Repeat(item, TitleCount(tags[..j], t)))
    {
      FileTagStep(r, done, item, tags, j);
      var bucket := Lookup(r, tags[j].title);
      r := Assign(r, tags[j].title, bucket + [Entry(|bucket|, item)]);
      j := j + 1;
    }
    assert tags[..j] == tags;
    forall t ensures Lookup(r, t) == Numbering(TagBucket(done + [item], t)) {
      TagBucketSnoc(done, item, t);
    }
  }

  /** An article without tags leaves the tag buckets as they are. */
  lemma UntaggedStep(grouped: seq<Group<Item>>, done: seq<Item>, item: Item)
    requires TagGrouping(grouped, done)
    requires item.tags == []
    ensures TagGrouping(grouped, done + [item])
  {
    forall t ensures Lookup(grouped, t) == Numbering(TagBucket(done + [item], t)) {
      TagBucketSnoc(done, item, t);
      assert Repeat(item, TitleCount(item.tags, t)) == [];
    }
  }

  /** The loop of groupByTags: every tag of every article files the article
      under the tag's title; articles without tags are set aside. */
  method CollectTags(list: seq<Item>) returns (grouped: seq<Group<Item>>, untagged: seq<Item>)
    ensures TagGrouping(grouped, list)
    ensures untagged == UntaggedItems(list)
  {
    grouped, untagged := [], [];
    var i := 0;
    while i < |list|
      invariant i <= |list|
      invariant TagGrouping(grouped, list[..i])
      invariant untagged == UntaggedItems(list[..i])
    {
      var item := list[i];
      assert list[..i + 1] == list[..i] + [item];
      TagBucketSnoc(list[..i], item, "");
      if item.tags != [] {
        grouped := FileTags(grouped, list[..i], item);
      } else {
        UntaggedStep(grouped, list[..i], item);
        untagged := untagged + [item];
      }
      i := i + 1;
    }
    assert list[..i] == list;
  }

  /** Two dictionaries with distinct keys and the same groups read the same. */
  lemma LookupSameGroups<V>(a: seq<Group<V>>, b: seq<Group<V>>, t: string)
    requires KeysDistinct(a) && KeysDistinct(b)
    requires forall g | g in a :: g in b
    requires forall g | g in b :: g in a
    ensures Lookup(a, t) == Lookup(b, t)
  {
    if HasKey(b, t) {
      var q :| 0 <= q < |b| && b[q].key == t;
      assert b[q] in a;
      var p :| 0 <= p < |a| && a[p] == b[q];
    }
    if HasKey(a, t) {
      var p :| 0 <= p < |a| && a[p].key == t;
      assert a[p] in b;
      var q :| 0 <= q < |b| && b[q] == a[p];
    }
  }

  /** ksort / krsort keep the tag grouping and order its titles. */
  lemma TagGroupingSurvivesSort(grouped: seq<Group<Item>>, list: seq<Item>, order: SortOrder)
    requires TagGrouping(grouped, list)
    ensures TagGrouping(KSort(grouped, order), list)
    ensures SortedBy(KSort(grouped, order), order)
  {
    var sorted := KSort(grouped, order);
    KSortSameGroups(grouped, order);
    KSortSorted(grouped, order);
    SortedKeysDistinct(sorted, order);
    forall t ensures Lookup(sorted, t) == Numbering(TagBucket(list, t)) {
      LookupSameGroups(grouped, sorted, t);
    }
  }

  /** groupByTags($list, $direction); `tagged` is the sorted dictionary of
      tag titles before the untagged articles are added. */
  method GroupByTags(list: seq<Item>, direction: Value) returns (r: Result<seq<Group<Item>>>, ghost tagged: seq<Group<Item>>)
    ensures list == [] ==> r == Success([])
    ensures list != [] ==> (r.Success? <==> SortFunction(direction).Some?)
    ensures r.Failure? ==> r.fault == SortCallNotModelled(direction)
    ensures r.Success? ==> TagGrouping(tagged, list)
    ensures r.Success? && list != [] ==> SortedBy(tagged, SortFunction(direction).value)
    ensures r.Success? ==> r.value == if UntaggedItems(list) == [] then tagged
                                      else Assign(tagged, UntaggedKey, Numbering(UntaggedItems(list)))
  {
    tagged := [];
    if list == [] {
      return Success([]), tagged;
    }
    var grouped, untagged := CollectTags(list);
    match SortFunction(direction) {
      case None =>
        r := Failure(SortCallNotModelled(direction));
      case Some(order) =>
        TagGroupingSurvivesSort(grouped, list, order);
        grouped := KSort(grouped, order);
        tagged := grouped;
        if untagged != [] {
          grouped := Assign(grouped, UntaggedKey, Numbering(untagged));
        }
        r := Success(grouped);
    }
  }

  /** An article is filed under a title exactly when one of its tags has it. */
  lemma {:induction false} TagBucketMembers(list: seq<Item>, t: string, x: Item)
    ensures x in TagBucket(list, t) <==> x in list && TitleCount(x.tags, t) > 0
  {
    if list != [] {
      var last := list[|list| - 1];
      TagBucketMembers(list[..|list| - 1], t, x);
      assert list == list[..|list| - 1] + [last];
      if x == last && TitleCount(x.tags, t) > 0 {
        assert Repeat(last, TitleCount(last.tags, t))[0] == x;
      }
    }
  }

  lemma {:induction false} TitleCountPositive(tags: seq<Tag>, t: string)
    ensures TitleCount(tags, t) > 0 <==> exists k | 0 <= k < |tags| :: tags[k].title == t
  {
    if tags != [] {
      TitleCountPositive(tags[..|tags| - 1], t);
      if exists k | 0 <= k < |tags| - 1 :: tags[k].title == t {
        var k :| 0 <= k < |tags| - 1 && tags[k].title == t;
        assert tags[..|tags| - 1][k] == tags[k];
      }
    }
  }

  lemma {:induction false} UntaggedMembers(list: seq<Item>, x: Item)
    ensures x in UntaggedItems(list) <==> x in list && x.tags == []
  {
    if list != [] {
      UntaggedMembers(list[..|list| - 1], x);
      assert list == list[..|list| - 1] + [list[|list| - 1]];
    }
  }

  /** Unless some article carries a tag titled like the untagged bucket, the
      untagged articles form one extra bucket after all the sorted tag buckets;
      otherwise they replace that tag's bucket in place. */
  lemma UntaggedBucketLast(list: seq<Item>, tagged: seq<Group<Item>>)
    requires TagGrouping(tagged, list)
    requires UntaggedItems(list) != []
    ensures TagBucket(list, UntaggedKey) == [] ==>
              Assign(tagged, UntaggedKey, Numbering(UntaggedItems(list)))
              == tagged + [Group(UntaggedKey, Numbering(UntaggedItems(list)))]
    ensures TagBucket(list, UntaggedKey) != [] ==>
              exists p | 0 <= p < |tagged| ::
                && tagged[p].key == UntaggedKey
                && Assign(tagged, UntaggedKey, Numbering(UntaggedItems(list)))
                   == tagged[p := Group(UntaggedKey, Numbering(UntaggedItems(list)))]
  {
    if HasKey(tagged, UntaggedKey) {
      var p :| 0 <= p < |tagged| && tagged[p].key == UntaggedKey;
      assert tagged[p] in tagged;
      assert Lookup(tagged, UntaggedKey) != [];
    }
    if TagBucket(list, UntaggedKey) != [] {
      assert Lookup(tagged, UntaggedKey) != [];
      var p :| 0 <= p < |tagged| && tagged[p].key == UntaggedKey;
      assert Assign(tagged, UntaggedKey, Numbering(UntaggedItems(list)))
             == tagged[p := Group(UntaggedKey, Numbering(UntaggedItems(list)))];
    }
  }
}
