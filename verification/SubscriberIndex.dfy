/** Exact-header buckets: a subscriber whose filter demands one header value is filed under
    it, everyone else is visited always. */
module SubscriberIndexes {
  import opened Options
  import opened Envelopes
  import opened HeaderFilters

  /** A header value the filter cannot match without, if it names one. */
  function ExactKey(filter: HeaderFilter): (k: Option<(string, string)>)
    ensures k.Some? ==> forall h: Headers :: filter.Matches(h) ==> k.value.0 in h && h[k.value.0] == k.value.1
    decreases filter, 1
  {
    match filter
    case Exact(key, value) => Some((key, value))
    case All(filters) => FirstKey(filters)
    case _ => None
  }

  /** The filter is an exact value, or a conjunction that holds one at some depth. */
  predicate NamesAValue(filter: HeaderFilter) {
    match filter
    case Exact(_, _) => true
    case All(filters) => exists f | f in filters :: NamesAValue(f)
    case _ => false
  }

  /** Every filter that names a value is filed under one, and no other is. */
  lemma {:induction false} KeyedExactlyWhen(filter: HeaderFilter)
    ensures ExactKey(filter).Some? <==> NamesAValue(filter)
    decreases filter, 1
  {
    if filter.All? { FirstKeyExactlyWhen(filter.filters); }
  }

  lemma {:induction false} FirstKeyExactlyWhen(filters: seq<HeaderFilter>)
    ensures FirstKey(filters).Some? <==> exists f | f in filters :: NamesAValue(f)
    decreases filters, 0
  {
    if filters != [] {
      KeyedExactlyWhen(filters[0]);
      FirstKeyExactlyWhen(filters[1..]);
      assert filters == [filters[0]] + filters[1..];
    }
  }

  function FirstKey(filters: seq<HeaderFilter>): (k: Option<(string, string)>)
    ensures k.Some? ==> forall h: Headers :: (forall f | f in filters :: f.Matches(h)) ==> k.value.0 in h && h[k.value.0] == k.value.1
    decreases filters, 0
  {
    if filters == [] then None
    else
      var k := ExactKey(filters[0]);
      assert filters[0] in filters;
      assert forall f :: f in filters[1..] ==> f in filters;
      if k.Some? then k else FirstKey(filters[1..])
  }

  type Bucket<T> = map<nat, T>
  type Exact<T> = map<string, map<string, Bucket<T>>>

  function BucketAt<T>(exact: Exact<T>, key: string, value: string): Bucket<T> {
    if key in exact && value in exact[key] then exact[key][value] else map[]
  }

  ghost predicate NoEmptyBucket<T(!new)>(exact: Exact<T>) {
    forall key :: key in exact ==> exact[key] != map[] && forall value :: value in exact[key] ==> exact[key][value] != map[]
  }

  function Put<T>(exact: Exact<T>, key: string, value: string, id: nat, x: T): Exact<T> {
    var values: map<string, Bucket<T>> := if key in exact then exact[key] else map[];
    var bucket: Bucket<T> := if value in values then values[value] else map[];
    exact[key := values[value := bucket[id := x]]]
  }

  /** Take `id` out of its bucket, dropping the bucket and the key once empty. */
  function Take<T(==)>(exact: Exact<T>, key: string, value: string, id: nat): Exact<T>
    requires key in exact && value in exact[key]
  {
    var bucket := exact[key][value] - {id};
    var values := if bucket == map[] then exact[key] - {value} else exact[key][value := bucket];
    if values == map[] then exact - {key} else exact[key := values]
  }

  lemma PutBuckets<T(!new)>(exact: Exact<T>, key: string, value: string, id: nat, x: T)
    requires NoEmptyBucket(exact)
    ensures NoEmptyBucket(Put(exact, key, value, id, x))
    ensures forall a, b :: BucketAt(Put(exact, key, value, id, x), a, b)
              == if a == key && b == value then BucketAt(exact, a, b)[id := x] else BucketAt(exact, a, b)
  {
    var e' := Put(exact, key, value, id, x);
    assert e'[key][value] != map[] by { assert id in e'[key][value]; }
    assert e'[key] != map[] by { assert value in e'[key]; }
    forall k | k in e' ensures e'[k] != map[] && forall v :: v in e'[k] ==> e'[k][v] != map[] {
      forall v | v in e'[k] ensures e'[k][v] != map[] {
        if k == key && v != value { assert v in exact[key] && exact[key][v] != map[]; }
      }
    }
    forall a, b ensures BucketAt(e', a, b) == if a == key && b == value then BucketAt(exact, a, b)[id := x] else BucketAt(exact, a, b) {
      PutBucketAt(exact, key, value, id, x, a, b);
    }
  }

  lemma PutBucketAt<T(!new)>(exact: Exact<T>, key: string, value: string, id: nat, x: T, a: string, b: string)
    ensures BucketAt(Put(exact, key, value, id, x), a, b)
            == if a == key && b == value then BucketAt(exact, a, b)[id := x] else BucketAt(exact, a, b)
  {
  }

  lemma TakeBuckets<T(!new)>(exact: Exact<T>, key: string, value: string, id: nat)
    requires NoEmptyBucket(exact) && key in exact && value in exact[key]
    ensures NoEmptyBucket(Take(exact, key, value, id))
    ensures forall a, b :: BucketAt(Take(exact, key, value, id), a, b)
              == if a == key && b == value then BucketAt(exact, a, b) - {id} else BucketAt(exact, a, b)
  {
    var bucket := exact[key][value] - {id};
    var values := if bucket == map[] then exact[key] - {value} else exact[key][value := bucket];
    var e' := Take(exact, key, value, id);
    forall a, b ensures BucketAt(e', a, b) == if a == key && b == value then BucketAt(exact, a, b) - {id} else BucketAt(exact, a, b) {
      if a == key && values == map[] { assert b !in values; }
    }
  }

  /** `id` is filed where its filter says, and nowhere else. */
  ghost predicate Filed<T(!new)>(general: Bucket<T>, exact: Exact<T>, registered: map<nat, (HeaderFilter, T)>, id: nat) {
    && (id in general <==> id in registered && ExactKey(registered[id].0).None?)
    && (id in general ==> general[id] == registered[id].1)
    && (forall key, value :: id in BucketAt(exact, key, value)
          <==> id in registered && ExactKey(registered[id].0) == Some((key, value)))
    && (forall key, value :: id in BucketAt(exact, key, value) ==> BucketAt(exact, key, value)[id] == registered[id].1)
  }

  ghost predicate AllFiled<T(!new)>(general: Bucket<T>, exact: Exact<T>, registered: map<nat, (HeaderFilter, T)>) {
    NoEmptyBucket(exact) && forall id :: Filed(general, exact, registered, id)
  }

  lemma FileGeneral<T(!new)>(general: Bucket<T>, exact: Exact<T>, registered: map<nat, (HeaderFilter, T)>, id: nat, filter: HeaderFilter, x: T)
    requires AllFiled(general, exact, registered) && id !in registered && ExactKey(filter).None?
    ensures AllFiled(general[id := x], exact, registered[id := (filter, x)])
  {
    var g', r' := general[id := x], registered[id := (filter, x)];
    forall i ensures Filed(g', exact, r', i) { assert Filed(general, exact, registered, i); }
  }

  lemma FileExact<T(!new)>(general: Bucket<T>, exact: Exact<T>, registered: map<nat, (HeaderFilter, T)>, id: nat, filter: HeaderFilter, x: T)
    requires AllFiled(general, exact, registered) && id !in registered && ExactKey(filter).Some?
    ensures AllFiled(general, Put(exact, ExactKey(filter).value.0, ExactKey(filter).value.1, id, x), registered[id := (filter, x)])
  {
    var (key, value) := ExactKey(filter).value;
    PutBuckets(exact, key, value, id, x);
    var e', r' := Put(exact, key, value, id, x), registered[id := (filter, x)];
    forall i ensures Filed(general, e', r', i) { assert Filed(general, exact, registered, i); }
  }

  lemma UnfileGeneral<T(!new)>(general: Bucket<T>, exact: Exact<T>, registered: map<nat, (HeaderFilter, T)>, id: nat)
    requires AllFiled(general, exact, registered) && id in general
    ensures id in registered && AllFiled(general - {id}, exact, registered - {id})
  {
    assert Filed(general, exact, registered, id);
    forall i ensures Filed(general - {id}, exact, registered - {id}, i) { assert Filed(general, exact, registered, i); }
  }

  lemma UnfileExact<T(!new)>(general: Bucket<T>, exact: Exact<T>, registered: map<nat, (HeaderFilter, T)>, id: nat, key: string, value: string)
    requires AllFiled(general, exact, registered) && key in exact && value in exact[key] && id in exact[key][value]
    ensures id in registered && AllFiled(general, Take(exact, key, value, id), registered - {id})
  {
    assert id in BucketAt(exact, key, value);
    assert Filed(general, exact, registered, id);
    TakeBuckets(exact, key, value, id);
    forall i ensures Filed(general, Take(exact, key, value, id), registered - {id}, i) { assert Filed(general, exact, registered, i); }
  }

  lemma FiledUnder<T(!new)>(general: Bucket<T>, exact: Exact<T>, registered: map<nat, (HeaderFilter, T)>, id: nat, k: Option<(string, string)>)
    requires AllFiled(general, exact, registered)
    ensures k.None? ==> (id in general <==> id in registered && ExactKey(registered[id].0) == k)
    ensures k.Some? ==> (id in BucketAt(exact, k.value.0, k.value.1) <==> id in registered && ExactKey(registered[id].0) == k)
  {
    assert Filed(general, exact, registered, id);
    if k.Some? { assert k == Some((k.value.0, k.value.1)); }
  }

  class SubscriberIndex<T(==, !new)> {
    var general: Bucket<T>
    var exact: Exact<T>
    var len: nat
    /** Who is registered, under which filter. */
    ghost var registered: map<nat, (HeaderFilter, T)>

    ghost predicate Valid()
      reads this
    {
      AllFiled(general, exact, registered) && len == |registered|
    }

    constructor ()
      ensures Valid() && registered == map[]
    {
      general, exact, len, registered := map[], map[], 0, map[];
    }

    method Insert(id: nat, filter: HeaderFilter, value: T)
      requires Valid() && id !in registered
      modifies this
      ensures Valid() && registered == old(registered)[id := (filter, value)]
    {
      var k := ExactKey(filter);
      if k.Some? {
        FileExact(general, exact, registered, id, filter, value);
        exact := Put(exact, k.value.0, k.value.1, id, value);
      } else {
        FileGeneral(general, exact, registered, id, filter, value);
        general := general[id := value];
      }
      len := len + 1;
      registered := registered[id := (filter, value)];
    }

    /** Unregister `id` as filed under `filter`; a stale request changes nothing. */
    method Remove(id: nat, filter: HeaderFilter)
      requires Valid()
      modifies this
      ensures Valid()
      ensures registered == if id in old(registered) && ExactKey(old(registered)[id].0) == ExactKey(filter)
                            then old(registered) - {id} else old(registered)
      ensures registered == old(registered) ==> general == old(general) && exact == old(exact) && len == old(len)
    {
      var k := ExactKey(filter);
      FiledUnder(general, exact, registered, id, k);
      if k.None? {
        if id in general { TakeGeneral(id); }
      } else if id in BucketAt(exact, k.value.0, k.value.1) {
        TakeExact(id, k.value.0, k.value.1);
      }
    }

    method TakeGeneral(id: nat)
      requires Valid() && id in general
      modifies this
      ensures Valid() && id in old(registered) && registered == old(registered) - {id}
    {
      UnfileGeneral(general, exact, registered, id);
      general := general - {id};
      len := len - 1;
      registered := registered - {id};
    }

    method TakeExact(id: nat, key: string, value: string)
      requires Valid() && key in exact && value in exact[key] && id in exact[key][value]
      modifies this
      ensures Valid() && id in old(registered) && registered == old(registered) - {id}
    {
      UnfileExact(general, exact, registered, id, key, value);
      exact := Take(exact, key, value, id);
      len := len - 1;
      registered := registered - {id};
    }

    /** Hand every candidate to the caller: all general entries, then the bucket of each
        header. Each registered subscriber is visited at most once, and every one whose
        filter matches the headers is visited. */
    method Visit(headers: Headers) returns (ids: seq<nat>, values: seq<T>)
      requires Valid()
      ensures NoRepeat(ids) && FromRegistered(registered, ids, values)
      ensures forall id :: id in registered && registered[id].0.Matches(headers) ==> id in ids
      ensures forall id :: id in ids <==> id in registered && Demanded(ExactKey(registered[id].0), headers)
    {
      ids, values := VisitBucket(general);
      GeneralFacts(general, exact, registered);
      var rest := headers.Keys;
      while rest != {}
        invariant rest <= headers.Keys && NoRepeat(ids) && FromRegistered(registered, ids, values)
        invariant forall id :: id in ids <==> id in registered && Reached(registered[id].0, headers, rest)
        decreases |rest|
      {
        var key :| key in rest;
        var bucket := BucketAt(exact, key, headers[key]);
        var more, moreValues := VisitBucket(bucket);
        BucketFacts(general, exact, registered, key, headers[key]);
        JoinVisits(registered, ids, values, more, moreValues);
        forall id ensures id in ids + more <==> id in registered && Reached(registered[id].0, headers, rest - {key}) {
        }
        ids, values := ids + more, values + moreValues;
        rest := rest - {key};
      }
    }
  }

  ghost predicate NoRepeat(ids: seq<nat>) {
    forall i, j :: 0 <= i < j < |ids| ==> ids[i] != ids[j]
  }

  ghost predicate FromRegistered<T(!new)>(registered: map<nat, (HeaderFilter, T)>, ids: seq<nat>, values: seq<T>) {
    |ids| == |values| && forall i :: 0 <= i < |ids| ==> ids[i] in registered && registered[ids[i]].1 == values[i]
  }

  lemma JoinVisits<T(!new)>(registered: map<nat, (HeaderFilter, T)>, ids: seq<nat>, values: seq<T>, more: seq<nat>, moreValues: seq<T>)
    requires NoRepeat(ids) && FromRegistered(registered, ids, values)
    requires NoRepeat(more) && FromRegistered(registered, more, moreValues)
    requires forall id :: id in ids ==> id !in more
    ensures NoRepeat(ids + more) && FromRegistered(registered, ids + more, values + moreValues)
  {
    var all := ids + more;
    forall i, j | 0 <= i < j < |all| ensures all[i] != all[j] {
      if i < |ids| <= j { assert all[i] in ids && all[j] in more; }
    }
  }

  lemma GeneralFacts<T(!new)>(general: Bucket<T>, exact: Exact<T>, registered: map<nat, (HeaderFilter, T)>)
    requires AllFiled(general, exact, registered)
    ensures forall id :: id in general <==> id in registered && ExactKey(registered[id].0).None?
    ensures forall id :: id in general ==> registered[id].1 == general[id]
  {
    forall id ensures id in general <==> id in registered && ExactKey(registered[id].0).None? {
      assert Filed(general, exact, registered, id);
    }
    forall id | id in general ensures registered[id].1 == general[id] {
      assert Filed(general, exact, registered, id);
    }
  }

  lemma BucketFacts<T(!new)>(general: Bucket<T>, exact: Exact<T>, registered: map<nat, (HeaderFilter, T)>, key: string, value: string)
    requires AllFiled(general, exact, registered)
    ensures var bucket := BucketAt(exact, key, value);
            && (forall id :: id in bucket <==> id in registered && ExactKey(registered[id].0) == Some((key, value)))
            && (forall id :: id in bucket ==> registered[id].1 == bucket[id])
  {
    var bucket := BucketAt(exact, key, value);
    forall id ensures id in bucket <==> id in registered && ExactKey(registered[id].0) == Some((key, value)) {
      assert Filed(general, exact, registered, id);
    }
    forall id | id in bucket ensures registered[id].1 == bucket[id] {
      assert Filed(general, exact, registered, id);
    }
  }

  /** The headers carry the pair, if there is one. */
  ghost predicate Demanded(k: Option<(string, string)>, headers: Headers) {
    k.Some? ==> k.value.0 in headers && headers[k.value.0] == k.value.1
  }

  /** General, or filed under a header already looked up. */
  ghost predicate Reached(filter: HeaderFilter, headers: Headers, rest: set<string>) {
    var k := ExactKey(filter);
    Demanded(k, headers) && (k.Some? ==> k.value.0 !in rest)
  }

  method VisitBucket<T>(bucket: Bucket<T>) returns (ids: seq<nat>, values: seq<T>)
    ensures |ids| == |values|
    ensures forall i, j :: 0 <= i < j < |ids| ==> ids[i] != ids[j]
    ensures forall id :: id in ids <==> id in bucket
    ensures forall i :: 0 <= i < |ids| ==> ids[i] in bucket && bucket[ids[i]] == values[i]
  {
    ids, values := [], [];
    var rest := bucket.Keys;
    while rest != {}
      invariant rest <= bucket.Keys && |ids| == |values|
      invariant forall i, j :: 0 <= i < j < |ids| ==> ids[i] != ids[j]
      invariant forall id :: id in ids <==> id in bucket && id !in rest
      invariant forall i :: 0 <= i < |ids| ==> ids[i] in bucket && bucket[ids[i]] == values[i]
      decreases |rest|
    {
      var id :| id in rest;
      rest := rest - {id};
      ids, values := ids + [id], values + [bucket[id]];
    }
  }
}
