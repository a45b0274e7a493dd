/** lib/hash.cc: a hash table that grows as it fills, over linked lists, verified against a finite map. */
module HashTables {
  import opened Options
  import opened Sums
  import opened Lists
  import opened BucketArrays

  const INITIAL_BUCKETS := 4
  const RESIZE_RATIO := 3

  // ----- Buckets as values -----

  function Holds<T(==)>(x: T): seq<T> -> nat {
    (b: seq<T>) => multiset(b)[x]
  }

  /** How often an item is in the table. */
  function Copies<T(==)>(buckets: seq<seq<T>>, x: T): nat {
    Sum(buckets, Holds(x))
  }

  function Size<T>(): seq<T> -> nat {
    (b: seq<T>) => |b|
  }

  function Total<T>(buckets: seq<seq<T>>): nat {
    Sum(buckets, Size())
  }

  /** Every item is in the bucket its key hashes to. */
  ghost predicate InPlace<K, T>(buckets: seq<seq<T>>, getKey: T -> K, hash: K -> nat) {
    forall b, x :: 0 <= b < |buckets| && x in buckets[b] ==> hash(getKey(x)) % |buckets| == b
  }

  /** The table holds the items of the map, each once, and nothing else. */
  ghost predicate Represents<K, T(!new)>(buckets: seq<seq<T>>, getKey: T -> K, model: map<K, T>) {
    && (forall k :: k in model ==> getKey(model[k]) == k)
    && (forall x :: Copies(buckets, x) == if getKey(x) in model && model[getKey(x)] == x then 1 else 0)
  }

  lemma BucketSet<T>(buckets: seq<seq<T>>, b: nat, bucket: seq<T>, x: T)
    requires b < |buckets|
    ensures Copies(buckets[b := bucket], x) + multiset(buckets[b])[x] == Copies(buckets, x) + multiset(bucket)[x]
    ensures Total(buckets[b := bucket]) + |buckets[b]| == Total(buckets) + |bucket|
  {
    SumUpdate(buckets, b, bucket, Holds(x));
    SumUpdate(buckets, b, bucket, Size());
  }

  lemma InBucket<T>(buckets: seq<seq<T>>, b: nat, x: T)
    requires b < |buckets| && x in buckets[b]
    ensures Copies(buckets, x) > 0
  {
    SumAtLeast(buckets, b, Holds(x));
  }

  /** An item of the map is in the bucket of its key. */
  lemma WhereItIs<K, T(!new)>(buckets: seq<seq<T>>, getKey: T -> K, hash: K -> nat, model: map<K, T>, k: K)
    requires InPlace(buckets, getKey, hash) && Represents(buckets, getKey, model) && k in model
    ensures buckets != [] && model[k] in buckets[hash(k) % |buckets|]
  {
    assert Copies(buckets, model[k]) == 1;
    var b := SumWitness(buckets, Holds(model[k]));
    assert model[k] in buckets[b];
  }

  /** An item in a bucket is the map's item for its key. */
  lemma WhatItIs<K, T(!new)>(buckets: seq<seq<T>>, getKey: T -> K, model: map<K, T>, b: nat, x: T)
    requires Represents(buckets, getKey, model) && b < |buckets| && x in buckets[b]
    ensures getKey(x) in model && model[getKey(x)] == x
  {
    InBucket(buckets, b, x);
    assert Copies(buckets, x) > 0;
  }

  lemma {:induction false} WithoutOne<T>(s: seq<T>, x: T)
    requires x in s
    ensures multiset(Without(s, x)) == multiset(s) - multiset{x} && |Without(s, x)| == |s| - 1
  {
    assert s == [s[0]] + s[1..];
    if s[0] != x {
      WithoutOne(s[1..], x);
    }
  }

  lemma Added<K, T(!new)>(buckets: seq<seq<T>>, getKey: T -> K, hash: K -> nat, model: map<K, T>, x: T)
    requires buckets != [] && InPlace(buckets, getKey, hash) && Represents(buckets, getKey, model)
        && getKey(x) !in model
    ensures var b := hash(getKey(x)) % |buckets|; var buckets' := buckets[b := buckets[b] + [x]];
            && InPlace(buckets', getKey, hash) && Represents(buckets', getKey, model[getKey(x) := x])
            && Total(buckets') == Total(buckets) + 1
  {
    var b := hash(getKey(x)) % |buckets|;
    var model' := model[getKey(x) := x];
    forall y
      ensures Copies(buckets[b := buckets[b] + [x]], y)
              == if getKey(y) in model' && model'[getKey(y)] == y then 1 else 0
    {
      BucketSet(buckets, b, buckets[b] + [x], y);
    }
    BucketSet(buckets, b, buckets[b] + [x], x);
  }

  lemma Dropped<K, T(!new)>(buckets: seq<seq<T>>, getKey: T -> K, hash: K -> nat, model: map<K, T>, k: K)
    requires InPlace(buckets, getKey, hash) && Represents(buckets, getKey, model) && k in model && buckets != []
    ensures var b := hash(k) % |buckets|; var buckets' := buckets[b := Without(buckets[b], model[k])];
            && InPlace(buckets', getKey, hash) && Represents(buckets', getKey, model - {k})
            && Total(buckets') == Total(buckets) - 1
  {
    WhereItIs(buckets, getKey, hash, model, k);
    var b := hash(k) % |buckets|;
    WithoutOne(buckets[b], model[k]);
    var model' := model - {k};
    forall y
      ensures Copies(buckets[b := Without(buckets[b], model[k])], y)
              == if getKey(y) in model' && model'[getKey(y)] == y then 1 else 0
    {
      BucketSet(buckets, b, Without(buckets[b], model[k]), y);
    }
    BucketSet(buckets, b, Without(buckets[b], model[k]), model[k]);
    forall y | y in Without(buckets[b], model[k]) ensures y in buckets[b] {
      assert y in multiset(Without(buckets[b], model[k]));
    }
  }

  /** While rehashing: what is left in the old buckets and what is in the new ones make up the table. */
  ghost predicate Moving<K, T(!new)>(orig: seq<seq<T>>, left: seq<seq<T>>, buckets: seq<seq<T>>, getKey: T -> K,
      hash: K -> nat) {
    && InPlace(buckets, getKey, hash)
    && (forall x :: Copies(left, x) + Copies(buckets, x) == Copies(orig, x))
    && Total(left) + Total(buckets) == Total(orig)
  }

  lemma MovedOne<K, T(!new)>(orig: seq<seq<T>>, left: seq<seq<T>>, buckets: seq<seq<T>>, getKey: T -> K,
      hash: K -> nat, i: nat)
    requires Moving(orig, left, buckets, getKey, hash) && buckets != [] && i < |left| && left[i] != []
    ensures var x := left[i][0]; var b := hash(getKey(x)) % |buckets|;
            Moving(orig, left[i := left[i][1..]], buckets[b := buckets[b] + [x]], getKey, hash)
  {
    var x := left[i][0];
    var b := hash(getKey(x)) % |buckets|;
    assert left[i] == [x] + left[i][1..];
    forall y ensures Copies(left[i := left[i][1..]], y) + Copies(buckets[b := buckets[b] + [x]], y) == Copies(orig, y) {
      BucketSet(left, i, left[i][1..], y);
      BucketSet(buckets, b, buckets[b] + [x], y);
    }
    BucketSet(left, i, left[i][1..], x);
    BucketSet(buckets, b, buckets[b] + [x], x);
  }

  lemma NothingIn<T>(buckets: seq<seq<T>>)
    requires forall b :: 0 <= b < |buckets| ==> buckets[b] == []
    ensures Total(buckets) == 0 && forall x :: Copies(buckets, x) == 0
  {
    SumZero(buckets, Size());
    forall x ensures Copies(buckets, x) == 0 {
      SumZero(buckets, Holds(x));
    }
  }

  lemma MovedAll<K, T(!new)>(orig: seq<seq<T>>, left: seq<seq<T>>, buckets: seq<seq<T>>, getKey: T -> K,
      hash: K -> nat, model: map<K, T>)
    requires Moving(orig, left, buckets, getKey, hash) && Represents(orig, getKey, model)
    requires forall b :: 0 <= b < |left| ==> left[b] == []
    ensures Represents(buckets, getKey, model) && Total(buckets) == Total(orig)
  {
    NothingIn(left);
    forall x ensures Copies(buckets, x) == if getKey(x) in model && model[getKey(x)] == x then 1 else 0 {
      assert Copies(left, x) + Copies(buckets, x) == Copies(orig, x);
    }
  }

  lemma MovedNone<K, T(!new)>(orig: seq<seq<T>>, buckets: seq<seq<T>>, getKey: T -> K, hash: K -> nat)
    requires forall b :: 0 <= b < |buckets| ==> buckets[b] == []
    ensures Moving(orig, orig, buckets, getKey, hash)
  {
    NothingIn(buckets);
  }

  lemma MovingInPlace<K, T(!new)>(orig: seq<seq<T>>, left: seq<seq<T>>, buckets: seq<seq<T>>, getKey: T -> K,
      hash: K -> nat)
    requires Moving(orig, left, buckets, getKey, hash)
    ensures InPlace(buckets, getKey, hash)
  {
  }

  lemma Ratio(n: nat, b: nat)
    requires b > 0
    ensures n / b >= 3 <==> n >= 3 * b
  {
    var q := n / b;
    assert n == q * b + n % b;
    if q >= 3 {
      assert (q - 3) * b >= 0;
    } else {
      assert (2 - q) * b >= 0;
    }
  }

  lemma MapSize<K, V>(m: map<K, V>, k: K, v: V)
    ensures k !in m ==> |m[k := v]| == |m| + 1
    ensures k in m ==> |m - {k}| == |m| - 1
  {
    if k !in m {
      assert m[k := v].Keys == m.Keys + {k};
      assert |m[k := v].Keys| == |m[k := v]| && |m.Keys| == |m|;
    } else {
      assert (m - {k}).Keys == m.Keys - {k};
      assert |(m - {k}).Keys| == |m - {k}| && |m.Keys| == |m|;
    }
  }

  /** An item that is left in an old bucket is not in a new one. */
  lemma NotMovedYet<K, T(!new)>(orig: seq<seq<T>>, left: seq<seq<T>>, buckets: seq<seq<T>>, getKey: T -> K,
      hash: K -> nat, model: map<K, T>, i: nat, b: nat)
    requires Moving(orig, left, buckets, getKey, hash) && Represents(orig, getKey, model)
    requires i < |left| && left[i] != [] && b < |buckets|
    ensures left[i][0] !in buckets[b]
  {
    var x := left[i][0];
    InBucket(left, i, x);
    assert Copies(left, x) + Copies(buckets, x) == Copies(orig, x) <= 1;
    if x in buckets[b] {
      InBucket(buckets, b, x);
    }
  }

  // ----- The table -----

  class HashTable<K(==), T(==, !new)> {
    const getKey: T -> K
    const hash: K -> nat
    var buckets: BucketArray<T>
    var numBuckets: nat
    var numItems: nat
    ghost var model: map<K, T>

    ghost predicate Allocated()
      reads this, buckets, buckets.repr
    {
      buckets.Valid() && this !in buckets.repr && numBuckets == buckets.lists.Length && numBuckets > 0
    }

    ghost predicate Valid()
      reads this, buckets, buckets.repr
    {
      && Allocated()
      && InPlace(buckets.Contents(), getKey, hash)
      && Represents(buckets.Contents(), getKey, model)
      && numItems == |model| == Total(buckets.Contents())
      && numItems <= 3 * numBuckets
    }

    constructor (get: T -> K, hFunc: K -> nat)
      ensures Valid() && model == map[] && fresh(buckets.repr) && numBuckets == INITIAL_BUCKETS
    {
      getKey, hash, numItems, model := get, hFunc, 0, map[];
      buckets := new BucketArray<T>(INITIAL_BUCKETS);
      numBuckets := INITIAL_BUCKETS;
      new;
      NothingIn(buckets.Contents());
    }

    function HashValue(key: K): (b: nat)
      requires numBuckets > 0
      reads this
      ensures b < numBuckets
    {
      hash(key) % numBuckets
    }

    /** The item with that key in a bucket, if there is one. */
    method FindInBucket(bucket: nat, key: K) returns (item: Option<T>)
      requires Allocated() && bucket < numBuckets
      ensures item.Some? ==> item.value in buckets.Contents()[bucket] && getKey(item.value) == key
      ensures item.None? ==> forall x :: x in buckets.Contents()[bucket] ==> getKey(x) != key
    {
      hide BucketArray.Valid, BucketArray.Contents, List.Valid, List.Contents;
      buckets.InList(bucket);
      item := FindInList(buckets.lists[bucket], key);
    }

    /** FindInBucket's loop. */
    method FindInList(list: List<T>, key: K) returns (item: Option<T>)
      requires list.Valid()
      ensures item.Some? ==> item.value in list.Contents() && getKey(item.value) == key
      ensures item.None? ==> forall x :: x in list.Contents() ==> getKey(x) != key
    {
      hide ListIterator.Valid, List.Valid, List.Contents;
      var iterator_ := new ListIterator(list);
      var done := iterator_.IsDone();
      while !done
        invariant iterator_.list == list && iterator_.Valid() && iterator_.position <= |list.Contents()|
        invariant done <==> iterator_.position == |list.Contents()|
        invariant forall j :: 0 <= j < iterator_.position ==> getKey(list.Contents()[j]) != key
        decreases |list.Contents()| - iterator_.position
      {
        var x := iterator_.Item();
        if key == getKey(x) {
          return Some(x);
        }
        iterator_.Next();
        done := iterator_.IsDone();
      }
      return None;
    }

    method Find(key: K) returns (item: Option<T>)
      requires Valid()
      ensures item == if key in model then Some(model[key]) else None
    {
      var bucket := HashValue(key);
      item := FindInBucket(bucket, key);
      if key in model {
        WhereItIs(buckets.Contents(), getKey, hash, model, key);
      }
      if item.Some? {
        WhatItIs(buckets.Contents(), getKey, model, bucket, item.value);
      }
    }

    method Insert(item: T)
      requires Valid() && getKey(item) !in model
      modifies this, buckets.repr
      ensures Valid() && model == old(model)[getKey(item) := item]
      ensures numBuckets == if old(numItems) >= 3 * old(numBuckets) then 4 * old(numBuckets) else old(numBuckets)
      ensures fresh(buckets.repr - old(buckets.repr))
    {
      hide InPlace, Represents, Total, Copies, BucketArray.Valid, BucketArray.Contents, BucketArray.Owns;
      Ratio(numItems, numBuckets);
      if numItems / numBuckets >= RESIZE_RATIO {
        ReHash();
      }
      Place(item);
    }

    /** Insert's last step: the item goes to its bucket, with room to spare. */
    method Place(item: T)
      requires Valid() && getKey(item) !in model && numItems < 3 * numBuckets
      modifies this`numItems, this`model, buckets.repr
      ensures Valid() && model == old(model)[getKey(item) := item]
      ensures fresh(buckets.repr - old(buckets.repr))
    {
      hide InPlace, Represents, Total, Copies, BucketArray.Valid, BucketArray.Contents, BucketArray.Owns;
      var b := HashValue(getKey(item));
      Added(buckets.Contents(), getKey, hash, model, item);
      if item in buckets.Contents()[b] {
        WhatItIs(buckets.Contents(), getKey, model, b, item);
      }
      MapSize(model, getKey(item), item);
      buckets.Append(b, item);
      numItems := numItems + 1;
      model := model[getKey(item) := item];
    }

    /** Make a bigger table and move all the items into it. */
    method ReHash()
      requires Valid()
      modifies this`buckets, this`numBuckets, buckets.repr
      ensures Valid() && fresh(buckets.repr) && numBuckets == 4 * old(numBuckets)
      ensures model == old(model) && numItems == old(numItems)
    {
      hide InPlace, Represents, Total, Copies, Moving, BucketArray.Valid, BucketArray.Contents, BucketArray.Owns;
      var oldTable := buckets;
      var oldSize := numBuckets;
      ghost var orig := oldTable.Contents();
      buckets := new BucketArray<T>(4 * oldSize);
      numBuckets := 4 * oldSize;
      MovedNone(orig, buckets.Contents(), getKey, hash);
      for i := 0 to oldSize
        invariant Allocated() && fresh(buckets.repr) && numBuckets == 4 * oldSize
        invariant oldTable.Valid() && oldTable.repr == old(buckets.repr)
        invariant Moving(orig, oldTable.Contents(), buckets.Contents(), getKey, hash)
        invariant forall b :: 0 <= b < i ==> oldTable.Contents()[b] == []
      {
        while !oldTable.IsEmpty(i)
          invariant Allocated() && fresh(buckets.repr) && numBuckets == 4 * oldSize
          invariant oldTable.Valid() && oldTable.repr == old(buckets.repr)
          invariant Moving(orig, oldTable.Contents(), buckets.Contents(), getKey, hash)
          invariant forall b :: 0 <= b < i ==> oldTable.Contents()[b] == []
          decreases |oldTable.Contents()[i]|
        {
          MoveFirst(orig, oldTable, i);
        }
      }
      MovedAll(orig, oldTable.Contents(), buckets.Contents(), getKey, hash, model);
      MovingInPlace(orig, oldTable.Contents(), buckets.Contents(), getKey, hash);
    }

    /** ReHash's loop body: the first item of an old bucket goes to its new bucket. */
    method MoveFirst(ghost orig: seq<seq<T>>, oldTable: BucketArray<T>, i: nat)
      requires Allocated() && oldTable.Valid() && oldTable.repr !! buckets.repr && this !in oldTable.repr
      requires i < oldTable.lists.Length && oldTable.Contents()[i] != []
      requires Moving(orig, oldTable.Contents(), buckets.Contents(), getKey, hash) && Represents(orig, getKey, model)
      modifies oldTable.repr, buckets.repr
      ensures Allocated() && oldTable.Valid() && oldTable.repr == old(oldTable.repr)
      ensures fresh(buckets.repr - old(buckets.repr))
      ensures Moving(orig, oldTable.Contents(), buckets.Contents(), getKey, hash)
      ensures oldTable.Contents() == old(oldTable.Contents())[i := old(oldTable.Contents()[i])[1..]]
    {
      hide Moving, Represents, InPlace, Total, Copies, BucketArray.Valid, BucketArray.Contents, BucketArray.Owns;
      MovedOne(orig, oldTable.Contents(), buckets.Contents(), getKey, hash, i);
      oldTable.InList(i);
      buckets.InList(0);
      ghost var b := HashValue(getKey(oldTable.Contents()[i][0]));
      NotMovedYet(orig, oldTable.Contents(), buckets.Contents(), getKey, hash, model, i, b);
      var item := oldTable.RemoveFront(i);
      buckets.Append(HashValue(getKey(item)), item);
    }

    method Remove(key: K) returns (item: T)
      requires Valid() && key in model
      modifies this, buckets.repr
      ensures Valid() && item == old(model)[key] && model == old(model) - {key}
      ensures buckets == old(buckets) && buckets.repr == old(buckets.repr)
    {
      hide InPlace, Represents, Total, Copies, BucketArray.Valid, BucketArray.Contents, BucketArray.Owns;
      var bucket := HashValue(key);
      var found := Find(key);
      item := found.value;
      WhereItIs(buckets.Contents(), getKey, hash, model, key);
      Dropped(buckets.Contents(), getKey, hash, model, key);
      MapSize(model, key, item);
      buckets.Remove(bucket, item);
      numItems := numItems - 1;
      model := model - {key};
    }

    /** The first bucket from there on that is not empty; the number of buckets if there is none. */
    method FindNextFullBucket(start: nat) returns (bucket: nat)
      requires Allocated() && start <= numBuckets
      ensures start <= bucket <= numBuckets
      ensures forall b :: start <= b < bucket ==> buckets.Contents()[b] == []
      ensures bucket < numBuckets ==> buckets.Contents()[bucket] != []
    {
      bucket := start;
      while bucket < numBuckets
        invariant start <= bucket <= numBuckets
        invariant forall b :: start <= b < bucket ==> buckets.Contents()[b] == []
      {
        if !buckets.IsEmpty(bucket) {
          break;
        }
        bucket := bucket + 1;
      }
    }
  }

  // ----- Stepping through a table -----

  /** The items bucket by bucket. */
  function Flat<T>(buckets: seq<seq<T>>): seq<T> {
    if buckets == [] then [] else buckets[0] + Flat(buckets[1..])
  }

  lemma {:induction false} FlatCounts<T>(buckets: seq<seq<T>>, x: T)
    ensures multiset(Flat(buckets))[x] == Copies(buckets, x)
  {
    if buckets != [] {
      FlatCounts(buckets[1..], x);
    }
  }

  lemma {:induction false} FlatSkips<T>(buckets: seq<seq<T>>, k: nat)
    requires k <= |buckets| && forall b :: 0 <= b < k ==> buckets[b] == []
    ensures Flat(buckets) == Flat(buckets[k..])
  {
    if k > 0 {
      FlatSkips(buckets[1..], k - 1);
      assert buckets[1..][k - 1..] == buckets[k..];
    } else {
      assert buckets[0..] == buckets;
    }
  }

  lemma SkipTo<T>(buckets: seq<seq<T>>, from: nat, bucket: nat)
    requires from <= bucket <= |buckets| && forall b :: from <= b < bucket ==> buckets[b] == []
    ensures Flat(buckets[from..]) == Flat(buckets[bucket..])
    ensures bucket == |buckets| ==> Flat(buckets[from..]) == []
  {
    FlatSkips(buckets[from..], bucket - from);
    assert buckets[from..][bucket - from..] == buckets[bucket..];
  }

  lemma FlatFrom<T>(buckets: seq<seq<T>>, bucket: nat)
    requires bucket < |buckets|
    ensures Flat(buckets[bucket..]) == buckets[bucket] + Flat(buckets[bucket + 1..])
  {
    assert buckets[bucket..][0] == buckets[bucket] && buckets[bucket..][1..] == buckets[bucket + 1..];
  }

  /** What comes from that position of that bucket on. */
  function From<T>(buckets: seq<seq<T>>, bucket: nat, position: nat): seq<T>
    requires bucket < |buckets| && position <= |buckets[bucket]|
  {
    buckets[bucket][position..] + Flat(buckets[bucket + 1..])
  }

  lemma StepOn<T>(buckets: seq<seq<T>>, bucket: nat, position: nat)
    requires bucket < |buckets| && position < |buckets[bucket]|
    ensures From(buckets, bucket, position) == [buckets[bucket][position]] + From(buckets, bucket, position + 1)
    ensures position + 1 == |buckets[bucket]| ==> From(buckets, bucket, position + 1) == Flat(buckets[bucket + 1..])
  {
    hide Flat;
  }

  class HashIterator<K(==), T(==, !new)> {
    const table: HashTable<K, T>
    var bucket: nat
    var bucketIter: ListIterator?<T>

    ghost predicate Valid()
      reads this, bucketIter, table, table.buckets, table.buckets.repr
    {
      && table.Allocated() && bucket <= table.numBuckets
      && this !in table.buckets.repr && bucketIter !in table.buckets.repr
      && (bucket < table.numBuckets ==>
            && bucketIter != null && table.buckets.Owns(bucket)
            && bucketIter.list == table.buckets.lists[bucket] && bucketIter.Valid()
            && bucketIter.position < |table.buckets.Contents()[bucket]|)
    }

    /** What is still to come. */
    ghost function Rest(): seq<T>
      requires Valid()
      reads this, bucketIter, table, table.buckets, table.buckets.repr
    {
      if bucket == table.numBuckets then []
      else From(table.buckets.Contents(), bucket, bucketIter.position)
    }

    constructor (tbl: HashTable<K, T>)
      requires tbl.Allocated()
      ensures table == tbl && Valid() && Rest() == Flat(tbl.buckets.Contents())
      ensures bucketIter == null || fresh(bucketIter)
    {
      table, bucket, bucketIter := tbl, 0, null;
      new;
      ArriveAt(0);
    }

    /** The search for the next full bucket that the constructor and Next make. */
    method ArriveAt(from: nat)
      requires table.Allocated() && from <= table.numBuckets && this !in table.buckets.repr
      modifies this
      ensures Valid() && Rest() == Flat(table.buckets.Contents()[from..])
      ensures bucketIter == null || fresh(bucketIter)
    {
      hide BucketArray.Valid, BucketArray.Contents, Flat, ListIterator.Valid, List.Valid, List.Contents;
      bucket := table.FindNextFullBucket(from);
      bucketIter := null;
      ghost var items := table.buckets.Contents();
      if bucket < table.numBuckets {
        table.buckets.InList(bucket);
        bucketIter := new ListIterator(table.buckets.lists[bucket]);
        FlatFrom(items, bucket);
      }
      SkipTo(items, from, bucket);
    }

    method IsDone() returns (done: bool)
      requires Valid()
      ensures done <==> Rest() == []
    {
      done := bucket == table.numBuckets;
    }

    method Item() returns (item: T)
      requires Valid() && Rest() != []
      ensures item == Rest()[0]
    {
      hide Flat;
      table.buckets.InList(bucket);
      item := bucketIter.Item();
    }

    method Next()
      requires Valid() && Rest() != []
      modifies this, bucketIter
      ensures Valid() && Rest() == old(Rest())[1..]
      ensures bucketIter == null || bucketIter == old(bucketIter) || fresh(bucketIter)
    {
      hide BucketArray.Valid, BucketArray.Contents, Flat, From, ListIterator.Valid, List.Valid, List.Contents,
           BucketArray.Owns;
      StepOn(table.buckets.Contents(), bucket, bucketIter.position);
      var done := Advance();
      if done {
        ArriveAt(bucket + 1);
      }
    }

    /** One item on in the current bucket; is that its end? */
    method Advance() returns (done: bool)
      requires Valid() && Rest() != []
      modifies bucketIter
      ensures table.Allocated() && bucket < table.numBuckets && bucketIter != null && this !in table.buckets.repr
      ensures table.buckets.Contents() == old(table.buckets.Contents())
      ensures bucketIter.position == old(bucketIter.position) + 1
      ensures done <==> bucketIter.position == |table.buckets.Contents()[bucket]|
      ensures !done ==> Valid()
    {
      hide BucketArray.Valid, BucketArray.Contents, Flat, ListIterator.Valid, List.Valid, List.Contents,
           BucketArray.Owns;
      table.buckets.InList(bucket);
      bucketIter.Next();
      done := bucketIter.IsDone();
    }
  }

  /** Bucket by bucket, a table has every item of its map once, and nothing else. */
  lemma EachItemOnce<K, T(!new)>(buckets: seq<seq<T>>, getKey: T -> K, model: map<K, T>)
    requires Represents(buckets, getKey, model) && Total(buckets) == |model|
    ensures |Flat(buckets)| == |model|
    ensures forall x :: multiset(Flat(buckets))[x] == if getKey(x) in model && model[getKey(x)] == x then 1 else 0
  {
    FlatLength(buckets);
    forall x ensures multiset(Flat(buckets))[x] == Copies(buckets, x) {
      FlatCounts(buckets, x);
    }
  }

  lemma {:induction false} FlatLength<T>(buckets: seq<seq<T>>)
    ensures |Flat(buckets)| == Total(buckets)
  {
    if buckets != [] {
      FlatLength(buckets[1..]);
    }
  }

  /** Stepping through a table meets every item of its map once, and nothing else. */
  method StepThrough<K(==), T(==, !new)>(table: HashTable<K, T>) returns (items: seq<T>)
    requires table.Valid()
    ensures items == Flat(table.buckets.Contents()) && |items| == |table.model|
    ensures forall x ::
      multiset(items)[x] == if table.getKey(x) in table.model && table.model[table.getKey(x)] == x then 1 else 0
  {
    hide Flat, HashIterator.Rest, HashIterator.Valid, ListIterator.Valid, List.Valid, List.Contents;
    hide BucketArray.Valid, BucketArray.Contents, BucketArray.Owns, Represents, InPlace, Total;
    EachItemOnce(table.buckets.Contents(), table.getKey, table.model);
    ghost var all := Flat(table.buckets.Contents());
    var iterator_ := new HashIterator(table);
    items := [];
    var done := iterator_.IsDone();
    while !done
      invariant iterator_.table == table && iterator_.Valid() && (done <==> iterator_.Rest() == [])
      invariant iterator_.bucketIter == null || fresh(iterator_.bucketIter)
      invariant |items| <= |all| && items == all[..|items|] && iterator_.Rest() == all[|items|..]
      decreases |all| - |items|
    {
      var item := iterator_.Item();
      items := items + [item];
      iterator_.Next();
      done := iterator_.IsDone();
    }
  }
}
