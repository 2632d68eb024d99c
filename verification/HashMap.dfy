/** The map of src/common/data_structures/map.c: ten buckets of keys, values and flags. The
    bucket lists are sequences here, as ArrayList justifies. */
module HashMap {
  import opened Sequences
  import opened Options

  const BAG_SIZE: nat := 10
  const WORD: nat := 0x1_0000_0000_0000_0000

  datatype Entry<+V> = Entry(value: V, flag: nat)

  predicate Enumerable(flag: nat) { flag % 2 == 1 }

  function Bit(flag: nat): int { flag % 2 }

  // ----- hashing -----

  /** A C char is signed. */
  function Code(c: char): int { if c as int >= 128 then c as int - 256 else c as int }

  function HashFrom(hash: nat, s: string): nat
    decreases |s|
  {
    if s == [] then hash else HashFrom((hash * 10 + Code(s[0]) - '0' as int) % WORD, s[1..])
  }

  function Hash(s: string): nat { HashFrom(0, s) % BAG_SIZE }

  method GetHash(value: string) returns (hash: nat)
    ensures hash == Hash(value) && hash < BAG_SIZE
  {
    hash := 0;
    var i := 0;
    while i < |value|
      invariant 0 <= i <= |value| && HashFrom(hash, value[i..]) == HashFrom(0, value)
    {
      assert value[i..][1..] == value[i + 1..];
      hash := (hash * 10 + Code(value[i]) - '0' as int) % WORD;
      i := i + 1;
    }
    hash := hash % BAG_SIZE;
  }

  // ----- one bucket -----

  /** A bucket's three lists; a bucket that was never used does not exist. */
  datatype Bucket<+V> = Bucket(keys: seq<string>, values: seq<V>, flags: seq<nat>)

  function IndexOf(keys: seq<string>, key: string): (r: Option<nat>)
    ensures r.Some? ==> r.value < |keys| && keys[r.value] == key && forall j :: 0 <= j < r.value ==> keys[j] != key
    ensures r.None? <==> key !in keys
  {
    if keys == [] then None
    else if keys[0] == key then Some(0)
    else match IndexOf(keys[1..], key)
         case None => None
         case Some(i) => Some(i + 1)
  }

  predicate Unique(keys: seq<string>) { forall i, j :: 0 <= i < j < |keys| ==> keys[i] != keys[j] }

  predicate Aligned<V>(b: Bucket<V>, hash: nat) {
    |b.values| == |b.keys| && |b.flags| == |b.keys| && Unique(b.keys) && forall k :: k in b.keys ==> Hash(k) == hash
  }

  function LookupIn<V>(b: Option<Bucket<V>>, key: string): Option<Entry<V>>
    requires b.Some? ==> |b.value.values| == |b.value.keys| && |b.value.flags| == |b.value.keys|
  {
    if b.None? then None
    else match IndexOf(b.value.keys, key)
         case None => None
         case Some(i) => Some(Entry(b.value.values[i], b.value.flags[i]))
  }

  /** The enumerable keys of a bucket, in order. */
  function Listed(keys: seq<string>, flags: seq<nat>): seq<string>
    requires |flags| == |keys|
  {
    if keys == [] then []
    else (if Enumerable(flags[0]) then [keys[0]] else []) + Listed(keys[1..], flags[1..])
  }

  function AllListed<V>(bs: seq<Option<Bucket<V>>>): seq<string>
    requires forall b :: b in bs && b.Some? ==> |b.value.flags| == |b.value.keys|
  {
    if bs == [] then []
    else (if bs[0].Some? then Listed(bs[0].value.keys, bs[0].value.flags) else []) + AllListed(bs[1..])
  }

  function EnumerableKeys<V>(m: map<string, Entry<V>>): set<string> { set k | k in m && Enumerable(m[k].flag) }

  /** Every key is in the bucket of its hash, once. */
  ghost predicate Wellformed<V>(buckets: seq<Option<Bucket<V>>>) {
    |buckets| == BAG_SIZE && forall h :: 0 <= h < BAG_SIZE && buckets[h].Some? ==> Aligned(buckets[h].value, h)
  }

  ghost function Lookup<V>(buckets: seq<Option<Bucket<V>>>, key: string): Option<Entry<V>>
    requires Wellformed(buckets)
  {
    assert buckets[Hash(key)].Some? ==> Aligned(buckets[Hash(key)].value, Hash(key));
    LookupIn(buckets[Hash(key)], key)
  }

  lemma ListedFrom(keys: seq<string>, flags: seq<nat>, j: nat)
    requires |flags| == |keys| && j <= |keys|
    ensures Listed(keys[j..], flags[j..])
            == if j == |keys| then []
               else (if Enumerable(flags[j]) then [keys[j]] else []) + Listed(keys[j + 1..], flags[j + 1..])
  {
    if j < |keys| {
      assert keys[j..][1..] == keys[j + 1..] && flags[j..][1..] == flags[j + 1..];
    }
  }

  lemma AllListedFrom<V>(buckets: seq<Option<Bucket<V>>>, h: nat)
    requires Wellformed(buckets) && h <= BAG_SIZE
    ensures AllListed(buckets[h..])
            == if h == BAG_SIZE then []
               else
                 (if buckets[h].Some? then Listed(buckets[h].value.keys, buckets[h].value.flags) else [])
                 + AllListed(buckets[h + 1..])
  {
    if h < BAG_SIZE {
      assert buckets[h..][1..] == buckets[h + 1..];
    }
  }

  /** The keys of bucket h among those of a list, in order. */
  function InBucket(order: seq<string>, h: nat): seq<string> {
    if order == [] then [] else (if Hash(order[0]) == h then [order[0]] else []) + InBucket(order[1..], h)
  }

  /** Every bucket has its keys in the order of their first insertion. */
  ghost predicate InOrder<V>(buckets: seq<Option<Bucket<V>>>, order: seq<string>) {
    && |buckets| == BAG_SIZE
    && forall h :: 0 <= h < BAG_SIZE ==>
         (if buckets[h].Some? then buckets[h].value.keys else []) == InBucket(order, h)
  }

  method ListBucket<V>(b: Bucket<V>) returns (keys: seq<string>)
    requires |b.flags| == |b.keys|
    ensures keys == Listed(b.keys, b.flags)
  {
    hide Listed;
    keys := [];
    var j := 0;
    assert b.keys[0..] == b.keys && b.flags[0..] == b.flags;
    while j < |b.keys|
      invariant 0 <= j <= |b.keys|
      invariant keys + Listed(b.keys[j..], b.flags[j..]) == Listed(b.keys, b.flags)
    {
      ListedFrom(b.keys, b.flags, j);
      Associate(keys, if Enumerable(b.flags[j]) then [b.keys[j]] else [], Listed(b.keys[j + 1..], b.flags[j + 1..]));
      if Enumerable(b.flags[j]) {
        keys := keys + [b.keys[j]];
      }
      j := j + 1;
    }
    ListedFrom(b.keys, b.flags, j);
  }

  class HashMap<V> {
    var size: int
    var isImmutable: bool
    var buckets: seq<Option<Bucket<V>>>
    /** The finite map that the buckets stand for. */
    ghost var model: map<string, Entry<V>>
    /** Its keys, in the order of their first insertion. */
    ghost var order: seq<string>

    ghost predicate Valid()
      reads this
    {
      && Wellformed(buckets) && InOrder(buckets, order)
      && (forall key :: Lookup(buckets, key) == if key in model then Some(model[key]) else None)
    }

    constructor ()
      ensures Valid() && model == map[] && order == [] && size == 0 && !isImmutable
    {
      size, isImmutable, model, order := 0, false, map[], [];
      buckets := [None, None, None, None, None, None, None, None, None, None];
    }

    /** Insertion is insertion into the finite map; an immutable map does not change. The size
        follows the number of enumerable keys, but for overwritten enumerable bits. */
    method InsertFlags(key: string, value: V, flag: nat)
      requires Valid()
      modifies this
      ensures Valid() && isImmutable == old(isImmutable)
      ensures isImmutable ==> model == old(model) && size == old(size) && buckets == old(buckets)
      ensures order == old(order) + if isImmutable || key in old(model) then [] else [key]
      ensures !isImmutable ==> model == old(model)[key := Entry(value, flag)]
      ensures !isImmutable ==> size == old(size) + if key in old(model) then 0 else Bit(flag)
    {
      hide Hash, IndexOf, LookupIn, Bit, InOrder, InBucket;
      if isImmutable {
        return;
      }
      var hash := GetHash(key);
      var bucket := if buckets[hash].Some? then buckets[hash].value else Bucket([], [], []);
      ghost var before := buckets;
      var i := 0;
      while i < |bucket.keys|
        invariant 0 <= i <= |bucket.keys| && key !in bucket.keys[..i]
      {
        if bucket.keys[i] == key {
          var overwritten := bucket.(values := bucket.values[i := value], flags := bucket.flags[i := flag]);
          buckets := buckets[hash := Some(overwritten)];
          model := model[key := Entry(value, flag)];
          Overwrites(before, hash, key, i, value, flag);
          OverwritesInOrder(before, order, hash, i, value, flag);
          return;
        }
        i := i + 1;
      }
      assert bucket.keys[..i] == bucket.keys;
      Absent(before, hash, key);
      size := size + Bit(flag);
      var extended := Bucket(bucket.keys + [key], bucket.values + [value], bucket.flags + [flag]);
      buckets := buckets[hash := Some(extended)];
      model := model[key := Entry(value, flag)];
      Extends(before, hash, key, value, flag);
      ExtendsInOrder(before, order, hash, key, value, flag);
      order := order + [key];
    }

    /** Lookup finds what the finite map has. */
    method GetFlags(key: string) returns (r: Option<Entry<V>>)
      requires Valid()
      ensures r == if key in model then Some(model[key]) else None
    {
      hide InOrder, InBucket;
      var hash := GetHash(key);
      if buckets[hash].Some? {
        var b := buckets[hash].value;
        var i := 0;
        while i < |b.keys|
          invariant 0 <= i <= |b.keys| && key !in b.keys[..i]
        {
          if b.keys[i] == key {
            FoundAt(b.keys, key, i);
            return Some(Entry(b.values[i], b.flags[i]));
          }
          i := i + 1;
        }
        assert b.keys[..i] == b.keys;
      }
      return None;
    }

    /** The enumerable keys, bucket by bucket. */
    ghost function KeyOrder(): seq<string>
      reads this
      requires Valid()
    {
      AllListed(buckets)
    }

    method KeyList() returns (keys: seq<string>)
      requires Valid()
      ensures keys == KeyOrder()
    {
      hide Listed, AllListed, Lookup;
      keys := [];
      var i := 0;
      assert buckets[0..] == buckets;
      while i < BAG_SIZE
        invariant 0 <= i <= BAG_SIZE
        invariant keys + AllListed(buckets[i..]) == AllListed(buckets)
      {
        AllListedFrom(buckets, i);
        if buckets[i].Some? {
          var listed := ListBucket(buckets[i].value);
          Associate(keys, listed, AllListed(buckets[i + 1..]));
          keys := keys + listed;
        }
        i := i + 1;
      }
      AllListedFrom(buckets, i);
    }
  }

  // ----- what an insertion does to lookups -----

  lemma FoundAt(keys: seq<string>, key: string, i: nat)
    requires i < |keys| && keys[i] == key && key !in keys[..i]
    ensures IndexOf(keys, key) == Some(i)
  {
    assert forall j :: 0 <= j < i ==> keys[..i][j] == keys[j];
  }

  lemma Absent<V>(buckets: seq<Option<Bucket<V>>>, hash: nat, key: string)
    requires Wellformed(buckets) && hash == Hash(key) && (buckets[hash].Some? ==> key !in buckets[hash].value.keys)
    ensures Lookup(buckets, key) == None
  {
  }

  lemma Overwrites<V>(buckets: seq<Option<Bucket<V>>>, hash: nat, key: string, i: nat, value: V, flag: nat)
    requires Wellformed(buckets) && hash == Hash(key) && buckets[hash].Some? && i < |buckets[hash].value.keys|
    requires buckets[hash].value.keys[i] == key && key !in buckets[hash].value.keys[..i]
    ensures var b := buckets[hash].value;
            var after := buckets[hash := Some(b.(values := b.values[i := value], flags := b.flags[i := flag]))];
            && Wellformed(after) && Lookup(buckets, key).Some?
            && forall k :: Lookup(after, k) == if k == key then Some(Entry(value, flag)) else Lookup(buckets, k)
  {
    var b := buckets[hash].value;
    var after := buckets[hash := Some(b.(values := b.values[i := value], flags := b.flags[i := flag]))];
    FoundAt(b.keys, key, i);
    forall k
      ensures Lookup(after, k) == if k == key then Some(Entry(value, flag)) else Lookup(buckets, k)
    {
      if k != key && Hash(k) == hash && k in b.keys {
        assert b.keys[IndexOf(b.keys, k).value] == k;
      }
    }
  }

  lemma IndexAppended(keys: seq<string>, key: string, k: string)
    requires key !in keys
    ensures IndexOf(keys + [key], k) == if k == key then Some(|keys|) else IndexOf(keys, k)
  {
    var r := IndexOf(keys + [key], k);
    if k in keys {
      FoundAt(keys, k, IndexOf(keys, k).value);
      var i := IndexOf(keys, k).value;
      assert (keys + [key])[i] == k && (keys + [key])[..i] == keys[..i];
      FoundAt(keys + [key], k, i);
    } else if k == key {
      assert (keys + [key])[|keys|] == key && (keys + [key])[..|keys|] == keys;
      FoundAt(keys + [key], key, |keys|);
    }
  }

  lemma Extends<V>(buckets: seq<Option<Bucket<V>>>, hash: nat, key: string, value: V, flag: nat)
    requires Wellformed(buckets) && hash == Hash(key) && (buckets[hash].Some? ==> key !in buckets[hash].value.keys)
    ensures var b := if buckets[hash].Some? then buckets[hash].value else Bucket([], [], []);
            var after := buckets[hash := Some(Bucket(b.keys + [key], b.values + [value], b.flags + [flag]))];
            && Wellformed(after)
            && forall k :: Lookup(after, k) == if k == key then Some(Entry(value, flag)) else Lookup(buckets, k)
  {
    var b := if buckets[hash].Some? then buckets[hash].value else Bucket([], [], []);
    var after := buckets[hash := Some(Bucket(b.keys + [key], b.values + [value], b.flags + [flag]))];
    forall k
      ensures Lookup(after, k) == if k == key then Some(Entry(value, flag)) else Lookup(buckets, k)
    {
      IndexAppended(b.keys, key, k);
    }
  }

  lemma {:induction false} InBucketAppends(order: seq<string>, key: string, h: nat)
    ensures InBucket(order + [key], h) == InBucket(order, h) + if Hash(key) == h then [key] else []
  {
    if order == [] {
      assert order + [key] == [key] && [key][1..] == [];
    } else {
      assert (order + [key])[0] == order[0] && (order + [key])[1..] == order[1..] + [key];
      InBucketAppends(order[1..], key, h);
    }
  }

  lemma OverwritesInOrder<V>(buckets: seq<Option<Bucket<V>>>, order: seq<string>, hash: nat, i: nat, value: V,
                             flag: nat)
    requires Wellformed(buckets) && InOrder(buckets, order) && hash < BAG_SIZE && buckets[hash].Some?
    requires i < |buckets[hash].value.keys|
    ensures var b := buckets[hash].value;
            InOrder(buckets[hash := Some(b.(values := b.values[i := value], flags := b.flags[i := flag]))], order)
  {
  }

  lemma ExtendsInOrder<V>(buckets: seq<Option<Bucket<V>>>, order: seq<string>, hash: nat, key: string, value: V,
                          flag: nat)
    requires InOrder(buckets, order) && hash == Hash(key) < BAG_SIZE
    ensures var b := if buckets[hash].Some? then buckets[hash].value else Bucket([], [], []);
            InOrder(buckets[hash := Some(Bucket(b.keys + [key], b.values + [value], b.flags + [flag]))], order + [key])
  {
    hide Hash, InBucket;
    var b := if buckets[hash].Some? then buckets[hash].value else Bucket([], [], []);
    var after := buckets[hash := Some(Bucket(b.keys + [key], b.values + [value], b.flags + [flag]))];
    forall h | 0 <= h < BAG_SIZE
      ensures (if after[h].Some? then after[h].value.keys else []) == InBucket(order + [key], h)
    {
      InBucketAppends(order, key, h);
    }
  }

  // ----- the key list -----

  lemma {:induction false} ListedKeys(keys: seq<string>, flags: seq<nat>, k: string)
    requires |flags| == |keys| && Unique(keys)
    ensures Unique(Listed(keys, flags))
    ensures k in Listed(keys, flags) <==> IndexOf(keys, k).Some? && Enumerable(flags[IndexOf(keys, k).value])
  {
    if keys != [] {
      ListedKeys(keys[1..], flags[1..], k);
      ListedKeys(keys[1..], flags[1..], keys[0]);
      assert keys[0] !in keys[1..];
      var rest := Listed(keys[1..], flags[1..]);
      assert Listed(keys, flags) == (if Enumerable(flags[0]) then [keys[0]] else []) + rest;
    }
  }

  /** The listed keys of the buckets from number h on. */
  lemma {:induction false} SuffixListed<V>(buckets: seq<Option<Bucket<V>>>, h: nat, k: string)
    requires Wellformed(buckets) && h <= BAG_SIZE
    ensures Unique(AllListed(buckets[h..]))
    ensures k in AllListed(buckets[h..]) <==>
            Hash(k) >= h && Lookup(buckets, k).Some? && Enumerable(Lookup(buckets, k).value.flag)
    decreases BAG_SIZE - h
  {
    hide Listed, IndexOf, Enumerable, Hash;
    if h == BAG_SIZE {
      NothingListed<V>();
      HashBounded(k);
    } else {
      assert buckets[h..][1..] == buckets[h + 1..];
      SuffixListed(buckets, h + 1, k);
      if buckets[h].Some? {
        var b := buckets[h].value;
        var here, rest := Listed(b.keys, b.flags), AllListed(buckets[h + 1..]);
        assert Aligned(b, h);
        ListedKeys(b.keys, b.flags, k);
        forall x | x in here
          ensures x !in rest
        {
          ListedKeys(b.keys, b.flags, x);
          SuffixListed(buckets, h + 1, x);
        }
        UniqueConcat(here, rest);
      }
    }
  }

  lemma NothingListed<V>()
    ensures Unique(AllListed<V>([]))
  {
  }

  lemma HashBounded(k: string)
    ensures Hash(k) < BAG_SIZE
  {
  }

  lemma UniqueConcat(a: seq<string>, b: seq<string>)
    requires Unique(a) && Unique(b) && forall x :: x in a ==> x !in b
    ensures Unique(a + b)
  {
    forall i, j | 0 <= i < j < |a + b|
      ensures (a + b)[i] != (a + b)[j]
    {
      if i < |a| <= j {
        assert a[i] in a && b[j - |a|] in b;
      }
    }
  }

  lemma {:induction false} UniqueSize(keys: seq<string>, s: set<string>)
    requires Unique(keys) && forall k :: k in keys <==> k in s
    ensures |keys| == |s|
    decreases |keys|
  {
    if keys == [] {
      assert s == {};
    } else {
      assert keys[0] !in keys[1..];
      UniqueSize(keys[1..], s - {keys[0]});
    }
  }

  /** The key list has every enumerable key of the finite map once, and nothing else. */
  lemma KeyOrderListsKeys<V>(buckets: seq<Option<Bucket<V>>>, model: map<string, Entry<V>>)
    requires Wellformed(buckets)
    requires forall key :: Lookup(buckets, key) == if key in model then Some(model[key]) else None
    ensures var keys := AllListed(buckets);
            && Unique(keys) && (forall k :: k in keys <==> k in EnumerableKeys(model))
                && |keys| == |EnumerableKeys(model)|
  {
    assert buckets[0..] == buckets;
    forall k
      ensures Unique(AllListed(buckets)) && (k in AllListed(buckets) <==> k in EnumerableKeys(model))
    {
      SuffixListed(buckets, 0, k);
    }
    SuffixListed(buckets, 0, "");
    UniqueSize(AllListed(buckets), EnumerableKeys(model));
  }

  /** Of the keys of a list, those of bucket h that are shown. */
  function Shown(order: seq<string>, shown: set<string>, h: nat): seq<string> {
    if order == [] then []
    else (if Hash(order[0]) == h && order[0] in shown then [order[0]] else []) + Shown(order[1..], shown, h)
  }

  /** The same of the buckets from h on, bucket by bucket. */
  function ShownFrom(order: seq<string>, shown: set<string>, h: nat): seq<string>
    decreases BAG_SIZE - h
  {
    if h >= BAG_SIZE then [] else Shown(order, shown, h) + ShownFrom(order, shown, h + 1)
  }

  lemma {:induction false} ListedShown(order: seq<string>, flags: seq<nat>, shown: set<string>, h: nat)
    requires |flags| == |InBucket(order, h)|
    requires forall i :: 0 <= i < |flags| ==> (Enumerable(flags[i]) <==> InBucket(order, h)[i] in shown)
    ensures Listed(InBucket(order, h), flags) == Shown(order, shown, h)
    decreases |order|
  {
    hide Hash, Enumerable;
    if order != [] {
      if Hash(order[0]) == h {
        assert InBucket(order, h)[1..] == InBucket(order[1..], h);
        ListedShown(order[1..], flags[1..], shown, h);
      } else {
        assert InBucket(order, h) == InBucket(order[1..], h);
        ListedShown(order[1..], flags, shown, h);
      }
    }
  }

  /** The key list is the enumerable keys bucket by bucket, within a bucket in the order of their
      first insertion, however often they were overwritten since. */
  lemma {:induction false} KeyOrderExact<V>(buckets: seq<Option<Bucket<V>>>, model: map<string, Entry<V>>,
                                            order: seq<string>, h: nat)
    requires Wellformed(buckets) && InOrder(buckets, order) && h <= BAG_SIZE
    requires forall key :: Lookup(buckets, key) == if key in model then Some(model[key]) else None
    ensures AllListed(buckets[h..]) == ShownFrom(order, EnumerableKeys(model), h)
    decreases BAG_SIZE - h
  {
    hide Hash, Listed, InBucket, Shown, Enumerable;
    AllListedFrom(buckets, h);
    if h < BAG_SIZE {
      KeyOrderExact(buckets, model, order, h + 1);
      BucketShown(buckets, model, order, h);
    }
  }

  lemma BucketShown<V>(buckets: seq<Option<Bucket<V>>>, model: map<string, Entry<V>>, order: seq<string>, h: nat)
    requires Wellformed(buckets) && InOrder(buckets, order) && h < BAG_SIZE
    requires forall key :: Lookup(buckets, key) == if key in model then Some(model[key]) else None
    ensures (if buckets[h].Some? then Listed(buckets[h].value.keys, buckets[h].value.flags) else [])
            == Shown(order, EnumerableKeys(model), h)
  {
    hide Hash, Listed, InBucket, Shown, Enumerable;
    var flags := if buckets[h].Some? then buckets[h].value.flags else [];
    var keys := InBucket(order, h);
    assert buckets[h].Some? ==> Aligned(buckets[h].value, h);
    forall i | 0 <= i < |flags|
      ensures Enumerable(flags[i]) <==> keys[i] in EnumerableKeys(model)
    {
      assert keys[i] in keys;
      assert IndexOf(keys, keys[i]) == Some(i);
      assert Lookup(buckets, keys[i]) == Some(Entry(buckets[h].value.values[i], flags[i]));
    }
    ListedShown(order, flags, EnumerableKeys(model), h);
    if buckets[h].None? {
      NothingIn();
    }
  }

  lemma NothingIn()
    ensures Listed([], []) == []
  {
  }

  // ----- the size, over any history -----

  datatype Write<+V> = Write(key: string, value: V, flag: nat)

  function Insert<V>(m: map<string, Entry<V>>, w: Write<V>): map<string,
      Entry<V>> { m[w.key := Entry(w.value, w.flag)] }

  function InsertAll<V>(m: map<string, Entry<V>>, ws: seq<Write<V>>): map<string, Entry<V>>
    decreases |ws|
  {
    if ws == [] then m else InsertAll(Insert(m, ws[0]), ws[1..])
  }

  /** What the size field counts: enumerable bits of keys that are new. */
  function Sized<V>(m: map<string, Entry<V>>, ws: seq<Write<V>>): int
    decreases |ws|
  {
    if ws == [] then 0 else (if ws[0].key in m then 0 else Bit(ws[0].flag)) + Sized(Insert(m, ws[0]), ws[1..])
  }

  /** Enumerable bits set less bits cleared on keys that were there. */
  function Drift<V>(m: map<string, Entry<V>>, ws: seq<Write<V>>): int
    decreases |ws|
  {
    if ws == [] then 0
    else (if ws[0].key in m then Bit(ws[0].flag) - Bit(m[ws[0].key].flag) else 0) + Drift(Insert(m, ws[0]), ws[1..])
  }

  lemma InsertCounts<V>(m: map<string, Entry<V>>, w: Write<V>)
    ensures |EnumerableKeys(Insert(m, w))|
            == |EnumerableKeys(m)| + Bit(w.flag) - if w.key in m then Bit(m[w.key].flag) else 0
  {
    var before := EnumerableKeys(m);
    assert EnumerableKeys(Insert(m, w)) == (if Enumerable(w.flag) then before + {w.key} else before - {w.key});
    assert w.key in before <==> w.key in m && Enumerable(m[w.key].flag);
  }

  /** After any insertions into an empty map, the size is the number of enumerable keys if and
      only if the overwritten enumerable bits cancel out; in particular if none changed. */
  lemma {:induction false} SizeExact<V>(m: map<string, Entry<V>>, ws: seq<Write<V>>)
    ensures |EnumerableKeys(InsertAll(m, ws))| == |EnumerableKeys(m)| + Sized(m, ws) + Drift(m, ws)
    decreases |ws|
  {
    if ws != [] {
      InsertCounts(m, ws[0]);
      SizeExact(Insert(m, ws[0]), ws[1..]);
    }
  }
}
