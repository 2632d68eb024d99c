/** Script objects with a cached list of their keys (src/interpreter/native_functions.c:122-149,
    src/interpreter/interpreter_dd.c:846-851). */
module KeyList {
  import opened Options
  import opened HashMap
  import opened Labels

  datatype Value = Text(s: string) | Native(name: string) | Other(n: int)

  /** The entries every object is born with. */
  const NATIVES: map<string, Entry<Value>> := map["size" := Entry(Native("size"), 0),
                                                  "keys" := Entry(Native("keys"), 0)]

  // ----- where the indices hash to -----

  lemma {:induction false} HashAppends(h: nat, s: string, c: char)
    ensures HashFrom(h, s + [c]) == (HashFrom(h, s) * 10 + Code(c) - '0' as int) % WORD
    decreases |s|
  {
    if s == [] {
      assert s + [c] == [c] && [c][1..] == [];
    } else {
      assert (s + [c])[0] == s[0] && (s + [c])[1..] == s[1..] + [c];
      HashAppends((h * 10 + Code(s[0]) - '0' as int) % WORD, s[1..], c);
    }
  }

  lemma {:induction false} HashOfDecimal(n: nat)
    requires n < WORD
    ensures HashFrom(0, Decimal(n)) == n
  {
    var digit := Digit(n % 10);
    DigitCode(n % 10);
    if n < 10 {
      assert Decimal(n) == [] + [digit];
      HashAppends(0, [], digit);
    } else {
      HashOfDecimal(n / 10);
      HashAppends(0, Decimal(n / 10), digit);
      Recombined(n);
    }
  }

  lemma Recombined(n: nat)
    requires n < WORD
    ensures ((n / 10) * 10 + (n % 10 + '0' as int) - '0' as int) % WORD == n
  {
  }

  lemma DigitCode(d: nat)
    requires d < 10
    ensures Code(Digit(d)) == d + '0' as int
  {
  }

  /** An index is kept in the bucket of its last digit. */
  lemma IndexBucket(n: nat)
    requires n < WORD
    ensures Hash(Decimal(n)) == n % 10
  {
    HashOfDecimal(n);
  }

  // ----- the size of a script object -----

  predicate Scripted(ws: seq<Write<Value>>) { forall w :: w in ws ==> w.flag == 1 }

  /** Some write overwrites a key that is not enumerable. */
  predicate Uncovers(m: map<string, Entry<Value>>, ws: seq<Write<Value>>) {
    exists w :: w in ws && w.key in m && !Enumerable(m[w.key].flag)
  }

  lemma {:induction false} DriftExact(m: map<string, Entry<Value>>, ws: seq<Write<Value>>)
    requires Scripted(ws)
    ensures Drift(m, ws) >= 0 && (Drift(m, ws) == 0 <==> !Uncovers(m, ws))
    decreases |ws|
  {
    if ws != [] {
      var w, rest := ws[0], ws[1..];
      var m' := Insert(m, w);
      DriftExact(m', rest);
      if Uncovers(m', rest) {
        var x :| x in rest && x.key in m' && !Enumerable(m'[x.key].flag);
        assert x in ws && x.key != w.key && x.key in m && !Enumerable(m[x.key].flag);
      }
      if Uncovers(m, ws) {
        var x :| x in ws && x.key in m && !Enumerable(m[x.key].flag);
        if x.key != w.key {
          assert x in rest && x.key in m' && !Enumerable(m'[x.key].flag);
        }
      }
    }
  }

  /** After any writes by a script the size of an object, 0 at first, is the number of its
      enumerable keys if and only if none of them wrote size or keys. */
  lemma ScriptSizeExact(ws: seq<Write<Value>>)
    requires Scripted(ws)
    ensures Sized(NATIVES, ws) == |EnumerableKeys(InsertAll(NATIVES, ws))|
            <==> forall w :: w in ws ==> w.key != "size" && w.key != "keys"
  {
    assert EnumerableKeys(NATIVES) == {};
    SizeExact(NATIVES, ws);
    DriftExact(NATIVES, ws);
    if !Uncovers(NATIVES, ws) {
      forall w | w in ws
        ensures w.key != "size" && w.key != "keys"
      {
        assert w.key in NATIVES ==> Enumerable(NATIVES[w.key].flag);
      }
    }
  }

  /** o.size = v: one enumerable key, size 0. */
  lemma SizeOverwritten(v: Value)
    ensures var ws := [Write("size", v, 1)];
            Sized(NATIVES, ws) == 0 && EnumerableKeys(InsertAll(NATIVES, ws)) == {"size"}
  {
    var ws := [Write("size", v, 1)];
    assert ws[1..] == [];
    assert InsertAll(NATIVES, ws) == NATIVES["size" := Entry(v, 1)];
  }

  // ----- the list of keys -----

  /** The list of keys under the names 0 .. n - 1. */
  function Numbered(keys: seq<string>): (m: map<string, Entry<Value>>)
    decreases |keys|
  {
    if keys == [] then NATIVES
    else Numbered(keys[..|keys| - 1])[Decimal(|keys| - 1) := Entry(Text(keys[|keys| - 1]), 1)]
  }

  /** The list has key i under name i, for every i, and no other enumerable name. */
  lemma {:induction false} NumberedLists(keys: seq<string>)
    ensures forall i: nat :: i < |keys| ==>
      Decimal(i) in Numbered(keys) && Numbered(keys)[Decimal(i)] == Entry(Text(keys[i]), 1)
    ensures forall k :: k in EnumerableKeys(Numbered(keys)) ==> exists i: nat :: i < |keys| && k == Decimal(i)
    decreases |keys|
  {
    hide Decimal;
    if keys != [] {
      var init, last := keys[..|keys| - 1], |keys| - 1;
      NumberedLists(init);
      forall i: nat | i < |keys|
        ensures Decimal(i) in Numbered(keys) && Numbered(keys)[Decimal(i)] == Entry(Text(keys[i]), 1)
      {
        if Decimal(i) == Decimal(last) {
          DecimalInjective(i, last);
        } else {
          assert init[i] == keys[i];
        }
      }
      forall k | k in EnumerableKeys(Numbered(keys))
        ensures exists i: nat :: i < |keys| && k == Decimal(i)
      {
        if k == Decimal(last) {
          assert last < |keys|;
        } else {
          assert k in EnumerableKeys(Numbered(init));
          var i: nat :| i < |init| && k == Decimal(i);
        }
      }
    }
  }

  class ScriptObject {
    const properties: HashMap<Value>
    var keyListCache: ScriptObject?

    constructor ()
      ensures fresh(properties) && keyListCache == null && properties.Valid() && !properties.isImmutable
      ensures properties.model == NATIVES
    {
      hide InOrder, InBucket;
      properties := new HashMap<Value>();
      keyListCache := null;
      new;
      properties.InsertFlags("size", Native("size"), 0);
      properties.InsertFlags("keys", Native("keys"), 0);
      assert properties.model == NATIVES;
    }

    /** A cached list is another object, immutable, and lists the current enumerable keys in
        key list order. */
    ghost predicate Valid()
      reads this, properties, keyListCache, if keyListCache == null then {} else {keyListCache.properties}
    {
      && properties.Valid()
      && (keyListCache != null ==>
            && keyListCache != this && keyListCache.properties != properties
            && keyListCache.properties.Valid() && keyListCache.properties.isImmutable
            && keyListCache.properties.model == Numbered(properties.KeyOrder()))
    }

    /** A property is written, and the cached list forgotten. Nothing changes in an immutable
        object but its own cache. */
    method SetField(name: string, value: Value)
      requires Valid()
      modifies this, properties
      ensures Valid() && keyListCache == null && properties.isImmutable == old(properties.isImmutable)
      ensures properties.model == if properties.isImmutable then old(properties.model)
              else old(properties.model)[name := Entry(value, 1)]
      ensures properties.isImmutable ==> properties.KeyOrder() == old(properties.KeyOrder())
    {
      properties.InsertFlags(name, value, 1);
      keyListCache := null;
    }

    /** keys(): the cached list, made when there is none. */
    method Keys() returns (list: ScriptObject)
      requires Valid()
      modifies this
      ensures Valid() && list == keyListCache
      ensures list.properties.isImmutable && list.properties.model == Numbered(properties.KeyOrder())
      ensures old(keyListCache) != null ==> list == old(keyListCache)
    {
      hide InOrder, InBucket, Decimal;
      if keyListCache != null {
        return keyListCache;
      }
      list := new ScriptObject();
      var keys := properties.KeyList();
      var i := 0;
      assert keys[..0] == [];
      while i < |keys|
        modifies list.properties
        invariant 0 <= i <= |keys|
        invariant list.properties.Valid() && !list.properties.isImmutable
        invariant list.properties.model == Numbered(keys[..i])
      {
        assert keys[..i + 1][..i] == keys[..i];
        list.properties.InsertFlags(Decimal(i), Text(keys[i]), 1);
        i := i + 1;
      }
      assert keys[..i] == keys;
      list.properties.isImmutable := true;
      keyListCache := list;
    }
  }
}
