/** A string-keyed dictionary that remembers insertion order, as a
    JavaScript `Map` and a plain object used as a record both do: setting
    a key that is present replaces its value in place, setting a new key
    appends it. Iterating (`keys()`, `Object.values`, `Object.entries`)
    visits the entries in this order. */
module OrderedMaps {
  import opened Seqs

  datatype Entry<V> = Entry(key: string, value: V)

  type OrderedMap<V> = seq<Entry<V>>

  function Keys<V>(m: seq<Entry<V>>): (ks: seq<string>)
    ensures |ks| == |m|
    ensures forall i :: 0 <= i < |m| ==> ks[i] == m[i].key
  {
    MapSeq(m, (e: Entry<V>) => e.key)
  }

  /** Each key at most once. */
  ghost predicate Valid<V>(m: OrderedMap<V>) {
    NoDups(Keys(m))
  }

  /** Position of `k` among the keys, `|ks|` when absent. */
  function IndexOf(ks: seq<string>, k: string): (i: nat)
    ensures i <= |ks|
    ensures i == |ks| <==> k !in ks
    ensures i < |ks| ==> ks[i] == k && k !in ks[..i]
  {
    if k in ks then FirstIndex(ks, k) else |ks|
  }

  /** `m.get(k)` / `record[k]`. */
  function Get<V>(m: OrderedMap<V>, k: string): (r: Option<V>)
    ensures r.Some? <==> k in Keys(m)
  {
    var i := IndexOf(Keys(m), k);
    if i < |m| then Some(m[i].value) else None
  }

  /** `m.set(k, v)` / `record[k] = v`: a new key is appended, a present
      key keeps its position and takes the new value. */
  function Put<V>(m: OrderedMap<V>, k: string, v: V): (r: OrderedMap<V>)
    ensures Keys(r) == if k in Keys(m) then Keys(m) else Keys(m) + [k]
    ensures k !in Keys(m) ==> r == m + [Entry(k, v)]
    ensures Get(r, k) == Some(v)
    ensures forall j :: j != k ==> Get(r, j) == Get(m, j)
    ensures Valid(m) ==> Valid(r)
  {
    var i := IndexOf(Keys(m), k);
    if i < |m| then
      PutPresent(m, i, k, v);
      m[i := Entry(k, v)]
    else
      PutAbsent(m, k, v);
      m + [Entry(k, v)]
  }

  lemma PutPresent<V>(m: OrderedMap<V>, i: nat, k: string, v: V)
    requires i < |m| && i == IndexOf(Keys(m), k)
    ensures var r := m[i := Entry(k, v)];
      && Keys(r) == Keys(m)
      && Get(r, k) == Some(v)
      && (forall j :: j != k ==> Get(r, j) == Get(m, j))
  {
    var r := m[i := Entry(k, v)];
    assert Keys(r) == Keys(m);
  }

  lemma PutAbsent<V>(m: OrderedMap<V>, k: string, v: V)
    requires k !in Keys(m)
    ensures var r := m + [Entry(k, v)];
      && Keys(r) == Keys(m) + [k]
      && Get(r, k) == Some(v)
      && (forall j :: j != k ==> Get(r, j) == Get(m, j))
      && (Valid(m) ==> Valid(r))
  {
    var r := m + [Entry(k, v)];
    assert Keys(r) == Keys(m) + [k];
    forall j | j in Keys(m)
      ensures IndexOf(Keys(r), j) == IndexOf(Keys(m), j)
    {
      FirstIndexPrefix(Keys(m), Keys(r), j);
    }
  }

  /** Setting each entry of `es` in turn, starting from an empty map. */
  function PutAll<V>(es: seq<Entry<V>>): OrderedMap<V>
  {
    if es == [] then [] else Put(PutAll(Init(es)), Last(es).key, Last(es).value)
  }

  /** Reference definition of "the value of the last entry with key `k`". */
  ghost function LastValue<V>(es: seq<Entry<V>>, k: string): (r: Option<V>)
    ensures r.None? <==> k !in Keys(es)
    ensures r.Some? ==> exists i :: 0 <= i < |es| && IsLastWith(es, k, i) && r.value == es[i].value
  {
    if es == [] then None
    else if Last(es).key == k then
      assert IsLastWith(es, k, |es| - 1);
      Some(Last(es).value)
    else
      var r := LastValue(Init(es), k);
      assert Keys(es) == Keys(Init(es)) + [Last(es).key];
      if r.Some? then
        var i :| 0 <= i < |Init(es)| && IsLastWith(Init(es), k, i) && r.value == Init(es)[i].value;
        assert IsLastWith(es, k, i);
        r
      else r
  }

  /** Entry `i` has key `k` and no later entry does. */
  ghost predicate IsLastWith<V>(es: seq<Entry<V>>, k: string, i: int)
    requires 0 <= i < |es|
  {
    es[i].key == k && forall j :: i < j < |es| ==> es[j].key != k
  }

  /** The keys of `PutAll(es)` are the distinct keys of `es` in order of
      first appearance. */
  lemma {:induction false} PutAllKeys<V>(es: seq<Entry<V>>)
    ensures Valid(PutAll(es))
    ensures Keys(PutAll(es)) == Uniq(Keys(es))
  {
    if es != [] {
      PutAllKeys(Init(es));
      assert Keys(es) == Keys(Init(es)) + [Last(es).key];
      assert Init(Keys(es)) == Keys(Init(es));
    }
  }

  /** Each key of `PutAll(es)` maps to the value of its last entry in `es`. */
  lemma {:induction false} PutAllGet<V>(es: seq<Entry<V>>, k: string)
    ensures Get(PutAll(es), k) == LastValue(es, k)
  {
    if es != [] {
      PutAllGet(Init(es), k);
    }
  }

  /** The last entry with a key decides its value. */
  lemma PutAllLast<V>(es: seq<Entry<V>>, i: nat)
    requires i < |es| && IsLastWith(es, es[i].key, i)
    ensures Get(PutAll(es), es[i].key) == Some(es[i].value)
  {
    var k := es[i].key;
    PutAllGet(es, k);
    var v := LastValue(es, k);
    var i' :| 0 <= i' < |es| && IsLastWith(es, k, i') && v.value == es[i'].value;
    assert i' == i;
  }

  /** With distinct keys every entry is new, so `PutAll` keeps `es` as it is. */
  lemma {:induction false} PutAllDistinct<V>(es: seq<Entry<V>>)
    requires NoDups(Keys(es))
    ensures PutAll(es) == es
  {
    if es != [] {
      var init, k, v := Init(es), Last(es).key, Last(es).value;
      DistinctInit(es);
      PutAllDistinct(init);
      assert PutAll(es) == Put(init, k, v) == init + [Entry(k, v)];
      assert Last(es) == Entry(k, v);
      assert es == init + [Last(es)];
    }
  }

  lemma DistinctInit<V>(es: seq<Entry<V>>)
    requires es != [] && NoDups(Keys(es))
    ensures NoDups(Keys(Init(es))) && Last(es).key !in Keys(Init(es))
  {
    var ks := Keys(es);
    assert Keys(Init(es)) == ks[..|es| - 1];
    forall j | 0 <= j < |es| - 1
      ensures Keys(Init(es))[j] != Last(es).key
    {
      assert ks[j] != ks[|es| - 1];
    }
  }
}
