/** blog_map: the insertion-ordered Python dict from post filename to title. */
module Titles {
  import opened Wrappers

  /** list.index: the position of the first occurrence of k, or None where Python
      raises ValueError. */
  function IndexIn(keys: seq<string>, k: string): (r: Option<nat>)
    ensures r.Some? ==> r.value < |keys| && keys[r.value] == k
    ensures r.Some? ==> forall j :: 0 <= j < r.value ==> keys[j] != k
    ensures r.None? <==> k !in keys
  {
    if keys == [] then None
    else if keys[0] == k then Some(0)
    else match IndexIn(keys[1..], k)
      case None => None
      case Some(i) => Some(i + 1)
  }

  /** The dict as a value: its keys in insertion order, and what each maps to. */
  datatype Table = Table(keys: seq<string>, titles: map<string, string>) {

    /** Each key once, and the key list and the mapping agree. */
    ghost predicate Valid()
    {
      && (forall i, j :: 0 <= i < j < |keys| ==> keys[i] != keys[j])
      && forall k :: k in titles <==> k in keys
    }

    /** `d[k] = v`: a new key goes last, an existing key keeps its place. */
    function Put(k: string, v: string): Table
    {
      Table(if k in titles then keys else keys + [k], titles[k := v])
    }
  }

  const Empty: Table := Table([], map[])

  /** Appending keys does not move the first occurrence of a key already present. */
  lemma {:induction false} IndexInAppend(a: seq<string>, b: seq<string>, x: string)
    ensures IndexIn(a + b, x) ==
      match IndexIn(a, x)
      case Some(i) => Some(i)
      case None => match IndexIn(b, x) case Some(j) => Some(|a| + j) case None => None
  {
    if a != [] {
      assert (a + b)[0] == a[0] && (a + b)[1..] == a[1..] + b;
      IndexInAppend(a[1..], b, x);
    } else {
      assert a + b == b;
    }
  }

  /** Assigning a key keeps the table well formed, maps k to v, adds no key but k,
      leaves every other entry alone, and moves no key that was already there. */
  lemma PutKeepsOrder(t: Table, k: string, v: string)
    requires t.Valid()
    ensures t.Put(k, v).Valid()
    ensures t.Put(k, v).titles[k] == v
    ensures forall x :: x in t.Put(k, v).titles <==> x in t.titles || x == k
    ensures |t.Put(k, v).keys| == |t.keys| + (if k in t.titles then 0 else 1)
    ensures forall x :: x in t.titles && x != k ==> t.Put(k, v).titles[x] == t.titles[x]
    ensures forall x :: x in t.keys ==> IndexIn(t.Put(k, v).keys, x) == IndexIn(t.keys, x)
    ensures IndexIn(t.Put(k, v).keys, k) == Some(if k in t.titles then IndexIn(t.keys, k).value else |t.keys|)
  {
    if k !in t.titles {
      AppendFreshKey(t.keys, k);
    }
  }

  /** A fresh key appended to distinct keys keeps them distinct, goes last, and moves
      no other key. */
  lemma AppendFreshKey(keys: seq<string>, k: string)
    requires forall i, j :: 0 <= i < j < |keys| ==> keys[i] != keys[j]
    requires k !in keys
    ensures forall i, j :: 0 <= i < j < |keys + [k]| ==> (keys + [k])[i] != (keys + [k])[j]
    ensures forall x :: x in keys ==> IndexIn(keys + [k], x) == IndexIn(keys, x)
    ensures IndexIn(keys + [k], k) == Some(|keys|)
  {
    var keys' := keys + [k];
    forall i, j | 0 <= i < j < |keys'| ensures keys'[i] != keys'[j] {
      assert keys'[i] == keys[i];
      if j < |keys| { assert keys'[j] == keys[j]; }
    }
    forall x | x in keys ensures IndexIn(keys', x) == IndexIn(keys, x) {
      IndexInAppend(keys, [k], x);
    }
    IndexInAppend(keys, [k], k);
    assert IndexIn([k], k) == Some(0);
  }

  /** The dict object the script shares between the rewrite pass, the link pass and
      the index writer of one directory. */
  class TitleMap {
    var keys: seq<string>
    var titles: map<string, string>

    function Value(): Table
      reads this
    {
      Table(keys, titles)
    }

    ghost predicate Valid()
      reads this
    {
      Value().Valid()
    }

    constructor ()
      ensures Valid() && Value() == Empty
    {
      keys := [];
      titles := map[];
    }

    /** `blog_map[k] = v` */
    method Put(k: string, v: string)
      requires Valid()
      modifies this
      ensures Valid()
      ensures Value() == old(Value()).Put(k, v)
    {
      PutKeepsOrder(Value(), k, v);
      if k !in titles {
        keys := keys + [k];
      }
      titles := titles[k := v];
    }

    /** `blog_map.clear()` */
    method Clear()
      modifies this
      ensures Valid() && Value() == Empty
    {
      keys := [];
      titles := map[];
    }

    /** `list(blog_map.keys()).index(k)`, None where Python raises ValueError. */
    method Index(k: string) returns (r: Option<nat>)
      ensures r == IndexIn(keys, k)
    {
      var i := 0;
      while i < |keys|
        invariant 0 <= i <= |keys|
        invariant forall j :: 0 <= j < i ==> keys[j] != k
      {
        if keys[i] == k {
          return Some(i);
        }
        i := i + 1;
      }
      return None;
    }
  }
}
