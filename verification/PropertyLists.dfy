/** Ordered property lists: a JavaScript object, or the properties of a JSON document, in their order. */
module PropertyLists {
  import opened Wrappers

  datatype Property<V> = Property(key: string, value: V)

  type Properties<V> = seq<Property<V>>

  function Find<V>(l: Properties<V>, key: string): Option<V> {
    if l == [] then None else if l[0].key == key then Some(l[0].value) else Find(l[1..], key)
  }

  /** Assignment: in place when the key is there, otherwise at the end. */
  function Put<V>(l: Properties<V>, key: string, value: V): Properties<V> {
    if l == [] then [Property(key, value)]
    else if l[0].key == key then [Property(key, value)] + l[1..]
    else [l[0]] + Put(l[1..], key, value)
  }

  function Without<V>(l: Properties<V>, key: string): Properties<V> {
    if l == [] then [] else (if l[0].key == key then [] else [l[0]]) + Without(l[1..], key)
  }

  function PutAll<V>(l: Properties<V>, more: Properties<V>): Properties<V>
    decreases |more|
  {
    if more == [] then l else PutAll(Put(l, more[0].key, more[0].value), more[1..])
  }

  function WithoutAll<V>(l: Properties<V>, keys: seq<string>): Properties<V>
    decreases |keys|
  {
    if keys == [] then l else WithoutAll(Without(l, keys[0]), keys[1..])
  }

  /** The document's insertion: in place when the key is there, otherwise at this index. */
  function PutAt<V>(l: Properties<V>, key: string, value: V, index: nat): Properties<V> {
    if Find(l, key).Some? then Put(l, key, value)
    else var i := if index <= |l| then index else |l|; l[..i] + [Property(key, value)] + l[i..]
  }

  function IndexOf<V>(l: Properties<V>, key: string): (i: int)
    ensures -1 <= i < |l|
  {
    if l == [] then -1
    else if l[0].key == key then 0
    else var i := IndexOf(l[1..], key); if i == -1 then -1 else i + 1
  }

  ghost predicate SameValues<V>(a: Properties<V>, b: Properties<V>) {
    forall key :: Find(a, key) == Find(b, key)
  }

  lemma {:induction false} FindPut<V>(l: Properties<V>, key: string, value: V, k: string)
    ensures Find(Put(l, key, value), k) == if k == key then Some(value) else Find(l, k)
    decreases |l|
  {
    if l != [] {
      FindPut(l[1..], key, value, k);
    } else {
      assert Find([Property(key, value)][1..], k) == None;
    }
  }

  lemma {:induction false} FindWithout<V>(l: Properties<V>, key: string, k: string)
    ensures Find(Without(l, key), k) == if k == key then None else Find(l, k)
    decreases |l|
  {
    if l != [] {
      FindWithout(l[1..], key, k);
      var rest := Without(l[1..], key);
      assert l[0].key == key ==> Without(l, key) == rest;
      assert ([l[0]] + rest)[1..] == rest;
    }
  }

  lemma {:induction false} FindSplits<V>(a: Properties<V>, b: Properties<V>, k: string)
    ensures Find(a + b, k) == if Find(a, k).Some? then Find(a, k) else Find(b, k)
    decreases |a|
  {
    if a == [] {
      assert a + b == b;
    } else {
      assert (a + b)[1..] == a[1..] + b;
      FindSplits(a[1..], b, k);
    }
  }

  lemma FindFirst<V>(key: string, value: V, l: Properties<V>, k: string)
    ensures Find([Property(key, value)] + l, k) == if k == key then Some(value) else Find(l, k)
  {
    assert ([Property(key, value)] + l)[1..] == l;
  }

  lemma FindPutAt<V>(l: Properties<V>, key: string, value: V, index: nat, k: string)
    ensures Find(PutAt(l, key, value, index), k) == if k == key then Some(value) else Find(l, k)
  {
    if Find(l, key).Some? {
      FindPut(l, key, value, k);
    } else {
      var i := if index <= |l| then index else |l|;
      assert l == l[..i] + l[i..];
      FindSplits(l[..i], l[i..], k);
      FindSplits(l[..i], l[i..], key);
      FindFirst(key, value, l[i..], k);
      assert l[..i] + [Property(key, value)] + l[i..] == l[..i] + ([Property(key, value)] + l[i..]);
      FindSplits(l[..i], [Property(key, value)] + l[i..], k);
    }
  }

  lemma {:induction false} FindPutAll<V>(l: Properties<V>, more: Properties<V>, k: string)
    requires Unique(more)
    ensures Find(PutAll(l, more), k) == if Find(more, k).Some? then Find(more, k) else Find(l, k)
    decreases |more|
  {
    if more != [] {
      FindPut(l, more[0].key, more[0].value, k);
      UniqueHead(more);
      FindPutAll(Put(l, more[0].key, more[0].value), more[1..], k);
    }
  }

  lemma {:induction false} FindWithoutAll<V>(l: Properties<V>, keys: seq<string>, k: string)
    ensures Find(WithoutAll(l, keys), k) == if k in keys then None else Find(l, k)
    decreases |keys|
  {
    if keys != [] {
      FindWithout(l, keys[0], k);
      FindWithoutAll(Without(l, keys[0]), keys[1..], k);
      assert k in keys <==> k == keys[0] || k in keys[1..];
    }
  }

  /** An object has each key once. */
  ghost predicate Unique<V>(l: Properties<V>) {
    forall i, j | 0 <= i < j < |l| :: l[i].key != l[j].key
  }

  lemma {:induction false} NotFound<V>(l: Properties<V>, key: string)
    ensures Find(l, key) == None <==> forall i | 0 <= i < |l| :: l[i].key != key
    decreases |l|
  {
    if l != [] {
      NotFound(l[1..], key);
      assert forall i | 0 < i < |l| :: l[i] == l[1..][i - 1];
    }
  }

  lemma UniqueHead<V>(l: Properties<V>)
    requires Unique(l) && l != []
    ensures Unique(l[1..]) && Find(l[1..], l[0].key) == None
  {
    NotFound(l[1..], l[0].key);
  }

  /** Assigning what is there already changes nothing. */
  lemma {:induction false} PutSame<V>(l: Properties<V>, key: string, value: V)
    requires Find(l, key) == Some(value)
    ensures Put(l, key, value) == l
    decreases |l|
  {
    if l[0].key != key {
      PutSame(l[1..], key, value);
    }
  }

  lemma {:induction false} WithoutAbsent<V>(l: Properties<V>, key: string)
    requires Find(l, key) == None
    ensures Without(l, key) == l
    decreases |l|
  {
    if l != [] {
      WithoutAbsent(l[1..], key);
    }
  }

  lemma {:induction false} PutAllSame<V>(l: Properties<V>, more: Properties<V>)
    requires forall i | 0 <= i < |more| :: Find(l, more[i].key) == Some(more[i].value)
    ensures PutAll(l, more) == l
    decreases |more|
  {
    if more != [] {
      PutSame(l, more[0].key, more[0].value);
      PutAllSame(l, more[1..]);
    }
  }

  lemma {:induction false} WithoutAllAbsent<V>(l: Properties<V>, keys: seq<string>)
    requires forall k | k in keys :: Find(l, k) == None
    ensures WithoutAll(l, keys) == l
    decreases |keys|
  {
    if keys != [] {
      WithoutAbsent(l, keys[0]);
      WithoutAllAbsent(l, keys[1..]);
    }
  }

  /** `l` with the values that `more` has for its keys. */
  function Updated<V>(l: Properties<V>, more: Properties<V>): (r: Properties<V>)
    ensures |r| == |l| && forall i | 0 <= i < |l| :: r[i].key == l[i].key
  {
    if l == [] then []
    else
      var v := Find(more, l[0].key);
      [if v.Some? then Property(l[0].key, v.value) else l[0]] + Updated(l[1..], more)
  }

  /** What `more` has under keys that `l` has not. */
  function Extra<V>(l: Properties<V>, more: Properties<V>): Properties<V> {
    if more == [] then [] else (if Find(l, more[0].key) == None then [more[0]] else []) + Extra(l, more[1..])
  }

  lemma {:induction false} UpdatedAt<V>(l: Properties<V>, more: Properties<V>, i: nat)
    requires i < |l|
    ensures Updated(l, more)[i]
         == if Find(more, l[i].key).Some? then Property(l[i].key, Find(more, l[i].key).value) else l[i]
    decreases i
  {
    if i > 0 {
      UpdatedAt(l[1..], more, i - 1);
    }
  }

  lemma {:induction false} UpdatedSplits<V>(a: Properties<V>, b: Properties<V>, more: Properties<V>)
    ensures Updated(a + b, more) == Updated(a, more) + Updated(b, more)
    decreases |a|
  {
    if a == [] {
      assert a + b == b;
    } else {
      assert (a + b)[1..] == a[1..] + b;
      UpdatedSplits(a[1..], b, more);
    }
  }

  lemma {:induction false} FindUpdated<V>(l: Properties<V>, more: Properties<V>, k: string)
    ensures Find(Updated(l, more), k) == if Find(l, k).Some? && Find(more, k).Some? then Find(more, k) else Find(l, k)
    decreases |l|
  {
    if l != [] {
      FindUpdated(l[1..], more, k);
    }
  }

  lemma {:induction false} PutNew<V>(l: Properties<V>, key: string, value: V)
    requires Find(l, key) == None
    ensures Put(l, key, value) == l + [Property(key, value)]
    decreases |l|
  {
    if l != [] {
      PutNew(l[1..], key, value);
    }
  }

  lemma {:induction false} UpdatedByPut<V>(l: Properties<V>, p: Property<V>, more: Properties<V>)
    requires Unique(l) && Find(l, p.key).Some? && Find(more, p.key) == None
    ensures Updated(Put(l, p.key, p.value), more) == Updated(l, [p] + more)
    decreases |l|
  {
    UniqueHead(l);
    FindFirst(p.key, p.value, more, l[0].key);
    assert [p] + more == [Property(p.key, p.value)] + more;
    if l[0].key == p.key {
      SkipsAbsent(l[1..], p, more);
    } else {
      UpdatedByPut(l[1..], p, more);
    }
  }

  lemma {:induction false} SkipsAbsent<V>(l: Properties<V>, p: Property<V>, more: Properties<V>)
    requires Find(l, p.key) == None
    ensures Updated(l, [p] + more) == Updated(l, more)
    decreases |l|
  {
    if l != [] {
      assert ([p] + more)[1..] == more;
      SkipsAbsent(l[1..], p, more);
    }
  }

  lemma {:induction false} ExtraByFind<V>(a: Properties<V>, b: Properties<V>, more: Properties<V>)
    requires forall p | p in more :: Find(a, p.key).Some? <==> Find(b, p.key).Some?
    ensures Extra(a, more) == Extra(b, more)
    decreases |more|
  {
    if more != [] {
      assert more[0] in more;
      assert forall p | p in more[1..] :: p in more;
      ExtraByFind(a, b, more[1..]);
    }
  }

  lemma {:induction false} PutIsUnique<V>(l: Properties<V>, key: string, value: V)
    requires Unique(l)
    ensures Unique(Put(l, key, value))
    decreases |l|
  {
    if l != [] && l[0].key != key {
      UniqueHead(l);
      PutIsUnique(l[1..], key, value);
      FindPut(l[1..], key, value, l[0].key);
      NotFound(Put(l[1..], key, value), l[0].key);
    }
  }

  /** Assigning a list of properties updates the keys that are there in place and adds the others in order. */
  lemma {:induction false} PutAllShape<V>(l: Properties<V>, more: Properties<V>)
    requires Unique(l) && Unique(more)
    ensures PutAll(l, more) == Updated(l, more) + Extra(l, more)
    decreases |more|
  {
    hide Updated;
    if more == [] {
      NothingUpdated(l);
    } else {
      var (p, rest) := (more[0], more[1..]);
      UniqueHead(more);
      PutIsUnique(l, p.key, p.value);
      PutAllShape(Put(l, p.key, p.value), rest);
      assert [p] + rest == more;
      forall q | q in rest
        ensures Find(Put(l, p.key, p.value), q.key) == Find(l, q.key)
      {
        NotFound(rest, p.key);
        FindPut(l, p.key, p.value, q.key);
      }
      ExtraByFind(Put(l, p.key, p.value), l, rest);
      if Find(l, p.key).Some? {
        UpdatedByPut(l, p, rest);
        assert Extra(l, more) == [] + Extra(l, rest);
      } else {
        NewGoesLast(l, p, rest);
      }
    }
  }

  lemma {:induction false} NewGoesLast<V>(l: Properties<V>, p: Property<V>, rest: Properties<V>)
    requires Find(l, p.key) == None && Find(rest, p.key) == None
    ensures Updated(Put(l, p.key, p.value), rest) + Extra(l, rest) == Updated(l, [p] + rest) + Extra(l, [p] + rest)
  {
    PutNew(l, p.key, p.value);
    UpdatedSplits(l, [p], rest);
    SkipsAbsent(l, p, rest);
    assert [p][1..] == [] && Updated([p], rest) == [p] + Updated([], rest);
    assert ([p] + rest)[1..] == rest;
    assert Updated(l, rest) + [p] + Extra(l, rest) == Updated(l, rest) + ([p] + Extra(l, rest));
  }

  lemma {:induction false} NothingUpdated<V>(l: Properties<V>)
    ensures Updated(l, []) == l
    decreases |l|
  {
    if l != [] {
      NothingUpdated(l[1..]);
    }
  }
}
