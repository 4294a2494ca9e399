/** A Python dict as the report system uses it: entries in insertion order, where
    assigning to an existing key replaces its value in place. */
module Dicts {
  import opened Cells

  datatype Entry<K, V> = Entry(key: K, val: V)

  /** d[k], or None when k is not a key. */
  function Find<K(==), V>(d: seq<Entry<K, V>>, k: K): (r: Option<V>)
    ensures r.Some? <==> exists i :: 0 <= i < |d| && d[i].key == k
    ensures r.Some? ==> exists i :: 0 <= i < |d| && d[i] == Entry(k, r.value)
  {
    if d == [] then None
    else if d[0].key == k then Some(d[0].val)
    else
      var r := Find(d[1..], k);
      assert forall i :: 1 <= i < |d| ==> d[i] == d[1..][i - 1];
      r
  }

  predicate UniqueKeys<K(==), V>(d: seq<Entry<K, V>>) {
    forall i, j :: 0 <= i < j < |d| ==> d[i].key != d[j].key
  }

  /** list(d.keys()) */
  function KeysOf<K, V>(d: seq<Entry<K, V>>): (r: seq<K>)
    ensures |r| == |d|
    ensures forall i :: 0 <= i < |d| ==> r[i] == d[i].key
  {
    if d == [] then [] else [d[0].key] + KeysOf(d[1..])
  }

  /** d[k] = v */
  function Put<K(==), V>(d: seq<Entry<K, V>>, k: K, v: V): (r: seq<Entry<K, V>>)
    ensures |r| == if Find(d, k).Some? then |d| else |d| + 1
  {
    if d == [] then [Entry(k, v)]
    else if d[0].key == k then [Entry(k, v)] + d[1..]
    else [d[0]] + Put(d[1..], k, v)
  }

  /** The value stored for k is v; every other key keeps its value. */
  lemma {:induction false} PutFind<K, V>(d: seq<Entry<K, V>>, k: K, v: V, k': K)
    ensures Find(Put(d, k, v), k') == if k' == k then Some(v) else Find(d, k')
  {
    if d != [] && d[0].key != k {
      PutFind(d[1..], k, v, k');
    }
  }

  /** Insertion order: a new key goes last, an existing key keeps its place. */
  lemma {:induction false} PutOrder<K, V>(d: seq<Entry<K, V>>, k: K, v: V)
    ensures KeysOf(Put(d, k, v)) == if k in KeysOf(d) then KeysOf(d) else KeysOf(d) + [k]
  {
    if d != [] && d[0].key != k {
      PutOrder(d[1..], k, v);
      assert KeysOf(d) == [d[0].key] + KeysOf(d[1..]);
    }
  }

  /** Put adds no key other than its own. */
  lemma {:induction false} PutMembers<K, V>(d: seq<Entry<K, V>>, k: K, v: V)
    ensures forall j :: 0 <= j < |Put(d, k, v)| ==> Put(d, k, v)[j].key == k || Put(d, k, v)[j] in d
  {
    if d != [] && d[0].key != k {
      PutMembers(d[1..], k, v);
      var r := Put(d, k, v);
      forall j | 1 <= j < |r|
        ensures r[j].key == k || r[j] in d
      {
        assert r[j] == Put(d[1..], k, v)[j - 1];
      }
    }
  }

  /** Every entry after d[k] = v is the new pair or an entry of d. */
  lemma {:induction false} PutEntries<K, V>(d: seq<Entry<K, V>>, k: K, v: V)
    ensures forall j :: 0 <= j < |Put(d, k, v)| ==> Put(d, k, v)[j] == Entry(k, v) || Put(d, k, v)[j] in d
  {
    if d != [] && d[0].key != k {
      PutEntries(d[1..], k, v);
      var r := Put(d, k, v);
      forall j | 1 <= j < |r|
        ensures r[j] == Entry(k, v) || r[j] in d
      {
        assert r[j] == Put(d[1..], k, v)[j - 1];
      }
    }
  }

  lemma {:induction false} PutUnique<K, V>(d: seq<Entry<K, V>>, k: K, v: V)
    requires UniqueKeys(d)
    ensures UniqueKeys(Put(d, k, v))
  {
    if d != [] && d[0].key != k {
      PutUnique(d[1..], k, v);
      PutMembers(d[1..], k, v);
      var r := Put(d, k, v);
      forall j | 1 <= j < |r|
        ensures r[0].key != r[j].key
      {
        assert r[j] == Put(d[1..], k, v)[j - 1];
      }
    }
  }

  /** With unique keys, the value stored at position j is the one found for its key. */
  lemma {:induction false} FindAt<K, V>(d: seq<Entry<K, V>>, j: nat)
    requires UniqueKeys(d) && j < |d|
    ensures Find(d, d[j].key) == Some(d[j].val)
  {
    if j > 0 {
      assert d[0].key != d[j].key && d[1..][j - 1] == d[j];
      FindAt(d[1..], j - 1);
    }
  }

  /** With unique keys, assigning to the key at position j replaces that entry alone. */
  lemma {:induction false} PutAt<K, V>(d: seq<Entry<K, V>>, j: nat, v: V)
    requires UniqueKeys(d) && j < |d|
    ensures Put(d, d[j].key, v) == d[j := Entry(d[j].key, v)]
  {
    if j > 0 {
      assert d[0].key != d[j].key && d[1..][j - 1] == d[j];
      PutAt(d[1..], j - 1, v);
      assert d[j := Entry(d[j].key, v)] == [d[0]] + d[1..][j - 1 := Entry(d[j].key, v)];
    }
  }

  /** Replacing the value at position j keeps the keys, keeps them unique, and keeps every
      value satisfying p when the new one does. */
  lemma ReplaceKeeps<K, V>(d: seq<Entry<K, V>>, j: nat, v: V, p: V -> bool)
    requires UniqueKeys(d) && j < |d| && p(v) && forall i :: 0 <= i < |d| ==> p(d[i].val)
    ensures var r := d[j := Entry(d[j].key, v)];
            && UniqueKeys(r) && |r| == |d|
            && (forall i :: 0 <= i < |r| ==> r[i].key == d[i].key && p(r[i].val))
  {
    var r := d[j := Entry(d[j].key, v)];
    assert forall i :: 0 <= i < |r| ==> r[i].key == d[i].key;
  }

  /** Two dicts with the same keys in the same order find a key at the same position. */
  lemma SameKeysFind<K, V, W>(a: seq<Entry<K, V>>, b: seq<Entry<K, W>>, k: K) returns (i: nat)
    requires UniqueKeys(a) && UniqueKeys(b) && |a| == |b| && forall j :: 0 <= j < |a| ==> a[j].key == b[j].key
    ensures Find(a, k).Some? <==> Find(b, k).Some?
    ensures Find(a, k).Some? ==> i < |a| && Find(a, k) == Some(a[i].val) && Find(b, k) == Some(b[i].val)
  {
    if Find(a, k).Some? {
      i :| 0 <= i < |a| && a[i] == Entry(k, Find(a, k).value);
      FindAt(b, i);
    } else {
      i := 0;
    }
  }

  /** ys holds f of the first n elements of xs, each with its index. */
  predicate MapsTo<A, B(==)>(ys: seq<B>, xs: seq<A>, n: nat, f: (nat, A) -> B) {
    n <= |xs| && |ys| == n && forall i :: 0 <= i < n ==> ys[i] == f(i, xs[i])
  }

  /** Appending f of the next element extends the prefix. */
  lemma MapsToStep<A, B>(ys: seq<B>, xs: seq<A>, n: nat, f: (nat, A) -> B)
    requires n < |xs| && MapsTo(ys, xs, n, f)
    ensures MapsTo(ys + [f(n, xs[n])], xs, n + 1, f)
  {
  }

  /** len(d) is the number of distinct keys. */
  lemma {:induction false} KeyCount<K, V>(d: seq<Entry<K, V>>)
    requires UniqueKeys(d)
    ensures |set i | 0 <= i < |d| :: d[i].key| == |d|
  {
    if d != [] {
      var n := |d| - 1;
      var front := d[..n];
      KeyCount(front);
      var s := set i | 0 <= i < |d| :: d[i].key;
      var s' := set i | 0 <= i < n :: front[i].key;
      assert s == s' + {d[n].key} by {
        forall i | 0 <= i < n
          ensures d[i].key == front[i].key
        {
        }
      }
      assert d[n].key !in s';
    }
  }

  /** `[x for x in xs if x is not None]`: the present values, in order. */
  function Somes<T>(xs: seq<Option<T>>): (r: seq<T>)
    ensures |r| <= |xs|
  {
    if xs == [] then []
    else Somes(xs[..|xs| - 1]) + (if xs[|xs| - 1].Some? then [xs[|xs| - 1].value] else [])
  }

  /** Appending one more optional value appends it when present. */
  lemma SomesStep<T>(xs: seq<Option<T>>, o: Option<T>)
    ensures Somes(xs + [o]) == Somes(xs) + if o.Some? then [o.value] else []
  {
    assert (xs + [o])[..|xs|] == xs;
  }

  /** Extending a prefix by one position. */
  lemma SomesPrefix<T>(xs: seq<Option<T>>, n: nat)
    requires n < |xs|
    ensures Somes(xs[..n + 1]) == Somes(xs[..n]) + if xs[n].Some? then [xs[n].value] else []
  {
    assert xs[..n + 1] == xs[..n] + [xs[n]];
    SomesStep(xs[..n], xs[n]);
  }

  /** The empty prefix keeps nothing; the whole prefix is the sequence. */
  lemma SomesEnds<T>(xs: seq<Option<T>>)
    ensures Somes(xs[..0]) == [] && Somes(xs[..|xs|]) == Somes(xs)
  {
    assert xs[..0] == [] && xs[..|xs|] == xs;
  }

  /** Nothing is kept exactly when nothing is present. */
  lemma {:induction false} SomesEmpty<T>(xs: seq<Option<T>>)
    ensures Somes(xs) == [] <==> forall j :: 0 <= j < |xs| ==> xs[j].None?
  {
    if xs != [] {
      var init := xs[..|xs| - 1];
      SomesEmpty(init);
      if forall j :: 0 <= j < |xs| ==> xs[j].None? {
        assert forall j :: 0 <= j < |init| ==> init[j] == xs[j];
      }
    }
  }

  /** Exactly the present values are kept. */
  lemma {:induction false} SomesMembers<T>(xs: seq<Option<T>>, x: T)
    ensures x in Somes(xs) <==> exists j :: 0 <= j < |xs| && xs[j] == Some(x)
  {
    if xs != [] {
      var init := xs[..|xs| - 1];
      SomesMembers(init, x);
      if x in Somes(init) {
        var j :| 0 <= j < |init| && init[j] == Some(x);
        assert xs[j] == Some(x);
      }
      if exists j :: 0 <= j < |xs| && xs[j] == Some(x) {
        var j :| 0 <= j < |xs| && xs[j] == Some(x);
        if j < |init| {
          assert init[j] == Some(x);
        }
      }
    }
  }

  /** One value per present position. */
  lemma {:induction false} SomesCount<T>(xs: seq<Option<T>>)
    ensures |Somes(xs)| == |set j | 0 <= j < |xs| && xs[j].Some?|
  {
    if xs != [] {
      var init := xs[..|xs| - 1];
      SomesCount(init);
      var before := set j | 0 <= j < |init| && init[j].Some?;
      var after := set j | 0 <= j < |xs| && xs[j].Some?;
      if xs[|xs| - 1].Some? {
        assert after == before + {|xs| - 1};
      } else {
        assert after == before;
      }
    }
  }

  /** The values of xs in order, or the first error among them. */
  function Gather<T, E>(xs: seq<Result<T, E>>): (r: Result<seq<T>, E>)
    ensures r.Ok? <==> forall i :: 0 <= i < |xs| ==> xs[i].Ok?
    ensures r.Ok? ==> |r.value| == |xs| && forall i :: 0 <= i < |xs| ==> xs[i] == Ok(r.value[i])
    ensures r.Err? ==> exists i :: 0 <= i < |xs| && xs[i] == Err(r.error) && forall j :: 0 <= j < i ==> xs[j].Ok?
  {
    if xs == [] then Ok([])
    else
      var p := xs[..|xs| - 1];
      assert forall i :: 0 <= i < |p| ==> p[i] == xs[i];
      match Gather(p)
      case Err(e) => Err(e)
      case Ok(vs) =>
        match xs[|xs| - 1]
        case Err(e) => Err(e)
        case Ok(v) => Ok(vs + [v])
  }

  /** When every failure carries the same error, so does the gathered result. */
  lemma GatherError<T, E>(xs: seq<Result<T, E>>, e: E)
    requires forall i :: 0 <= i < |xs| && xs[i].Err? ==> xs[i].error == e
    ensures Gather(xs).Err? ==> Gather(xs).error == e
  {
  }

  lemma GatherPrefix<T, E>(xs: seq<Result<T, E>>, n: nat)
    requires n < |xs|
    ensures Gather(xs[..n + 1]) ==
              match Gather(xs[..n])
              case Err(e) => Err(e)
              case Ok(vs) => (match xs[n] case Err(e) => Err(e) case Ok(v) => Ok(vs + [v]))
  {
    assert xs[..n + 1][..n] == xs[..n];
  }

  /** Once an error is gathered, it is the result. */
  lemma {:induction false} GatherFails<T, E>(xs: seq<Result<T, E>>, n: nat)
    requires n <= |xs| && Gather(xs[..n]).Err?
    ensures Gather(xs) == Gather(xs[..n])
    decreases |xs| - n
  {
    if n < |xs| {
      GatherPrefix(xs, n);
      GatherFails(xs, n + 1);
    } else {
      assert xs[..n] == xs;
    }
  }
}
