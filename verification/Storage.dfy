/** The ordered key-value store: prefix scans over byte-string keys
    (internal/storage/pebble.go). Pebble itself is an ordered map. */
module Storage {
  import opened ByteStrings

  // ----- The scan bound -----

  /** What the backward carry computes: the shortest string above every
      extension of `prefix`, if there is one. */
  function UpperBound(prefix: Bytes): (r: Option<Bytes>)
  {
    if prefix == [] then None
    else
      var last := |prefix| - 1;
      if prefix[last] < 0xFF then Some(prefix[..last] + [prefix[last] + 1])
      else UpperBound(prefix[..last])
  }

  /** Prefix scan exactness: the keys inside the iterator bounds are exactly the
      keys that start with the prefix. */
  lemma {:induction false} PrefixScanExact(prefix: Bytes, key: Bytes)
    ensures HasPrefix(key, prefix) <==>
            !LexLess(key, prefix) && (UpperBound(prefix).None? || LexLess(key, UpperBound(prefix).value))
    decreases |prefix|
  {
    if prefix == [] {
    } else {
      var last := |prefix| - 1;
      var stem, x := prefix[..last], prefix[last];
      assert prefix == stem + [x];
      PrefixScanExact(stem, key);
      if HasPrefix(key, stem) {
        var rest := key[last..];
        assert key == stem + rest && stem + [] == stem;
        LexCommonPrefix(stem, rest, [x]);
        if x < 0xFF { LexCommonPrefix(stem, rest, [x + 1]); }
        assert HasPrefix(key, prefix) <==> rest != [] && rest[0] == x;
        assert rest != [] ==> (LexLess(rest[1..], []) <==> false);
      } else {
        StemFirst(stem, key, x);
        if x < 0xFF { StemFirst(stem, key, x + 1); }
        assert forall i :: 0 <= i < last ==> prefix[i] == stem[i];
      }
    }
  }

  /** A key without the stem lies on one side of every extension of the stem. */
  lemma {:induction false} StemFirst(stem: Bytes, key: Bytes, x: Byte)
    requires !HasPrefix(key, stem)
    ensures LexLess(key, stem + [x]) <==> LexLess(key, stem)
  {
    if key == [] {
    } else {
      assert (stem + [x])[1..] == stem[1..] + [x];
      if key[0] == stem[0] {
        assert key == [key[0]] + key[1..] && stem == [stem[0]] + stem[1..];
        StemFirst(stem[1..], key[1..], x);
      }
    }
  }

  /** `prefixUpperBound`: walk a cloned buffer backwards, increment the first
      byte that does not overflow and cut behind it. */
  method PrefixUpperBound(prefix: Bytes) returns (upper: Option<Bytes>)
    ensures upper == UpperBound(prefix)
    ensures forall key: Bytes :: HasPrefix(key, prefix) <==>
              !LexLess(key, prefix) && (upper.None? || LexLess(key, upper.value))
  {
    forall key: Bytes
      ensures HasPrefix(key, prefix) <==>
              !LexLess(key, prefix) && (UpperBound(prefix).None? || LexLess(key, UpperBound(prefix).value))
    {
      PrefixScanExact(prefix, key);
    }
    if |prefix| == 0 {
      return None;
    }
    var buffer := new Byte[|prefix|](i requires 0 <= i < |prefix| => prefix[i]);
    var i := |prefix| - 1;
    assert prefix[..i + 1] == prefix;
    while i >= 0
      invariant -1 <= i < |prefix|
      invariant buffer[..] == prefix
      invariant UpperBound(prefix) == UpperBound(prefix[..i + 1])
    {
      assert prefix[..i + 1][..i] == prefix[..i];
      if buffer[i] < 0xFF {
        buffer[i] := buffer[i] + 1;
        assert buffer[..i + 1] == prefix[..i] + [prefix[i] + 1];
        return Some(buffer[..i + 1]);
      }
      i := i - 1;
    }
    return None;
  }

  // ----- Scans in key order -----

  /** Strictly ascending: sorted and without repetition. */
  ghost predicate Ascending(keys: seq<Bytes>) {
    forall i, j :: 0 <= i < j < |keys| ==> LexLess(keys[i], keys[j])
  }

  function KeysWith(keys: set<Bytes>, prefix: Bytes): set<Bytes> {
    set k | k in keys && HasPrefix(k, prefix)
  }

  /** `keys` lists exactly the given set in key order. */
  ghost predicate Lists(keys: seq<Bytes>, s: set<Bytes>) {
    Ascending(keys) && (forall k :: k in keys <==> k in s)
  }

  /** The listing of a set in key order is unique. */
  lemma {:induction false} ListsUnique(a: seq<Bytes>, b: seq<Bytes>, s: set<Bytes>)
    requires Lists(a, s) && Lists(b, s)
    ensures a == b
    decreases |a|
  {
    if a == [] {
      assert forall i :: 0 <= i < |b| ==> b[i] in b;
    } else {
      var x := a[0];
      assert x in b && b[0] in a;
      var i :| 0 <= i < |b| && b[i] == x;
      var j :| 0 <= j < |a| && a[j] == b[0];
      if i > 0 {
        assert LexLess(b[0], x);
        if j > 0 { LexTransitive(b[0], x, b[0]); }
        LexIrreflexive(b[0]);
        assert false;
      }
      TailLists(a, s);
      TailLists(b, s);
      ListsUnique(a[1..], b[1..], s - {x});
      assert a == [a[0]] + a[1..] && b == [b[0]] + b[1..];
    }
  }

  lemma TailLists(a: seq<Bytes>, s: set<Bytes>)
    requires Lists(a, s) && a != []
    ensures Lists(a[1..], s - {a[0]})
  {
    assert a == [a[0]] + a[1..];
    LexIrreflexive(a[0]);
    forall k ensures k in a[1..] <==> k in s - {a[0]} {
      if k in a[1..] {
        var i :| 0 <= i < |a[1..]| && a[1..][i] == k;
        assert LexLess(a[0], a[i + 1]);
      }
    }
  }

  /** The listing of any finite set of keys. */
  ghost function KeyOrder(s: set<Bytes>): (keys: seq<Bytes>)
    ensures Lists(keys, s)
  {
    if s == {} then []
    else
      LeastExists(s);
      var k :| k in s && forall b :: b in s ==> b == k || LexLess(k, b);
      [k] + KeyOrder(s - {k})
  }

  lemma {:induction false} LeastExists(s: set<Bytes>)
    requires s != {}
    ensures exists k :: k in s && forall b :: b in s ==> b == k || LexLess(k, b)
  {
    var x :| x in s;
    if s == {x} {
      assert forall b :: b in s ==> b == x;
    } else {
      LeastExists(s - {x});
      var k :| k in s - {x} && forall b :: b in s - {x} ==> b == k || LexLess(k, b);
      LexTotal(x, k);
      if LexLess(x, k) {
        forall b | b in s ensures b == x || LexLess(x, b) {
          if b != x && b != k { LexTransitive(x, k, b); }
        }
      } else {
        assert forall b :: b in s ==> b == k || LexLess(k, b);
      }
    }
  }

  /** The keys of a listing that lie in `s`, in the same order. */
  ghost function Select(keys: seq<Bytes>, s: set<Bytes>): (r: seq<Bytes>)
    ensures forall k :: k in r <==> k in keys && k in s
  {
    if keys == [] then []
    else
      var last := |keys| - 1;
      assert keys == keys[..last] + [keys[last]];
      Select(keys[..last], s) + (if keys[last] in s then [keys[last]] else [])
  }

  lemma {:induction false} SelectAscending(keys: seq<Bytes>, s: set<Bytes>)
    requires Ascending(keys)
    ensures Ascending(Select(keys, s))
  {
    if keys != [] {
      var last := |keys| - 1;
      SelectAscending(keys[..last], s);
      forall k | k in Select(keys[..last], s) ensures LexLess(k, keys[last]) {
        var i :| 0 <= i < last && keys[..last][i] == k;
      }
    }
  }

  // ----- The store -----

  class PebbleStore<V> {
    var db: map<Bytes, V>

    constructor ()
      ensures db == map[]
    {
      db := map[];
    }

    method Set(key: Bytes, value: V)
      modifies this
      ensures db == old(db)[key := value]
    {
      db := db[key := value];
    }

    method Delete(key: Bytes)
      modifies this
      ensures db == old(db) - {key}
    {
      db := db - {key};
    }

    /** Iterate from the prefix up to its upper bound. Every visited key starts
        with the prefix, every such key is visited, in order. */
    method Scan(prefix: Bytes) returns (keys: seq<Bytes>)
      ensures Lists(keys, KeysWith(db.Keys, prefix))
    {
      var upper := PrefixUpperBound(prefix);
      var pending := set k | k in db.Keys && !LexLess(k, prefix) && (upper.None? || LexLess(k, upper.value));
      assert pending == KeysWith(db.Keys, prefix);
      keys := [];
      while pending != {}
        invariant forall k :: k in keys || k in pending <==> k in KeysWith(db.Keys, prefix)
        invariant Ascending(keys)
        invariant forall a, b :: a in keys && b in pending ==> LexLess(a, b)
        decreases |pending|
      {
        var next := Least(pending);
        forall b | b in pending && b != next ensures LexLess(next, b) { LexTotal(b, next); }
        keys := keys + [next];
        pending := pending - {next};
      }
    }
  }

  /** The iterator's cursor: the least remaining key. */
  method Least(s: set<Bytes>) returns (k: Bytes)
    requires s != {}
    ensures k in s && forall b :: b in s ==> !LexLess(b, k)
  {
    k :| k in s;
    LexIrreflexive(k);
    var todo := s - {k};
    while todo != {}
      invariant todo <= s && k in s
      invariant forall b :: b in s && b !in todo ==> !LexLess(b, k)
      decreases |todo|
    {
      var b :| b in todo;
      if LexLess(b, k) {
        forall c | c in s && c !in todo ensures !LexLess(c, b) {
          if LexLess(c, b) { LexTransitive(c, b, k); }
        }
        k := b;
      }
      LexIrreflexive(k);
      todo := todo - {b};
    }
  }
}
