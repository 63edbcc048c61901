/**
 * PHP arrays with string keys, as the controller uses them for `$data` and
 * `$asides`: ordered association lists in which no key appears twice.
 * Assigning to an existing key overwrites it in place; a new key is appended.
 */
module PhpArray {

  datatype Option<T> = None | Some(value: T)

  /** An ordered PHP array from string keys to string values. */
  type Data = seq<(string, string)>

  /** The keys of `d`, in order (`array_keys`). */
  function Keys(d: Data): seq<string>
  {
    seq(|d|, i requires 0 <= i < |d| => d[i].0)
  }

  ghost predicate UniqueKeys(ks: seq<string>)
  {
    forall i, j :: 0 <= i < j < |ks| ==> ks[i] != ks[j]
  }

  /** Every PHP array satisfies this: a key occurs at most once. */
  ghost predicate Unique(d: Data)
  {
    UniqueKeys(Keys(d))
  }

  /** `array_key_exists($k, $d)`. */
  predicate HasKey(d: Data, k: string)
  {
    k in Keys(d)
  }

  lemma KeysCons(d: Data)
    requires d != []
    ensures Keys(d) == [d[0].0] + Keys(d[1..])
  {
  }

  /** A non-empty array has unique keys iff its tail has and lacks the first key. */
  lemma UniqueCons(d: Data)
    requires d != []
    ensures Unique(d) <==> Unique(d[1..]) && !HasKey(d[1..], d[0].0)
  {
    var ks := Keys(d);
    KeysCons(d);
    var tail := Keys(d[1..]);
    if UniqueKeys(ks) {
      forall j | 0 <= j < |tail| ensures tail[j] != d[0].0 {
        assert tail[j] == ks[j + 1] && ks[0] == d[0].0;
        assert ks[0] != ks[j + 1];
      }
      forall i, j | 0 <= i < j < |tail| ensures tail[i] != tail[j] {
        assert tail[i] == ks[i + 1] && tail[j] == ks[j + 1];
      }
      assert UniqueKeys(tail);
    }
    if Unique(d[1..]) && !HasKey(d[1..], d[0].0) {
      forall i, j | 0 <= i < j < |ks| ensures ks[i] != ks[j] {
        if i > 0 {
          assert ks[i] == Keys(d[1..])[i - 1] && ks[j] == Keys(d[1..])[j - 1];
        } else {
          assert ks[j] in Keys(d[1..]);
        }
      }
    }
  }

  /** `$d[$k]`: the value stored under `k`, or None when the key is absent. */
  function Lookup(d: Data, k: string): (r: Option<string>)
    ensures r.Some? <==> HasKey(d, k)
    ensures r.Some? ==> (k, r.value) in d
  {
    if d == [] then None
    else
      KeysCons(d);
      if d[0].0 == k then Some(d[0].1) else Lookup(d[1..], k)
  }

  /** `$d[$k] = $v`: overwrite the entry for `k` in its place, or append one. */
  function Put(d: Data, k: string, v: string): Data
  {
    if d == [] then [(k, v)]
    else if d[0].0 == k then [(k, v)] + d[1..]
    else [d[0]] + Put(d[1..], k, v)
  }

  /** Assignment keeps the key order and appends only a missing key. */
  lemma {:induction false} PutKeys(d: Data, k: string, v: string)
    ensures Keys(Put(d, k, v)) == if HasKey(d, k) then Keys(d) else Keys(d) + [k]
  {
    if d != [] {
      KeysCons(d);
      var r := Put(d, k, v);
      KeysCons(r);
      if d[0].0 != k {
        PutKeys(d[1..], k, v);
        assert r[1..] == Put(d[1..], k, v);
      } else {
        assert r[1..] == d[1..];
      }
    }
  }

  /** After `$d[$k] = $v`, `$d[$k]` is `v` and every other key reads as before. */
  lemma {:induction false} PutLookup(d: Data, k: string, v: string, k': string)
    ensures Lookup(Put(d, k, v), k') == if k' == k then Some(v) else Lookup(d, k')
  {
    if d != [] {
      var r := Put(d, k, v);
      if d[0].0 != k {
        PutLookup(d[1..], k, v, k');
        assert r[1..] == Put(d[1..], k, v);
      } else {
        assert r[1..] == d[1..];
      }
    }
  }

  /** Assignment never creates a duplicate key. */
  lemma {:induction false} PutUnique(d: Data, k: string, v: string)
    requires Unique(d)
    ensures Unique(Put(d, k, v))
  {
    var r := Put(d, k, v);
    if d == [] {
    } else if d[0].0 == k {
      UniqueCons(d);
      UniqueCons(r);
      assert r[1..] == d[1..];
    } else {
      UniqueCons(d);
      PutUnique(d[1..], k, v);
      PutKeys(d[1..], k, v);
      assert r[1..] == Put(d[1..], k, v);
      UniqueCons(r);
    }
  }

  /**
   * `array_merge($a, $b)` for string keys: the entries of `$a` in their
   * order, then each entry of `$b` in its order, overwriting a key `$a`
   * already has in place and appending the others.
   */
  function Merge(a: Data, b: Data): Data
    decreases |b|
  {
    if b == [] then a else Merge(Put(a, b[0].0, b[0].1), b[1..])
  }

  /** In the merged array a key has its value from `b` if `b` has it, else from `a`. */
  lemma {:induction false} MergeLookup(a: Data, b: Data, k: string)
    requires Unique(b)
    ensures Lookup(Merge(a, b), k) == if HasKey(b, k) then Lookup(b, k) else Lookup(a, k)
    decreases |b|
  {
    if b != [] {
      var a' := Put(a, b[0].0, b[0].1);
      UniqueCons(b);
      KeysCons(b);
      MergeLookup(a', b[1..], k);
      PutLookup(a, b[0].0, b[0].1, k);
    }
  }

  /** The merged array keeps the keys of `a` in front, in their order, and has no key twice. */
  lemma {:induction false} MergeKeys(a: Data, b: Data)
    ensures |a| <= |Merge(a, b)| && Keys(Merge(a, b))[..|a|] == Keys(a)
    ensures forall k :: HasKey(Merge(a, b), k) <==> HasKey(a, k) || HasKey(b, k)
    ensures Unique(a) ==> Unique(Merge(a, b))
    decreases |b|
  {
    if b != [] {
      var a' := Put(a, b[0].0, b[0].1);
      PutKeys(a, b[0].0, b[0].1);
      if Unique(a) {
        PutUnique(a, b[0].0, b[0].1);
      }
      MergeKeys(a', b[1..]);
      var r := Merge(a', b[1..]);
      assert Keys(a')[..|a|] == Keys(a);
      assert Keys(r)[..|a|] == Keys(r)[..|a'|][..|a|];
      KeysCons(b);
    }
  }
}
