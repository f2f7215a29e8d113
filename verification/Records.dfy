/** JavaScript objects used as dictionaries, and the stable sort by text keys. */
module Records {
  import opened Bytes
  import opened Parts

  // An object's own properties in insertion order. (Keys the language itself would reorder or inherit,
  // such as array indices and `constructor`, are not modelled.)
  datatype Entry<K, V> = Entry(key: K, value: V)

  type Record<K, V> = seq<Entry<K, V>>

  function Get<K(==), V>(r: Record<K, V>, key: K): Option<V>
  {
    if r == [] then None else if r[0].key == key then Some(r[0].value) else Get(r[1..], key)
  }

  // `current[key] ?? previous[key]`
  function Lookup<K(==), V>(current: Record<K, V>, previous: Record<K, V>, key: K): Option<V>
  {
    var found := Get(current, key);
    if found.Some? then found else Get(previous, key)
  }

  function Put<K(==), V>(r: Record<K, V>, key: K, value: V): Record<K, V>
  {
    if r == [] then [Entry(key, value)]
    else if r[0].key == key then [Entry(key, value)] + r[1..]
    else [r[0]] + Put(r[1..], key, value)
  }

  function Keys<K(==), V>(r: Record<K, V>): (keys: set<K>)
  {
    set i | 0 <= i < |r| :: r[i].key
  }

  predicate Distinct<K(==), V>(r: Record<K, V>)
  {
    forall i, j :: 0 <= i < j < |r| ==> r[i].key != r[j].key
  }

  lemma {:induction false} KeysPut<K, V>(r: Record<K, V>, key: K, value: V)
    ensures Keys(Put(r, key, value)) == Keys(r) + {key}
    decreases |r|
  {
    if r == [] {
      assert Put(r, key, value)[0].key == key;
    } else if r[0].key == key {
      var p := Put(r, key, value);
      assert forall i :: 0 <= i < |r| ==> p[i].key == r[i].key;
    } else {
      KeysPut(r[1..], key, value);
      KeysCons(r);
      KeysCons(Put(r, key, value));
      assert Put(r, key, value)[1..] == Put(r[1..], key, value);
    }
  }

  lemma KeysCons<K, V>(r: Record<K, V>)
    requires r != []
    ensures Keys(r) == {r[0].key} + Keys(r[1..])
  {
    forall k | k in Keys(r) ensures k in {r[0].key} + Keys(r[1..]) {
      var i :| 0 <= i < |r| && r[i].key == k;
      if i > 0 { assert r[1..][i - 1].key == k; }
    }
    forall k | k in Keys(r[1..]) ensures k in Keys(r) {
      var i :| 0 <= i < |r[1..]| && r[1..][i].key == k;
      assert r[i + 1].key == k;
    }
  }

  lemma {:induction false} GetKeys<K, V>(r: Record<K, V>, key: K)
    ensures Get(r, key).Some? <==> key in Keys(r)
    decreases |r|
  {
    if r != [] {
      KeysCons(r);
      GetKeys(r[1..], key);
    }
  }

  // What a lookup finds and an assignment leaves are entries.
  lemma {:induction false} GetEntry<K, V>(r: Record<K, V>, key: K)
    ensures Get(r, key).Some? ==> Entry(key, Get(r, key).value) in r
    decreases |r|
  {
    if r != [] {
      GetEntry(r[1..], key);
    }
  }

  lemma {:induction false} PutEntries<K, V>(r: Record<K, V>, key: K, value: V)
    ensures forall e :: e in Put(r, key, value) ==> e == Entry(key, value) || e in r
    decreases |r|
  {
    if r != [] && r[0].key != key {
      PutEntries(r[1..], key, value);
    }
  }

  // -- Text order and sorting ---------------------------------------------------------------------

  predicate Less(a: string, b: string)
  {
    b != [] && (a == [] || a[0] < b[0] || (a[0] == b[0] && Less(a[1..], b[1..])))
  }

  lemma {:induction false} LessTotal(a: string, b: string)
    ensures (a == b && !Less(a, b) && !Less(b, a)) || (a != b && Less(a, b) != Less(b, a))
    decreases |a|
  {
    if a != [] && b != [] && a[0] == b[0] {
      LessTotal(a[1..], b[1..]);
      assert a == [a[0]] + a[1..] && b == [b[0]] + b[1..];
    }
  }

  lemma {:induction false} LessTransitive(a: string, b: string, c: string)
    requires Less(a, b) && Less(b, c)
    ensures Less(a, c)
    decreases |a|
  {
    if a != [] && a[0] == b[0] && b[0] == c[0] {
      LessTransitive(a[1..], b[1..], c[1..]);
    }
  }

  predicate AtMost(a: string, b: string) { a == b || Less(a, b) }

  lemma AtMostTransitive(a: string, b: string, c: string)
    requires AtMost(a, b) && AtMost(b, c)
    ensures AtMost(a, c)
  {
    if a != b && b != c { LessTransitive(a, b, c); }
  }

  // The stable sort of `s` by key: later elements go behind equal ones.
  function Insert<T>(s: seq<T>, x: T, key: T -> string): seq<T>
  {
    if s == [] || !Less(key(x), key(s[|s| - 1])) then s + [x]
    else Insert(s[..|s| - 1], x, key) + [s[|s| - 1]]
  }

  function SortBy<T>(s: seq<T>, key: T -> string): seq<T>
  {
    if s == [] then [] else Insert(SortBy(s[..|s| - 1], key), s[|s| - 1], key)
  }

  ghost predicate Sorted<T>(s: seq<T>, key: T -> string)
  {
    forall i, j :: 0 <= i < j < |s| ==> AtMost(key(s[i]), key(s[j]))
  }

  lemma {:induction false} InsertSorts<T>(s: seq<T>, x: T, key: T -> string)
    requires Sorted(s, key)
    ensures Sorted(Insert(s, x, key), key)
    ensures multiset(Insert(s, x, key)) == multiset(s) + multiset{x}
    decreases |s|
  {
    hide Less, AtMost;
    if s != [] {
      var n := |s| - 1;
      assert s == s[..n] + [s[n]];
      if Less(key(x), key(s[n])) {
        InsertSorts(s[..n], x, key);
        BelowLast(s, x, key, Insert(s[..n], x, key));
      } else {
        BelowNew(s, x, key);
      }
    }
  }

  lemma BelowLast<T>(s: seq<T>, x: T, key: T -> string, t: seq<T>)
    requires s != [] && Sorted(s, key) && Less(key(x), key(s[|s| - 1]))
    requires multiset(t) == multiset(s[..|s| - 1]) + multiset{x}
    ensures forall i :: 0 <= i < |t| ==> AtMost(key(t[i]), key(s[|s| - 1]))
  {
    forall i | 0 <= i < |t| ensures AtMost(key(t[i]), key(s[|s| - 1])) {
      assert t[i] in multiset(t);
      assert t[i] == x || t[i] in multiset(s[..|s| - 1]);
    }
  }

  lemma BelowNew<T>(s: seq<T>, x: T, key: T -> string)
    requires s != [] && Sorted(s, key) && !Less(key(x), key(s[|s| - 1]))
    ensures forall i :: 0 <= i < |s| ==> AtMost(key(s[i]), key(x))
  {
    var last := s[|s| - 1];
    LessTotal(key(x), key(last));
    forall i | 0 <= i < |s| ensures AtMost(key(s[i]), key(x)) {
      if i < |s| - 1 { AtMostTransitive(key(s[i]), key(last), key(x)); }
    }
  }

  lemma {:induction false} SortBySorts<T>(s: seq<T>, key: T -> string)
    ensures Sorted(SortBy(s, key), key)
    ensures multiset(SortBy(s, key)) == multiset(s)
    decreases |s|
  {
    if s != [] {
      SortBySorts(s[..|s| - 1], key);
      InsertSorts(SortBy(s[..|s| - 1], key), s[|s| - 1], key);
      assert s == s[..|s| - 1] + [s[|s| - 1]];
    }
  }

  // `a.sort(compare)` followed by nothing else: in place, as an insertion sort would do it.
  lemma SortByLength<T>(s: seq<T>, key: T -> string)
    ensures |SortBy(s, key)| == |s|
  {
    SortBySorts(s, key);
    assert |multiset(SortBy(s, key))| == |multiset(s)|;
  }

  // Equal keys are adjacent after sorting, so looking at neighbours finds every duplicate.
  lemma NeighboursFindDuplicates<T>(s: seq<T>, key: T -> string)
    requires Sorted(s, key)
    ensures (exists i :: 0 < i < |s| && key(s[i - 1]) == key(s[i])) <==>
            (exists i, j :: 0 <= i < j < |s| && key(s[i]) == key(s[j]))
  {
    if i, j :| 0 <= i < j < |s| && key(s[i]) == key(s[j]) {
      LessTotal(key(s[i]), key(s[i + 1]));
      if i + 1 < j {
        LessTotal(key(s[i + 1]), key(s[j]));
      }
      assert key(s[i + 1 - 1]) == key(s[i + 1]);
    }
    if i :| 0 < i < |s| && key(s[i - 1]) == key(s[i]) {
      assert 0 <= i - 1 < i < |s|;
    }
  }

  function KeysOf<T>(s: seq<T>, key: T -> string): (keys: seq<string>)
    ensures |keys| == |s|
  {
    seq(|s|, i requires 0 <= i < |s| => key(s[i]))
  }

  lemma {:induction false} InsertKeys<T>(s: seq<T>, x: T, key: T -> string)
    ensures multiset(KeysOf(Insert(s, x, key), key)) == multiset(KeysOf(s, key)) + multiset{key(x)}
    decreases |s|
  {
    if s == [] || !Less(key(x), key(s[|s| - 1])) {
      assert KeysOf(s + [x], key) == KeysOf(s, key) + [key(x)];
    } else {
      var n := |s| - 1;
      InsertKeys(s[..n], x, key);
      var t := Insert(s[..n], x, key);
      assert KeysOf(t + [s[n]], key) == KeysOf(t, key) + [key(s[n])];
      assert KeysOf(s, key) == KeysOf(s[..n], key) + [key(s[n])];
    }
  }

  lemma {:induction false} SortByKeys<T>(s: seq<T>, key: T -> string)
    ensures multiset(KeysOf(SortBy(s, key), key)) == multiset(KeysOf(s, key))
    decreases |s|
  {
    if s != [] {
      var n := |s| - 1;
      SortByKeys(s[..n], key);
      InsertKeys(SortBy(s[..n], key), s[n], key);
      assert KeysOf(s, key) == KeysOf(s[..n], key) + [key(s[n])];
    }
  }

  lemma RepeatCounts(keys: seq<string>, i: nat, j: nat)
    requires i < j < |keys| && keys[i] == keys[j]
    ensures multiset(keys)[keys[i]] > 1
  {
    var a, b := keys[..j], keys[j..];
    assert keys == a + b;
    assert a[i] == keys[i] && b[0] == keys[i];
    assert keys[i] in multiset(a) && keys[i] in multiset(b);
  }

  lemma {:induction false} CountRepeats(keys: seq<string>, k: string) returns (i: nat, j: nat)
    requires multiset(keys)[k] > 1
    ensures i < j < |keys| && keys[i] == keys[j]
    decreases |keys|
  {
    var n := |keys| - 1;
    assert keys == keys[..n] + [keys[n]];
    if keys[n] == k {
      assert k in multiset(keys[..n]);
      i :| 0 <= i < n && keys[..n][i] == k;
      j := n;
    } else {
      i, j := CountRepeats(keys[..n], k);
    }
  }

  // Sorting neither makes nor removes duplicates.
  lemma SortKeepsDuplicates<T>(s: seq<T>, key: T -> string)
    ensures (exists i, j :: 0 <= i < j < |s| && key(s[i]) == key(s[j])) <==>
            var t := SortBy(s, key); exists i, j :: 0 <= i < j < |t| && key(t[i]) == key(t[j])
  {
    var t := SortBy(s, key);
    SortByKeys(s, key);
    hide SortBy, Insert;
    var ks, kt := KeysOf(s, key), KeysOf(t, key);
    if i, j :| 0 <= i < j < |s| && key(s[i]) == key(s[j]) {
      RepeatCounts(ks, i, j);
      var a, b := CountRepeats(kt, ks[i]);
      assert key(t[a]) == key(t[b]);
    }
    if i, j :| 0 <= i < j < |t| && key(t[i]) == key(t[j]) {
      RepeatCounts(kt, i, j);
      var a, b := CountRepeats(ks, kt[i]);
      assert key(s[a]) == key(s[b]);
    }
  }
}
