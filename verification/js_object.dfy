/** A plain JavaScript object with string keys and non-object values, as an association
    list of its own properties in the order `Object.keys` lists them (section 10.1.11.1 of
    ECMA-262): array-index keys first, in ascending numeric order, then every other key in
    the order it was created. An assignment to a present key overwrites it in place; an
    assignment to `__proto__` creates no property. */
module JsObject {
  import opened Common
  import opened Strings

  datatype Field<V> = Field(key: string, value: V)

  type Obj<V> = seq<Field<V>>

  /** `Object.keys(obj)`. */
  function Keys<V>(obj: Obj<V>): (ks: seq<string>)
    ensures |ks| == |obj|
    ensures forall i :: 0 <= i < |obj| ==> ks[i] == obj[i].key
  {
    seq(|obj|, i requires 0 <= i < |obj| => obj[i].key)
  }

  /** `obj[key]`: `None` is `undefined`. */
  function Lookup<V>(obj: Obj<V>, key: string): (r: Option<V>)
    ensures r.None? <==> key !in Keys(obj)
    ensures r.Some? ==> Field(key, r.value) in obj
  {
    if obj == [] then None
    else if obj[0].key == key then Some(obj[0].value)
    else Lookup(obj[1..], key)
  }

  /** A lookup finds the first field holding the key. */
  lemma {:induction false} LookupFirstAt<V>(obj: Obj<V>, i: int)
    requires 0 <= i < |obj| && obj[i].key !in Keys(obj)[..i]
    ensures Lookup(obj, obj[i].key) == Some(obj[i].value)
  {
    if i > 0 {
      assert Keys(obj)[..i][0] == obj[0].key;
      assert Keys(obj[1..])[..i - 1] == Keys(obj)[1..i];
      LookupFirstAt(obj[1..], i - 1);
    }
  }

  /** With distinct keys, each field is what a lookup of its key finds. */
  lemma {:induction false} LookupAt<V>(obj: Obj<V>, i: int)
    requires NoDuplicates(Keys(obj)) && 0 <= i < |obj|
    ensures Lookup(obj, obj[i].key) == Some(obj[i].value)
  {
    if i > 0 {
      assert Keys(obj)[0] != Keys(obj)[i];
      assert NoDuplicates(Keys(obj[1..])) by {
        forall a, b | 0 <= a < b < |obj| - 1 ensures Keys(obj[1..])[a] != Keys(obj[1..])[b] {
          assert Keys(obj)[a + 1] != Keys(obj)[b + 1];
        }
      }
      LookupAt(obj[1..], i - 1);
    }
  }

  /** The one key whose assignment goes to the prototype setter, which ignores a value
      that is not an object: no own property is created. */
  const ProtoKey: string := "__proto__"

  /** An array index (section 6.1.7 of ECMA-262): a key that is the canonical decimal
      numeral of an integer from 0 to 2^32 - 2, so "7" is one and "07" or "4294967295"
      are not. */
  predicate IsIndexKey(key: string) {
    key != [] && IsDigits(key) && NatToDecimal(DecimalValue(key)) == key && DecimalValue(key) < 0xFFFF_FFFF
  }

  /** A key listed in creation order: neither an array index nor `__proto__`. */
  predicate IsOrdinaryKey(key: string) {
    !IsIndexKey(key) && key != ProtoKey
  }

  /** Array indices come first, in strictly ascending numeric order. */
  predicate InPropertyOrder(ks: seq<string>) {
    forall i, j :: 0 <= i < j < |ks| && IsIndexKey(ks[j]) ==>
      IsIndexKey(ks[i]) && DecimalValue(ks[i]) < DecimalValue(ks[j])
  }

  /** Each key once, no `__proto__`, and the keys in property order. */
  predicate WellFormedKeys(ks: seq<string>) {
    NoDuplicates(ks) && ProtoKey !in ks && InPropertyOrder(ks)
  }

  /** What every object the model builds satisfies. */
  predicate WellFormed<V>(obj: Obj<V>) {
    WellFormedKeys(Keys(obj))
  }

  /** Whether `k` is an array index below the array index `key`. */
  predicate SmallerIndex(k: string, key: string) {
    IsIndexKey(k) && IsIndexKey(key) && DecimalValue(k) < DecimalValue(key)
  }

  /** The end of the run of keys below the array index `key` that starts at `i`. */
  function IndexSlot(ks: seq<string>, key: string, i: nat): (n: nat)
    requires i <= |ks|
    ensures i <= n <= |ks|
    ensures forall k :: i <= k < n ==> SmallerIndex(ks[k], key)
    ensures n < |ks| ==> !SmallerIndex(ks[n], key)
    decreases |ks| - i
  {
    if i < |ks| && SmallerIndex(ks[i], key) then IndexSlot(ks, key, i + 1) else i
  }

  /** The position of the first field from `i` on that holds `key`, or `|obj|` if none does. */
  function KeyPosition<V>(obj: Obj<V>, key: string, i: nat): (p: nat)
    requires i <= |obj|
    ensures i <= p <= |obj|
    ensures forall k :: i <= k < p ==> obj[k].key != key
    ensures p < |obj| ==> obj[p].key == key
    decreases |obj| - i
  {
    if i < |obj| && obj[i].key != key then KeyPosition(obj, key, i + 1) else i
  }

  /** Where a key sits depends on the keys alone. */
  lemma {:induction false} KeyPositionByKeys<V, W>(a: Obj<V>, b: Obj<W>, key: string, i: nat)
    requires Keys(a) == Keys(b) && i <= |a|
    ensures KeyPosition(a, key, i) == KeyPosition(b, key, i)
    decreases |a| - i
  {
    assert |a| == |b|;
    if i < |a| {
      assert a[i].key == Keys(a)[i] == Keys(b)[i] == b[i].key;
      KeyPositionByKeys(a, b, key, i + 1);
    }
  }

  /** Storing a property under a key other than `__proto__`: a present key is overwritten
      in place; a new array index goes before the first key that is not a smaller index; any
      other new key goes last. */
  function Put<V>(obj: Obj<V>, key: string, value: V): (r: Obj<V>)
    ensures r != []
  {
    var p := KeyPosition(obj, key, 0);
    if p < |obj| then obj[p := Field(key, value)]
    else if IsIndexKey(key) then
      var q := IndexSlot(Keys(obj), key, 0);
      obj[..q] + [Field(key, value)] + obj[q..]
    else obj + [Field(key, value)]
  }

  /** `obj[key] = value` for a value that is not an object. */
  function Assign<V>(obj: Obj<V>, key: string, value: V): Obj<V> {
    if key == ProtoKey then obj else Put(obj, key, value)
  }

  /** A lookup finds the field at the first position holding the key. */
  lemma {:induction false} LookupFirst<V>(obj: Obj<V>, key: string, p: nat)
    requires p <= |obj| && forall k :: 0 <= k < p ==> obj[k].key != key
    requires p < |obj| ==> obj[p].key == key
    ensures Lookup(obj, key) == if p < |obj| then Some(obj[p].value) else None
  {
    if p < |obj| {
      assert key !in Keys(obj)[..p] by {
        forall i | 0 <= i < p ensures Keys(obj)[..p][i] != key {
          assert Keys(obj)[..p][i] == obj[i].key;
        }
      }
      LookupFirstAt(obj, p);
    } else {
      assert key !in Keys(obj) by {
        forall i | 0 <= i < |obj| ensures Keys(obj)[i] != key {
          assert Keys(obj)[i] == obj[i].key;
        }
      }
    }
  }

  /** After a store the key holds the value, and every other key what it held. */
  lemma {:induction false} PutLookup<V>(obj: Obj<V>, key: string, value: V, k: string)
    ensures Lookup(Put(obj, key, value), k) == if k == key then Some(value) else Lookup(obj, k)
  {
    var p := KeyPosition(obj, key, 0);
    var pk := KeyPosition(obj, k, 0);
    LookupFirst(obj, k, pk);
    if p < |obj| {
      OverwriteLookup(obj, Field(key, value), p, k, pk);
    } else if IsIndexKey(key) {
      InsertLookup(obj, Field(key, value), IndexSlot(Keys(obj), key, 0), k, pk);
    } else {
      InsertLookup(obj, Field(key, value), |obj|, k, pk);
      assert obj[..|obj|] + [Field(key, value)] + obj[|obj|..] == obj + [Field(key, value)];
    }
  }

  /** Overwriting the first field holding a key in place changes that key's value only. */
  lemma {:induction false} OverwriteLookup<V>(obj: Obj<V>, f: Field<V>, p: nat, k: string, pk: nat)
    requires p < |obj| && obj[p].key == f.key && forall i :: 0 <= i < p ==> obj[i].key != f.key
    requires pk <= |obj| && (forall i :: 0 <= i < pk ==> obj[i].key != k) && (pk < |obj| ==> obj[pk].key == k)
    ensures Lookup(obj[p := f], k) == if k == f.key then Some(f.value) else Lookup(obj, k)
  {
    LookupFirst(obj, k, pk);
    var r := obj[p := f];
    if k == f.key {
      LookupFirst(r, k, p);
    } else {
      LookupFirst(r, k, pk);
    }
  }

  /** The elements of a sequence after an insertion at `q`. */
  lemma {:induction false} InsertedAt<T>(xs: seq<T>, x: T, q: nat)
    requires q <= |xs|
    ensures |xs[..q] + [x] + xs[q..]| == |xs| + 1
    ensures forall i :: 0 <= i < q ==> (xs[..q] + [x] + xs[q..])[i] == xs[i]
    ensures (xs[..q] + [x] + xs[q..])[q] == x
    ensures forall i :: q < i <= |xs| ==> (xs[..q] + [x] + xs[q..])[i] == xs[i - 1]
  {
    var r := xs[..q] + [x] + xs[q..];
    forall i | q < i <= |xs| ensures r[i] == xs[i - 1] {
      assert r[i] == xs[q..][i - q - 1];
    }
  }

  /** Inserting a field for a key no field holds gives that key its value only. */
  lemma {:induction false} InsertLookup<V>(obj: Obj<V>, f: Field<V>, q: nat, k: string, pk: nat)
    requires q <= |obj| && forall i :: 0 <= i < |obj| ==> obj[i].key != f.key
    requires pk <= |obj| && (forall i :: 0 <= i < pk ==> obj[i].key != k) && (pk < |obj| ==> obj[pk].key == k)
    ensures Lookup(obj[..q] + [f] + obj[q..], k) == if k == f.key then Some(f.value) else Lookup(obj, k)
  {
    LookupFirst(obj, k, pk);
    var r := obj[..q] + [f] + obj[q..];
    InsertedAt(obj, f, q);
    if k == f.key {
      LookupFirst(r, k, q);
    } else if pk < q {
      LookupFirst(r, k, pk);
    } else if pk < |obj| {
      LookupFirst(r, k, pk + 1);
    } else {
      LookupFirst(r, k, |r|);
    }
  }

  /** After the assignment the key holds the value, unless it is `__proto__`, which stays
      absent; every other key holds what it held. */
  lemma {:induction false} AssignLookup<V>(obj: Obj<V>, key: string, value: V, k: string)
    ensures Lookup(Assign(obj, key, value), k) ==
      if k == key && key != ProtoKey then Some(value) else Lookup(obj, k)
  {
    if key != ProtoKey {
      PutLookup(obj, key, value, k);
    }
  }

  /** The keys of a non-empty object: its first key, then the keys of the rest. */
  lemma KeysCons<V>(obj: Obj<V>)
    requires obj != []
    ensures Keys(obj) == [obj[0].key] + Keys(obj[1..])
  {
  }

  /** Inserting a new element keeps a sequence free of duplicates and adds just that element. */
  lemma {:induction false} InsertKeepsDistinct(ks: seq<string>, key: string, p: nat)
    requires NoDuplicates(ks) && key !in ks && p <= |ks|
    ensures NoDuplicates(ks[..p] + [key] + ks[p..])
    ensures forall k :: k in ks[..p] + [key] + ks[p..] <==> k in ks || k == key
  {
    var n := ks[..p] + [key] + ks[p..];
    InsertedAt(ks, key, p);
    assert ks == ks[..p] + ks[p..];
    forall i, j | 0 <= i < j < |n| ensures n[i] != n[j] {
      if j == p {
        assert n[i] == ks[i];
      } else if i == p {
        assert n[j] == ks[j - 1];
      }
    }
  }

  /** One pair of positions after inserting a new array index after the smaller indices at
      the front: a later array index is preceded by a smaller array index. */
  lemma {:induction false} InsertOrderPair(ks: seq<string>, key: string, p: nat, i: int, j: int)
    requires InPropertyOrder(ks) && key !in ks && IsIndexKey(key) && p <= |ks|
    requires forall k :: 0 <= k < p ==> SmallerIndex(ks[k], key)
    requires p < |ks| ==> !SmallerIndex(ks[p], key)
    requires 0 <= i < j <= |ks| && IsIndexKey((ks[..p] + [key] + ks[p..])[j])
    ensures IsIndexKey((ks[..p] + [key] + ks[p..])[i])
    ensures DecimalValue((ks[..p] + [key] + ks[p..])[i]) < DecimalValue((ks[..p] + [key] + ks[p..])[j])
  {
    InsertedAt(ks, key, p);
    if j <= p {
      assert j < p ==> SmallerIndex(ks[j], key);
      assert SmallerIndex(ks[i], key);
    } else if i < p {
      assert 0 <= i < j - 1 < |ks|;
    } else if i == p {
      // ks[p] is an array index no smaller than `key`, and distinct from it
      assert 0 <= p <= j - 1 < |ks|;
      if p < j - 1 {
        assert IsIndexKey(ks[p]);
      }
      assert ks[p] != key;
    } else {
      assert 0 <= i - 1 < j - 1 < |ks|;
    }
  }

  /** Inserting a new array index after the smaller indices at the front keeps the keys in
      property order. */
  lemma {:induction false} InsertKeepsOrder(ks: seq<string>, key: string, p: nat)
    requires InPropertyOrder(ks) && key !in ks && IsIndexKey(key) && p <= |ks|
    requires forall k :: 0 <= k < p ==> SmallerIndex(ks[k], key)
    requires p < |ks| ==> !SmallerIndex(ks[p], key)
    ensures InPropertyOrder(ks[..p] + [key] + ks[p..])
  {
    var n := ks[..p] + [key] + ks[p..];
    InsertedAt(ks, key, p);
    forall i, j | 0 <= i < j < |n| && IsIndexKey(n[j])
      ensures IsIndexKey(n[i]) && DecimalValue(n[i]) < DecimalValue(n[j])
    {
      InsertOrderPair(ks, key, p, i, j);
    }
  }

  /** Inserting an array index leaves the keys listed in creation order as they were. */
  lemma {:induction false} InsertKeepsOrdinary(ks: seq<string>, key: string, p: nat)
    requires p <= |ks| && IsIndexKey(key)
    ensures Filter(ks[..p] + [key] + ks[p..], IsOrdinaryKey) == Filter(ks, IsOrdinaryKey)
  {
    FilterInsertDropped(ks, key, p, IsOrdinaryKey);
  }

  /** Storing a new array index into well-formed keys: the keys stay well formed, gain just
      that index, and those listed in creation order are unchanged. */
  lemma {:induction false} InsertIndexKey(ks: seq<string>, key: string)
    requires WellFormedKeys(ks) && key !in ks && IsIndexKey(key)
    ensures WellFormedKeys(ks[..IndexSlot(ks, key, 0)] + [key] + ks[IndexSlot(ks, key, 0)..])
    ensures forall k :: k in ks[..IndexSlot(ks, key, 0)] + [key] + ks[IndexSlot(ks, key, 0)..] <==> k in ks || k == key
    ensures Filter(ks[..IndexSlot(ks, key, 0)] + [key] + ks[IndexSlot(ks, key, 0)..], IsOrdinaryKey) == Filter(ks, IsOrdinaryKey)
  {
    var q := IndexSlot(ks, key, 0);
    InsertKeepsDistinct(ks, key, q);
    InsertKeepsOrder(ks, key, q);
    InsertKeepsOrdinary(ks, key, q);
  }

  /** Storing a new key listed in creation order into well-formed keys: the keys stay well
      formed, and the new one goes last among those keys. */
  lemma {:induction false} AppendKeepsOrder(ks: seq<string>, key: string)
    requires WellFormedKeys(ks) && key !in ks && IsOrdinaryKey(key)
    ensures WellFormedKeys(ks + [key])
    ensures Filter(ks + [key], IsOrdinaryKey) == Filter(ks, IsOrdinaryKey) + [key]
  {
    FilterAppend(ks, [key], IsOrdinaryKey);
  }

  /** The keys after an in-place overwrite of a field by one with the same key. */
  lemma {:induction false} KeysOfOverwrite<V>(obj: Obj<V>, f: Field<V>, p: nat)
    requires p < |obj| && f.key == obj[p].key
    ensures Keys(obj[p := f]) == Keys(obj)
  {
  }

  /** The keys after an insertion at `p`. */
  lemma {:induction false} KeysOfInsert<V>(obj: Obj<V>, f: Field<V>, p: nat)
    requires p <= |obj|
    ensures Keys(obj[..p] + [f] + obj[p..]) == Keys(obj)[..p] + [f.key] + Keys(obj)[p..]
  {
    InsertedAt(obj, f, p);
    InsertedAt(Keys(obj), f.key, p);
  }

  /** A key no field holds is not among the keys. */
  lemma {:induction false} AbsentKey<V>(obj: Obj<V>, key: string)
    requires KeyPosition(obj, key, 0) == |obj|
    ensures key !in Keys(obj)
  {
    forall i | 0 <= i < |obj| ensures Keys(obj)[i] != key {
      assert obj[i].key != key;
    }
  }

  /** An assignment keeps the object well formed; it adds exactly the key (unless it is
      `__proto__`); and among the keys listed in creation order, a new one goes last. */
  lemma {:induction false} AssignKeys<V>(obj: Obj<V>, key: string, value: V)
    requires WellFormed(obj)
    ensures WellFormed(Assign(obj, key, value))
    ensures forall k :: k in Keys(Assign(obj, key, value)) <==> k in Keys(obj) || (k == key && key != ProtoKey)
    ensures Filter(Keys(Assign(obj, key, value)), IsOrdinaryKey) ==
      if key in Keys(obj) || !IsOrdinaryKey(key) then Filter(Keys(obj), IsOrdinaryKey)
      else Filter(Keys(obj), IsOrdinaryKey) + [key]
  {
    var p := KeyPosition(obj, key, 0);
    if key == ProtoKey {
    } else if p < |obj| {
      KeysOfOverwrite(obj, Field(key, value), p);
      assert key in Keys(obj) by { assert Keys(obj)[p] == key; }
    } else if !IsIndexKey(key) {
      AssignAppends(obj, key, value);
    } else {
      AssignInserts(obj, key, value);
    }
  }

  /** `AssignKeys` for a new key that is neither an array index nor `__proto__`. */
  lemma {:induction false} AssignAppends<V>(obj: Obj<V>, key: string, value: V)
    requires WellFormed(obj) && KeyPosition(obj, key, 0) == |obj| && IsOrdinaryKey(key)
    ensures Keys(Assign(obj, key, value)) == Keys(obj) + [key]
    ensures key !in Keys(obj) && WellFormed(Assign(obj, key, value))
    ensures Filter(Keys(Assign(obj, key, value)), IsOrdinaryKey) == Filter(Keys(obj), IsOrdinaryKey) + [key]
  {
    var ks := Keys(obj);
    var r := Assign(obj, key, value);
    assert r == obj + [Field(key, value)];
    assert Keys(r) == ks + [key];
    AbsentKey(obj, key);
    AppendKeepsOrder(ks, key);
  }

  /** `AssignKeys` for a new array index. */
  lemma {:induction false} AssignInserts<V>(obj: Obj<V>, key: string, value: V)
    requires WellFormed(obj) && KeyPosition(obj, key, 0) == |obj| && IsIndexKey(key)
    ensures key !in Keys(obj) && WellFormed(Assign(obj, key, value))
    ensures forall k :: k in Keys(Assign(obj, key, value)) <==> k in Keys(obj) || k == key
    ensures Filter(Keys(Assign(obj, key, value)), IsOrdinaryKey) == Filter(Keys(obj), IsOrdinaryKey)
  {
    var ks := Keys(obj);
    var q := IndexSlot(ks, key, 0);
    assert Assign(obj, key, value) == obj[..q] + [Field(key, value)] + obj[q..];
    KeysOfInsert(obj, Field(key, value), q);
    AbsentKey(obj, key);
    InsertIndexKey(ks, key);
  }

  /** The object a loop builds by assigning `values[i]` to `keys[i]` for each i in turn. */
  function Fill<V>(keys: seq<string>, values: seq<V>): (r: Obj<V>)
    requires |values| == |keys|
  {
    if keys == [] then []
    else
      var n := |keys| - 1;
      assert keys[..n] + [keys[n]] == keys;
      Assign(Fill(keys[..n], values[..n]), keys[n], values[n])
  }

  /** One more assignment extends the built object by one step. */
  lemma FillStep<V>(keys: seq<string>, values: seq<V>, k: int)
    requires |values| == |keys| && 0 <= k < |keys|
    ensures Fill(keys[..k + 1], values[..k + 1]) == Assign(Fill(keys[..k], values[..k]), keys[k], values[k])
  {
    assert keys[..k + 1][..k] == keys[..k] && values[..k + 1][..k] == values[..k];
  }

  /** The built object is the last assignment applied to the object built before it. */
  lemma FillLast<V>(keys: seq<string>, values: seq<V>)
    requires |values| == |keys| && keys != []
    ensures Fill(keys, values) ==
      Assign(Fill(keys[..|keys| - 1], values[..|keys| - 1]), keys[|keys| - 1], values[|keys| - 1])
  {
  }

  /** The keys of the built object: every key assigned except `__proto__`, each once, array
      indices first in ascending order, then the others in first-assignment order. These
      facts determine the key sequence. */
  lemma FillKeys<V>(keys: seq<string>, values: seq<V>)
    requires |values| == |keys|
    ensures WellFormed(Fill(keys, values))
    ensures forall k :: k in Keys(Fill(keys, values)) <==> k in keys && k != ProtoKey
    ensures Filter(Keys(Fill(keys, values)), IsOrdinaryKey) == Filter(Dedup(keys), IsOrdinaryKey)
  {
    FillWellFormed(keys, values);
    FillHasKeys(keys, values);
    FillOrdinaryKeys(keys, values);
  }

  /** The built object is well formed. */
  lemma {:induction false} FillWellFormed<V>(keys: seq<string>, values: seq<V>)
    requires |values| == |keys|
    ensures WellFormed(Fill(keys, values))
  {
    if keys != [] {
      var n := |keys| - 1;
      FillWellFormed(keys[..n], values[..n]);
      FillLast(keys, values);
      AssignKeys(Fill(keys[..n], values[..n]), keys[n], values[n]);
    }
  }

  /** The built object holds every key assigned except `__proto__`. */
  lemma {:induction false} FillHasKeys<V>(keys: seq<string>, values: seq<V>)
    requires |values| == |keys|
    ensures forall k :: k in Keys(Fill(keys, values)) <==> k in keys && k != ProtoKey
  {
    if keys != [] {
      var n := |keys| - 1;
      assert keys == keys[..n] + [keys[n]];
      var prefix := Fill(keys[..n], values[..n]);
      FillHasKeys(keys[..n], values[..n]);
      FillLast(keys, values);
      assert forall k :: k in Keys(Fill(keys, values)) <==> k in Keys(prefix) || (k == keys[n] && keys[n] != ProtoKey) by {
        FillWellFormed(keys[..n], values[..n]);
        AssignKeys(prefix, keys[n], values[n]);
      }
    }
  }

  /** The keys of the built object listed in creation order are those assigned, in
      first-assignment order. */
  lemma {:induction false} FillOrdinaryKeys<V>(keys: seq<string>, values: seq<V>)
    requires |values| == |keys|
    ensures Filter(Keys(Fill(keys, values)), IsOrdinaryKey) == Filter(Dedup(keys), IsOrdinaryKey)
  {
    if keys != [] {
      var n := |keys| - 1;
      assert keys == keys[..n] + [keys[n]];
      var prefix := Fill(keys[..n], values[..n]);
      var ks := Keys(prefix);
      FillOrdinaryKeys(keys[..n], values[..n]);
      FillHasKeys(keys[..n], values[..n]);
      FillLast(keys, values);
      assert Filter(Keys(Fill(keys, values)), IsOrdinaryKey) ==
        if keys[n] in ks || !IsOrdinaryKey(keys[n]) then Filter(ks, IsOrdinaryKey)
        else Filter(ks, IsOrdinaryKey) + [keys[n]] by {
        FillWellFormed(keys[..n], values[..n]);
        AssignKeys(prefix, keys[n], values[n]);
      }
      OrdinaryKeysStep(ks, Keys(Fill(keys, values)), keys[..n], keys[n]);
    }
  }

  /** `FillKeys`' last clause carried over one more assignment. */
  lemma {:induction false} OrdinaryKeysStep(ks: seq<string>, next: seq<string>, earlier: seq<string>, key: string)
    requires forall k :: k in ks <==> k in earlier && k != ProtoKey
    requires Filter(ks, IsOrdinaryKey) == Filter(Dedup(earlier), IsOrdinaryKey)
    requires Filter(next, IsOrdinaryKey) ==
      if key in ks || !IsOrdinaryKey(key) then Filter(ks, IsOrdinaryKey) else Filter(ks, IsOrdinaryKey) + [key]
    ensures Filter(next, IsOrdinaryKey) == Filter(Dedup(earlier + [key]), IsOrdinaryKey)
  {
    var d := Dedup(earlier);
    assert (earlier + [key])[..|earlier|] == earlier;
    assert Dedup(earlier + [key]) == if key in d then d else d + [key];
    if key !in d {
      FilterAppend(d, [key], IsOrdinaryKey);
    }
  }

  /** A key holds the value earlier at its last position (later assignments win), except
      `__proto__`, which never becomes a property. */
  lemma {:induction false} FillLookup<V>(keys: seq<string>, values: seq<V>, j: int)
    requires |values| == |keys|
    requires 0 <= j < |keys|
    requires forall k :: j < k < |keys| ==> keys[k] != keys[j]
    ensures Lookup(Fill(keys, values), keys[j]) == if keys[j] == ProtoKey then None else Some(values[j])
    decreases |keys|
  {
    var n := |keys| - 1;
    var prefix := Fill(keys[..n], values[..n]);
    var key := keys[j];
    assert Lookup(Fill(keys, values), key) ==
      if key == keys[n] && key != ProtoKey then Some(values[n]) else Lookup(prefix, key) by {
      FillLast(keys, values);
      AssignLookup(prefix, keys[n], values[n], key);
    }
    if j < n {
      assert keys[..n][j] == key && values[..n][j] == values[j];
      FillLookup(keys[..n], values[..n], j);
    } else if key == ProtoKey {
      FillHasKeys(keys[..n], values[..n]);
      assert key !in Keys(prefix);
    }
  }
}
