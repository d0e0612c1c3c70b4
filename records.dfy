/**
 * A JavaScript plain object with string values, as the dictionary rows are:
 * a list of fields in the order `Object.keys` reports them. For an ordinary
 * object that order (OrdinaryOwnPropertyKeys, section 10.1.11.1 of
 * ECMA-262) lists the array-index keys first, in ascending numeric order,
 * and then the other keys in the order they were created. Assigning a
 * string to `__proto__` goes to the prototype setter, which ignores it, so
 * it creates no key.
 */
module Records {
  import opened Wrappers

  datatype Field = Field(key: string, value: string)

  type Record = seq<Field>

  /** `Object.keys(r)`. */
  function Keys(r: Record): (ks: seq<string>)
    ensures |ks| == |r|
    ensures forall i :: 0 <= i < |r| ==> ks[i] == r[i].key
  {
    seq(|r|, i requires 0 <= i < |r| => r[i].key)
  }

  /** No key occurs twice, as in every JavaScript object. */
  predicate UniqueKeys(r: Record)
  {
    forall i, j :: 0 <= i < j < |r| ==> r[i].key != r[j].key
  }

  predicate IsDigit(c: char)
  {
    '0' <= c <= '9'
  }

  function DigitValue(c: char): nat
  {
    if IsDigit(c) then c as int - '0' as int else 0
  }

  /** The number a string of decimal digits denotes. */
  function DecimalValue(s: string): nat
  {
    if s == [] then 0 else 10 * DecimalValue(s[..|s| - 1]) + DigitValue(s[|s| - 1])
  }

  function Pow10(n: nat): nat
  {
    if n == 0 then 1 else 10 * Pow10(n - 1)
  }

  predicate AllDigits(s: string)
  {
    forall i :: 0 <= i < |s| ==> IsDigit(s[i])
  }

  /** Array indices lie below 2^32 - 1. */
  const IndexLimit: nat := 0xFFFF_FFFF

  /** An array-index key: the canonical decimal form ("0", or no leading zero) of a number below 2^32 - 1. */
  predicate IndexKey(k: string)
  {
    |k| > 0 && AllDigits(k) && (k[0] != '0' || |k| == 1) && DecimalValue(k) < IndexLimit
  }

  /** The key whose assignment with a string value creates nothing. */
  const ProtoKey: string := "__proto__"

  /** A key that `Object.keys` lists in creation order, after the index keys. */
  predicate Named(k: string)
  {
    !IndexKey(k) && k != ProtoKey
  }

  /** Key `a` may stand before key `b`: an index key is preceded only by smaller index keys. */
  predicate InOrder(a: string, b: string)
  {
    IndexKey(b) ==> IndexKey(a) && DecimalValue(a) < DecimalValue(b)
  }

  /** The keys are in `Object.keys` order: index keys first, ascending. */
  predicate OrderedKeys(ks: seq<string>)
  {
    forall i, j :: 0 <= i < j < |ks| ==> InOrder(ks[i], ks[j])
  }

  predicate KeyOrdered(r: Record)
  {
    OrderedKeys(Keys(r))
  }

  /** The keys listed in creation order: those that are neither index keys nor `__proto__`, in order. */
  function NamedKeys(ks: seq<string>): seq<string>
  {
    if ks == [] then []
    else
      assert ks == [ks[0]] + ks[1..];
      (if Named(ks[0]) then [ks[0]] else []) + NamedKeys(ks[1..])
  }

  /** The keys listed in creation order are exactly the keys that are neither index keys nor `__proto__`. */
  lemma {:induction false} NamedKeysMembers(ks: seq<string>)
    ensures forall k :: k in NamedKeys(ks) <==> k in ks && Named(k)
  {
    if ks != [] {
      NamedKeysMembers(ks[1..]);
      assert ks == [ks[0]] + ks[1..];
    }
  }

  /** `NamedKeys` works key by key: it distributes over concatenation. */
  lemma {:induction false} NamedKeysAppend(a: seq<string>, b: seq<string>)
    ensures NamedKeys(a + b) == NamedKeys(a) + NamedKeys(b)
  {
    if a == [] {
      assert a + b == b;
    } else {
      assert (a + b)[1..] == a[1..] + b;
      NamedKeysAppend(a[1..], b);
    }
  }

  /** The position of the field named `k`, if there is one (the first, should keys repeat). */
  function KeyIndex(r: Record, k: string): (o: Option<nat>)
    ensures o.Some? ==> o.value < |r| && r[o.value].key == k
    ensures o.Some? ==> forall j :: 0 <= j < o.value ==> r[j].key != k
    ensures o.None? ==> forall j :: 0 <= j < |r| ==> r[j].key != k
  {
    if r == [] then None
    else if r[0].key == k then Some(0)
    else match KeyIndex(r[1..], k)
      case None => None
      case Some(i) => Some(i + 1)
  }

  /** `r[k]`: the value stored under `k`, or `None` for `undefined`. */
  function Get(r: Record, k: string): Option<string>
  {
    match KeyIndex(r, k)
    case None => None
    case Some(i) => Some(r[i].value)
  }

  /** Where a new index key `k` goes: after the leading index keys with smaller values. */
  function Slot(r: Record, k: string): (p: nat)
    ensures p <= |r|
    ensures forall i :: 0 <= i < p ==> IndexKey(r[i].key) && DecimalValue(r[i].key) < DecimalValue(k)
    ensures p < |r| ==> !(IndexKey(r[p].key) && DecimalValue(r[p].key) < DecimalValue(k))
  {
    if r == [] then 0
    else if IndexKey(r[0].key) && DecimalValue(r[0].key) < DecimalValue(k) then
      var p := Slot(r[1..], k);
      assert forall i :: 1 <= i < 1 + p ==> r[i] == r[1..][i - 1];
      1 + p
    else 0
  }

  /** `r` with `f` placed at position `p`. */
  function Insert(r: Record, p: nat, f: Field): (r': Record)
    requires p <= |r|
    ensures |r'| == |r| + 1 && r'[p] == f
    ensures forall j :: 0 <= j < p ==> r'[j] == r[j]
    ensures forall j :: p < j < |r'| ==> r'[j] == r[j - 1]
  {
    r[..p] + [f] + r[p..]
  }

  /**
   * `r[k] = v`: `__proto__` is ignored; an existing key keeps its position
   * and takes the new value; a new index key takes its numeric place among
   * the index keys, and any other new key goes at the end.
   */
  function Put(r: Record, k: string, v: string): Record
  {
    if k == ProtoKey then r
    else match KeyIndex(r, k)
      case Some(i) => r[i := Field(k, v)]
      case None =>
        if IndexKey(k) then Insert(r, Slot(r, k), Field(k, v))
        else r + [Field(k, v)]
  }

  /** A key is defined exactly when it is one of `Object.keys`. */
  lemma GetDefined(r: Record, k: string)
    ensures Get(r, k).Some? <==> k in Keys(r)
  {
    if Get(r, k).None? {
      forall i | 0 <= i < |r| ensures Keys(r)[i] != k { }
    }
  }

  /** After `r[k] = v`, reading `k` gives `v` and every other key reads as before; `__proto__` changes nothing. */
  lemma PutGet(r: Record, k: string, v: string)
    ensures k != ProtoKey ==> Get(Put(r, k, v), k) == Some(v)
    ensures forall k' :: k' != k ==> Get(Put(r, k, v), k') == Get(r, k')
    ensures k == ProtoKey ==> Put(r, k, v) == r
  {
    if k != ProtoKey {
      match KeyIndex(r, k)
      case None =>
        if IndexKey(k) {
          InsertFacts(r, k, v, Slot(r, k));
        } else {
          AppendFacts(r, k, v);
        }
      case Some(i) => OverwriteFacts(r, k, v, i);
    }
  }

  /**
   * `r[k] = v` adds `k` to the keys unless it was there or is `__proto__`;
   * keys listed in creation order gain `k` at their end exactly when it is
   * such a key and new; and the `Object.keys` order is kept.
   */
  lemma PutKeys(r: Record, k: string, v: string)
    ensures forall x :: x in Keys(Put(r, k, v)) <==> x in Keys(r) || (x == k && k != ProtoKey)
    ensures k in Keys(r) ==> Keys(Put(r, k, v)) == Keys(r)
    ensures NamedKeys(Keys(Put(r, k, v))) ==
      if Named(k) && k !in Keys(r) then NamedKeys(Keys(r)) + [k] else NamedKeys(Keys(r))
    ensures KeyOrdered(r) ==> KeyOrdered(Put(r, k, v))
  {
    var p := Put(r, k, v);
    GetDefined(r, k);
    if k == ProtoKey {
      assert p == r;
    } else {
      match KeyIndex(r, k)
      case Some(i) =>
        assert p == r[i := Field(k, v)];
        assert Keys(p) == Keys(r) by {
          assert forall j :: 0 <= j < |r| ==> Keys(p)[j] == Keys(r)[j];
        }
      case None =>
        assert k !in Keys(r);
        if IndexKey(k) {
          assert p == Insert(r, Slot(r, k), Field(k, v));
          InsertKeys(r, Slot(r, k), Field(k, v));
          if KeyOrdered(r) {
            InsertOrdered(r, k, v);
          }
        } else {
          assert p == r + [Field(k, v)];
          AppendKeys(r, Field(k, v));
          assert NamedKeys([k]) == [k] by { assert [k][1..] == []; }
        }
    }
  }

  /** `o.id = x; o[2] = y; o.name = z` leaves `Object.keys(o)` as 2, id, name. */
  lemma IndexKeysFirst(x: string, y: string, z: string)
    ensures Keys(Put(Put(Put([], "id", x), "2", y), "name", z)) == ["2", "id", "name"]
  {
    var a, b, c := Field("id", x), Field("2", y), Field("name", z);
    assert !IndexKey("id") by { assert !IsDigit("id"[0]); }
    assert !IndexKey("name") by { assert !IsDigit("name"[0]); }
    assert IndexKey("2") by { assert "2"[..0] == []; }
    assert Put([], "id", x) == [a];
    assert Put([a], "2", y) == [b, a] by {
      assert KeyIndex([a], "2") == None;
      assert Slot([a], "2") == 0;
    }
    assert Put([b, a], "name", z) == [b, a, c] by {
      assert KeyIndex([b, a], "name") == None;
    }
    var ks := Keys([b, a, c]);
    assert |ks| == 3 && ks[0] == "2" && ks[1] == "id" && ks[2] == "name";
  }

  lemma InsertKeys(r: Record, p: nat, f: Field)
    requires p <= |r| && !Named(f.key)
    ensures forall x :: x in Keys(Insert(r, p, f)) <==> x in Keys(r) || x == f.key
    ensures NamedKeys(Keys(Insert(r, p, f))) == NamedKeys(Keys(r))
  {
    var ks := Keys(r);
    InsertKeySeq(r, p, f);
    InsertKeySet(ks, p, f.key);
    InsertNamedKeys(ks[..p], ks[p..], f.key);
    assert ks[..p] + ks[p..] == ks;
  }

  lemma InsertKeySet(ks: seq<string>, p: nat, k: string)
    requires p <= |ks|
    ensures forall x :: x in ks[..p] + [k] + ks[p..] <==> x in ks || x == k
  {
    assert ks == ks[..p] + ks[p..];
  }

  lemma InsertNamedKeys(a: seq<string>, b: seq<string>, k: string)
    requires !Named(k)
    ensures NamedKeys(a + [k] + b) == NamedKeys(a + b)
  {
    SkipUnnamed(a, k);
    NamedKeysAppend(a + [k], b);
    NamedKeysAppend(a, b);
  }

  /** A key that is not listed in creation order adds nothing to `NamedKeys`. */
  lemma SkipUnnamed(a: seq<string>, k: string)
    requires !Named(k)
    ensures NamedKeys(a + [k]) == NamedKeys(a)
  {
    NamedKeysAppend(a, [k]);
    NamedKeysSingle(k);
    assert NamedKeys(a) + [] == NamedKeys(a);
  }

  lemma NamedKeysSingle(k: string)
    ensures NamedKeys([k]) == if Named(k) then [k] else []
  {
    assert [k][1..] == [];
  }

  lemma InsertKeySeq(r: Record, p: nat, f: Field)
    requires p <= |r|
    ensures Keys(Insert(r, p, f)) == Keys(r)[..p] + [f.key] + Keys(r)[p..]
  {
    var ks, ks' := Keys(r), Keys(Insert(r, p, f));
    var rhs := ks[..p] + [f.key] + ks[p..];
    assert |ks'| == |rhs|;
    forall j | 0 <= j < |ks'| ensures ks'[j] == rhs[j] {
      if j < p {
        assert rhs[j] == ks[j];
      } else if j == p {
        assert rhs[j] == f.key;
      } else {
        assert rhs[j] == ks[j - 1];
      }
    }
  }

  lemma AppendKeys(r: Record, f: Field)
    ensures Keys(r + [f]) == Keys(r) + [f.key]
    ensures NamedKeys(Keys(r + [f])) == NamedKeys(Keys(r)) + NamedKeys([f.key])
    ensures OrderedKeys(Keys(r)) && !IndexKey(f.key) ==> OrderedKeys(Keys(r + [f]))
  {
    assert Keys(r + [f]) == Keys(r) + [f.key];
    NamedKeysAppend(Keys(r), [f.key]);
  }

  /** Inserting a new index key at its slot keeps the `Object.keys` order. */
  lemma InsertOrdered(r: Record, k: string, v: string)
    requires KeyOrdered(r) && IndexKey(k) && k !in Keys(r)
    ensures KeyOrdered(Insert(r, Slot(r, k), Field(k, v)))
  {
    var p := Slot(r, k);
    var ks := Keys(r);
    var ks' := Keys(Insert(r, p, Field(k, v)));
    forall i, j | 0 <= i < j < |ks'| ensures InOrder(ks'[i], ks'[j]) {
      if j < p {
        assert ks'[i] == ks[i] && ks'[j] == ks[j];
      } else if j == p {
        assert ks'[i] == ks[i] && ks'[j] == k;
      } else if i < p {
        assert ks'[i] == ks[i] && ks'[j] == ks[j - 1];
      } else if i == p {
        var b := ks[j - 1];
        assert ks'[j] == b;
        if IndexKey(b) {
          var a := ks[p];
          assert IndexKey(a) && DecimalValue(a) <= DecimalValue(b) by {
            if j - 1 > p {
              assert InOrder(ks[p], ks[j - 1]);
            }
          }
          assert a != k;
          IndexKeyInjective(a, k);
        }
      } else {
        assert ks'[i] == ks[i - 1] && ks'[j] == ks[j - 1];
      }
    }
  }

  /** An array index has no leading zero, so different index keys denote different numbers. */
  lemma IndexKeyInjective(a: string, b: string)
    requires IndexKey(a) && IndexKey(b)
    ensures DecimalValue(a) == DecimalValue(b) <==> a == b
  {
    if DecimalValue(a) != DecimalValue(b) {
    } else if |a| == |b| {
      SameLengthInjective(a, b);
    } else if |a| < |b| {
      LeadingDigitBound(b);
      DigitsBound(a);
      Pow10Monotone(|a|, |b| - 1);
    } else {
      LeadingDigitBound(a);
      DigitsBound(b);
      Pow10Monotone(|b|, |a| - 1);
    }
  }

  lemma {:induction false} DigitsBound(s: string)
    requires AllDigits(s)
    ensures DecimalValue(s) < Pow10(|s|)
  {
    if s != [] {
      DigitsBound(s[..|s| - 1]);
    }
  }

  lemma LeadingDigitBound(s: string)
    requires AllDigits(s) && |s| >= 2 && s[0] != '0'
    ensures DecimalValue(s) >= Pow10(|s| - 1)
  {
    LeadingDigitLower(s);
  }

  lemma {:induction false} LeadingDigitLower(s: string)
    requires AllDigits(s) && |s| >= 1 && s[0] != '0'
    ensures DecimalValue(s) >= Pow10(|s| - 1)
  {
    if |s| > 1 {
      LeadingDigitLower(s[..|s| - 1]);
    }
  }

  lemma {:induction false} Pow10Monotone(m: nat, n: nat)
    requires m <= n
    ensures Pow10(m) <= Pow10(n)
  {
    if m < n {
      Pow10Monotone(m, n - 1);
    }
  }

  lemma {:induction false} SameLengthInjective(a: string, b: string)
    requires AllDigits(a) && AllDigits(b) && |a| == |b| && DecimalValue(a) == DecimalValue(b)
    ensures a == b
  {
    if a != [] {
      var n := |a| - 1;
      var x, y := DigitValue(a[n]), DigitValue(b[n]);
      assert 10 * DecimalValue(a[..n]) + x == 10 * DecimalValue(b[..n]) + y;
      assert x == y && DecimalValue(a[..n]) == DecimalValue(b[..n]);
      SameLengthInjective(a[..n], b[..n]);
      assert a == a[..n] + [a[n]] && b == b[..n] + [b[n]];
    }
  }

  /** In an object with unique keys every field is found under its own key. */
  lemma GetAt(r: Record, i: nat)
    requires UniqueKeys(r) && i < |r|
    ensures Get(r, r[i].key) == Some(r[i].value)
  {
    KeyIndexIs(r, r[i].key, Some(i));
  }

  /** `KeyIndex` is determined by its postconditions. */
  lemma KeyIndexIs(r: Record, k: string, o: Option<nat>)
    requires o.Some? ==> o.value < |r| && r[o.value].key == k
    requires o.Some? ==> forall j :: 0 <= j < o.value ==> r[j].key != k
    requires o.None? ==> forall j :: 0 <= j < |r| ==> r[j].key != k
    ensures KeyIndex(r, k) == o
  {
  }

  lemma AppendFacts(r: Record, k: string, v: string)
    requires KeyIndex(r, k).None?
    ensures Get(r + [Field(k, v)], k) == Some(v)
    ensures forall k' :: k' != k ==> Get(r + [Field(k, v)], k') == Get(r, k')
  {
    var r' := r + [Field(k, v)];
    KeyIndexIs(r', k, Some(|r|));
    forall k' | k' != k ensures Get(r', k') == Get(r, k') {
      KeyIndexIs(r', k', KeyIndex(r, k'));
    }
  }

  lemma InsertFacts(r: Record, k: string, v: string, p: nat)
    requires KeyIndex(r, k).None? && p <= |r|
    ensures Get(Insert(r, p, Field(k, v)), k) == Some(v)
    ensures forall k' :: k' != k ==> Get(Insert(r, p, Field(k, v)), k') == Get(r, k')
  {
    var r' := Insert(r, p, Field(k, v));
    KeyIndexIs(r', k, Some(p));
    forall k' | k' != k ensures Get(r', k') == Get(r, k') {
      InsertIndex(r, p, Field(k, v), k');
    }
  }

  lemma InsertIndex(r: Record, p: nat, f: Field, k: string)
    requires p <= |r| && k != f.key
    ensures KeyIndex(Insert(r, p, f), k) ==
      match KeyIndex(r, k)
      case None => None
      case Some(i) => Some(if i < p then i else i + 1)
  {
    var r' := Insert(r, p, f);
    match KeyIndex(r, k)
    case None =>
      KeyIndexIs(r', k, None);
    case Some(i) =>
      if i < p {
        KeyIndexIs(r', k, Some(i));
      } else {
        KeyIndexIs(r', k, Some(i + 1));
      }
  }

  lemma OverwriteFacts(r: Record, k: string, v: string, i: nat)
    requires KeyIndex(r, k) == Some(i)
    ensures Get(r[i := Field(k, v)], k) == Some(v)
    ensures forall k' :: k' != k ==> Get(r[i := Field(k, v)], k') == Get(r, k')
  {
    var r' := r[i := Field(k, v)];
    KeyIndexIs(r', k, Some(i));
    forall k' | k' != k ensures Get(r', k') == Get(r, k') {
      KeyIndexIs(r', k', KeyIndex(r, k'));
    }
  }

  /** Assigning a key keeps the keys of an object unique. */
  lemma PutKeepsKeysUnique(r: Record, k: string, v: string)
    requires UniqueKeys(r)
    ensures UniqueKeys(Put(r, k, v))
  {
    if k != ProtoKey {
      match KeyIndex(r, k)
      case Some(i) =>
        assert forall j :: 0 <= j < |r| ==> Put(r, k, v)[j].key == r[j].key;
      case None =>
        var p := if IndexKey(k) then Slot(r, k) else |r|;
        var r' := Insert(r, p, Field(k, v));
        assert Put(r, k, v) == r';
        forall i, j | 0 <= i < j < |r'| ensures r'[i].key != r'[j].key {
          if p < j {
            assert r'[j] == r[j - 1];
            if p < i {
              assert r'[i] == r[i - 1];
            }
          }
        }
    }
  }

  /** One assignment after a run of them: the keys stay unique and ordered, and are the names assigned other than `__proto__`. */
  lemma PutKeysStep(r: Record, names: seq<string>, k: string, v: string)
    requires UniqueKeys(r) && KeyOrdered(r)
    requires forall x :: x in Keys(r) <==> x in names && x != ProtoKey
    ensures UniqueKeys(Put(r, k, v)) && KeyOrdered(Put(r, k, v))
    ensures forall x :: x in Keys(Put(r, k, v)) <==> x in names + [k] && x != ProtoKey
  {
    PutKeepsKeysUnique(r, k, v);
    PutKeys(r, k, v);
  }

  /** One assignment of a name not assigned before: the keys listed in creation order follow the names. */
  lemma NamedKeysStep(r: Record, names: seq<string>, k: string, v: string)
    requires NamedKeys(Keys(r)) == NamedKeys(names) && k !in names
    requires forall x :: x in Keys(r) ==> x in names
    ensures NamedKeys(Keys(Put(r, k, v))) == NamedKeys(names + [k])
  {
    PutKeys(r, k, v);
    NamedKeysAppend(names, [k]);
    assert NamedKeys([k]) == if Named(k) then [k] else [] by {
      assert [k][1..] == [];
    }
  }
}
