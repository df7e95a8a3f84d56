/** The identity string `MaraviAPI._get_item_identifier` computes for a
    record of the paged positions endpoint, used to drop records already
    seen on an earlier page. */
module ItemIdentity {
  import opened Wrappers
  import opened Json

  // ----- Python's string order -----

  /** `a < b` on Python strings: lexicographic by code point. */
  predicate LexLess(a: string, b: string) {
    if a == [] then b != []
    else if b == [] then false
    else if a[0] != b[0] then a[0] < b[0]
    else LexLess(a[1..], b[1..])
  }

  lemma {:induction false} LexIrreflexive(a: string)
    ensures !LexLess(a, a)
  {
    if a != [] { LexIrreflexive(a[1..]); }
  }

  lemma {:induction false} LexTransitive(a: string, b: string, c: string)
    requires LexLess(a, b) && LexLess(b, c)
    ensures LexLess(a, c)
  {
    if a != [] && b != [] && c != [] && a[0] == b[0] && b[0] == c[0] {
      LexTransitive(a[1..], b[1..], c[1..]);
    }
  }

  lemma {:induction false} LexTotal(a: string, b: string)
    ensures a == b || LexLess(a, b) || LexLess(b, a)
  {
    if a != [] && b != [] && a[0] == b[0] {
      LexTotal(a[1..], b[1..]);
      if a[1..] == b[1..] {
        assert a == [a[0]] + a[1..] && b == [b[0]] + b[1..];
      }
    }
  }

  /** `<=` on strings is transitive. */
  lemma LexLeqTransitive(a: string, b: string, c: string)
    requires !LexLess(b, a) && !LexLess(c, b)
    ensures !LexLess(c, a)
  {
    if LexLess(c, a) {
      LexTotal(a, b);
      if LexLess(a, b) { LexTransitive(c, a, b); }
    }
  }

  // ----- sorted(item.items()) -----

  type Pair = (string, Value)

  /** Ordered by key; Python would compare the values only on equal keys,
      which a dictionary never has. */
  predicate SortedByKey(s: seq<Pair>) {
    forall i, j :: 0 <= i < j < |s| ==> !LexLess(s[j].0, s[i].0)
  }

  /** No two different pairs share a key. */
  predicate KeyFunctional(s: seq<Pair>) {
    forall x, y :: x in s && y in s && x.0 == y.0 ==> x == y
  }

  function InsertByKey(p: Pair, s: seq<Pair>): (r: seq<Pair>)
    requires SortedByKey(s)
    ensures SortedByKey(r)
    ensures multiset(r) == multiset(s) + multiset{p}
  {
    if s == [] then [p]
    else if !LexLess(s[0].0, p.0) then
      assert forall j :: 0 <= j < |s| ==> !LexLess(s[j].0, p.0) by {
        forall j | 0 <= j < |s| ensures !LexLess(s[j].0, p.0) {
          if j > 0 { LexLeqTransitive(p.0, s[0].0, s[j].0); }
        }
      }
      [p] + s
    else
      var rest := InsertByKey(p, s[1..]);
      assert !LexLess(p.0, s[0].0) by {
        if LexLess(p.0, s[0].0) { LexTransitive(p.0, s[0].0, p.0); LexIrreflexive(p.0); }
      }
      assert s == [s[0]] + s[1..];
      assert forall i :: 0 <= i < |rest| ==> !LexLess(rest[i].0, s[0].0) by {
        forall i | 0 <= i < |rest| ensures !LexLess(rest[i].0, s[0].0) {
          var x := rest[i];
          assert x in multiset(rest);
          if x != p {
            assert x in multiset(s[1..]);
            var k :| 0 <= k < |s[1..]| && s[1..][k] == x;
            assert s[k + 1] == x;
          }
        }
      }
      [s[0]] + rest
  }

  /** `sorted(d.items())`: insertion sort by key. */
  function SortByKey(s: seq<Pair>): (r: seq<Pair>)
    ensures SortedByKey(r)
    ensures multiset(r) == multiset(s)
  {
    if s == [] then []
    else
      assert s == [s[0]] + s[1..];
      InsertByKey(s[0], SortByKey(s[1..]))
  }

  /** Two key-sorted sequences holding the same pairs start with the same
      pair, when no key appears with two different values. */
  lemma SortedSameHead(a: seq<Pair>, b: seq<Pair>)
    requires SortedByKey(a) && SortedByKey(b) && multiset(a) == multiset(b)
    requires KeyFunctional(a) && a != []
    ensures b != [] && a[0] == b[0]
  {
    assert a[0] in multiset(b);
    assert b[0] in multiset(a);
    var j :| 0 <= j < |b| && b[j] == a[0];
    var i :| 0 <= i < |a| && a[i] == b[0];
    assert !LexLess(a[0].0, b[0].0) by {
      if i > 0 { assert !LexLess(a[i].0, a[0].0); } else { LexIrreflexive(a[0].0); }
    }
    assert !LexLess(b[0].0, a[0].0) by {
      if j > 0 { assert !LexLess(b[j].0, b[0].0); } else { LexIrreflexive(b[0].0); }
    }
    LexTotal(a[0].0, b[0].0);
    assert b[0] in a;
  }

  lemma SortedTail(s: seq<Pair>)
    requires SortedByKey(s) && s != []
    ensures SortedByKey(s[1..])
  {
    forall i, j | 0 <= i < j < |s[1..]| ensures !LexLess(s[1..][j].0, s[1..][i].0) {
      assert s[1..][i] == s[i + 1] && s[1..][j] == s[j + 1];
    }
  }

  /** Two key-sorted sequences holding the same pairs, no key twice with
      different values, are the same sequence. */
  lemma {:induction false} SortedUnique(a: seq<Pair>, b: seq<Pair>)
    requires SortedByKey(a) && SortedByKey(b) && multiset(a) == multiset(b)
    requires KeyFunctional(a)
    ensures a == b
    decreases |a|
  {
    if a != [] {
      SortedSameHead(a, b);
      assert a == [a[0]] + a[1..] && b == [b[0]] + b[1..];
      assert multiset(a) == multiset{a[0]} + multiset(a[1..]);
      assert multiset(b) == multiset{b[0]} + multiset(b[1..]);
      assert KeyFunctional(a[1..]) by {
        forall x, y | x in a[1..] && y in a[1..] && x.0 == y.0 ensures x == y {
          assert x in a && y in a;
        }
      }
      SortedTail(a);
      SortedTail(b);
      assert multiset(a[1..]) == multiset(a) - multiset{a[0]};
      assert multiset(b[1..]) == multiset(b) - multiset{b[0]};
      SortedUnique(a[1..], b[1..]);
    } else {
      assert |b| == |multiset(b)| == 0;
    }
  }

  /** A dictionary's items never repeat a key. */
  lemma DistinctKeysFunctional(fields: Fields)
    requires DistinctKeys(fields)
    ensures KeyFunctional(fields)
  {
  }

  // ----- the identifier -----

  /** The fields that identify a record, in the order they are joined. */
  const ImportantKeys: seq<string> := ["portfolio_name", "date", "investor_names", "shares_amount"]

  /** `f"{key}:{item[key]}"` for each of `keys` present in the record. */
  function KeyParts(fields: Fields, keys: seq<string>): (r: seq<string>)
    ensures |r| <= |keys|
    ensures r == [] <==> forall k :: k in keys ==> !HasKey(fields, k)
  {
    if keys == [] then []
    else
      var rest := KeyParts(fields, keys[1..]);
      match Get(fields, keys[0])
      case Some(v) => [keys[0] + ":" + PyStr(v)] + rest
      case None => rest
  }

  /** `str(sorted(item.items()))`: a list of `(key, value)` tuples. */
  function SortedItemsRepr(fields: Fields): string {
    var sorted := SortByKey(fields);
    "[" + Join(", ", seq(|sorted|, i requires 0 <= i < |sorted| =>
                          "(" + QuoteRepr(sorted[i].0) + ", " + Repr(sorted[i].1) + ")")) + "]"
  }

  /** `_get_item_identifier(item)`.  A record that is not a dictionary makes
      Python raise (`in` or `.items()` fails on it), which is `None` here. */
  function ItemIdentifier(item: Value): (r: Option<string>)
    ensures r.Some? <==> item.Obj?
  {
    match item
    case Obj(fields) =>
      var parts := KeyParts(fields, ImportantKeys);
      if parts == [] then Some(SortedItemsRepr(fields)) else Some(Join("|", parts))
    case _ => None
  }

  /** The parts for two runs of keys one after the other. */
  lemma {:induction false} KeyPartsAppend(fields: Fields, a: seq<string>, b: seq<string>)
    ensures KeyParts(fields, a + b) == KeyParts(fields, a) + KeyParts(fields, b)
    decreases |a|
  {
    if a != [] {
      assert (a + b)[1..] == a[1..] + b;
      KeyPartsAppend(fields, a[1..], b);
    } else {
      assert a + b == b;
    }
  }

  /** `_get_item_identifier(item)` as the source writes it: a loop over the
      important keys that collects a part for each one present. */
  method GetItemIdentifier(item: Value) returns (r: Option<string>)
    ensures r == ItemIdentifier(item)
  {
    if !item.Obj? {
      return None;
    }
    var keyParts := [];
    for i := 0 to |ImportantKeys|
      invariant keyParts == KeyParts(item.fields, ImportantKeys[..i])
    {
      var key := ImportantKeys[i];
      KeyPartsAppend(item.fields, ImportantKeys[..i], [key]);
      assert ImportantKeys[..i + 1] == ImportantKeys[..i] + [key];
      match Get(item.fields, key) {
        case Some(v) => keyParts := keyParts + [key + ":" + PyStr(v)];
        case None =>
      }
    }
    assert ImportantKeys[..|ImportantKeys|] == ImportantKeys;
    if keyParts == [] {
      return Some(SortedItemsRepr(item.fields));
    }
    return Some(Join("|", keyParts));
  }

  /** The parts depend only on the values stored under the chosen keys. */
  lemma {:induction false} KeyPartsAgree(f1: Fields, f2: Fields, keys: seq<string>)
    requires forall k :: k in keys ==> Get(f1, k) == Get(f2, k)
    ensures KeyParts(f1, keys) == KeyParts(f2, keys)
  {
    if keys != [] { KeyPartsAgree(f1, f2, keys[1..]); }
  }

  /** Two records that agree on the identifying fields, and have at least
      one of them, are the same record as far as de-duplication goes, however
      much their other fields differ. */
  lemma SameIdentifyingFieldsSameIdentifier(f1: Fields, f2: Fields)
    requires forall k :: k in ImportantKeys ==> Get(f1, k) == Get(f2, k)
    requires exists k :: k in ImportantKeys && HasKey(f1, k)
    ensures ItemIdentifier(Obj(f1)) == ItemIdentifier(Obj(f2))
    ensures ItemIdentifier(Obj(f1)).value == Join("|", KeyParts(f1, ImportantKeys))
  {
    KeyPartsAgree(f1, f2, ImportantKeys);
  }

  /** The identifier does not depend on the order of the record's fields. */
  lemma IdentifierIgnoresFieldOrder(f1: Fields, f2: Fields)
    requires DistinctKeys(f1) && DistinctKeys(f2) && multiset(f1) == multiset(f2)
    ensures ItemIdentifier(Obj(f1)) == ItemIdentifier(Obj(f2))
  {
    forall k | k in ImportantKeys ensures Get(f1, k) == Get(f2, k) {
      SameItemsSameGet(f1, f2, k);
    }
    KeyPartsAgree(f1, f2, ImportantKeys);
    SameItemsSameSort(f1, f2);
  }

  /** Two dictionaries with the same items answer every lookup alike. */
  lemma SameItemsSameGet(f1: Fields, f2: Fields, k: string)
    requires DistinctKeys(f1) && DistinctKeys(f2) && multiset(f1) == multiset(f2)
    ensures Get(f1, k) == Get(f2, k)
  {
    match Get(f1, k)
    case Some(v) =>
      GetMember(f1, k, v);
      assert (k, v) in multiset(f1);
      GetMember(f2, k, v);
    case None =>
      if Get(f2, k).Some? {
        var v := Get(f2, k).value;
        GetMember(f2, k, v);
        assert (k, v) in multiset(f2);
        GetMember(f1, k, v);
      }
  }

  /** Two dictionaries with the same items sort to the same item list. */
  lemma SameItemsSameSort(f1: Fields, f2: Fields)
    requires DistinctKeys(f1) && multiset(f1) == multiset(f2)
    ensures SortByKey(f1) == SortByKey(f2)
  {
    var s1 := SortByKey(f1);
    var s2 := SortByKey(f2);
    assert KeyFunctional(s1) by {
      DistinctKeysFunctional(f1);
      forall x, y | x in s1 && y in s1 && x.0 == y.0 ensures x == y {
        assert x in multiset(s1) && y in multiset(s1);
        assert x in f1 && y in f1;
      }
    }
    SortedUnique(s1, s2);
  }
}
