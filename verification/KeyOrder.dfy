/** Keys in the order of their characters, which is the byte order of their UTF-8. */
module KeyOrder {
  predicate Less(a: string, b: string) {
    if |b| == 0 then false
    else if |a| == 0 then true
    else if a[0] != b[0] then a[0] < b[0]
    else Less(a[1..], b[1..])
  }

  /** The first character two keys differ in decides, the lower one first, and a key comes before those
      it begins. */
  lemma {:induction false} FirstDifferenceDecides(same: string, a: string, b: string)
    ensures |a| > 0 && |b| > 0 && a[0] != b[0] ==> (Less(same + a, same + b) <==> a[0] < b[0])
    ensures |a| > 0 ==> Less(same, same + a)
  {
    if |same| == 0 {
      assert same + a == a && same + b == b;
    } else {
      assert (same + a)[1..] == same[1..] + a && (same + b)[1..] == same[1..] + b;
      FirstDifferenceDecides(same[1..], a, b);
    }
  }

  lemma {:induction false} LessTotal(a: string, b: string)
    ensures a == b || Less(a, b) || Less(b, a)
  {
    if |a| > 0 && |b| > 0 && a[0] == b[0] {
      LessTotal(a[1..], b[1..]);
      assert a == [a[0]] + a[1..] && b == [b[0]] + b[1..];
    }
  }

  lemma {:induction false} LessTransitive(a: string, b: string, c: string)
    requires Less(a, b) && Less(b, c)
    ensures Less(a, c)
  {
    if |a| > 0 && a[0] == b[0] && b[0] == c[0] { LessTransitive(a[1..], b[1..], c[1..]); }
  }

  lemma {:induction false} LessIrreflexive(a: string)
    ensures !Less(a, a)
  {
    if |a| > 0 { LessIrreflexive(a[1..]); }
  }

  ghost predicate Ordered(keys: seq<string>) { forall i, j :: 0 <= i < j < |keys| ==> Less(keys[i], keys[j]) }

  ghost function KeysIn(keys: seq<string>): set<string> { set k | k in keys }

  /** There is one order of a set of keys. */
  lemma {:induction false} OneOrder(a: seq<string>, b: seq<string>)
    requires Ordered(a) && Ordered(b) && KeysIn(a) == KeysIn(b)
    ensures a == b
  {
    if |a| == 0 {
      AnyKey(b);
    } else {
      assert a[0] in KeysIn(a);
      assert |b| > 0;
      FirstIsLeast(a, b);
      FirstIsLeast(b, a);
      assert a[0] == b[0] by { Antisymmetric(a[0], b[0]); }
      RestKeys(a);
      RestKeys(b);
      OneOrder(a[1..], b[1..]);
      assert a == [a[0]] + a[1..] && b == [b[0]] + b[1..];
    }
  }

  lemma AnyKey(keys: seq<string>)
    ensures |keys| > 0 ==> KeysIn(keys) != {}
  {
    if |keys| > 0 { assert keys[0] in KeysIn(keys); }
  }

  lemma FirstIsLeast(a: seq<string>, b: seq<string>)
    requires Ordered(a) && |a| > 0 && |b| > 0 && KeysIn(a) == KeysIn(b)
    ensures a[0] == b[0] || Less(a[0], b[0])
  {
    assert b[0] in KeysIn(b);
    var i :| 0 <= i < |a| && a[i] == b[0];
  }

  lemma Antisymmetric(a: string, b: string)
    requires (a == b || Less(a, b)) && (a == b || Less(b, a))
    ensures a == b
  {
    if a != b {
      LessTransitive(a, b, a);
      LessIrreflexive(a);
    }
  }

  lemma RestKeys(a: seq<string>)
    requires Ordered(a) && |a| > 0
    ensures KeysIn(a[1..]) == KeysIn(a) - {a[0]}
  {
    LessIrreflexive(a[0]);
    forall k | k in KeysIn(a) - {a[0]} ensures k in KeysIn(a[1..]) {
      var i :| 0 <= i < |a| && a[i] == k;
      assert a[1..][i - 1] == k;
    }
    assert forall i :: 0 < i < |a| ==> a[1..][i - 1] == a[i];
  }

  // ----- sorting --------------------------------------------------------------------------------

  function Insert(keys: seq<string>, k: string): seq<string> {
    if |keys| == 0 then [k]
    else if Less(k, keys[0]) then [k] + keys
    else [keys[0]] + Insert(keys[1..], k)
  }

  function Sort(keys: seq<string>): seq<string> {
    if |keys| == 0 then [] else Insert(Sort(keys[..|keys| - 1]), keys[|keys| - 1])
  }

  lemma {:induction false} InsertKeeps(keys: seq<string>, k: string)
    requires Ordered(keys) && k !in keys
    ensures Ordered(Insert(keys, k)) && KeysIn(Insert(keys, k)) == KeysIn(keys) + {k}
  {
    hide Less;
    if |keys| > 0 {
      if Less(k, keys[0]) {
        forall j | 0 < j < |keys| ensures Less(k, keys[j]) { LessTransitive(k, keys[0], keys[j]); }
      } else {
        LessTotal(k, keys[0]);
        InsertKeeps(keys[1..], k);
        var rest := Insert(keys[1..], k);
        assert KeysIn(keys) == {keys[0]} + KeysIn(keys[1..]) by { assert keys == [keys[0]] + keys[1..]; }
        forall j | 0 <= j < |rest| ensures Less(keys[0], rest[j]) {
          assert rest[j] in KeysIn(rest);
        }
      }
    }
  }

  lemma {:induction false} SortKeeps(keys: seq<string>)
    requires forall i, j :: 0 <= i < j < |keys| ==> keys[i] != keys[j]
    ensures Ordered(Sort(keys)) && KeysIn(Sort(keys)) == KeysIn(keys)
  {
    if |keys| > 0 {
      var n := |keys| - 1;
      SortKeeps(keys[..n]);
      assert keys[n] !in KeysIn(keys[..n]);
      assert keys[n] !in Sort(keys[..n]);
      InsertKeeps(Sort(keys[..n]), keys[n]);
      assert keys == keys[..n] + [keys[n]];
    }
  }

  lemma {:induction false} OrderExists(keys: set<string>) returns (order: seq<string>)
    ensures Ordered(order) && KeysIn(order) == keys
    decreases |keys|
  {
    if keys == {} {
      order := [];
    } else {
      var k :| k in keys;
      order := OrderExists(keys - {k});
      assert k !in KeysIn(order);
      InsertKeeps(order, k);
      order := Insert(order, k);
    }
  }

  /** The keys of a set in order. */
  ghost function Sorted(keys: set<string>): (order: seq<string>)
    ensures Ordered(order) && KeysIn(order) == keys
  {
    assert exists order :: Ordered(order) && KeysIn(order) == keys by { var order := OrderExists(keys); }
    var order :| Ordered(order) && KeysIn(order) == keys;
    order
  }
}
