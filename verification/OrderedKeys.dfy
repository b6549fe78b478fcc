/**
 The ascending iteration of a `StableBTreeMap`: the keys of a finite map listed
 in the order of a total order.
 */
module OrderedKeys {

  ghost predicate TotalOrder<K(!new)>(le: (K, K) -> bool) {
    && (forall a :: le(a, a))
    && (forall a, b :: le(a, b) || le(b, a))
    && (forall a, b :: le(a, b) && le(b, a) ==> a == b)
    && (forall a, b, c :: le(a, b) && le(b, c) ==> le(a, c))
  }

  /** Strictly ascending. */
  ghost predicate Ascending<K(!new)>(ks: seq<K>, le: (K, K) -> bool) {
    forall i, j :: 0 <= i < j < |ks| ==> le(ks[i], ks[j]) && ks[i] != ks[j]
  }

  lemma {:induction false} LeastExists<K(!new)>(s: set<K>, le: (K, K) -> bool)
    requires s != {} && TotalOrder(le)
    ensures exists k :: k in s && forall x :: x in s ==> le(k, x)
    decreases |s|
  {
    var k :| k in s;
    if s == {k} {
      assert forall x :: x in s ==> le(k, x);
    } else {
      LeastExists(s - {k}, le);
      var m :| m in s - {k} && forall x :: x in s - {k} ==> le(m, x);
      if le(k, m) {
        assert forall x :: x in s ==> le(k, x);
      } else {
        assert forall x :: x in s ==> le(m, x);
      }
    }
  }

  /** The elements of `s`, ascending. */
  function Listing<K(!new, ==)>(s: set<K>, le: (K, K) -> bool): (ks: seq<K>)
    requires TotalOrder(le)
    ensures |ks| == |s|
    ensures forall k :: k in ks <==> k in s
    ensures Ascending(ks, le)
    decreases |s|
  {
    if s == {} then []
    else
      LeastExists(s, le);
      var k :| k in s && forall x :: x in s ==> le(k, x);
      [k] + Listing(s - {k}, le)
  }

  lemma AscendingTail<K(!new)>(ks: seq<K>, le: (K, K) -> bool)
    requires ks != [] && Ascending(ks, le)
    ensures Ascending(ks[1..], le) && ks[0] !in ks[1..]
    ensures forall x :: x in ks[1..] <==> x in ks && x != ks[0]
  {
    assert ks == [ks[0]] + ks[1..];
  }

  /** A set has only one ascending listing. */
  lemma {:induction false} ListingUnique<K(!new)>(ks: seq<K>, js: seq<K>, le: (K, K) -> bool)
    requires TotalOrder(le) && Ascending(ks, le) && Ascending(js, le)
    requires forall x :: x in ks <==> x in js
    ensures ks == js
    decreases |ks|
  {
    if ks == [] {
      assert forall i :: 0 <= i < |js| ==> js[i] in ks;
    } else {
      assert ks[0] in js;
      assert js[0] in ks;
      AscendingTail(ks, le);
      AscendingTail(js, le);
      ListingUnique(ks[1..], js[1..], le);
    }
  }

  /** Reading a map along a listing of its keys. */
  function Along<K, V>(ks: seq<K>, m: map<K, V>): seq<V>
    requires forall k :: k in ks ==> k in m
  {
    seq(|ks|, i requires 0 <= i < |ks| => m[ks[i]])
  }

  predicate NatLe(a: nat, b: nat) {
    a <= b
  }

  lemma NatLeIsTotal()
    ensures TotalOrder(NatLe)
  {
  }

  /** Strings in lexicographic order of their characters. */
  predicate StringLe(a: string, b: string) {
    a == "" || (b != "" && (a[0] < b[0] || (a[0] == b[0] && StringLe(a[1..], b[1..]))))
  }

  lemma {:induction false} StringLeReflexive(a: string)
    ensures StringLe(a, a)
  {
    if a != "" {
      StringLeReflexive(a[1..]);
    }
  }

  lemma {:induction false} StringLeConnected(a: string, b: string)
    ensures StringLe(a, b) || StringLe(b, a)
    ensures StringLe(a, b) && StringLe(b, a) ==> a == b
  {
    if a != "" && b != "" {
      StringLeConnected(a[1..], b[1..]);
      assert a == [a[0]] + a[1..] && b == [b[0]] + b[1..];
    }
  }

  lemma {:induction false} StringLeTransitive(a: string, b: string, c: string)
    requires StringLe(a, b) && StringLe(b, c)
    ensures StringLe(a, c)
  {
    if a != "" && a[0] == b[0] == c[0] {
      StringLeTransitive(a[1..], b[1..], c[1..]);
    }
  }

  lemma StringLeIsTotal()
    ensures TotalOrder(StringLe)
  {
    forall a { StringLeReflexive(a); }
    forall a, b { StringLeConnected(a, b); }
    forall a, b, c | StringLe(a, b) && StringLe(b, c) { StringLeTransitive(a, b, c); }
  }
}
