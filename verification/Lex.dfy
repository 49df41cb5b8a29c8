/**
 Go's byte-wise string order, sorting by it, and the ascending key scan of the Pebble store.
 */
module Lex {

  /** a < b as Go compares strings. */
  predicate Less(a: string, b: string)
    decreases |a|
  {
    b != "" && (a == "" || a[0] < b[0] || (a[0] == b[0] && Less(a[1..], b[1..])))
  }

  predicate Leq(a: string, b: string) {
    a == b || Less(a, b)
  }

  lemma {:induction false} Irreflexive(a: string)
    ensures !Less(a, a)
    decreases |a|
  {
    if a != "" { Irreflexive(a[1..]); }
  }

  lemma {:induction false} Transitive(a: string, b: string, c: string)
    requires Less(a, b) && Less(b, c)
    ensures Less(a, c)
    decreases |a|
  {
    if a != "" && a[0] == b[0] && b[0] == c[0] { Transitive(a[1..], b[1..], c[1..]); }
  }

  lemma {:induction false} Total(a: string, b: string)
    ensures Less(a, b) || a == b || Less(b, a)
    decreases |a|
  {
    if a != "" && b != "" && a[0] == b[0] {
      Total(a[1..], b[1..]);
      assert a == [a[0]] + a[1..] && b == [b[0]] + b[1..];
    }
  }

  lemma {:induction false} Asymmetric(a: string, b: string)
    requires Less(a, b)
    ensures !Less(b, a) && a != b
  {
    if Less(b, a) { Transitive(a, b, a); }
    Irreflexive(a);
  }

  /** A common prefix does not affect the order. */
  lemma {:induction false} CommonPrefix(p: string, a: string, b: string)
    ensures Less(p + a, p + b) <==> Less(a, b)
    decreases |p|
  {
    if p == "" {
      assert p + a == a && p + b == b;
    } else {
      CommonPrefix(p[1..], a, b);
      assert (p + a)[1..] == p[1..] + a && (p + b)[1..] == p[1..] + b;
    }
  }

  /** The first difference between two equally long heads decides. */
  lemma {:induction false} HeadDecides(p: string, q: string, a: string, b: string)
    requires |p| == |q| && p != q
    ensures Less(p + a, q + b) <==> Less(p, q)
    decreases |p|
  {
    var x, y := p + a, q + b;
    assert x[0] == p[0] && y[0] == q[0] && x[1..] == p[1..] + a && y[1..] == q[1..] + b;
    if p[0] == q[0] {
      assert p == [p[0]] + p[1..] && q == [q[0]] + q[1..];
      HeadDecides(p[1..], q[1..], a, b);
    }
  }

  ghost predicate Sorted(s: seq<string>) {
    forall i, j :: 0 <= i < j < |s| ==> Leq(s[i], s[j])
  }

  ghost predicate StrictlySorted(s: seq<string>) {
    forall i, j {:trigger Less(s[i], s[j])} :: 0 <= i < j < |s| ==> Less(s[i], s[j])
  }

  function Insert(x: string, s: seq<string>): (r: seq<string>)
    requires Sorted(s)
    ensures Sorted(r) && multiset(r) == multiset(s) + multiset{x}
  {
    if s == [] then [x]
    else if Leq(x, s[0]) then
      LeqTransitive();
      assert multiset([x] + s) == multiset(s) + multiset{x};
      [x] + s
    else
      var t := Insert(x, s[1..]);
      InsertedBelow(x, s, t);
      assert s == [s[0]] + s[1..];
      [s[0]] + t
  }

  lemma {:induction false} LeqTransitive()
    ensures forall a, b, c {:trigger Leq(a, b), Leq(b, c)} :: Leq(a, b) && Leq(b, c) ==> Leq(a, c)
  {
    forall a, b, c | Leq(a, b) && Leq(b, c)
      ensures Leq(a, c)
    {
      if Less(a, b) && Less(b, c) { Transitive(a, b, c); }
    }
  }

  lemma {:induction false} InsertedBelow(x: string, s: seq<string>, t: seq<string>)
    requires s != [] && Sorted(s) && !Leq(x, s[0])
    requires multiset(t) == multiset(s[1..]) + multiset{x}
    ensures forall k :: 0 <= k < |t| ==> Leq(s[0], t[k])
  {
    Total(x, s[0]);
    forall k | 0 <= k < |t|
      ensures Leq(s[0], t[k])
    {
      assert t[k] in multiset(t);
      if t[k] != x {
        assert t[k] in s[1..];
      }
    }
  }

  /** `sort.Strings`: the sorted permutation. */
  function Sort(s: seq<string>): (r: seq<string>)
    ensures Sorted(r) && multiset(r) == multiset(s)
  {
    if s == [] then []
    else
      assert s == [s[0]] + s[1..];
      Insert(s[0], Sort(s[1..]))
  }

  lemma {:induction false} SameElements(s: seq<string>, r: seq<string>)
    requires multiset(s) == multiset(r)
    ensures |s| == |r| && forall x :: x in s <==> x in r
  {
    assert |multiset(s)| == |multiset(r)|;
    forall x ensures x in s <==> x in r { assert x in s <==> x in multiset(s); }
  }

  /** The keys of a store in ascending order, as a Pebble iterator visits them. */
  ghost function Ascending(S: set<string>): (r: seq<string>)
    ensures StrictlySorted(r) && (forall x :: x in r <==> x in S) && |r| == |S|
  {
    if S == {} then []
    else
      var x := Least(S);
      var rest := Ascending(S - {x});
      assert forall k :: 0 <= k < |rest| ==> rest[k] in S - {x};
      [x] + rest
  }

  ghost predicate IsLeast(x: string, S: set<string>) {
    x in S && forall y :: y in S && y != x ==> Less(x, y)
  }

  ghost function Least(S: set<string>): (x: string)
    requires S != {}
    ensures IsLeast(x, S)
  {
    LeastExists(S);
    var x :| IsLeast(x, S);
    x
  }

  lemma {:induction false} LeastExists(S: set<string>)
    requires S != {}
    ensures exists x :: IsLeast(x, S)
  {
    var z :| z in S;
    if S == {z} {
      assert IsLeast(z, S);
    } else {
      LeastExists(S - {z});
      var x :| IsLeast(x, S - {z});
      Total(x, z);
      if Less(x, z) {
        assert IsLeast(x, S);
      } else {
        forall y | y in S && y != z ensures Less(z, y) { if y != x { Transitive(z, x, y); } }
        assert IsLeast(z, S);
      }
    }
  }

  /** A set has only one ascending listing. */
  lemma {:induction false} AscendingUnique(s: seq<string>, S: set<string>)
    requires StrictlySorted(s) && forall x :: x in s <==> x in S
    ensures s == Ascending(S)
    decreases |s|
  {
    if s == [] {
      assert S == {};
    } else {
      var x := s[0];
      assert x in S;
      assert Least(S) == x by {
        if Least(S) != x {
          var m := Least(S);
          assert m in s;
          Asymmetric(m, x);
        }
      }
      forall y ensures y in s[1..] <==> y in S - {x} {
        Irreflexive(x);
        if y in S && y != x { assert y in s; }
      }
      AscendingUnique(s[1..], S - {x});
    }
  }

  /** Reading a key set in ascending order. */
  method Scan(S: set<string>) returns (r: seq<string>)
    ensures r == Ascending(S)
  {
    r := [];
    var rest := S;
    while rest != {}
      invariant rest <= S && StrictlySorted(r) && forall x :: x in r <==> x in S - rest
      decreases rest
    {
      var x :| x in rest;
      r := InsertNew(x, r);
      rest := rest - {x};
    }
    AscendingUnique(r, S);
  }

  method InsertNew(x: string, s: seq<string>) returns (r: seq<string>)
    requires StrictlySorted(s) && x !in s
    ensures StrictlySorted(r) && forall y :: y in r <==> y in s || y == x
  {
    var i := 0;
    while i < |s| && Less(s[i], x)
      invariant 0 <= i <= |s| && forall m :: 0 <= m < i ==> Less(s[m], x)
    {
      i := i + 1;
    }
    forall m | i <= m < |s| ensures Less(x, s[m]) {
      Total(s[i], x);
      if m > i { Transitive(x, s[i], s[m]); }
    }
    r := s[..i] + [x] + s[i..];
  }

  /** The keys from q + c up to, not including, q + (c + 1) are those with the prefix q + c. */
  lemma {:induction false} PrefixRange(q: string, c: char, d: char, k: string)
    requires d as int == c as int + 1
    ensures Leq(q + [c], k) && Less(k, q + [d]) <==> q + [c] <= k
    decreases |q|
  {
    var lo, hi := q + [c], q + [d];
    if k == "" {
    } else if q == "" {
      assert lo == [c] && hi == [d] && lo[1..] == "" == hi[1..];
      assert k == [k[0]] + k[1..];
      assert Less(k, hi) <==> k[0] < d;
      assert Less(lo, k) <==> c < k[0] || (c == k[0] && k[1..] != "");
    } else {
      PrefixRange(q[1..], c, d, k[1..]);
      assert lo[1..] == q[1..] + [c] && hi[1..] == q[1..] + [d] && lo[0] == hi[0] == q[0];
      assert lo == [q[0]] + lo[1..] && k == [k[0]] + k[1..];
    }
  }
}
