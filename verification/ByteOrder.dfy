/** The order etcd keeps its keys in: byte by byte, a prefix before its extensions. */
module ByteOrder {
  import opened EtcdStore

  /** `a` comes before `b`, given that they agree below `i`. */
  predicate LessFrom(a: Bytes, b: Bytes, i: nat)
    requires i <= |a| && i <= |b|
    decreases |a| - i
  {
    i < |b| && (i == |a| || a[i] < b[i] || (a[i] == b[i] && LessFrom(a, b, i + 1)))
  }

  predicate Less(a: Bytes, b: Bytes) {
    LessFrom(a, b, 0)
  }

  predicate Leq(a: Bytes, b: Bytes) {
    a == b || Less(a, b)
  }

  lemma {:induction false} LessFromIrreflexive(a: Bytes, i: nat)
    requires i <= |a|
    ensures !LessFrom(a, a, i)
    decreases |a| - i
  {
    if i < |a| { LessFromIrreflexive(a, i + 1); }
  }

  lemma LessIrreflexive(a: Bytes)
    ensures !Less(a, a)
  {
    LessFromIrreflexive(a, 0);
  }

  lemma {:induction false} LessFromTransitive(a: Bytes, b: Bytes, c: Bytes, i: nat)
    requires i <= |a| && i <= |b| && i <= |c| && LessFrom(a, b, i) && LessFrom(b, c, i)
    ensures LessFrom(a, c, i)
    decreases |a| - i
  {
    if i < |a| && a[i] == b[i] == c[i] { LessFromTransitive(a, b, c, i + 1); }
  }

  lemma LessTransitive(a: Bytes, b: Bytes, c: Bytes)
    requires Less(a, b) && Less(b, c)
    ensures Less(a, c)
  {
    LessFromTransitive(a, b, c, 0);
  }

  lemma {:induction false} LessFromTotal(a: Bytes, b: Bytes, i: nat)
    requires i <= |a| && i <= |b| && forall j | 0 <= j < i :: a[j] == b[j]
    ensures a == b || LessFrom(a, b, i) || LessFrom(b, a, i)
    decreases |a| - i
  {
    if i < |a| && i < |b| && a[i] == b[i] { LessFromTotal(a, b, i + 1); }
  }

  lemma LessTotal(a: Bytes, b: Bytes)
    ensures a == b || Less(a, b) || Less(b, a)
  {
    LessFromTotal(a, b, 0);
  }

  lemma LeqAntisymmetric(a: Bytes, b: Bytes)
    requires Leq(a, b) && Leq(b, a)
    ensures a == b
  {
    if Less(a, b) && Less(b, a) {
      LessTransitive(a, b, a);
      LessIrreflexive(a);
    }
  }

  predicate Ascending(s: seq<Bytes>) {
    forall i, j | 0 <= i < j < |s| :: Less(s[i], s[j])
  }

  predicate IsLeast(m: Bytes, ks: set<Bytes>) {
    m in ks && forall k | k in ks :: Leq(m, k)
  }

  lemma {:induction false} LeastExists(ks: set<Bytes>)
    requires ks != {}
    ensures exists m :: m in ks && IsLeast(m, ks)
    ensures forall m, n | IsLeast(m, ks) && IsLeast(n, ks) :: m == n
  {
    forall m, n | IsLeast(m, ks) && IsLeast(n, ks) ensures m == n {
      LeqAntisymmetric(m, n);
    }
    var k :| k in ks;
    var rest := ks - {k};
    if rest == {} {
      assert ks == {k};
      assert IsLeast(k, ks);
    } else {
      LeastExists(rest);
      var n :| n in rest && IsLeast(n, rest);
      LessTotal(k, n);
      var m := if Less(k, n) then k else n;
      forall j | j in ks ensures Leq(m, j) {
        if j != k && j != n && Less(k, n) {
          assert j in rest;
          LessTransitive(k, n, j);
        }
      }
      assert IsLeast(m, ks);
    }
  }

  /** The keys of a set in etcd's order. */
  function Sorted(ks: set<Bytes>): (s: seq<Bytes>)
    ensures Ascending(s)
    ensures forall k :: k in s <==> k in ks
  {
    if ks == {} then []
    else
      LeastExists(ks);
      var m :| m in ks && IsLeast(m, ks);
      var rest := Sorted(ks - {m});
      assert forall j | 0 <= j < |rest| :: rest[j] in rest && Leq(m, rest[j]);
      [m] + rest
  }

  /** An ascending list is determined by its elements. */
  lemma {:induction false} AscendingUnique(a: seq<Bytes>, b: seq<Bytes>)
    requires Ascending(a) && Ascending(b) && forall k :: k in a <==> k in b
    ensures a == b
  {
    assert (a != [] ==> a[0] in b) && (b != [] ==> b[0] in a);
    if a != [] && b != [] {
      HeadIsLeast(a);
      HeadIsLeast(b);
      LeqAntisymmetric(a[0], b[0]);
      TailLacksHead(a);
      TailLacksHead(b);
      AscendingUnique(a[1..], b[1..]);
      assert a == [a[0]] + a[1..] && b == [b[0]] + b[1..];
    }
  }

  lemma HeadIsLeast(a: seq<Bytes>)
    requires Ascending(a) && a != []
    ensures forall k | k in a :: Leq(a[0], k)
  {
  }

  lemma TailLacksHead(a: seq<Bytes>)
    requires Ascending(a) && a != []
    ensures forall k :: k in a[1..] <==> k in a && k != a[0]
  {
    LessIrreflexive(a[0]);
    forall k | k in a && k != a[0] ensures k in a[1..] {
      var i :| 0 <= i < |a| && a[i] == k;
      assert a[1..][i - 1] == k;
    }
  }
}
