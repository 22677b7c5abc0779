/**
 The paged read over a store that changes between pages: what it still
 guarantees, and exactly what it can lose.
 */
module PagedChanges {
  import opened Wrappers
  import opened EtcdStore
  import opened ByteOrder
  import opened PagedScan

  /** A read under way: the store at each request, the page etcd answered with, and the scan before and after. */
  datatype Reading = Reading(
    prefix: Bytes,
    end: Bytes,
    limit: nat,
    kvs: seq<Values>,
    pages: seq<seq<Pair>>,
    scans: seq<Scan>)

  /** The range end is exact, as `RangeIsPrefix` shows it is for every text. */
  ghost predicate IsReading(r: Reading) {
    && ExactEnd(r.prefix, r.end) && r.limit >= 3
    && |r.scans| == |r.kvs| + 1 && |r.pages| == |r.kvs|
    && r.scans[0] == Begin(r.prefix)
    && forall i: nat | i < |r.pages| :: PageAt(r, i)
  }

  ghost predicate PageAt(r: Reading, i: nat)
    requires i < |r.pages| == |r.kvs| < |r.scans|
  {
    && r.scans[i].last.Some?
    && IsPage(r.pages[i], r.kvs[i], r.scans[i].last.value, r.end, r.limit)
    && r.scans[i + 1] == Take(r.scans[i], r.pages[i])
  }

  /** `k` is there at every page. */
  ghost predicate InAll(r: Reading, k: Bytes) {
    forall i: nat | i < |r.kvs| :: k in r.kvs[i]
  }

  /** Every entry any of the stores ever had. */
  ghost function Items(kvs: seq<Values>): set<Pair> {
    set i: nat, x | i < |kvs| && x in kvs[i].Items :: x
  }

  lemma ItemsOf(kvs: seq<Values>, i: nat)
    requires i < |kvs|
    ensures kvs[i].Items <= Items(kvs)
  {
  }

  // ---- Order

  lemma OrderStep(sc: Scan, page: seq<Pair>, kv: Values, prefix: Bytes, end: Bytes, limit: nat, items: set<Pair>)
    requires ScanOk(sc, prefix, {}, items) && kv.Items <= items && sc.last.Some?
    requires ExactEnd(prefix, end) && limit >= 3 && IsPage(page, kv, sc.last.value, end, limit)
    ensures Answers(page, sc, kv, prefix, end, limit) && ScanOk(Take(sc, page), prefix, {}, items)
  {
    CursorUnderPrefix(sc, prefix, {}, items);
    TakeAdds(sc, page, kv, prefix, end, limit, {}, items);
    TakeMovesOn(sc, page);
  }

  /** Whatever happens between pages, deletes included, the output is ascending and under the prefix. */
  lemma {:induction false} ScanInOrder(r: Reading, n: nat)
    requires IsReading(r) && n < |r.scans|
    ensures ScanOk(r.scans[n], r.prefix, {}, Items(r.kvs))
    ensures n < |r.pages| ==> Answers(r.pages[n], r.scans[n], r.kvs[n], r.prefix, r.end, r.limit)
  {
    if n > 0 {
      ScanInOrder(r, n - 1);
      assert PageAt(r, n - 1);
      ItemsOf(r.kvs, n - 1);
      OrderStep(r.scans[n - 1], r.pages[n - 1], r.kvs[n - 1], r.prefix, r.end, r.limit, Items(r.kvs));
    }
    if n < |r.pages| {
      assert PageAt(r, n);
      ItemsOf(r.kvs, n);
      OrderStep(r.scans[n], r.pages[n], r.kvs[n], r.prefix, r.end, r.limit, Items(r.kvs));
    }
  }

  // ---- What is dropped

  /** The loop drops the first entry of a page, whose key `k` is not the cursor the page was asked to start at. */
  predicate DropsFrom(sc: Scan, page: seq<Pair>, k: Bytes)
    requires sc.last.Some?
  {
    !sc.first && page != [] && page[0].0 == k && k != sc.last.value
  }

  ghost predicate DropsAt(r: Reading, i: nat, k: Bytes)
    requires IsReading(r) && i < |r.pages|
  {
    PageAt(r, i) && DropsFrom(r.scans[i], r.pages[i], k)
  }

  /** The cursor was deleted while a later key of the prefix remains. */
  ghost predicate CursorLost(sc: Scan, kv: Values, prefix: Bytes)
    requires sc.last.Some?
  {
    !HasCursor(sc, kv) && exists k :: k in kv && prefix <= k && Less(sc.last.value, k)
  }

  /** A page drops an entry that is not its cursor's exactly when the cursor was lost. */
  lemma DropsIffCursorLost(sc: Scan, page: seq<Pair>, kv: Values, prefix: Bytes, end: Bytes, limit: nat)
    requires Answers(page, sc, kv, prefix, end, limit)
    ensures (exists k :: DropsFrom(sc, page, k)) <==> CursorLost(sc, kv, prefix)
    ensures forall k | DropsFrom(sc, page, k) :: k in kv && prefix <= k && Less(sc.last.value, k)
  {
    var from := sc.last.value;
    InRangeFromCursor(prefix, from, end, from);
    forall k | DropsFrom(sc, page, k) ensures k in kv && prefix <= k && Less(from, k) && from !in kv {
      assert page[0] in page;
      InRangeFromCursor(prefix, from, end, k);
      if from in kv {
        PageStartsAtCursor(page, kv, from, end, limit);
      }
    }
    if CursorLost(sc, kv, prefix) {
      var k :| k in kv && prefix <= k && Less(from, k);
      InRangeFromCursor(prefix, from, end, k);
      assert page != [] by {
        if page == [] { assert WithinPage(page, limit, k); }
      }
      assert page[0] in page;
      assert DropsFrom(sc, page, page[0].0);
    }
  }

  /** The output from entry `m` on, and the cursor, come after `k`. */
  ghost predicate After(sc: Scan, m: nat, k: Bytes) {
    && m <= |sc.all|
    && (forall j | m <= j < |sc.all| :: Less(k, sc.all[j].0))
    && (sc.last.Some? ==> Less(k, sc.last.value))
  }

  lemma AfterDrop(sc: Scan, page: seq<Pair>, k: Bytes)
    requires sc.last.Some? && DropsFrom(sc, page, k) && Ascending(Keys(page))
    ensures After(Take(sc, page), |sc.all|, k)
  {
    SuffixAscending(page);
    var all := Take(sc, page).all;
    forall j | |sc.all| <= j < |all| ensures Less(k, all[j].0) {
      assert all[j] == page[1..][j - |sc.all|];
    }
    TakeMovesOn(sc, page);
  }

  lemma AfterStep(sc: Scan, page: seq<Pair>, m: nat, k: Bytes)
    requires sc.last.Some? && After(sc, m, k) && forall x | x in Fresh(sc, page) :: Less(sc.last.value, x.0)
    ensures After(Take(sc, page), m, k)
  {
    var all, added := Take(sc, page).all, Fresh(sc, page);
    forall j | m <= j < |all| ensures Less(k, all[j].0) {
      if j >= |sc.all| {
        assert all[j] == added[j - |sc.all|] && added[j - |sc.all|] in added;
        LessTransitive(k, sc.last.value, all[j].0);
      }
    }
    TakeMovesOn(sc, page);
  }

  /** A page after the first adds only what comes after its cursor. */
  lemma AddsAfterCursor(r: Reading, i: nat)
    requires IsReading(r) && i < |r.pages| && !r.scans[i].first
    ensures r.scans[i].last.Some? && r.scans[i + 1] == Take(r.scans[i], r.pages[i]) && Ascending(Keys(r.pages[i]))
    ensures forall x | x in Fresh(r.scans[i], r.pages[i]) :: Less(r.scans[i].last.value, x.0)
  {
    assert PageAt(r, i);
    ScanInOrder(r, i);
    FreshFollowsCursor(r.scans[i], r.pages[i], r.kvs[i], r.prefix, r.end, r.limit);
  }

  /** Everything the scan adds after a drop comes after the key dropped. */
  lemma {:induction false} LaterFollows(r: Reading, i: nat, n: nat, k: Bytes)
    requires IsReading(r) && i < n < |r.scans| && DropsAt(r, i, k)
    ensures After(r.scans[n], |r.scans[i].all|, k) && !r.scans[n].first
    decreases n
  {
    if n == i + 1 {
      AddsAfterCursor(r, i);
      AfterDrop(r.scans[i], r.pages[i], k);
    } else {
      LaterFollows(r, i, n - 1, k);
      AddsAfterCursor(r, n - 1);
      AfterStep(r.scans[n - 1], r.pages[n - 1], |r.scans[i].all|, k);
    }
  }

  lemma {:induction false} OutputKept(r: Reading, m: nat, n: nat)
    requires IsReading(r) && m <= n < |r.scans|
    ensures |r.scans[m].all| <= |r.scans[n].all| && r.scans[n].all[..|r.scans[m].all|] == r.scans[m].all
    decreases n
  {
    if m < n {
      OutputKept(r, m, n - 1);
      assert PageAt(r, n - 1);
    }
  }

  lemma BeforeCursor(sc: Scan, prefix: Bytes, items: set<Pair>, j: nat, k: Bytes)
    requires ScanOk(sc, prefix, {}, items) && !sc.first && sc.last.Some? && j < |sc.all| && Less(sc.last.value, k)
    ensures Less(sc.all[j].0, k)
  {
    if j < |sc.all| - 1 {
      assert Less(Keys(sc.all)[j], Keys(sc.all)[|sc.all| - 1]);
      LessTransitive(sc.all[j].0, sc.last.value, k);
    }
  }

  /** A key dropped from a page is never returned, neither before that page nor after it. */
  lemma DroppedStaysOut(r: Reading, i: nat, n: nat, k: Bytes)
    requires IsReading(r) && i < n < |r.scans| && DropsAt(r, i, k)
    ensures k in r.kvs[i] && r.prefix <= k && k !in Keys(r.scans[n].all)
  {
    ScanInOrder(r, i);
    DropsIffCursorLost(r.scans[i], r.pages[i], r.kvs[i], r.prefix, r.end, r.limit);
    LaterFollows(r, i, n, k);
    OutputKept(r, i, n);
    LessIrreflexive(k);
    var sc, all := r.scans[i], r.scans[n].all;
    forall j | 0 <= j < |all| ensures Keys(all)[j] != k {
      if j < |sc.all| {
        BeforeCursor(sc, r.prefix, Items(r.kvs), j, k);
        assert all[..|sc.all|][j] == all[j];
      }
    }
  }

  // ---- What is returned

  ghost predicate Drops(r: Reading, n: nat, k: Bytes)
    requires IsReading(r) && n < |r.scans|
  {
    exists i: nat :: i < n && DropsAt(r, i, k)
  }

  /** A key present at every page, once passed, has been read or has been dropped. */
  lemma {:induction false} ReadOrDropped(r: Reading, n: nat, k: Bytes)
    requires IsReading(r) && n < |r.scans| && InAll(r, k) && r.prefix <= k && Passed(r.scans[n], k)
    ensures k in Keys(r.scans[n].all) || Drops(r, n, k)
  {
    assert n > 0;
    ScanInOrder(r, n - 1);
    assert PageAt(r, n - 1);
    var sc, page := r.scans[n - 1], r.pages[n - 1];
    KeysOfSum(sc.all, Fresh(sc, page), k);
    LessTotal(k, sc.last.value);
    if !sc.first && Leq(k, sc.last.value) {
      ReadOrDropped(r, n - 1, k);
    } else {
      FreshOrDropped(sc, page, r.kvs[n - 1], r.prefix, r.end, r.limit, k);
      LessIrreflexive(k);
      assert DropsFrom(sc, page, k) ==> DropsAt(r, n - 1, k);
    }
  }

  /** A finished scan misses a key that was there at every page exactly when one of its pages dropped that key. */
  lemma MissedIffDropped(r: Reading, n: nat, k: Bytes)
    requires IsReading(r) && 0 < n < |r.scans| && r.scans[n].last.None? && InAll(r, k) && r.prefix <= k
    ensures k !in Keys(r.scans[n].all) <==> Drops(r, n, k)
  {
    assert PageAt(r, n - 1);
    ReadOrDropped(r, n, k);
    if i: nat :| i < n && DropsAt(r, i, k) {
      DroppedStaysOut(r, i, n, k);
    }
  }

  /** Every key of every page is in the output. */
  ghost predicate AllReturned(r: Reading, n: nat)
    requires IsReading(r) && n < |r.scans|
  {
    forall i: nat, k | i < n && k in Keys(r.pages[i]) :: k in Keys(r.scans[n].all)
  }

  ghost predicate CursorLostAt(r: Reading, i: nat)
    requires IsReading(r) && i < |r.pages|
  {
    PageAt(r, i) && CursorLost(r.scans[i], r.kvs[i], r.prefix)
  }

  /** A scan returns every key etcd handed it exactly when no page had its cursor deleted with a later key left. */
  lemma AllReturnedIff(r: Reading, n: nat)
    requires IsReading(r) && n < |r.scans|
    ensures AllReturned(r, n) <==> forall i: nat | i < n :: !CursorLostAt(r, i)
  {
    if i: nat :| i < n && CursorLostAt(r, i) {
      LostKey(r, i, n);
    } else {
      forall i: nat, k | i < n && k in Keys(r.pages[i]) ensures k in Keys(r.scans[n].all) {
        assert !CursorLostAt(r, i);
        PageKeyReturned(r, i, k);
        OutputGrows(r, i + 1, n, k);
      }
    }
  }

  lemma LostKey(r: Reading, i: nat, n: nat)
    requires IsReading(r) && i < n < |r.scans| && CursorLostAt(r, i)
    ensures !AllReturned(r, n)
  {
    ScanInOrder(r, i);
    DropsIffCursorLost(r.scans[i], r.pages[i], r.kvs[i], r.prefix, r.end, r.limit);
    var k :| DropsFrom(r.scans[i], r.pages[i], k);
    DroppedStaysOut(r, i, n, k);
    assert Keys(r.pages[i])[0] == k;
  }

  lemma PageKeyReturned(r: Reading, i: nat, k: Bytes)
    requires IsReading(r) && i < |r.pages| && !CursorLostAt(r, i) && k in Keys(r.pages[i])
    ensures k in Keys(r.scans[i + 1].all)
  {
    assert PageAt(r, i);
    ScanInOrder(r, i);
    var sc, page := r.scans[i], r.pages[i];
    DropsIffCursorLost(sc, page, r.kvs[i], r.prefix, r.end, r.limit);
    KeysOfSum(sc.all, Fresh(sc, page), k);
    if !sc.first {
      assert !DropsFrom(sc, page, page[0].0);
      if k == page[0].0 {
        assert Keys(sc.all)[|sc.all| - 1] == k;
      } else {
        TailHas(page, k);
      }
    }
  }

  lemma OutputGrows(r: Reading, m: nat, n: nat, k: Bytes)
    requires IsReading(r) && m <= n < |r.scans| && k in Keys(r.scans[m].all)
    ensures k in Keys(r.scans[n].all)
  {
    OutputKept(r, m, n);
    var i :| 0 <= i < |r.scans[m].all| && Keys(r.scans[m].all)[i] == k;
    assert r.scans[n].all[..|r.scans[m].all|][i] == r.scans[n].all[i];
    assert Keys(r.scans[n].all)[i] == k;
  }

  // ---- Only puts between pages

  ghost predicate PutsOnly(kvs: seq<Values>) {
    forall i: nat | i + 1 < |kvs| :: kvs[i].Keys <= kvs[i + 1].Keys
  }

  lemma PutsKeepTheCursor(r: Reading, i: nat)
    requires IsReading(r) && PutsOnly(r.kvs) && i < |r.pages|
    ensures !CursorLostAt(r, i)
  {
    assert PageAt(r, i);
    if !r.scans[i].first {
      assert PageAt(r, i - 1);
      var added := Fresh(r.scans[i - 1], r.pages[i - 1]);
      assert added[|added| - 1] in r.pages[i - 1];
      assert r.kvs[i - 1].Keys <= r.kvs[i - 1 + 1].Keys;
    }
  }

  lemma PutsDropNothing(r: Reading, n: nat, k: Bytes)
    requires IsReading(r) && PutsOnly(r.kvs) && n < |r.scans|
    ensures !Drops(r, n, k)
  {
    if i: nat :| i < n && DropsAt(r, i, k) {
      PutsKeepTheCursor(r, i);
      ScanInOrder(r, i);
      DropsIffCursorLost(r.scans[i], r.pages[i], r.kvs[i], r.prefix, r.end, r.limit);
    }
  }

  lemma {:induction false} KeysStay(r: Reading, k: Bytes)
    requires r.kvs != [] && PutsOnly(r.kvs) && k in r.kvs[0]
    ensures InAll(r, k)
  {
    var i := 0;
    while i + 1 < |r.kvs|
      invariant i < |r.kvs| && forall j: nat | j <= i :: k in r.kvs[j]
    {
      assert r.kvs[i].Keys <= r.kvs[i + 1].Keys;
      i := i + 1;
    }
  }

  /** With nothing but puts between pages, a finished scan has every matching key there was at the start. */
  lemma ScanUnderPuts(r: Reading, n: nat)
    requires IsReading(r) && PutsOnly(r.kvs) && n < |r.scans|
    ensures Ascending(Keys(r.scans[n].all))
    ensures forall x | x in r.scans[n].all :: r.prefix <= x.0 && exists i: nat :: i < |r.kvs| && x in r.kvs[i].Items
    ensures n > 0 && r.scans[n].last.None? ==>
              forall k | k in r.kvs[0] && r.prefix <= k :: k in Keys(r.scans[n].all)
  {
    ScanInOrder(r, n);
    if n > 0 && r.scans[n].last.None? {
      forall k | k in r.kvs[0] && r.prefix <= k ensures k in Keys(r.scans[n].all) {
        KeysStay(r, k);
        MissedIffDropped(r, n, k);
        PutsDropNothing(r, n, k);
      }
    }
  }

  // ---- A key that is lost

  const A: Bytes := [97]
  const B: Bytes := [98]
  const C: Bytes := [99]
  const D: Bytes := [100]

  lemma Letters()
    ensures Less(A, B) && Less(A, C) && Less(B, C) && Less(C, D)
    ensures !Leq(C, A) && !Leq(C, B)
  {
    assert LessFrom(A, B, 0) && LessFrom(A, C, 0) && LessFrom(B, C, 0) && LessFrom(C, D, 0);
    assert !LessFrom(C, A, 0) && !LessFrom(C, B, 0);
  }

  const ABC: seq<Pair> := [(A, []), (B, []), (C, [])]
  const BEFORE: Values := map[A := [], B := [], C := [], D := []]
  const AFTER: Values := map[A := [], B := [], D := []]

  lemma FirstPage()
    ensures IsPage(ABC, BEFORE, [], [], 3) && Take(Begin([]), ABC) == Scan(false, Some(C), ABC)
  {
    Letters();
    assert Keys(ABC) == [A, B, C];
    assert !LessFrom(D, C, 0) && D != C;
    assert forall k: Bytes :: Leq([], k);
  }

  lemma SecondPage()
    ensures IsPage([(D, [])], AFTER, C, [], 3) && Take(Scan(false, Some(C), ABC), [(D, [])]) == Scan(false, None, ABC)
  {
    Letters();
    assert Keys([(D, [])]) == [D];
  }

  /** The keys a, b, c and d with limit 3, and c deleted between the first page and the second. */
  const LOSING := Reading(
    [], [], 3, [BEFORE, AFTER], [ABC, [(D, [])]],
    [Begin([]), Scan(false, Some(C), ABC), Scan(false, None, ABC)])

  lemma EverythingFollowsNothing()
    ensures ExactEnd([], [])
  {
    assert forall k: Bytes :: Leq([], k);
  }

  lemma LosingPages()
    ensures |LOSING.pages| == |LOSING.kvs| == 2 && |LOSING.scans| == 3
    ensures PageAt(LOSING, 0) && PageAt(LOSING, 1)
  {
    FirstPage();
    SecondPage();
  }

  /** The read is over with d missing, although d was never deleted: the second page began with it. */
  lemma ScanLosesKey()
    ensures IsReading(LOSING) && LOSING.scans[2].last.None?
    ensures InAll(LOSING, D) && D !in Keys(LOSING.scans[2].all)
  {
    LosingPages();
    EverythingFollowsNothing();
    assert IsReading(LOSING);
    assert LOSING.scans[2].all == ABC && Keys(ABC) == [A, B, C];
    assert D in LOSING.kvs[0] && D in LOSING.kvs[1];
  }
}
