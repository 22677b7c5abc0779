/**
 Reading every value under a prefix page by page, against a plain prefix read.
 Stores that change between pages are the subject of `PagedChanges`.
 */
module PagedScan {
  import opened Wrappers
  import opened EtcdStore
  import opened ByteOrder
  import Utf8

  type Values = map<Bytes, Bytes>
  type Pair = (Bytes, Bytes)

  datatype ScanError = PagedMinimum | RangeEnd(startKey: Bytes)

  // ---- The end of a prefix range

  /** Looking back from `i`, the first byte below FF is raised by one; all others stay. */
  function RaisedFrom(s: Bytes, i: nat): (r: Bytes)
    requires i <= |s|
    ensures |r| == |s|
  {
    if i == 0 then s
    else if s[i - 1] < 0xFF then s[i - 1 := s[i - 1] + 1]
    else RaisedFrom(s, i - 1)
  }

  function RaisedEnd(s: Bytes): (r: Bytes)
    ensures |r| == |s|
  {
    RaisedFrom(s, |s|)
  }

  method GetPrefixRangeEnd(prefix: Bytes) returns (r: Result<Bytes, ScanError>)
    requires Utf8.Valid(prefix)
    ensures r == if Utf8.Valid(RaisedEnd(prefix)) then Ok(RaisedEnd(prefix)) else Err(RangeEnd(prefix))
  {
    var end := new Byte[|prefix|](i requires 0 <= i < |prefix| => prefix[i]);
    var i := |prefix|;
    while i > 0
      invariant 0 <= i <= |prefix| && end[..] == prefix
      invariant RaisedEnd(prefix) == RaisedFrom(prefix, i)
    {
      i := i - 1;
      if end[i] < 0xFF {
        end[i] := end[i] + 1;
        assert end[..] == prefix[i := prefix[i] + 1];
        break;
      }
    }
    assert end[..] == RaisedEnd(prefix);
    r := if Utf8.Valid(end[..]) then Ok(end[..]) else Err(RangeEnd(prefix));
  }

  /** The range end of a text is accepted exactly when the text does not end in 7F or BF. */
  lemma RangeEndAccepted(prefix: Bytes)
    requires Utf8.Valid(prefix)
    ensures Utf8.Valid(RaisedEnd(prefix)) <==>
            prefix == [] || (prefix[|prefix| - 1] != 0x7F && prefix[|prefix| - 1] != 0xBF)
  {
    if prefix != [] {
      Utf8.NoHighBytes(prefix);
      Utf8.RaiseLast(prefix, RaisedEnd(prefix));
    }
  }

  /** What a range request from `from` selects; an empty end means "no end". */
  predicate InRange(from: Bytes, end: Bytes, k: Bytes) {
    Leq(from, k) && (end == [] || Less(k, end))
  }

  /** The range from `prefix` to `end` holds exactly the keys that start with the prefix. */
  ghost predicate ExactEnd(prefix: Bytes, end: Bytes) {
    forall k :: InRange(prefix, end, k) <==> prefix <= k
  }

  /** This is so for every text, because no byte of a text is FF. */
  lemma RangeIsPrefix(prefix: Bytes)
    requires Utf8.Valid(prefix)
    ensures ExactEnd(prefix, RaisedEnd(prefix))
  {
    if prefix != [] {
      Utf8.NoHighBytes(prefix);
      forall k ensures InRange(prefix, RaisedEnd(prefix), k) <==> prefix <= k {
        RangeIsPrefixFrom(prefix, k, 0);
      }
    }
  }

  lemma {:induction false} RangeIsPrefixFrom(p: Bytes, k: Bytes, i: nat)
    requires i < |p| && p[|p| - 1] < 0xFF && i <= |k| && forall j | 0 <= j < i :: p[j] == k[j]
    ensures (p == k || LessFrom(p, k, i)) && LessFrom(k, RaisedEnd(p), i) <==> p <= k
    decreases |p| - i
  {
    var end := RaisedEnd(p);
    assert end == p[|p| - 1 := p[|p| - 1] + 1];
    if i == |k| || k[i] != p[i] {
      assert !(p <= k);
      assert i + 1 == |p| && i < |k| && k[i] == end[i] ==> !LessFrom(k, end, i + 1);
    } else if i + 1 < |p| {
      RangeIsPrefixFrom(p, k, i + 1);
    } else {
      assert p <= k && (|k| == |p| ==> k == p) && (|k| > |p| ==> LessFrom(p, k, i + 1));
    }
  }

  /** From any cursor under the prefix, the range still holds only keys under the prefix. */
  lemma InRangeFromCursor(prefix: Bytes, from: Bytes, end: Bytes, k: Bytes)
    requires ExactEnd(prefix, end) && prefix <= from
    ensures InRange(from, end, k) <==> prefix <= k && Leq(from, k)
  {
    assert InRange(prefix, end, from) && (InRange(prefix, end, k) <==> prefix <= k);
    if Less(prefix, from) && Less(from, k) {
      LessTransitive(prefix, from, k);
    }
  }

  // ---- One page

  function Keys(ps: seq<Pair>): (ks: seq<Bytes>)
    ensures |ks| == |ps| && forall i | 0 <= i < |ps| :: ks[i] == ps[i].0
  {
    seq(|ps|, i requires 0 <= i < |ps| => ps[i].0)
  }

  function Pairs(kv: Values, ks: seq<Bytes>): (ps: seq<Pair>)
    requires forall k | k in ks :: k in kv
    ensures |ps| == |ks| && forall i | 0 <= i < |ks| :: ps[i] == (ks[i], kv[ks[i]])
  {
    seq(|ks|, i requires 0 <= i < |ks| => assert ks[i] in ks; (ks[i], kv[ks[i]]))
  }

  lemma PairsContain(kv: Values, ks: seq<Bytes>)
    requires forall k | k in ks :: k in kv
    ensures forall x :: x in Pairs(kv, ks) <==> x.0 in ks && kv[x.0] == x.1
  {
    forall x: Pair | x.0 in ks && kv[x.0] == x.1 ensures x in Pairs(kv, ks) {
      var i :| 0 <= i < |ks| && ks[i] == x.0;
      assert Pairs(kv, ks)[i] == x;
    }
  }

  function Cut(ks: seq<Bytes>, limit: nat): seq<Bytes> {
    if |ks| <= limit then ks else ks[..limit]
  }

  /** At most `limit` entries of the range, in key order. */
  function Page(kv: Values, from: Bytes, end: Bytes, limit: nat): seq<Pair> {
    var ks := Sorted(set k | k in kv && InRange(from, end, k));
    assert forall i | 0 <= i < |Cut(ks, limit)| :: Cut(ks, limit)[i] in ks;
    Pairs(kv, Cut(ks, limit))
  }

  /**
   What a page is: entries of the range in order, leaving nothing out up to its
   last key, or up to the end of the range when it is not full.
   */
  ghost predicate IsPage(page: seq<Pair>, kv: Values, from: Bytes, end: Bytes, limit: nat) {
    && |page| <= limit
    && Ascending(Keys(page))
    && (forall x | x in page :: x.0 in kv && kv[x.0] == x.1 && InRange(from, end, x.0))
    && (forall k | k in kv && InRange(from, end, k) && WithinPage(page, limit, k) :: k in Keys(page))
  }

  predicate WithinPage(page: seq<Pair>, limit: nat, k: Bytes) {
    |page| < limit || (page != [] && Leq(k, page[|page| - 1].0))
  }

  lemma PageIsPage(kv: Values, from: Bytes, end: Bytes, limit: nat)
    ensures IsPage(Page(kv, from, end, limit), kv, from, end, limit)
  {
    CutIsPage(kv, from, end, limit, Sorted(set k | k in kv && InRange(from, end, k)));
  }

  lemma CutIsPage(kv: Values, from: Bytes, end: Bytes, limit: nat, ks: seq<Bytes>)
    requires Ascending(ks) && forall k :: k in ks <==> k in kv && InRange(from, end, k)
    ensures forall k | k in Cut(ks, limit) :: k in kv
    ensures IsPage(Pairs(kv, Cut(ks, limit)), kv, from, end, limit)
  {
    var cut := Cut(ks, limit);
    assert forall i | 0 <= i < |cut| :: cut[i] == ks[i] && ks[i] in ks;
    var page := Pairs(kv, cut);
    assert Keys(page) == cut;
    forall k | k in kv && InRange(from, end, k) && WithinPage(page, limit, k) ensures k in Keys(page) {
      CutHas(ks, |cut|, k);
    }
  }

  lemma CutHas(ks: seq<Bytes>, n: nat, k: Bytes)
    requires Ascending(ks) && k in ks && n <= |ks|
    requires n == |ks| || (n > 0 && Leq(k, ks[n - 1]))
    ensures k in ks[..n]
  {
    var i :| 0 <= i < |ks| && ks[i] == k;
    if i >= n {
      assert Less(ks[n - 1], k);
      LeqAntisymmetric(k, ks[n - 1]);
      LessIrreflexive(k);
    }
    assert ks[..n][i] == k;
  }

  /** A page that starts at a key still present has that key first. */
  lemma PageStartsAtCursor(page: seq<Pair>, kv: Values, from: Bytes, end: Bytes, limit: nat)
    requires IsPage(page, kv, from, end, limit) && from in kv && InRange(from, end, from) && limit > 0
    ensures page != [] && page[0].0 == from
  {
    assert page != [] by {
      if page == [] { assert WithinPage(page, limit, from); }
    }
    var ks := Keys(page);
    assert page[0] in page && page[|page| - 1] in page;
    assert WithinPage(page, limit, from);
    var i :| 0 <= i < |ks| && ks[i] == from;
    if i > 0 {
      assert Less(ks[0], ks[i]);
      LeqAntisymmetric(from, ks[0]);
      LessIrreflexive(from);
    }
  }

  method GetValuesPaged(kv: Values, from: Bytes, limit: int, rangeEnd: Bytes) returns (r: Result<seq<Pair>, ScanError>)
    ensures limit <= 2 ==> r == Err(PagedMinimum)
    ensures limit > 2 ==> r.Ok? && IsPage(r.value, kv, from, rangeEnd, limit)
  {
    if limit <= 2 {
      return Err(PagedMinimum);
    }
    PageIsPage(kv, from, rangeEnd, limit);
    r := Ok(Page(kv, from, rangeEnd, limit));
  }

  /** The plain read of a prefix, all at once. */
  function GetValuesPrefix(kv: Values, prefix: Bytes): (ps: seq<Pair>)
    ensures Ascending(Keys(ps))
    ensures forall x :: x in ps <==> x.0 in kv && kv[x.0] == x.1 && prefix <= x.0
  {
    var ks := Sorted(set k | k in kv && prefix <= k);
    PairsContain(kv, ks);
    assert Keys(Pairs(kv, ks)) == ks;
    Pairs(kv, ks)
  }

  // ---- The scan

  datatype Scan = Scan(first: bool, last: Option<Bytes>, all: seq<Pair>)

  function Begin(prefix: Bytes): Scan {
    Scan(true, Some(prefix), [])
  }

  /** The entries a page adds: after the first page, its first entry is dropped. */
  function Fresh(sc: Scan, page: seq<Pair>): seq<Pair> {
    if !sc.first && page != [] then page[1..] else page
  }

  function Take(sc: Scan, page: seq<Pair>): Scan {
    var values := Fresh(sc, page);
    Scan(false, if values == [] then None else Some(values[|values| - 1].0), sc.all + values)
  }

  predicate Passed(sc: Scan, k: Bytes) {
    !sc.first && (sc.last.None? || Leq(k, sc.last.value))
  }

  /**
   Where a scan stands: everything read is in order and under the prefix, and
   every key of `lasting` up to the cursor has been read; all of them once the
   scan is over.  `items` is where the values may come from.
   */
  ghost predicate ScanOk(sc: Scan, prefix: Bytes, lasting: set<Bytes>, items: set<Pair>) {
    && Ascending(Keys(sc.all))
    && (forall x | x in sc.all :: x in items && prefix <= x.0)
    && (sc.first ==> sc == Begin(prefix))
    && (!sc.first && sc.last.Some? ==> sc.all != [] && sc.last.value == sc.all[|sc.all| - 1].0)
    && (forall k | k in lasting && prefix <= k && Passed(sc, k) :: k in Keys(sc.all))
  }

  /** The page answers the request of a scan under way. */
  ghost predicate Answers(page: seq<Pair>, sc: Scan, kv: Values, prefix: Bytes, end: Bytes, limit: nat) {
    && limit >= 3 && ExactEnd(prefix, end) && sc.last.Some? && prefix <= sc.last.value
    && IsPage(page, kv, sc.last.value, end, limit)
    && (sc.first ==> sc.last.value == prefix)
  }

  /** The key the next page starts after is still in the store. */
  predicate HasCursor(sc: Scan, kv: Values)
    requires sc.last.Some?
  {
    sc.first || sc.last.value in kv
  }

  lemma CursorUnderPrefix(sc: Scan, prefix: Bytes, lasting: set<Bytes>, items: set<Pair>)
    requires sc.last.Some? && ScanOk(sc, prefix, lasting, items)
    ensures prefix <= sc.last.value
  {
    if !sc.first {
      assert sc.all[|sc.all| - 1] in sc.all;
    }
  }

  lemma SuffixAscending(page: seq<Pair>)
    requires page != [] && Ascending(Keys(page))
    ensures Ascending(Keys(page[1..]))
    ensures forall x | x in page[1..] :: Less(page[0].0, x.0)
  {
    var ks := Keys(page);
    forall i, j | 0 <= i < j < |page[1..]| ensures Less(Keys(page[1..])[i], Keys(page[1..])[j]) {
      assert Less(ks[i + 1], ks[j + 1]);
    }
    forall i | 0 <= i < |page[1..]| ensures Less(page[0].0, page[1..][i].0) {
      assert Less(ks[0], ks[i + 1]);
    }
  }

  lemma AppendAscending(a: seq<Pair>, b: seq<Pair>)
    requires Ascending(Keys(a)) && Ascending(Keys(b))
    requires a != [] ==> forall x | x in b :: Less(a[|a| - 1].0, x.0)
    ensures Ascending(Keys(a + b))
  {
    forall i, j | 0 <= i < j < |a + b| ensures Less(Keys(a + b)[i], Keys(a + b)[j]) {
      if j < |a| {
        assert Less(Keys(a)[i], Keys(a)[j]);
      } else if i >= |a| {
        assert Less(Keys(b)[i - |a|], Keys(b)[j - |a|]);
      } else {
        assert b[j - |a|] in b;
        if i < |a| - 1 {
          assert Less(Keys(a)[i], Keys(a)[|a| - 1]);
          LessTransitive(a[i].0, a[|a| - 1].0, b[j - |a|].0);
        }
      }
    }
  }

  lemma KeysOfSum(a: seq<Pair>, b: seq<Pair>, k: Bytes)
    ensures k in Keys(a + b) <==> k in Keys(a) || k in Keys(b)
  {
    assert Keys(a + b) == Keys(a) + Keys(b);
  }

  lemma TailHas(page: seq<Pair>, k: Bytes)
    requires page != [] && page[0].0 != k && k in Keys(page)
    ensures k in Keys(page[1..])
  {
    var i :| 0 <= i < |page| && Keys(page)[i] == k;
    assert Keys(page[1..])[i - 1] == k;
  }

  /** What a page adds lies under the prefix and after the cursor, whether or not the cursor is still there. */
  lemma FreshFollowsCursor(sc: Scan, page: seq<Pair>, kv: Values, prefix: Bytes, end: Bytes, limit: nat)
    requires Answers(page, sc, kv, prefix, end, limit)
    ensures Ascending(Keys(Fresh(sc, page)))
    ensures forall x | x in Fresh(sc, page) :: x in kv.Items && prefix <= x.0
    ensures !sc.first ==> forall x | x in Fresh(sc, page) :: Less(sc.last.value, x.0)
  {
    var from := sc.last.value;
    if !sc.first && page != [] {
      SuffixAscending(page);
      assert page[0] in page && Leq(from, page[0].0);
      forall x | x in page[1..] ensures Less(from, x.0) {
        if from != page[0].0 {
          LessTransitive(from, page[0].0, x.0);
        }
      }
    }
    forall x | x in Fresh(sc, page) ensures x in kv.Items && prefix <= x.0 {
      assert x in page;
      InRangeFromCursor(prefix, from, end, x.0);
    }
  }

  /** A key after the cursor that the scan has passed is among what the page adds, or was dropped from its front. */
  lemma FreshOrDropped(sc: Scan, page: seq<Pair>, kv: Values, prefix: Bytes, end: Bytes, limit: nat, k: Bytes)
    requires Answers(page, sc, kv, prefix, end, limit)
    requires k in kv && prefix <= k && (sc.first || Less(sc.last.value, k)) && Passed(Take(sc, page), k)
    ensures k in Keys(Fresh(sc, page)) || (!sc.first && page != [] && page[0].0 == k)
  {
    assert InRange(prefix, end, k);
    InRangeFromCursor(prefix, sc.last.value, end, k);
    assert WithinPage(page, limit, k);
    if !sc.first && page[0].0 != k {
      TailHas(page, k);
    }
  }

  /** With the cursor still there, it is the cursor's own entry that is dropped. */
  lemma FreshCovers(sc: Scan, page: seq<Pair>, kv: Values, prefix: Bytes, end: Bytes, limit: nat, k: Bytes)
    requires Answers(page, sc, kv, prefix, end, limit) && HasCursor(sc, kv)
    requires k in kv && prefix <= k && (sc.first || Less(sc.last.value, k)) && Passed(Take(sc, page), k)
    ensures k in Keys(Fresh(sc, page))
  {
    FreshOrDropped(sc, page, kv, prefix, end, limit, k);
    if !sc.first {
      InRangeFromCursor(prefix, sc.last.value, end, sc.last.value);
      PageStartsAtCursor(page, kv, sc.last.value, end, limit);
      LessIrreflexive(k);
    }
  }

  lemma TakeAdds(
    sc: Scan, page: seq<Pair>, kv: Values, prefix: Bytes, end: Bytes, limit: nat, lasting: set<Bytes>, items: set<Pair>)
    requires ScanOk(sc, prefix, lasting, items) && Answers(page, sc, kv, prefix, end, limit) && kv.Items <= items
    ensures Ascending(Keys(Take(sc, page).all))
    ensures forall x | x in Take(sc, page).all :: x in items && prefix <= x.0
  {
    FreshFollowsCursor(sc, page, kv, prefix, end, limit);
    AppendAscending(sc.all, Fresh(sc, page));
  }

  /** A key the scan has passed was read now or before. */
  lemma TakeCovers(
    sc: Scan, page: seq<Pair>, kv: Values, prefix: Bytes, end: Bytes, limit: nat, lasting: set<Bytes>, items: set<Pair>,
    k: Bytes)
    requires ScanOk(sc, prefix, lasting, items) && Answers(page, sc, kv, prefix, end, limit) && HasCursor(sc, kv)
    requires k in lasting && k in kv && prefix <= k && Passed(Take(sc, page), k)
    ensures k in Keys(Take(sc, page).all)
  {
    KeysOfSum(sc.all, Fresh(sc, page), k);
    LessTotal(k, sc.last.value);
    if sc.first || !Leq(k, sc.last.value) {
      FreshCovers(sc, page, kv, prefix, end, limit, k);
    }
  }

  /** One page over a store that still has the cursor keeps the scan in order and complete, and moves it on. */
  lemma TakeStep(
    sc: Scan, page: seq<Pair>, kv: Values, prefix: Bytes, end: Bytes, limit: nat, lasting: set<Bytes>, items: set<Pair>)
    requires ScanOk(sc, prefix, lasting, items) && Answers(page, sc, kv, prefix, end, limit) && HasCursor(sc, kv)
    requires lasting <= kv.Keys && kv.Items <= items
    ensures ScanOk(Take(sc, page), prefix, lasting, items)
    ensures Take(sc, page).last.Some? ==> |Take(sc, page).all| > |sc.all|
  {
    TakeAdds(sc, page, kv, prefix, end, limit, lasting, items);
    TakeMovesOn(sc, page);
    forall k | k in lasting && prefix <= k && Passed(Take(sc, page), k) ensures k in Keys(Take(sc, page).all) {
      TakeCovers(sc, page, kv, prefix, end, limit, lasting, items, k);
    }
  }

  lemma TakeMovesOn(sc: Scan, page: seq<Pair>)
    ensures var next := Take(sc, page);
            && !next.first
            && (next.last.Some? ==>
                  && |next.all| > |sc.all|
                  && next.last.value == next.all[|next.all| - 1].0)
  {
  }

  // ---- An unchanging store: the paged read is the plain read

  lemma {:induction false} AscendingBound(a: seq<Bytes>, ks: set<Bytes>)
    requires Ascending(a) && forall k | k in a :: k in ks
    ensures |a| <= |ks|
  {
    if a != [] {
      TailLacksHead(a);
      assert a[0] in a;
      forall k | k in a[1..] ensures k in ks - {a[0]} {
        assert k in a;
      }
      AscendingBound(a[1..], ks - {a[0]});
    }
  }

  lemma ScanBound(sc: Scan, prefix: Bytes, kv: Values)
    requires ScanOk(sc, prefix, kv.Keys, kv.Items)
    ensures |sc.all| <= |kv|
  {
    forall k | k in Keys(sc.all) ensures k in kv.Keys {
      var i :| 0 <= i < |sc.all| && Keys(sc.all)[i] == k;
      assert sc.all[i] in kv.Items;
    }
    AscendingBound(Keys(sc.all), kv.Keys);
  }

  lemma StaticTake(sc: Scan, page: seq<Pair>, kv: Values, prefix: Bytes, end: Bytes, limit: nat)
    requires sc.last.Some? && ScanOk(sc, prefix, kv.Keys, kv.Items) && ExactEnd(prefix, end)
    requires limit >= 3 && IsPage(page, kv, sc.last.value, end, limit)
    ensures ScanOk(Take(sc, page), prefix, kv.Keys, kv.Items) && |Take(sc, page).all| <= |kv|
    ensures Take(sc, page).last.Some? ==> |Take(sc, page).all| > |sc.all|
  {
    CursorUnderPrefix(sc, prefix, kv.Keys, kv.Items);
    if !sc.first {
      assert sc.all[|sc.all| - 1] in kv.Items;
    }
    TakeStep(sc, page, kv, prefix, end, limit, kv.Keys, kv.Items);
    ScanBound(Take(sc, page), prefix, kv);
  }

  /** A finished scan of one store has read exactly what a plain read returns. */
  lemma FinishedIsPrefixRead(sc: Scan, prefix: Bytes, kv: Values)
    requires ScanOk(sc, prefix, kv.Keys, kv.Items) && sc.last.None? && !sc.first
    ensures sc.all == GetValuesPrefix(kv, prefix)
  {
    var plain := GetValuesPrefix(kv, prefix);
    forall k ensures k in Keys(sc.all) <==> k in Keys(plain) {
      if k in Keys(sc.all) {
        var i :| 0 <= i < |sc.all| && Keys(sc.all)[i] == k;
        assert sc.all[i] in kv.Items && sc.all[i] in plain;
      }
      if k in Keys(plain) {
        var i :| 0 <= i < |plain| && Keys(plain)[i] == k;
        assert plain[i] in plain;
      }
    }
    AscendingUnique(Keys(sc.all), Keys(plain));
    forall i | 0 <= i < |plain| ensures sc.all[i] == plain[i] {
      assert Keys(sc.all)[i] == Keys(plain)[i];
      assert plain[i] in plain && sc.all[i] in kv.Items;
    }
  }

  method GetValuesPagedAll(kv: Values, prefix: Bytes, limit: int) returns (r: Result<seq<Pair>, ScanError>)
    requires Utf8.Valid(prefix)
    ensures r == if !Utf8.Valid(RaisedEnd(prefix)) then Err(RangeEnd(prefix))
                 else if limit <= 2 then Err(PagedMinimum)
                 else Ok(GetValuesPrefix(kv, prefix))
  {
    var end := GetPrefixRangeEnd(prefix);
    if end.Err? {
      return Err(end.error);
    }
    RangeIsPrefix(prefix);
    r := ScanAll(kv, prefix, limit, end.value);
  }

  method ScanAll(kv: Values, prefix: Bytes, limit: int, rangeEnd: Bytes) returns (r: Result<seq<Pair>, ScanError>)
    requires ExactEnd(prefix, rangeEnd)
    ensures r == if limit <= 2 then Err(PagedMinimum) else Ok(GetValuesPrefix(kv, prefix))
  {
    var first, last, all := true, Some(prefix), [];
    ghost var sc := Begin(prefix);
    while last.Some?
      invariant sc == Scan(first, last, all) && ScanOk(sc, prefix, kv.Keys, kv.Items)
      invariant !first ==> limit >= 3
      invariant last.None? ==> !first
      invariant |all| <= |kv|
      decreases last.Some?, |kv| - |all|
    {
      var page := GetValuesPaged(kv, last.value, limit, rangeEnd);
      if page.Err? {
        return Err(page.error);
      }
      StaticTake(sc, page.value, kv, prefix, rangeEnd, limit);
      sc := Take(sc, page.value);
      var values := page.value;
      if !first && values != [] {
        values := values[1..];
      }
      first := false;
      last := if values == [] then None else Some(values[|values| - 1].0);
      all := all + values;
    }
    FinishedIsPrefixRead(sc, prefix, kv);
    return Ok(all);
  }
}
