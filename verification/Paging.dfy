/** Pages of a fixed ranking: server/controller/ai_finder_search.go and ai_finder_paging.go. */
module Paging {
  import opened Basics

  const DEFAULT_PAGE_SIZE := 20
  const MAX_PAGE_SIZE := 100
  const MAX_TOKEN_LEN := 64

  /** More CIDs than any Go slice of strings can hold. */
  const SLICE_BOUND := 0x800_0000_0000_0000

  function ClampPageSize(requested: nat): (r: nat)
    ensures requested == 0 ==> r == 20
    ensures 1 <= requested <= 100 ==> r == requested
    ensures requested > 100 ==> r == 100
  {
    if requested == 0 then DEFAULT_PAGE_SIZE else if requested > MAX_PAGE_SIZE then MAX_PAGE_SIZE else requested
  }

  /** 64-bit two's complement addition. */
  function AddInt64(a: int, b: int): int {
    var sum := a + b;
    if sum > MAX_INT64 then sum - 0x1_0000_0000_0000_0000 else sum
  }

  // ----- decimal tokens -----

  predicate IsDigit(c: char) { '0' <= c <= '9' }
  predicate AllDigits(s: string) { forall c | c in s :: IsDigit(c) }

  function Itoa(n: nat): string {
    var last := ['0' + (n % 10) as char];
    if n < 10 then last else Itoa(n / 10) + last
  }

  function Value(s: string): nat
    requires AllDigits(s)
  {
    if s == "" then 0
    else
      assert s[|s| - 1] in s;
      Value(s[..|s| - 1]) * 10 + (s[|s| - 1] - '0') as int
  }

  /** strconv.Atoi; None is its error. */
  function Atoi(s: string): Option<int> {
    var signed := s != "" && (s[0] == '+' || s[0] == '-');
    var digits := if signed then s[1..] else s;
    if digits == "" || !AllDigits(digits) then None
    else
      var magnitude: int := Value(digits);
      var v := if signed && s[0] == '-' then -magnitude else magnitude;
      if -MAX_INT64 - 1 <= v <= MAX_INT64 then Some(v) else None
  }

  function EncodeToken(offset: int): string {
    if offset <= 0 then "" else Itoa(offset)
  }

  /** decodePageToken; None is a rejected token. */
  function DecodeToken(s: string): (r: Option<int>)
    ensures r.Some? ==> 0 <= r.value <= MAX_INT64
  {
    if s == "" then Some(0)
    else if |s| > MAX_TOKEN_LEN then None
    else
      var v := Atoi(s);
      if v.None? || v.value < 0 then None else v
  }

  lemma {:induction false} ValueItoa(n: nat)
    ensures Itoa(n) != "" && AllDigits(Itoa(n)) && Value(Itoa(n)) == n
  {
    if n >= 10 {
      ValueItoa(n / 10);
      var s := Itoa(n);
      assert s[..|s| - 1] == Itoa(n / 10);
    }
  }

  function Pow10(k: nat): nat { if k == 0 then 1 else 10 * Pow10(k - 1) }

  lemma {:induction false} ItoaLength(n: nat, k: nat)
    requires k >= 1 && n < Pow10(k)
    ensures |Itoa(n)| <= k
  {
    if n >= 10 { ItoaLength(n / 10, k - 1); }
  }

  /** Decoding inverts encoding for every positive offset. */
  lemma TokenRoundTrip(offset: int)
    requires 0 < offset <= MAX_INT64
    ensures DecodeToken(EncodeToken(offset)) == Some(offset) && EncodeToken(offset) != ""
  {
    ValueItoa(offset);
    assert Pow10(5) == 100_000;
    assert Pow10(10) == 10_000_000_000;
    assert Pow10(15) == 1_000_000_000_000_000;
    assert Pow10(19) == 10_000_000_000_000_000_000;
    ItoaLength(offset, 19);
    assert Itoa(offset)[0] in Itoa(offset);
  }

  // ----- which tokens are accepted -----

  function Zeros(z: nat): string { if z == 0 then "" else "0" + Zeros(z - 1) }

  lemma {:induction false} ZerosSnoc(z: nat)
    ensures Zeros(z) + "0" == Zeros(z + 1)
  {
    if z > 0 {
      ZerosSnoc(z - 1);
      assert Zeros(z) + "0" == "0" + (Zeros(z - 1) + "0");
    }
  }

  /** Digits are leading zeros before the number they stand for. */
  lemma {:induction false} DigitsForm(d: string) returns (z: nat)
    requires d != "" && AllDigits(d)
    ensures d == Zeros(z) + Itoa(Value(d))
  {
    hide Zeros;
    var init, c := d[..|d| - 1], d[|d| - 1];
    assert c in d && d == init + [c];
    LastDigit(init, c);
    z := 0;
    if init == "" {
      assert Zeros(0) == "" by { ZerosNone(); }
    } else {
      var y := DigitsForm(init);
      if Value(init) == 0 {
        ZerosSnoc(y);
        z := y + 1;
      } else {
        z := y;
        assert d == Zeros(y) + (Itoa(Value(init)) + [c]);
      }
    }
  }

  lemma ZerosNone()
    ensures Zeros(0) == ""
  {
  }

  lemma LastDigit(init: string, c: char)
    requires AllDigits(init) && IsDigit(c)
    ensures AllDigits(init + [c])
    ensures Itoa(Value(init + [c])) == if Value(init) == 0 then [c] else Itoa(Value(init)) + [c]
    ensures Itoa(0) == "0"
  {
    var d := init + [c];
    assert d[..|d| - 1] == init;
    assert Value(d) == 10 * Value(init) + (c - '0') as int;
  }

  lemma {:induction false} ValueZeros(z: nat, d: string)
    requires AllDigits(d)
    ensures AllDigits(Zeros(z) + d) && Value(Zeros(z) + d) == Value(d)
  {
    ZerosAreDigits(z);
    if d == "" {
      assert Zeros(z) + d == Zeros(z);
    } else {
      var s := Zeros(z) + d;
      assert s[..|s| - 1] == Zeros(z) + d[..|d| - 1];
      ValueZeros(z, d[..|d| - 1]);
    }
  }

  lemma {:induction false} ZerosAreDigits(z: nat)
    ensures AllDigits(Zeros(z)) && Value(Zeros(z)) == 0
  {
    if z > 0 {
      ZerosAreDigits(z - 1);
      ZerosSnoc(z - 1);
      assert Zeros(z)[..|Zeros(z)| - 1] == Zeros(z - 1);
    }
  }

  /** A spelling of an offset: an optional sign, minus only for zero, leading zeros, and the number. */
  ghost predicate Spells(s: string, v: nat) {
    exists z: nat :: s == Zeros(z) + Itoa(v) || s == "+" + (Zeros(z) + Itoa(v))
      || (v == 0 && s == "-" + (Zeros(z) + Itoa(v)))
  }

  /** Decoding accepts exactly the empty token and the spellings of 64-bit offsets that are not too long. */
  lemma DecodeExact(s: string, v: nat)
    ensures DecodeToken(s) == Some(v) <==>
      (s == "" && v == 0) || (|s| <= 64 && v <= MAX_INT64 && Spells(s, v))
  {
    if s == "" {
      if Spells(s, v) { ValueItoa(v); }
    } else {
      var signed := s[0] == '+' || s[0] == '-';
      var digits := if signed then s[1..] else s;
      if digits != "" && AllDigits(digits) {
        var z := DigitsForm(digits);
        assert s == if signed then [s[0]] + digits else digits;
        if DecodeToken(s) == Some(v) { assert Value(digits) == v; }
      }
      if Spells(s, v) { SpelledValue(s, v); }
    }
  }

  lemma SpelledValue(s: string, v: nat)
    requires Spells(s, v)
    ensures Atoi(s) == if v <= MAX_INT64 then Some(v) else None
  {
    var z: nat :| s == Zeros(z) + Itoa(v) || s == "+" + (Zeros(z) + Itoa(v))
      || (v == 0 && s == "-" + (Zeros(z) + Itoa(v)));
    hide Itoa, Zeros, Value;
    var d := Zeros(z) + Itoa(v);
    ValueItoa(v);
    ValueZeros(z, Itoa(v));
    AtoiOf(d, s);
  }

  lemma AtoiOf(d: string, s: string)
    requires d != "" && AllDigits(d) && (s == d || s == "+" + d || (Value(d) == 0 && s == "-" + d))
    ensures Atoi(s) == if Value(d) <= MAX_INT64 then Some(Value(d)) else None
  {
    hide Value;
    assert d[0] in d;
    if s != d {
      assert s[1..] == d;
    }
  }

  // ----- one page -----

  function PageCids(cids: seq<string>, pageSize: nat, offset: nat): seq<string> {
    if offset >= |cids| then []
    else if offset + pageSize < |cids| then cids[offset..offset + pageSize]
    else cids[offset..]
  }

  datatype Page = Page(cids: seq<string>, next: string)

  /** SearchAgents, from the ranking on: one page and the token of the next. */
  function SearchPage(ranking: seq<string>, token: string, requested: nat): Option<Page> {
    var offset := DecodeToken(token);
    if offset.None? then None
    else
      var size := ClampPageSize(requested);
      var following := AddInt64(offset.value, size);
      Some(Page(PageCids(ranking, size, offset.value),
                if following < |ranking| then EncodeToken(following) else ""))
  }

  /** Any accepted token either ends the listing or moves strictly forward, inside the ranking;
      also for offsets so large that the addition wraps. */
  lemma TokensMoveForward(ranking: seq<string>, token: string, requested: nat)
    requires |ranking| < SLICE_BOUND && DecodeToken(token).Some?
    ensures SearchPage(ranking, token, requested).Some?
    ensures var page, offset := SearchPage(ranking, token, requested).value, DecodeToken(token).value;
      if page.next == "" then page.cids == ranking[(if offset < |ranking| then offset else |ranking|)..]
      else
        var following := DecodeToken(page.next);
        && following.Some? && offset < following.value < |ranking|
        && page.cids == ranking[offset..following.value]
        && |page.cids| == ClampPageSize(requested)
  {
    var offset := DecodeToken(token).value;
    var following := AddInt64(offset, ClampPageSize(requested));
    if 0 < following < |ranking| { TokenRoundTrip(following); }
  }

  // ----- following the tokens -----

  /** All pages from a token on; sizes(k) is what the k-th request asks for. */
  function Walk(ranking: seq<string>, token: string, sizes: nat -> nat, k: nat): seq<seq<string>>
    requires |ranking| < SLICE_BOUND && DecodeToken(token).Some?
    decreases |ranking| - DecodeToken(token).value
  {
    TokensMoveForward(ranking, token, sizes(k));
    var page := SearchPage(ranking, token, sizes(k)).value;
    if page.next == "" then [page.cids] else [page.cids] + Walk(ranking, page.next, sizes, k + 1)
  }

  lemma {:induction false} WalkFrom(ranking: seq<string>, token: string, sizes: nat -> nat, k: nat)
    requires |ranking| < SLICE_BOUND && DecodeToken(token).Some? && DecodeToken(token).value <= |ranking|
    ensures Flat(Walk(ranking, token, sizes, k)) == ranking[DecodeToken(token).value..]
    decreases |ranking| - DecodeToken(token).value
  {
    hide SearchPage, DecodeToken, ClampPageSize;
    TokensMoveForward(ranking, token, sizes(k));
    var page := SearchPage(ranking, token, sizes(k)).value;
    if page.next == "" {
      assert Flat([page.cids]) == page.cids;
    } else {
      WalkFrom(ranking, page.next, sizes, k + 1);
      var rest := Walk(ranking, page.next, sizes, k + 1);
      assert ([page.cids] + rest)[1..] == rest;
    }
  }

  /** From the empty token, whatever page sizes are asked for, the pages concatenate to the ranking:
      every element once, in order, after finitely many pages. */
  lemma WalkVisitsAll(ranking: seq<string>, sizes: nat -> nat)
    requires |ranking| < SLICE_BOUND
    ensures Flat(Walk(ranking, "", sizes, 0)) == ranking
  {
    WalkFrom(ranking, "", sizes, 0);
  }

  // ----- projecting a page into entries -----

  datatype Entry = Entry(cid: string, data: string)

  function EntryCids(es: seq<Entry>): (r: seq<string>)
    ensures |r| == |es| && forall i | 0 <= i < |r| :: r[i] == es[i].cid
  {
    seq(|es|, i requires 0 <= i < |es| => es[i].cid)
  }

  /** The entries of the CIDs at these positions. */
  predicate Ranked(cids: seq<string>, at: seq<int>, ordered: seq<Entry>) {
    |at| == |ordered| && forall i | 0 <= i < |at| :: 0 <= at[i] < |cids| && ordered[i].cid == cids[at[i]]
  }

  /** hydrateInRankOrder: the entries come back in any order; the page keeps the ranking's. */
  method HydrateInRankOrder(cids: seq<string>, entries: seq<Entry>) returns (ordered: seq<Entry>)
    ensures EntryCids(ordered) == Filter(c => c in EntryCids(entries), cids)
    ensures forall e | e in ordered :: LastEntry(entries, e)
    ensures exists at :: Selects(c => c in EntryCids(entries), cids, at) && Ranked(cids, at, ordered)
  {
    var byCid: map<string, Entry> := map[];
    for i := 0 to |entries|
      invariant forall c :: c in byCid <==> c in EntryCids(entries[..i])
      invariant forall c | c in byCid :: LastEntry(entries[..i], byCid[c]) && byCid[c].cid == c
    {
      LaterEntry(entries[..i], entries[i]);
      byCid := byCid[entries[i].cid := entries[i]];
      assert entries[..i + 1] == entries[..i] + [entries[i]];
      assert EntryCids(entries[..i + 1]) == EntryCids(entries[..i]) + [entries[i].cid];
    }
    assert entries[..|entries|] == entries;
    ordered := [];
    for i := 0 to |cids|
      invariant EntryCids(ordered) == Filter(c => c in EntryCids(entries), cids[..i])
      invariant forall e | e in ordered :: LastEntry(entries, e)
    {
      assert cids[..i + 1][..i] == cids[..i];
      if cids[i] in byCid {
        assert EntryCids(ordered + [byCid[cids[i]]]) == EntryCids(ordered) + [cids[i]];
        ordered := ordered + [byCid[cids[i]]];
      }
    }
    assert cids[..|cids|] == cids;
    ghost var at := FilterInOrder(c => c in EntryCids(entries), cids);
    assert Ranked(cids, at, ordered);
  }

  /** The entry is there, and no later one has its CID. */
  predicate LastEntry(entries: seq<Entry>, e: Entry) {
    exists k | 0 <= k < |entries| :: entries[k] == e && forall j | k < j < |entries| :: entries[j].cid != e.cid
  }

  lemma LaterEntry(entries: seq<Entry>, e: Entry)
    ensures LastEntry(entries + [e], e)
    ensures forall x | LastEntry(entries, x) && x.cid != e.cid :: LastEntry(entries + [e], x)
  {
    var more := entries + [e];
    assert more[|entries|] == e;
    forall x | LastEntry(entries, x) && x.cid != e.cid ensures LastEntry(more, x) {
      var k :| 0 <= k < |entries| && entries[k] == x && forall j | k < j < |entries| :: entries[j].cid != x.cid;
      assert more[k] == x;
    }
  }
}
