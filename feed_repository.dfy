/** The simulated server behind the feed: it makes pages of items with
    consecutive ids. */
module FeedData {
  import opened Options
  import opened FeedModel

  const IntMin: int := -0x8000_0000
  const IntMax: int := 0x7fff_ffff
  const Int32Range: int := 0x1_0000_0000

  predicate IsInt32(x: int) { IntMin <= x <= IntMax }

  /** Java `int` addition: the exact sum brought back into 32 bits. */
  function Wrap32(x: int): (r: int)
    ensures IsInt32(r)
    ensures (x - r) % Int32Range == 0
    ensures IsInt32(x) ==> r == x
  {
    (x - IntMin) % Int32Range + IntMin
  }

  // ---------------------------------------------------------------------
  // Decimal rendering, as Java's string concatenation prints a `long`
  // ---------------------------------------------------------------------

  function Digit(d: nat): char
    requires d < 10
  {
    "0123456789"[d]
  }

  predicate IsDigit(c: char) { '0' <= c <= '9' }

  predicate AllDigits(s: string) { forall i :: 0 <= i < |s| ==> IsDigit(s[i]) }

  /** The decimal digits of `n`, most significant first, without leading zeros. */
  function NatDigits(n: nat): (s: string)
    ensures |s| >= 1
  {
    if n < 10 then [Digit(n)] else NatDigits(n / 10) + [Digit(n % 10)]
  }

  function DecimalString(n: int): string {
    if n < 0 then "-" + NatDigits(-n) else NatDigits(n)
  }

  /** The number a string of digits denotes. */
  function NatValue(s: string): nat
    requires AllDigits(s)
  {
    if s == [] then 0 else 10 * NatValue(s[..|s| - 1]) + (s[|s| - 1] - '0') as nat
  }

  /** Reads back an optional minus sign and at least one digit. */
  function ParseDecimal(s: string): Option<int> {
    if |s| > 1 && s[0] == '-' && AllDigits(s[1..]) then
      var v: int := -(NatValue(s[1..]) as int);
      Some(v)
    else if |s| > 0 && AllDigits(s) then Some(NatValue(s))
    else None
  }

  lemma {:induction false} NatDigitsValue(n: nat)
    ensures AllDigits(NatDigits(n)) && NatValue(NatDigits(n)) == n
    ensures NatDigits(n)[0] != '-'
  {
    var s := NatDigits(n);
    if n >= 10 {
      NatDigitsValue(n / 10);
      var init := NatDigits(n / 10);
      assert s[..|s| - 1] == init;
      assert s[0] == init[0];
    }
  }

  /** Reading back what was printed gives the number again. */
  lemma DecimalRoundTrip(n: int)
    ensures ParseDecimal(DecimalString(n)) == Some(n)
  {
    if n < 0 {
      var d := NatDigits(-n);
      NatDigitsValue(-n);
      ParseNegative(d);
      assert DecimalString(n) == "-" + d;
    } else {
      var d := NatDigits(n);
      NatDigitsValue(n);
      ParseDigits(d);
      assert DecimalString(n) == d;
    }
  }

  lemma ParseNegative(d: string)
    requires |d| >= 1 && AllDigits(d)
    ensures ParseDecimal("-" + d) == Some(-(NatValue(d) as int))
  {
    assert ("-" + d)[1..] == d;
  }

  lemma ParseDigits(d: string)
    requires |d| >= 1 && AllDigits(d)
    ensures ParseDecimal(d) == Some(NatValue(d) as int)
  {
    assert IsDigit(d[0]);
  }

  lemma DecimalInjective(a: int, b: int)
    ensures DecimalString(a) == DecimalString(b) <==> a == b
  {
    if DecimalString(a) == DecimalString(b) {
      DecimalRoundTrip(a);
      DecimalRoundTrip(b);
    }
  }

  // ---------------------------------------------------------------------
  // Items
  // ---------------------------------------------------------------------

  const TitlePrefix: string := "标题 "
  const ContentPrefix: string := "这里是 Feed 内容摘要，id = "

  /** The item `generateItems` builds for `id`. */
  function ItemFor(id: int): FeedItem {
    FeedItem(id, TitlePrefix + DecimalString(id), ContentPrefix + DecimalString(id))
  }

  /** Titles and contents name their item: different ids give different texts. */
  lemma ItemTextsIdentify(a: int, b: int)
    ensures ItemFor(a).title == ItemFor(b).title <==> a == b
    ensures ItemFor(a).content == ItemFor(b).content <==> a == b
  {
    DecimalInjective(a, b);
    if ItemFor(a).title == ItemFor(b).title {
      assert ItemFor(a).title[|TitlePrefix|..] == DecimalString(a);
      assert ItemFor(b).title[|TitlePrefix|..] == DecimalString(b);
    }
    if ItemFor(a).content == ItemFor(b).content {
      assert ItemFor(a).content[|ContentPrefix|..] == DecimalString(a);
      assert ItemFor(b).content[|ContentPrefix|..] == DecimalString(b);
    }
  }

  /** The list `generateItems(startId, count)` returns: `count` items (none
      when `count <= 0`) whose ids are the `int` sums `startId + i`. */
  function GeneratedItems(startId: int, count: int): (items: seq<FeedItem>)
    ensures |items| == if count <= 0 then 0 else count
    ensures forall i :: 0 <= i < |items| ==> items[i] == ItemFor(Wrap32(startId + i))
    decreases count
  {
    if count <= 0 then [] else GeneratedItems(startId, count - 1) + [ItemFor(Wrap32(startId + count - 1))]
  }

  lemma GeneratedSnoc(startId: int, n: nat)
    ensures GeneratedItems(startId, n + 1) == GeneratedItems(startId, n) + [ItemFor(Wrap32(startId + n))]
  {
  }

  /** Without overflow the ids run up by one from `startId`, so they are
      strictly increasing and pairwise distinct. */
  lemma ConsecutiveIds(startId: int, count: int)
    requires IsInt32(startId) && startId + count - 1 <= IntMax
    ensures forall i :: 0 <= i < |GeneratedItems(startId, count)| ==> GeneratedItems(startId, count)[i].id == startId + i
    ensures forall i, j :: 0 <= i < j < |GeneratedItems(startId, count)| ==>
      GeneratedItems(startId, count)[i].id < GeneratedItems(startId, count)[j].id
  {
    var items := GeneratedItems(startId, count);
    forall i | 0 <= i < |items| ensures items[i].id == startId + i {
      assert IsInt32(startId + i);
    }
  }

  /** The sum is taken in `int` before it is widened to `long`: a page that
      starts at the largest `int` continues at the smallest one. */
  lemma LoadMoreWrapsAtTop()
    ensures GeneratedItems(IntMax, 10)[0].id == IntMax
    ensures GeneratedItems(IntMax, 10)[1].id == IntMin
  {
    assert IntMax + 1 - IntMin == Int32Range;
    assert Int32Range % Int32Range == 0;
    assert Wrap32(IntMax + 1) == IntMin;
  }

  /** `generateItems`: fills the list one item at a time. */
  method GenerateItems(startId: int, count: int) returns (list: seq<FeedItem>)
    requires IsInt32(startId) && IsInt32(count)
    ensures list == GeneratedItems(startId, count)
  {
    list := [];
    var i := 0;
    while i < count
      invariant 0 <= i && (count <= 0 ==> i == 0) && (count > 0 ==> i <= count)
      invariant list == GeneratedItems(startId, i)
    {
      var id := Wrap32(startId + i);
      var title := TitlePrefix + DecimalString(id);
      var content := ContentPrefix + DecimalString(id);
      assert FeedItem(id, title, content) == ItemFor(id);
      GeneratedSnoc(startId, i);
      list := list + [FeedItem(id, title, content)];
      i := i + 1;
    }
  }

  /** `loadInitial`: the first screen, ids 0 to 19. */
  method LoadInitial() returns (list: seq<FeedItem>)
    ensures list == GeneratedItems(0, 20)
    ensures |list| == 20 && forall i :: 0 <= i < 20 ==> list[i] == ItemFor(i)
  {
    list := GenerateItems(0, 20);
    ConsecutiveIds(0, 20);
  }

  /** `refresh`: a pulled-down refresh, ids 1000 to 1019. */
  method Refresh() returns (list: seq<FeedItem>)
    ensures list == GeneratedItems(1000, 20)
    ensures |list| == 20 && forall i :: 0 <= i < 20 ==> list[i] == ItemFor(1000 + i)
  {
    list := GenerateItems(1000, 20);
    ConsecutiveIds(1000, 20);
  }

  /** `loadMore(offset)`: ten more items from `offset` on; their ids are
      `offset` to `offset + 9` unless that range passes the largest `int`. */
  method LoadMore(offset: int) returns (list: seq<FeedItem>)
    requires IsInt32(offset)
    ensures list == GeneratedItems(offset, 10)
    ensures |list| == 10 && forall i :: 0 <= i < 10 ==> list[i] == ItemFor(Wrap32(offset + i))
    ensures offset + 9 <= IntMax ==> forall i :: 0 <= i < 10 ==> list[i].id == offset + i
  {
    list := GenerateItems(offset, 10);
    if offset + 9 <= IntMax {
      ConsecutiveIds(offset, 10);
    }
  }
}
