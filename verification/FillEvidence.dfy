/** The execution evidence of bot/accounting_fill_link.py: when a list of
    fills proves one whole position, and when that position is the bot's. */
module FillEvidence {
  import opened Common

  datatype Side = Buy | Sell | OtherSide

  /** Sizes, prices and fees are exact decimals, or not finite. Trade ids only
      serve as identities and as a tie-break in the order of execution. */
  datatype Fill = Fill(
    tradeId: int, orderId: string, symbol: string, side: Side, size: Option<real>, price: Option<real>,
    fee: Option<real>, feeCurrency: string, tradeTime: int, isTrade: bool)

  datatype Position = Position(
    closeId: string, symbol: string, settleCurrency: string, openTime: int, closeTime: int, direction: Side,
    openPrice: Option<real>, closePrice: Option<real>, tradeFee: Option<real>)

  const EPSILON := 0.00000001

  function Millis(f: Fill): int {
    f.tradeTime / 1000000
  }

  /** The checks on one fill that do not look at any other. */
  predicate Clean(f: Fill, p: Position) {
    && p.openTime - 2000 <= Millis(f) <= p.closeTime + 2000 && f.symbol == p.symbol
    && f.feeCurrency == p.settleCurrency && f.isTrade
    && f.size.Some? && f.price.Some? && f.size.value > 0.0 && f.price.value > 0.0
    && (f.side.Buy? || f.side.Sell?)
  }

  function SizeOf(f: Fill): real {
    if f.size.Some? then f.size.value else 0.0
  }

  function CashOf(f: Fill): real {
    if f.size.Some? && f.price.Some? then f.size.value * f.price.value else 0.0
  }

  /** The position after these fills, counted up by opening fills. */
  function Balance(fills: seq<Fill>, opening: Side): real
    decreases |fills|
  {
    if |fills| == 0 then 0.0
    else
      var n := |fills| - 1;
      Balance(fills[..n], opening) + (if fills[n].side == opening then SizeOf(fills[n]) else -SizeOf(fills[n]))
  }

  /** Total size, and total cash, of the fills on one side of the position. */
  function Qty(fills: seq<Fill>, opening: Side, opens: bool): real
    decreases |fills|
  {
    if |fills| == 0 then 0.0
    else
      var n := |fills| - 1;
      Qty(fills[..n], opening, opens) + (if (fills[n].side == opening) == opens then SizeOf(fills[n]) else 0.0)
  }

  function Cash(fills: seq<Fill>, opening: Side, opens: bool): real
    decreases |fills|
  {
    if |fills| == 0 then 0.0
    else
      var n := |fills| - 1;
      Cash(fills[..n], opening, opens) + (if (fills[n].side == opening) == opens then CashOf(fills[n]) else 0.0)
  }

  /** The fees of the fills; one that is not finite spoils the sum. */
  function Fees(fills: seq<Fill>): Option<real>
    decreases |fills|
  {
    if |fills| == 0 then Some(0.0)
    else
      var n := |fills| - 1;
      var before := Fees(fills[..n]);
      if before.Some? && fills[n].fee.Some? then Some(before.value + fills[n].fee.value) else None
  }

  ghost predicate HasSide(fills: seq<Fill>, opening: Side, opens: bool) {
    exists i :: 0 <= i < |fills| && ((fills[i].side == opening) == opens)
  }

  /** After fill number i the position is open, or flat and over. */
  predicate Unbroken(fills: seq<Fill>, opening: Side, i: nat)
    requires i < |fills|
  {
    var b := Balance(fills[..i + 1], opening);
    b >= 0.0 && (b == 0.0 ==> i == |fills| - 1)
  }

  predicate PriceMatches(qty: real, cash: real, price: Option<real>) {
    qty > 0.0 && price.Some? && AbsReal(cash / qty - price.value) <= EPSILON
  }

  predicate FeesMatch(fills: seq<Fill>, p: Position) {
    Fees(fills).Some? && p.tradeFee.Some? && AbsReal(Fees(fills).value - p.tradeFee.value) <= EPSILON
  }

  /** The checks that follow the loop, on a list that came through it. */
  ghost predicate Closed(fills: seq<Fill>, p: Position) {
    && |fills| > 0
    && Balance(fills, p.direction) == 0.0
    && HasSide(fills, p.direction, true) && HasSide(fills, p.direction, false)
    && -2000 <= Millis(fills[0]) - p.openTime <= 2000
    && -2000 <= Millis(fills[|fills| - 1]) - p.closeTime <= 2000
    && PriceMatches(Qty(fills, p.direction, true), Cash(fills, p.direction, true), p.openPrice)
    && PriceMatches(Qty(fills, p.direction, false), Cash(fills, p.direction, false), p.closePrice)
    && FeesMatch(fills, p)
  }

  /** The fills prove this one position, on their own. */
  ghost predicate Complete(fills: seq<Fill>, p: Position) {
    && !p.direction.OtherSide?
    && (forall i :: 0 <= i < |fills| ==> Clean(fills[i], p) && Unbroken(fills, p.direction, i))
    && Closed(fills, p)
  }

  // ---- What the checks mean, from the fields ----

  /** A fill that can belong to the position: executed, in trade time, within
      two seconds of its life, on its contract, paid in its currency, by one of
      the two sides, for a size and at a price. */
  lemma CleanByFields(f: Fill, p: Position)
    ensures Clean(f, p) <==>
              && (p.openTime - 2000) * 1000000 <= f.tradeTime < (p.closeTime + 2001) * 1000000
              && f.symbol == p.symbol && f.feeCurrency == p.settleCurrency && f.isTrade && f.side in {Buy, Sell}
              && f.size.Some? && f.size.value > 0.0 && f.price.Some? && f.price.value > 0.0
  {
  }

  /** One more fill adds its size to its side, its size times its price to the
      cash of that side, and its fee to the fees. */
  lemma SumsByFill(fills: seq<Fill>, f: Fill, opening: Side)
    requires f.size.Some? && f.price.Some?
    ensures var more, opens := fills + [f], f.side == opening;
            && Balance(more, opening) == Balance(fills, opening) + (if opens then f.size.value else -f.size.value)
            && Qty(more, opening, opens) == Qty(fills, opening, opens) + f.size.value
            && Qty(more, opening, !opens) == Qty(fills, opening, !opens)
            && Cash(more, opening, opens) == Cash(fills, opening, opens) + f.size.value * f.price.value
            && Cash(more, opening, !opens) == Cash(fills, opening, !opens)
            && (Fees(more).Some? <==> Fees(fills).Some? && f.fee.Some?)
            && (Fees(more).Some? ==> Fees(more).value == Fees(fills).value + f.fee.value)
    ensures Balance([], opening) == 0.0 && Fees([]) == Some(0.0)
    ensures forall opens :: Qty([], opening, opens) == 0.0 && Cash([], opening, opens) == 0.0
  {
    assert (fills + [f])[..|fills|] == fills;
  }

  /** The recorded prices and fees may be off by 10^-8. */
  lemma PriceByCash(qty: real, cash: real, price: real)
    requires qty > 0.0
    ensures PriceMatches(qty, cash, Some(price)) <==> -0.00000001 <= cash / qty - price <= 0.00000001
    ensures !PriceMatches(qty, cash, None) && !PriceMatches(0.0, cash, Some(price))
  {
  }

  lemma FeesBySum(fills: seq<Fill>, p: Position)
    ensures FeesMatch(fills, p) <==>
              && Fees(fills).Some? && p.tradeFee.Some?
              && -0.00000001 <= Fees(fills).value - p.tradeFee.value <= 0.00000001
  {
  }

  predicate OpenAfter(fills: seq<Fill>, opening: Side, i: nat)
    requires i < |fills|
  {
    Balance(fills[..i + 1], opening) > 0.0
  }

  /** A list is complete when its fills are clean and their running balance
      stays above zero until the last one ends it there, when it starts and
      ends within two seconds of the position, and when the average prices and
      the fees are the recorded ones. */
  lemma CompleteByParts(fills: seq<Fill>, p: Position)
    ensures Complete(fills, p) <==>
              && p.direction in {Buy, Sell} && |fills| > 0
              && (forall i :: 0 <= i < |fills| ==> Clean(fills[i], p))
              && (forall i :: 0 <= i < |fills| - 1 ==> OpenAfter(fills, p.direction, i))
              && Balance(fills, p.direction) == 0.0
              && (exists i :: 0 <= i < |fills| && fills[i].side == p.direction)
              && (exists i :: 0 <= i < |fills| && fills[i].side != p.direction)
              && Millis(fills[0]) - 2000 <= p.openTime <= Millis(fills[0]) + 2000
              && Millis(fills[|fills| - 1]) - 2000 <= p.closeTime <= Millis(fills[|fills| - 1]) + 2000
              && PriceMatches(Qty(fills, p.direction, true), Cash(fills, p.direction, true), p.openPrice)
              && PriceMatches(Qty(fills, p.direction, false), Cash(fills, p.direction, false), p.closePrice)
              && FeesMatch(fills, p)
  {
    ClosedByParts(fills, p);
    if |fills| > 0 && Balance(fills, p.direction) == 0.0 {
      ScannedByParts(fills, p);
    }
  }

  lemma ClosedByParts(fills: seq<Fill>, p: Position)
    ensures Closed(fills, p) <==>
              && |fills| > 0 && Balance(fills, p.direction) == 0.0
              && (exists i :: 0 <= i < |fills| && fills[i].side == p.direction)
              && (exists i :: 0 <= i < |fills| && fills[i].side != p.direction)
              && Millis(fills[0]) - 2000 <= p.openTime <= Millis(fills[0]) + 2000
              && Millis(fills[|fills| - 1]) - 2000 <= p.closeTime <= Millis(fills[|fills| - 1]) + 2000
              && PriceMatches(Qty(fills, p.direction, true), Cash(fills, p.direction, true), p.openPrice)
              && PriceMatches(Qty(fills, p.direction, false), Cash(fills, p.direction, false), p.closePrice)
              && FeesMatch(fills, p)
  {
    SidesMean(fills, p.direction);
  }

  lemma ScannedByParts(fills: seq<Fill>, p: Position)
    requires |fills| > 0 && Balance(fills, p.direction) == 0.0
    ensures (forall i :: 0 <= i < |fills| ==> Clean(fills[i], p) && Unbroken(fills, p.direction, i)) <==>
              && (forall i :: 0 <= i < |fills| ==> Clean(fills[i], p))
              && (forall i :: 0 <= i < |fills| - 1 ==> OpenAfter(fills, p.direction, i))
  {
    UnbrokenMeans(fills, p.direction);
  }

  lemma UnbrokenMeans(fills: seq<Fill>, opening: Side)
    requires |fills| > 0 && Balance(fills, opening) == 0.0
    ensures (forall i :: 0 <= i < |fills| ==> Unbroken(fills, opening, i)) <==>
              forall i :: 0 <= i < |fills| - 1 ==> OpenAfter(fills, opening, i)
  {
    assert fills[..|fills|] == fills;
    forall i | 0 <= i < |fills| - 1
      ensures Unbroken(fills, opening, i) <==> OpenAfter(fills, opening, i)
    {
    }
    assert Unbroken(fills, opening, |fills| - 1);
  }

  lemma SidesMean(fills: seq<Fill>, opening: Side)
    ensures HasSide(fills, opening, true) <==> exists i :: 0 <= i < |fills| && fills[i].side == opening
    ensures HasSide(fills, opening, false) <==> exists i :: 0 <= i < |fills| && fills[i].side != opening
  {
    if i :| 0 <= i < |fills| && fills[i].side == opening {
      assert (fills[i].side == opening) == true;
    }
    if i :| 0 <= i < |fills| && fills[i].side != opening {
      assert (fills[i].side == opening) == false;
    }
  }

  // ---- What a complete list means ----

  lemma {:induction false} BalanceIsDifference(fills: seq<Fill>, opening: Side)
    ensures Balance(fills, opening) == Qty(fills, opening, true) - Qty(fills, opening, false)
    decreases |fills|
  {
    if |fills| == 0 {
    } else {
      BalanceIsDifference(fills[..|fills| - 1], opening);
    }
  }

  lemma Scaled(qty: real, x: real, bound: real)
    requires qty >= 0.0 && x <= bound
    ensures qty * x <= qty * bound
  {
    var gap := bound - x;
    assert qty * gap >= 0.0;
    assert qty * bound == qty * (x + gap) == qty * x + qty * gap;
  }

  lemma Spread(qty: real, x: real, y: real)
    ensures qty * (x - y) == qty * x - qty * y
  {
  }

  lemma CashNearPrice(qty: real, cash: real, price: real, bound: real)
    requires qty > 0.0 && AbsReal(cash / qty - price) <= bound
    ensures AbsReal(cash - qty * price) <= qty * bound
  {
    var average := cash / qty;
    assert qty * average == cash;
    Spread(qty, average, price);
    Spread(qty, price, average);
    Scaled(qty, average - price, bound);
    Scaled(qty, price - average, bound);
  }

  /** The cash made is the quantity times the price difference, to within two
      price tolerances on the whole quantity. */
  predicate CashExplained(q: real, openCash: real, closeCash: real, openPrice: real, closePrice: real, bound: real) {
    AbsReal((closeCash - openCash) - q * (closePrice - openPrice)) <= 2.0 * (q * bound)
  }

  lemma TwoPrices(q: real, openCash: real, closeCash: real, openPrice: real, closePrice: real, bound: real)
    requires q > 0.0 && AbsReal(openCash / q - openPrice) <= bound && AbsReal(closeCash / q - closePrice) <= bound
    ensures CashExplained(q, openCash, closeCash, openPrice, closePrice, bound)
  {
    CashNearPrice(q, openCash, openPrice, bound);
    CashNearPrice(q, closeCash, closePrice, bound);
    Spread(q, closePrice, openPrice);
  }

  /** A complete list is one flat-to-flat episode: the position is open after
      every proper prefix, and what was opened is what was closed. */
  lemma CompleteIsOneEpisode(fills: seq<Fill>, p: Position)
    requires Complete(fills, p)
    ensures forall k :: 0 < k < |fills| ==> Balance(fills[..k], p.direction) > 0.0
    ensures Qty(fills, p.direction, true) == Qty(fills, p.direction, false) > 0.0
  {
    forall k | 0 < k < |fills|
      ensures Balance(fills[..k], p.direction) > 0.0
    {
      assert Unbroken(fills, p.direction, k - 1);
    }
    BalanceIsDifference(fills, p.direction);
  }

  lemma BothPrices(fills: seq<Fill>, p: Position)
    requires Complete(fills, p)
    ensures PriceMatches(Qty(fills, p.direction, true), Cash(fills, p.direction, true), p.openPrice)
    ensures PriceMatches(Qty(fills, p.direction, true), Cash(fills, p.direction, false), p.closePrice)
  {
    BalanceIsDifference(fills, p.direction);
  }

  lemma PricesExplainCash(q: real, openCash: real, closeCash: real, openPrice: Option<real>, closePrice: Option<real>)
    requires PriceMatches(q, openCash, openPrice) && PriceMatches(q, closeCash, closePrice)
    ensures CashExplained(q, openCash, closeCash, openPrice.value, closePrice.value, EPSILON)
  {
    TwoPrices(q, openCash, closeCash, openPrice.value, closePrice.value, EPSILON);
  }

  lemma CompleteCash(fills: seq<Fill>, p: Position)
    requires Complete(fills, p)
    ensures CashExplained(Qty(fills, p.direction, true), Cash(fills, p.direction, true),
                          Cash(fills, p.direction, false), p.openPrice.value, p.closePrice.value, EPSILON)
  {
    BothPrices(fills, p);
    PricesExplainCash(Qty(fills, p.direction, true), Cash(fills, p.direction, true), Cash(fills, p.direction, false),
                      p.openPrice, p.closePrice);
  }

  // ---- The two scanners ----

  method SumFees(fills: seq<Fill>) returns (sum: Option<real>)
    ensures sum == Fees(fills)
  {
    sum := Some(0.0);
    var k := 0;
    while k < |fills|
      invariant 0 <= k <= |fills|
      invariant sum == Fees(fills[..k])
    {
      assert fills[..k + 1][..k] == fills[..k];
      sum := if sum.Some? && fills[k].fee.Some? then Some(sum.value + fills[k].fee.value) else None;
      k := k + 1;
    }
    assert fills[..k] == fills;
  }

  /** What the loop has added up. */
  datatype Sums = Sums(
    balance: real, openQty: real, openCash: real, closeQty: real, closeCash: real, sawOpen: bool, sawClose: bool)

  ghost predicate SumsOf(s: Sums, fills: seq<Fill>, opening: Side) {
    && s.balance == Balance(fills, opening)
    && s.openQty == Qty(fills, opening, true) && s.openCash == Cash(fills, opening, true)
    && s.closeQty == Qty(fills, opening, false) && s.closeCash == Cash(fills, opening, false)
    && s.sawOpen == HasSide(fills, opening, true) && s.sawClose == HasSide(fills, opening, false)
  }

  /** The final checks, shared by both readers of the list. */
  method CheckClosed(fills: seq<Fill>, p: Position, s: Sums) returns (ok: bool, fees: real)
    requires |fills| > 0 && SumsOf(s, fills, p.direction)
    ensures ok <==> Closed(fills, p)
    ensures ok ==> Fees(fills) == Some(fees)
  {
    fees := 0.0;
    if s.balance != 0.0 || !s.sawOpen || !s.sawClose {
      return false, fees;
    }
    var first, last := Millis(fills[0]) - p.openTime, Millis(fills[|fills| - 1]) - p.closeTime;
    if first < -2000 || first > 2000 || last < -2000 || last > 2000 {
      return false, fees;
    }
    if !PriceMatches(s.openQty, s.openCash, p.openPrice) || !PriceMatches(s.closeQty, s.closeCash, p.closePrice) {
      return false, fees;
    }
    var sum := SumFees(fills);
    ok := sum.Some? && p.tradeFee.Some? && AbsReal(sum.value - p.tradeFee.value) <= EPSILON;
    fees := if ok then sum.value else 0.0;
  }

  function AddFill(s: Sums, f: Fill, opening: Side): Sums {
    if f.side == opening then
      s.(balance := s.balance + SizeOf(f), openQty := s.openQty + SizeOf(f),
         openCash := s.openCash + CashOf(f), sawOpen := true)
    else
      s.(balance := s.balance - SizeOf(f), closeQty := s.closeQty + SizeOf(f),
         closeCash := s.closeCash + CashOf(f), sawClose := true)
  }

  lemma SumsStep(s: Sums, fills: seq<Fill>, k: nat, opening: Side)
    requires k < |fills| && SumsOf(s, fills[..k], opening)
    ensures SumsOf(AddFill(s, fills[k], opening), fills[..k + 1], opening)
  {
    var more := fills[..k + 1];
    assert more[..k] == fills[..k] && more[k] == fills[k];
    forall opens
      ensures HasSide(more, opening, opens)
              <==> HasSide(fills[..k], opening, opens) || ((fills[k].side == opening) == opens)
    {
      if HasSide(fills[..k], opening, opens) {
        var i :| 0 <= i < k && ((fills[..k][i].side == opening) == opens);
        assert more[i] == fills[..k][i];
      } else if HasSide(more, opening, opens) {
        var i :| 0 <= i <= k && ((more[i].side == opening) == opens);
        assert i < k ==> fills[..k][i] == more[i];
      }
      assert more[k].side == fills[k].side;
    }
  }

  const NO_SUMS := Sums(0.0, 0.0, 0.0, 0.0, 0.0, false, false)

  /** The loop has come through the first i fills. */
  ghost predicate Scanned(s: Sums, fills: seq<Fill>, i: nat, p: Position)
    requires i <= |fills|
  {
    && SumsOf(s, fills[..i], p.direction)
    && forall k :: 0 <= k < i ==> Clean(fills[k], p) && Unbroken(fills, p.direction, k)
  }

  lemma ScanStep(s: Sums, fills: seq<Fill>, i: nat, p: Position, next: Sums)
    requires i < |fills| && Scanned(s, fills, i, p) && Clean(fills[i], p)
    requires next == AddFill(s, fills[i], p.direction)
    ensures Scanned(next, fills, i + 1, p) <==> next.balance >= 0.0 && (next.balance == 0.0 ==> i == |fills| - 1)
    ensures Unbroken(fills, p.direction, i) <==> next.balance >= 0.0 && (next.balance == 0.0 ==> i == |fills| - 1)
    ensures !Scanned(next, fills, i + 1, p) ==> !Complete(fills, p)
  {
    SumsStep(s, fills, i, p.direction);
    assert Unbroken(fills, p.direction, i) <==> next.balance >= 0.0 && (next.balance == 0.0 ==> i == |fills| - 1);
  }

  lemma ScannedWhole(s: Sums, fills: seq<Fill>, p: Position)
    requires Scanned(s, fills, |fills|, p) && !p.direction.OtherSide?
    ensures SumsOf(s, fills, p.direction)
    ensures Complete(fills, p) <==> Closed(fills, p)
  {
    assert fills[..|fills|] == fills;
  }

  /** `_recent_complete`, on rows already in order of execution. */
  method RecentComplete(fills: seq<Fill>, p: Position) returns (ok: bool)
    ensures ok <==> Complete(fills, p)
  {
    if |fills| == 0 || p.direction.OtherSide? {
      return false;
    }
    var s := NO_SUMS;
    var i := 0;
    while i < |fills|
      invariant 0 <= i <= |fills| && Scanned(s, fills, i, p)
    {
      if !Clean(fills[i], p) {
        return false;
      }
      var next := AddFill(s, fills[i], p.direction);
      ScanStep(s, fills, i, p, next);
      s := next;
      if s.balance < 0.0 || (s.balance == 0.0 && i != |fills| - 1) {
        return false;
      }
      i := i + 1;
    }
    ScannedWhole(s, fills, p);
    var fees;
    ok, fees := CheckClosed(fills, p, s);
  }

  /** An order of the bot's durable registry. */
  datatype Order = Order(filled: bool, bgx: bool, orderId: string, symbol: string, side: Side)

  function Canonical(raw: string): string {
    XbtToBtc(if |raw| > 0 && raw[|raw| - 1] == 'M' then raw[..|raw| - 1] else raw)
  }

  function XbtToBtc(s: string): string {
    if |s| < 3 then s
    else if s[..3] == "XBT" then "BTC" + XbtToBtc(s[3..])
    else [s[0]] + XbtToBtc(s[1..])
  }

  /** Contract and engine names meet: one trailing M goes, and XBT in front is
      BTC, for every name without another X. */
  lemma CanonicalNames(s: string)
    requires 'X' !in s && (|s| == 0 || s[|s| - 1] != 'M')
    ensures Canonical(s) == s && Canonical(s + "M") == s
    ensures Canonical("XBT" + s) == "BTC" + s && Canonical("XBT" + s + "M") == "BTC" + s
  {
    NoXbt(s);
    assert (s + "M")[..|s|] == s;
    assert ("XBT" + s)[..3] == "XBT" && ("XBT" + s)[3..] == s;
    assert ("XBT" + s + "M")[..|s| + 3] == "XBT" + s;
    if |s| > 0 {
      assert ("XBT" + s)[|s| + 2] == s[|s| - 1];
    }
  }

  lemma {:induction false} NoXbt(s: string)
    requires 'X' !in s
    ensures XbtToBtc(s) == s
  {
    if |s| < 3 {
    } else {
      assert s[0] in s && s[..3][0] == s[0] && "XBT"[0] == 'X';
      NoXbt(s[1..]);
    }
  }

  predicate KnownOpening(f: Fill, p: Position, orders: map<string, Order>) {
    && f.orderId in orders
    && Canonical(orders[f.orderId].symbol) == Canonical(p.symbol)
    && orders[f.orderId].side == p.direction
  }

  /** Every opening fill belongs to a known order of the bot. */
  ghost predicate AllKnown(fills: seq<Fill>, p: Position, orders: map<string, Order>) {
    forall i :: 0 <= i < |fills| ==> KnownIfOpening(fills[i], p, orders)
  }

  predicate KnownIfOpening(f: Fill, p: Position, orders: map<string, Order>) {
    f.side == p.direction ==> KnownOpening(f, p, orders)
  }

  datatype Verdict =
    | Pending | Overlapping | NoBotOrder | UnknownOpening | Unconfirmed
    | Reconciled(openingIds: set<string>, closingIds: set<string>, contracts: real, fees: real)

  function Ids(fills: seq<Fill>, opening: Side, opens: bool): (ids: set<string>)
    ensures ids == set f | f in fills && (if opens then f.side == opening else f.side != opening) :: f.orderId
  {
    set i | 0 <= i < |fills| && ((fills[i].side == opening) == opens) :: fills[i].orderId
  }

  /** The verdict on a list that came through the loop. */
  method Conclude(fills: seq<Fill>, p: Position, s: Sums) returns (v: Verdict)
    requires |fills| > 0 && !p.direction.OtherSide? && Scanned(s, fills, |fills|, p)
    ensures if Complete(fills, p) then v.Reconciled? else v.Unconfirmed?
    ensures v.Reconciled? ==>
              && v.openingIds == (set f | f in fills && f.side == p.direction :: f.orderId)
              && v.closingIds == (set f | f in fills && f.side != p.direction :: f.orderId)
              && v.contracts == Qty(fills, p.direction, true) && Fees(fills) == Some(v.fees)
  {
    ScannedWhole(s, fills, p);
    var ok, fees := CheckClosed(fills, p, s);
    if !ok {
      return Unconfirmed;
    }
    v := Reconciled(Ids(fills, p.direction, true), Ids(fills, p.direction, false), s.openQty, fees);
  }

  /** The loop comes to fill i, and that is an unknown opening. */
  ghost predicate UnknownAt(fills: seq<Fill>, p: Position, orders: map<string, Order>, i: nat)
    requires i < |fills|
  {
    && Clean(fills[i], p) && !KnownIfOpening(fills[i], p, orders)
    && forall k :: 0 <= k < i ==>
                     Clean(fills[k], p) && Unbroken(fills, p.direction, k) && KnownIfOpening(fills[k], p, orders)
  }

  ghost predicate StopsAtUnknown(fills: seq<Fill>, p: Position, orders: map<string, Order>) {
    !p.direction.OtherSide? && exists i :: 0 <= i < |fills| && UnknownAt(fills, p, orders, i)
  }

  lemma EndsBeforeUnknown(fills: seq<Fill>, p: Position, orders: map<string, Order>, i: nat)
    requires i < |fills| && forall k :: 0 <= k < i ==> KnownIfOpening(fills[k], p, orders)
    requires !Clean(fills[i], p) || (KnownIfOpening(fills[i], p, orders) && !Unbroken(fills, p.direction, i))
    ensures !StopsAtUnknown(fills, p, orders) && !Complete(fills, p)
  {
    forall j | 0 <= j < |fills|
      ensures !UnknownAt(fills, p, orders, j)
    {
    }
  }

  /** The part of `reconcile` that reads the executions. It reconciles exactly
      the complete lists whose opening orders are all known. */
  method CheckExecutions(fills: seq<Fill>, p: Position, orders: map<string, Order>) returns (v: Verdict)
    ensures v.Reconciled? <==> Complete(fills, p) && AllKnown(fills, p, orders)
    ensures v.Reconciled? ==>
              && v.openingIds == (set f | f in fills && f.side == p.direction :: f.orderId)
              && v.closingIds == (set f | f in fills && f.side != p.direction :: f.orderId)
              && v.contracts == Qty(fills, p.direction, true) && Fees(fills) == Some(v.fees)
    ensures v.UnknownOpening? <==> StopsAtUnknown(fills, p, orders)
    ensures v.Reconciled? || v.UnknownOpening? || v.Unconfirmed?
    ensures Complete(fills, p) ==> !v.Unconfirmed?
  {
    if |fills| == 0 || p.direction.OtherSide? {
      return Unconfirmed;
    }
    var s := NO_SUMS;
    var i := 0;
    while i < |fills|
      invariant 0 <= i <= |fills| && Scanned(s, fills, i, p)
      invariant forall k :: 0 <= k < i ==> KnownIfOpening(fills[k], p, orders)
    {
      if !Clean(fills[i], p) {
        EndsBeforeUnknown(fills, p, orders, i);
        return Unconfirmed;
      }
      if !KnownIfOpening(fills[i], p, orders) {
        assert UnknownAt(fills, p, orders, i);
        return UnknownOpening;
      }
      var next := AddFill(s, fills[i], p.direction);
      ScanStep(s, fills, i, p, next);
      s := next;
      if s.balance < 0.0 || (s.balance == 0.0 && i != |fills| - 1) {
        EndsBeforeUnknown(fills, p, orders, i);
        return Unconfirmed;
      }
      i := i + 1;
    }
    assert AllKnown(fills, p, orders);
    v := Conclude(fills, p, s);
  }

  // ---- The fast path ----

  predicate Before(a: Fill, b: Fill) {
    a.tradeTime < b.tradeTime || (a.tradeTime == b.tradeTime && a.tradeId <= b.tradeId)
  }

  ghost predicate InOrder(fills: seq<Fill>) {
    forall i, j :: 0 <= i < j < |fills| ==> Before(fills[i], fills[j])
  }

  /** Insert into an ordered list, behind everything that comes before. */
  method Insert(fills: seq<Fill>, f: Fill) returns (r: seq<Fill>)
    requires InOrder(fills)
    ensures InOrder(r) && multiset(r) == multiset(fills) + multiset{f}
  {
    var k := |fills|;
    while k > 0 && !Before(fills[k - 1], f)
      invariant 0 <= k <= |fills|
      invariant forall i :: k <= i < |fills| ==> Before(f, fills[i])
    {
      k := k - 1;
    }
    assert forall i :: 0 <= i < k ==> Before(fills[i], fills[k - 1]) || i == k - 1;
    InsertedAt(fills, f, k);
    r := fills[..k] + [f] + fills[k..];
  }

  lemma InsertedAt(fills: seq<Fill>, f: Fill, k: nat)
    requires InOrder(fills) && k <= |fills|
    requires forall i :: 0 <= i < k ==> Before(fills[i], f)
    requires forall i :: k <= i < |fills| ==> Before(f, fills[i])
    ensures InOrder(fills[..k] + [f] + fills[k..])
    ensures multiset(fills[..k] + [f] + fills[k..]) == multiset(fills) + multiset{f}
  {
    assert fills == fills[..k] + fills[k..];
    var r := fills[..k] + [f] + fills[k..];
    forall i, j | 0 <= i < j < |r|
      ensures Before(r[i], r[j])
    {
      assert r[i] == (if i < k then fills[i] else if i == k then f else fills[i - 1]);
      assert r[j] == (if j < k then fills[j] else if j == k then f else fills[j - 1]);
    }
  }

  ghost predicate EachTradeOnce(fills: seq<Fill>) {
    forall i, j :: 0 <= i < j < |fills| ==> fills[i].tradeId != fills[j].tradeId
  }

  predicate InWindow(f: Fill, p: Position) {
    p.openTime - 2000 <= Millis(f) <= p.closeTime + 2000
  }

  /** Every row has an order, and no trade comes in two versions. */
  ghost predicate NoConflict(rows: set<Fill>) {
    && (forall f :: f in rows ==> f.orderId != "")
    && (forall f, g :: f in rows && g in rows && f.tradeId == g.tradeId ==> f == g)
  }

  /** A list in order that holds each of these rows once. */
  ghost predicate Lists(fills: seq<Fill>, rows: set<Fill>) {
    InOrder(fills) && EachTradeOnce(fills) && NoConflict(rows) && forall f :: f in fills <==> f in rows
  }

  ghost function Elements(fills: seq<Fill>): set<Fill> {
    set f | f in fills
  }

  /** Record one row by its trade id; a row without an order, or a second
      version of a trade, spoils the evidence. */
  method AddRow(fills: seq<Fill>, f: Fill, ghost rows: set<Fill>) returns (r: Option<seq<Fill>>)
    requires Lists(fills, rows)
    ensures r.Some? <==> NoConflict(rows + {f})
    ensures r.Some? ==> Lists(r.value, rows + {f})
  {
    if f.orderId == "" || exists g :: g in fills && g.tradeId == f.tradeId && g != f {
      return None;
    }
    if f in fills {
      return Some(fills);
    }
    var more := Insert(fills, f);
    InsertedOnce(fills, f, more);
    r := Some(more);
  }

  /** Record more rows, all or none. */
  method AddRows(fills: seq<Fill>, items: seq<Fill>, ghost rows: set<Fill>) returns (r: Option<seq<Fill>>)
    requires Lists(fills, rows)
    ensures r.Some? <==> NoConflict(rows + Elements(items))
    ensures r.Some? ==> Lists(r.value, rows + Elements(items))
  {
    var all := fills;
    var k := 0;
    while k < |items|
      invariant 0 <= k <= |items|
      invariant Lists(all, rows + Elements(items[..k]))
    {
      assert rows + Elements(items[..k]) + {items[k]} == rows + Elements(items[..k + 1]);
      var more := AddRow(all, items[k], rows + Elements(items[..k]));
      if more.None? {
        assert rows + Elements(items[..k + 1]) <= rows + Elements(items);
        return None;
      }
      all := more.value;
      k := k + 1;
    }
    assert items[..k] == items;
    r := Some(all);
  }

  function InTheWindow(data: seq<Fill>, p: Position): seq<Fill> {
    if |data| == 0 then [] else (if InWindow(data[0], p) then [data[0]] else []) + InTheWindow(data[1..], p)
  }

  lemma {:induction false} WindowMeans(data: seq<Fill>, p: Position)
    ensures forall f :: f in InTheWindow(data, p) <==> f in data && InWindow(f, p)
  {
    if |data| == 0 {
    } else {
      WindowMeans(data[1..], p);
      assert forall f :: f in data <==> f == data[0] || f in data[1..];
    }
  }

  /** The rows of the position's window, each trade once, in order. */
  method CollectRecent(data: seq<Fill>, p: Position) returns (r: Option<seq<Fill>>)
    ensures r.Some? <==> NoConflict(set f | f in data && InWindow(f, p))
    ensures r.Some? ==> Lists(r.value, set f | f in data && InWindow(f, p))
  {
    WindowMeans(data, p);
    assert {} + Elements(InTheWindow(data, p)) == set f | f in data && InWindow(f, p);
    r := AddRows([], InTheWindow(data, p), {});
  }

  lemma InsertedOnce(rows: seq<Fill>, f: Fill, more: seq<Fill>)
    requires multiset(more) == multiset(rows) + multiset{f}
    requires EachTradeOnce(rows) && forall g :: g in rows ==> g.tradeId != f.tradeId
    ensures EachTradeOnce(more) && forall g :: g in more <==> g in rows || g == f
  {
    forall g
      ensures g in more <==> g in rows || g == f
    {
      assert g in more <==> g in multiset(more);
      assert g in rows <==> g in multiset(rows);
    }
    forall i, j | 0 <= i < j < |more|
      ensures more[i].tradeId != more[j].tradeId
    {
      assert more[i] in more && more[j] in more;
      NoRepetition(rows, f, more, i, j);
      if more[i] in rows && more[j] in rows {
        var x :| 0 <= x < |rows| && rows[x] == more[i];
        var y :| 0 <= y < |rows| && rows[y] == more[j];
        assert x < y || y < x;
      }
    }
  }

  lemma NoRepetition(rows: seq<Fill>, f: Fill, more: seq<Fill>, i: nat, j: nat)
    requires multiset(more) == multiset(rows) + multiset{f}
    requires EachTradeOnce(rows) && f !in rows
    requires i < j < |more|
    ensures more[i] != more[j]
  {
    if more[i] == more[j] {
      TwiceInSequence(more, i, j);
      OnceInSequence(rows, more[i]);
      assert false;
    }
  }

  lemma TwiceInSequence(s: seq<Fill>, i: nat, j: nat)
    requires i < j < |s| && s[i] == s[j]
    ensures multiset(s)[s[i]] >= 2
  {
    assert s == s[..j] + [s[j]] + s[j + 1..];
    assert s[i] in s[..j];
    assert multiset(s)[s[i]] == multiset(s[..j])[s[i]] + 1 + multiset(s[j + 1..])[s[i]];
  }

  lemma {:induction false} OnceInSequence(s: seq<Fill>, f: Fill)
    requires EachTradeOnce(s)
    ensures multiset(s)[f] <= 1
    decreases |s|
  {
    if |s| == 0 {
    } else {
      var n := |s| - 1;
      assert s == s[..n] + [s[n]];
      OnceInSequence(s[..n], f);
      if s[n] == f {
        assert f !in s[..n];
      }
    }
  }

  lemma LastIsLast(a: seq<Fill>, f: Fill)
    requires InOrder(a) && EachTradeOnce(a) && f in a
    ensures f == a[|a| - 1] || (Before(f, a[|a| - 1]) && f.tradeId != a[|a| - 1].tradeId)
  {
    var i :| 0 <= i < |a| && a[i] == f;
    if i < |a| - 1 {
      assert a[i].tradeId != a[|a| - 1].tradeId;
      assert Before(a[i], a[|a| - 1]);
    }
  }

  lemma SameLast(a: seq<Fill>, b: seq<Fill>, rows: set<Fill>)
    requires Lists(a, rows) && Lists(b, rows) && |a| == |b| > 0
    ensures a[|a| - 1] == b[|a| - 1]
  {
    var x, y := a[|a| - 1], b[|b| - 1];
    assert x in a && y in b;
    assert x in rows && y in rows;
    LastIsLast(a, y);
    LastIsLast(b, x);
  }

  lemma WithoutLast(a: seq<Fill>, rows: set<Fill>)
    requires Lists(a, rows) && |a| > 0
    ensures Lists(a[..|a| - 1], rows - {a[|a| - 1]})
  {
    var n := |a| - 1;
    forall i | 0 <= i < n
      ensures a[..n][i] != a[n]
    {
      assert a[i].tradeId != a[n].tradeId;
    }
    assert a == a[..n] + [a[n]];
    assert forall f :: f in a <==> f in a[..n] || f == a[n];
  }

  /** There is one list of given rows, each once, in order. */
  lemma ListsUnique(a: seq<Fill>, b: seq<Fill>, rows: set<Fill>)
    requires Lists(a, rows) && Lists(b, rows)
    ensures a == b
  {
    ListedSize(a, rows);
    ListedSize(b, rows);
    SameLists(a, b, rows);
  }

  lemma {:induction false} SameLists(a: seq<Fill>, b: seq<Fill>, rows: set<Fill>)
    requires Lists(a, rows) && Lists(b, rows) && |a| == |b|
    ensures a == b
    decreases |a|
  {
    if |a| == 0 {
    } else {
      var n := |a| - 1;
      SameLast(a, b, rows);
      WithoutLast(a, rows);
      WithoutLast(b, rows);
      SameLists(a[..n], b[..n], rows - {a[n]});
      SameAgain(a, b, n);
    }
  }

  lemma SameAgain(a: seq<Fill>, b: seq<Fill>, n: nat)
    requires |a| == |b| == n + 1 && a[..n] == b[..n] && a[n] == b[n]
    ensures a == b
  {
    assert a == a[..n] + [a[n]] && b == b[..n] + [b[n]];
  }

  ghost function WindowRows(data: seq<Fill>, p: Position): set<Fill> {
    set f | f in data && p.openTime - 2000 <= Millis(f) <= p.closeTime + 2000
  }

  /** The recent rows around a position that closed within the last day prove
      it, as this list. */
  ghost predicate RecentEvidence(fills: seq<Fill>, data: seq<Fill>, p: Position, nowMs: int) {
    && nowMs - 24 * 3600000 <= p.closeTime <= nowMs + 5000
    && Lists(fills, WindowRows(data, p)) && Complete(fills, p)
  }

  /** `recent_fills` answers exactly when the rows prove the position. */
  method RecentFills(data: seq<Fill>, p: Position, nowMs: int) returns (r: Option<seq<Fill>>)
    ensures r.Some? <==> exists fills :: RecentEvidence(fills, data, p, nowMs)
    ensures r.Some? ==> RecentEvidence(r.value, data, p, nowMs)
  {
    if p.closeTime > nowMs + 5000 || p.closeTime < nowMs - 24 * 3600000 {
      return None;
    }
    r := CollectRecent(data, p);
    assert WindowRows(data, p) == set f | f in data && InWindow(f, p);
    if r.Some? {
      var complete := RecentComplete(r.value, p);
      forall fills | RecentEvidence(fills, data, p, nowMs)
        ensures fills == r.value
      {
        ListsUnique(fills, r.value, WindowRows(data, p));
      }
      if !complete {
        r := None;
      } else {
        assert RecentEvidence(r.value, data, p, nowMs);
      }
    }
  }

  // ---- The paged path ----

  /** One reply of the paged endpoint, with the coverage it declares. */
  datatype Page = Page(current: int, total: int, count: int, items: seq<Fill>)

  /** Page k is numbered as requested and declares the first page's coverage. */
  predicate GoodPage(pages: seq<Page>, k: nat)
    requires k < |pages|
  {
    && pages[k].current == k + 1 && 0 <= pages[k].total <= 10 && pages[k].count >= 0
    && pages[k].total == pages[0].total && pages[k].count == pages[0].count
  }

  ghost predicate Agreed(pages: seq<Page>, n: nat)
    requires n <= |pages|
  {
    forall k :: 0 <= k < n ==> GoodPage(pages, k)
  }

  ghost function OnPages(pages: seq<Page>, n: nat): set<Fill>
    requires n <= |pages|
  {
    if n == 0 then {} else OnPages(pages, n - 1) + Elements(pages[n - 1].items)
  }

  /** The first n pages, and no fewer, cover what they declare: they agree,
      their rows do not conflict, and the trades are as many as declared. */
  ghost predicate Covered(pages: seq<Page>, n: nat)
    requires 0 < n <= |pages|
  {
    && n <= 10 && Agreed(pages, n) && pages[0].total <= n && (n > 1 ==> n - 1 < pages[0].total)
    && NoConflict(OnPages(pages, n)) && |OnPages(pages, n)| == pages[0].count
  }

  lemma {:induction false} OnPagesMeans(pages: seq<Page>, n: nat)
    requires n <= |pages|
    ensures forall f :: f in OnPages(pages, n) <==> exists k :: 0 <= k < n && f in pages[k].items
  {
    if n > 0 {
      OnPagesMeans(pages, n - 1);
    }
  }

  /** What covering pages are: numbered from one, all declaring the same one to
      ten pages and the same count, as many as they declare (one for none), with
      that many trades on them and no conflict. */
  lemma CoveredByPages(pages: seq<Page>, n: nat)
    requires 0 < n <= |pages|
    ensures Covered(pages, n) <==>
              && 0 <= pages[0].total <= 10 && n == (if pages[0].total == 0 then 1 else pages[0].total)
              && pages[0].count >= 0 && |OnPages(pages, n)| == pages[0].count
              && (forall k :: 0 <= k < n ==>
                                pages[k] == Page(k + 1, pages[0].total, pages[0].count, pages[k].items))
              && NoConflict(OnPages(pages, n))
    ensures forall f :: f in OnPages(pages, n) <==> exists k :: 0 <= k < n && f in pages[k].items
  {
    OnPagesMeans(pages, n);
    if Agreed(pages, n) {
      assert GoodPage(pages, 0);
      forall k | 0 <= k < n
        ensures pages[k] == Page(k + 1, pages[0].total, pages[0].count, pages[k].items)
      {
        assert GoodPage(pages, k);
      }
    }
    if 0 <= pages[0].total <= 10 && pages[0].count >= 0
       && forall k :: 0 <= k < n ==> pages[k] == Page(k + 1, pages[0].total, pages[0].count, pages[k].items)
    {
      forall k | 0 <= k < n
        ensures GoodPage(pages, k)
      {
        assert pages[k] == Page(k + 1, pages[0].total, pages[0].count, pages[k].items);
      }
    }
  }

  lemma {:induction false} PagesGrow(pages: seq<Page>, m: nat, n: nat)
    requires m <= n <= |pages|
    ensures OnPages(pages, m) <= OnPages(pages, n)
    decreases n
  {
    if m < n {
      PagesGrow(pages, m, n - 1);
    }
  }

  lemma {:induction false} ListedSize(fills: seq<Fill>, rows: set<Fill>)
    requires EachTradeOnce(fills) && forall f :: f in fills <==> f in rows
    ensures |fills| == |rows|
    decreases |fills|
  {
    if |fills| == 0 {
      assert rows == {};
    } else {
      var n := |fills| - 1;
      assert fills[n] in fills && fills[n] in rows;
      forall f
        ensures f in fills[..n] <==> f in rows - {fills[n]}
      {
        assert f in fills <==> f in fills[..n] || f == fills[n];
      }
      ListedSize(fills[..n], rows - {fills[n]});
    }
  }

  /** Some number of pages covers what they declare. */
  ghost predicate Coverable(pages: seq<Page>) {
    exists n :: 0 < n <= |pages| && Covered(pages, n)
  }

  /** The list is that of the covering pages. */
  ghost predicate Covers(fills: seq<Fill>, pages: seq<Page>) {
    exists n :: 0 < n <= |pages| && Covered(pages, n) && Lists(fills, OnPages(pages, n))
  }

  /** The first n pages were as they should be and more are needed. */
  ghost predicate Underway(pages: seq<Page>, n: nat) {
    n <= |pages| && n <= 10 && Agreed(pages, n) && (n > 0 ==> n < pages[0].total)
  }

  /** A page that is not as the first ones rules out every longer coverage. */
  lemma BadPage(pages: seq<Page>, n: nat)
    requires Underway(pages, n) && n < |pages|
    requires !GoodPage(pages, n) || !NoConflict(OnPages(pages, n + 1))
    ensures !Coverable(pages)
  {
    forall m | 0 < m <= |pages|
      ensures !Covered(pages, m)
    {
      if m > n {
        PagesGrow(pages, n + 1, m);
      }
    }
  }

  lemma LastPage(pages: seq<Page>, n: nat)
    requires n > 0 && Underway(pages, n - 1) && n <= |pages| && n <= 10 && Agreed(pages, n)
    requires n >= pages[0].total && NoConflict(OnPages(pages, n))
    ensures Coverable(pages) <==> |OnPages(pages, n)| == pages[0].count
    ensures Coverable(pages) ==> Covered(pages, n)
  {
    forall m | 0 < m <= |pages| && Covered(pages, m)
      ensures m == n
    {
    }
    if |OnPages(pages, n)| == pages[0].count {
      assert Covered(pages, n);
    }
  }

  lemma NoMorePages(pages: seq<Page>, n: nat)
    requires Underway(pages, n) && (n == |pages| || n == 10)
    ensures !Coverable(pages)
  {
  }

  /** The paged reading succeeds exactly when some number of pages covers what
      they declare; a page that was not received is not in the list. */
  method PagedFills(pages: seq<Page>) returns (r: Option<seq<Fill>>)
    ensures r.Some? <==> Coverable(pages)
    ensures r.Some? ==> Covers(r.value, pages)
  {
    var fills: seq<Fill> := [];
    var n := 0;
    while n < |pages| && n < 10
      invariant Underway(pages, n) && Lists(fills, OnPages(pages, n))
    {
      if !GoodPage(pages, n) {
        BadPage(pages, n);
        return None;
      }
      var more := AddRows(fills, pages[n].items, OnPages(pages, n));
      if more.None? {
        BadPage(pages, n);
        return None;
      }
      fills := more.value;
      n := n + 1;
      if n >= pages[n - 1].total {
        LastPage(pages, n);
        ListedSize(fills, OnPages(pages, n));
        return if |fills| == pages[n - 1].count then Some(fills) else None;
      }
    }
    NoMorePages(pages, n);
    r := None;
  }

  lemma CoversUnique(a: seq<Fill>, b: seq<Fill>, pages: seq<Page>)
    requires Covers(a, pages) && Covers(b, pages)
    ensures a == b
  {
    var m :| 0 < m <= |pages| && Covered(pages, m) && Lists(a, OnPages(pages, m));
    var n :| 0 < n <= |pages| && Covered(pages, n) && Lists(b, OnPages(pages, n));
    assert m == n;
    ListsUnique(a, b, OnPages(pages, m));
  }

  /** What `fills` reads: the recent rows where they prove the position, else
      the covering pages, for a position of at most a week. */
  ghost predicate Evidence(fills: seq<Fill>, p: Position, recent: seq<Fill>, nowMs: int, pages: seq<Page>) {
    && 0 <= p.closeTime - p.openTime <= 7 * 86400000
    && (RecentEvidence(fills, recent, p, nowMs)
        || (Covers(fills, pages) && forall other :: !RecentEvidence(other, recent, p, nowMs)))
  }

  lemma EvidenceUnique(a: seq<Fill>, b: seq<Fill>, p: Position, recent: seq<Fill>, nowMs: int, pages: seq<Page>)
    requires Evidence(a, p, recent, nowMs, pages) && Evidence(b, p, recent, nowMs, pages)
    ensures a == b
  {
    if RecentEvidence(a, recent, p, nowMs) {
      ListsUnique(a, b, WindowRows(recent, p));
    } else {
      CoversUnique(a, b, pages);
    }
  }

  /** `fills`: the fast path where it proves the position, else the pages. */
  method Fills(p: Position, recent: seq<Fill>, nowMs: int, pages: seq<Page>) returns (r: Option<seq<Fill>>, fast: bool)
    ensures r.Some? ==> 0 <= p.closeTime - p.openTime <= 7 * 86400000 && InOrder(r.value) && EachTradeOnce(r.value)
    ensures r.Some? ==> if fast then Complete(r.value, p) else Covers(r.value, pages)
    ensures r.None? ==> !fast
    ensures r.None? ==> p.closeTime < p.openTime || p.closeTime - p.openTime > 7 * 86400000 || !Coverable(pages)
    ensures r.Some? <==> exists fills :: Evidence(fills, p, recent, nowMs, pages)
    ensures r.Some? ==> Evidence(r.value, p, recent, nowMs, pages)
    ensures fast <==> r.Some? && RecentEvidence(r.value, recent, p, nowMs)
    ensures fast <==> 0 <= p.closeTime - p.openTime <= 7 * 86400000
                      && exists fills :: RecentEvidence(fills, recent, p, nowMs)
  {
    fast := false;
    if p.closeTime < p.openTime || p.closeTime - p.openTime > 7 * 86400000 {
      return None, false;
    }
    r := RecentFills(recent, p, nowMs);
    fast := r.Some?;
    if r.None? {
      r := PagedFills(pages);
    }
    assert r.Some? ==> Evidence(r.value, p, recent, nowMs, pages);
  }

  // ---- Reconciliation ----

  datatype Registry = Duplicate | Orders(byId: map<string, Order>)

  predicate Eligible(o: Order) {
    o.filled && o.bgx && o.orderId != ""
  }

  predicate SameEligible(a: Order, b: Order) {
    Eligible(a) && Eligible(b) && a.orderId == b.orderId
  }

  /** The bot's filled orders by order id; a repeated id is an error. */
  method IndexOrders(registry: seq<Order>) returns (r: Registry)
    ensures r.Duplicate? <==> exists i, j :: 0 <= i < j < |registry| && SameEligible(registry[i], registry[j])
    ensures r.Orders? ==> forall id :: id in r.byId ==>
            r.byId[id] in registry && Eligible(r.byId[id]) && r.byId[id].orderId == id
    ensures r.Orders? ==> forall o :: o in registry && Eligible(o) ==> o.orderId in r.byId && r.byId[o.orderId] == o
  {
    var byId: map<string, Order> := map[];
    var k := 0;
    while k < |registry|
      invariant 0 <= k <= |registry|
      invariant forall id :: id in byId ==>
                  exists i :: 0 <= i < k && registry[i] == byId[id] && Eligible(registry[i])
                            && registry[i].orderId == id
      invariant forall i :: 0 <= i < k && Eligible(registry[i]) ==>
                registry[i].orderId in byId && byId[registry[i].orderId] == registry[i]
      invariant forall i, j :: 0 <= i < j < k ==> !SameEligible(registry[i], registry[j])
    {
      var o := registry[k];
      if Eligible(o) {
        if o.orderId in byId {
          return Duplicate;
        }
        byId := byId[o.orderId := o];
      }
      k := k + 1;
    }
    r := Orders(byId);
  }

  predicate Overlaps(other: Position, p: Position) {
    other.closeId != p.closeId && other.symbol == p.symbol
    && other.openTime <= p.closeTime + 4000 && other.closeTime >= p.openTime - 4000
  }

  // ---- Whose position it is, from the registry and the history ----

  /** The bot's filled order behind an execution id. */
  predicate BotOrder(o: Order) {
    o.filled && o.bgx && o.orderId != ""
  }

  predicate ForSymbol(o: Order, p: Position) {
    Canonical(o.symbol) == Canonical(p.symbol)
  }

  ghost predicate HasBotOrder(registry: seq<Order>, p: Position) {
    exists o :: o in registry && BotOrder(o) && ForSymbol(o, p)
  }

  /** Two of the bot's orders share an id. */
  ghost predicate Ambiguous(registry: seq<Order>) {
    exists i, j :: 0 <= i < j < |registry| && BotOrder(registry[i]) && BotOrder(registry[j])
                   && registry[i].orderId == registry[j].orderId
  }

  /** No other position of the symbol comes within four seconds. */
  ghost predicate Alone(p: Position, history: seq<Position>) {
    forall h :: h in history && h.closeId != p.closeId && h.symbol == p.symbol ==>
                  h.openTime > p.closeTime + 4000 || h.closeTime < p.openTime - 4000
  }

  /** One of the bot's orders, of the position's symbol and side, opened. */
  ghost predicate OpenedByBot(f: Fill, p: Position, registry: seq<Order>) {
    exists o :: o in registry && BotOrder(o) && o.orderId == f.orderId && o.side == p.direction && ForSymbol(o, p)
  }

  ghost predicate AllByBot(fills: seq<Fill>, p: Position, registry: seq<Order>) {
    forall i :: 0 <= i < |fills| && fills[i].side == p.direction ==> OpenedByBot(fills[i], p, registry)
  }

  /** A foreign opening fill after nothing but sound ones. */
  ghost predicate MeetsForeign(fills: seq<Fill>, p: Position, registry: seq<Order>) {
    !p.direction.OtherSide?
    && exists i ::
      && 0 <= i < |fills| && fills[i].side == p.direction && Clean(fills[i], p) && !OpenedByBot(fills[i], p, registry)
      && AllByBot(fills[..i], p, registry)
      && forall k :: 0 <= k < i ==> Clean(fills[k], p) && Unbroken(fills, p.direction, k)
  }

  /** Which verdict it is; everything else is unconfirmed. */
  ghost predicate IsVerdict(
    v: Verdict, p: Position, history: seq<Position>, registry: seq<Order>, executions: Option<seq<Fill>>)
  {
    && !v.Pending?
    && (v.Overlapping? <==> !Alone(p, history))
    && (v.NoBotOrder? <==> Alone(p, history) && !Ambiguous(registry) && !HasBotOrder(registry, p))
    && (v.Reconciled? <==>
          && Alone(p, history) && !Ambiguous(registry)
          && executions.Some? && Complete(executions.value, p) && AllByBot(executions.value, p, registry))
    && (v.UnknownOpening? <==>
          && Alone(p, history) && !Ambiguous(registry) && HasBotOrder(registry, p)
          && executions.Some? && MeetsForeign(executions.value, p, registry))
  }

  lemma IndexMeans(f: Fill, p: Position, registry: seq<Order>, orders: map<string, Order>)
    requires forall id :: id in orders ==> orders[id] in registry && Eligible(orders[id]) && orders[id].orderId == id
    requires forall o :: o in registry && Eligible(o) ==> o.orderId in orders && orders[o.orderId] == o
    ensures KnownOpening(f, p, orders) <==> OpenedByBot(f, p, registry)
    ensures (exists id :: id in orders && Canonical(orders[id].symbol) == Canonical(p.symbol)) <==>
              HasBotOrder(registry, p)
  {
    if KnownOpening(f, p, orders) {
      assert BotOrder(orders[f.orderId]);
    }
    if id :| id in orders && Canonical(orders[id].symbol) == Canonical(p.symbol) {
      assert BotOrder(orders[id]) && ForSymbol(orders[id], p);
    }
    if o :| o in registry && BotOrder(o) && ForSymbol(o, p) {
      assert Eligible(o);
    }
  }

  lemma AmbiguousMeans(registry: seq<Order>)
    ensures Ambiguous(registry) <==> exists i, j :: 0 <= i < j < |registry| && SameEligible(registry[i], registry[j])
  {
    if i, j :| 0 <= i < j < |registry| && SameEligible(registry[i], registry[j]) {
      assert BotOrder(registry[i]) && BotOrder(registry[j]);
    }
    if i, j :| 0 <= i < j < |registry| && BotOrder(registry[i]) && BotOrder(registry[j])
               && registry[i].orderId == registry[j].orderId {
      assert SameEligible(registry[i], registry[j]);
    }
  }

  lemma ForeignMeans(fills: seq<Fill>, p: Position, registry: seq<Order>, orders: map<string, Order>)
    requires forall f :: KnownOpening(f, p, orders) <==> OpenedByBot(f, p, registry)
    ensures StopsAtUnknown(fills, p, orders) <==> MeetsForeign(fills, p, registry)
  {
    forall i | 0 <= i < |fills|
      ensures AllByBot(fills[..i], p, registry) <==> forall k :: 0 <= k < i ==> KnownIfOpening(fills[k], p, orders)
    {
      KnownBefore(fills, p, registry, orders, i);
    }
    if i :| 0 <= i < |fills| && UnknownAt(fills, p, orders, i) {
      assert AllByBot(fills[..i], p, registry);
    }
    if MeetsForeign(fills, p, registry) {
      var i :| && 0 <= i < |fills| && fills[i].side == p.direction && Clean(fills[i], p)
               && !OpenedByBot(fills[i], p, registry) && AllByBot(fills[..i], p, registry)
               && forall k :: 0 <= k < i ==> Clean(fills[k], p) && Unbroken(fills, p.direction, k);
      assert UnknownAt(fills, p, orders, i);
    }
  }

  lemma KnownBefore(fills: seq<Fill>, p: Position, registry: seq<Order>, orders: map<string, Order>, i: nat)
    requires i <= |fills| && forall f :: KnownOpening(f, p, orders) <==> OpenedByBot(f, p, registry)
    ensures AllByBot(fills[..i], p, registry) <==> forall k :: 0 <= k < i ==> KnownIfOpening(fills[k], p, orders)
  {
    assert forall k :: 0 <= k < i ==> fills[..i][k] == fills[k];
    if AllByBot(fills[..i], p, registry) {
      forall k | 0 <= k < i
        ensures KnownIfOpening(fills[k], p, orders)
      {
        assert fills[..i][k].side == p.direction ==> OpenedByBot(fills[..i][k], p, registry);
      }
    }
  }

  lemma CompleteHasOpening(fills: seq<Fill>, p: Position, registry: seq<Order>)
    requires Complete(fills, p) && AllByBot(fills, p, registry)
    ensures HasBotOrder(registry, p)
  {
    var i :| 0 <= i < |fills| && ((fills[i].side == p.direction) == true);
    assert OpenedByBot(fills[i], p, registry);
  }

  /** `reconcile` with the executions it was given, `None` when their reading
      failed. A position is attributed to the bot only if it stands alone in
      the history, its fills prove it completely, and the bot's filled orders
      opened all of it. */
  method Reconcile(p: Position, history: seq<Position>, registry: seq<Order>, executions: Option<seq<Fill>>)
      returns (v: Verdict)
    ensures IsVerdict(v, p, history, registry, executions)
    ensures executions.Some? && Complete(executions.value, p) && v.Unconfirmed? ==> Ambiguous(registry)
    ensures v.Reconciled? ==>
              var fills := executions.value;
              && v.openingIds == (set f | f in fills && f.side == p.direction :: f.orderId)
              && v.closingIds == (set f | f in fills && f.side != p.direction :: f.orderId)
              && v.contracts == Qty(fills, p.direction, true) && Fees(fills) == Some(v.fees)
  {
    var k := 0;
    while k < |history|
      invariant 0 <= k <= |history|
      invariant forall i :: 0 <= i < k ==> !Overlaps(history[i], p)
    {
      if Overlaps(history[k], p) {
        assert history[k] in history;
        return Overlapping;
      }
      k := k + 1;
    }
    assert Alone(p, history);
    AmbiguousMeans(registry);
    var orders := IndexOrders(registry);
    if orders.Duplicate? {
      return Unconfirmed;
    }
    forall f: Fill
      ensures KnownOpening(f, p, orders.byId) <==> OpenedByBot(f, p, registry)
      ensures (exists id :: id in orders.byId && Canonical(orders.byId[id].symbol) == Canonical(p.symbol)) <==>
                HasBotOrder(registry, p)
    {
      IndexMeans(f, p, registry, orders.byId);
    }
    if !exists id :: id in orders.byId && Canonical(orders.byId[id].symbol) == Canonical(p.symbol) {
      return NoBotOrder;
    }
    if executions.None? {
      return Unconfirmed;
    }
    v := CheckExecutions(executions.value, p, orders.byId);
    assert AllKnown(executions.value, p, orders.byId) <==> AllByBot(executions.value, p, registry);
    ForeignMeans(executions.value, p, registry, orders.byId);
    if Complete(executions.value, p) && AllByBot(executions.value, p, registry) {
      CompleteHasOpening(executions.value, p, registry);
    } else if Complete(executions.value, p) {
      CompleteOrForeign(executions.value, p, registry);
    }
  }

  /** The evidence a position has, or has not, is the list that was read. */
  lemma EvidenceIs(
    read: Option<seq<Fill>>, p: Position, history: seq<Position>, registry: seq<Order>, recent: seq<Fill>, nowMs: int,
    pages: seq<Page>, v: Verdict)
    requires read.Some? <==> exists fills :: Evidence(fills, p, recent, nowMs, pages)
    requires read.Some? ==> Evidence(read.value, p, recent, nowMs, pages)
    requires IsVerdict(v, p, history, registry, read)
    ensures v.Reconciled? <==>
              && Alone(p, history) && !Ambiguous(registry)
              && exists fills ::
                Evidence(fills, p, recent, nowMs, pages) && Complete(fills, p) && AllByBot(fills, p, registry)
    ensures v.UnknownOpening? <==>
              && Alone(p, history) && !Ambiguous(registry) && HasBotOrder(registry, p)
              && exists fills :: Evidence(fills, p, recent, nowMs, pages) && MeetsForeign(fills, p, registry)
    ensures read.Some? && Complete(read.value, p) && v.Unconfirmed? ==> Ambiguous(registry)
  {
    forall fills | Evidence(fills, p, recent, nowMs, pages)
      ensures read == Some(fills)
    {
      EvidenceUnique(fills, read.value, p, recent, nowMs, pages);
    }
    if read.Some? && Complete(read.value, p) && !AllByBot(read.value, p, registry) {
      CompleteOrForeign(read.value, p, registry);
    }
  }

  /** A complete list is not cut short by a foreign opening. */
  lemma CompleteOrForeign(fills: seq<Fill>, p: Position, registry: seq<Order>)
    requires Complete(fills, p) && !AllByBot(fills, p, registry)
    ensures MeetsForeign(fills, p, registry)
  {
    var n := FirstForeign(fills, p, registry, |fills|);
    assert forall i :: 0 <= i < n ==> fills[..n][i] == fills[i];
  }

  lemma {:induction false} FirstForeign(fills: seq<Fill>, p: Position, registry: seq<Order>, n: nat) returns (i: nat)
    requires n <= |fills| && !AllByBot(fills[..n], p, registry)
    ensures i < |fills| && fills[i].side == p.direction && !OpenedByBot(fills[i], p, registry)
    ensures AllByBot(fills[..i], p, registry)
    decreases n
  {
    assert fills[..|fills|] == fills;
    var j :| 0 <= j < n && fills[..n][j].side == p.direction && !OpenedByBot(fills[..n][j], p, registry);
    if AllByBot(fills[..j], p, registry) {
      i := j;
    } else {
      i := FirstForeign(fills, p, registry, j);
    }
  }

  /** The whole reconciliation with the executions it reads itself. The fast
      path refines the slow one: rows it accepts pass every later check on
      executions, so that the position is either fully reconciled or opened by
      an order the bot does not know. */
  method ReconcilePosition(p: Position, history: seq<Position>, registry: seq<Order>, recent: seq<Fill>, nowMs: int,
          pages: seq<Page>)
    returns (v: Verdict, fast: bool)
    ensures fast <==> 0 <= p.closeTime - p.openTime <= 7 * 86400000
                      && exists fills :: RecentEvidence(fills, recent, p, nowMs)
    ensures fast && v.Unconfirmed? ==> Ambiguous(registry)
    ensures v.Overlapping? <==> !Alone(p, history)
    ensures v.NoBotOrder? <==> Alone(p, history) && !Ambiguous(registry) && !HasBotOrder(registry, p)
    ensures v.Reconciled? <==>
              && Alone(p, history) && !Ambiguous(registry)
              && exists fills ::
                Evidence(fills, p, recent, nowMs, pages) && Complete(fills, p) && AllByBot(fills, p, registry)
    ensures v.UnknownOpening? <==>
              && Alone(p, history) && !Ambiguous(registry) && HasBotOrder(registry, p)
              && exists fills :: Evidence(fills, p, recent, nowMs, pages) && MeetsForeign(fills, p, registry)
    ensures v.Reconciled? ==>
              exists fills: seq<Fill> ::
                && Evidence(fills, p, recent, nowMs, pages)
                && v.openingIds == (set f | f in fills && f.side == p.direction :: f.orderId)
                && v.closingIds == (set f | f in fills && f.side != p.direction :: f.orderId)
                && v.contracts == Qty(fills, p.direction, true) && Fees(fills) == Some(v.fees)
  {
    var executions;
    executions, fast := Fills(p, recent, nowMs, pages);
    v := Reconcile(p, history, registry, executions);
    EvidenceIs(executions, p, history, registry, recent, nowMs, pages, v);
  }
}
