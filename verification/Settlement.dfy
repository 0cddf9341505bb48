/**
 Settling the trades of an insertion: the buffer is drained from its end, each trade
 updating two session orders and four balances. The closed form proved here does not
 mention the order of the trades.
 */
module Settlement {
  import opened Types
  import opened Seqs
  import opened Sums
  import opened BalancesSpec

  /** A settled trade with the accounts it was booked on. */
  datatype Settled = Settled(pair: AssetIdPair, tx: ObTransaction, maker: AccountId, taker: AccountId)

  datatype Ledger = Ledger(session: seq<PlacedOrder>, balances: Balances, log: seq<Settled>)

  // ---- the money a trade moves ----

  /** Multiplication of fixed-point numbers: the low 31 bits of the product are cut off. */
  function FixedMul(a: int, b: int): int {
    (a * b) / ONE
  }

  function PrimaryAmount(tx: ObTransaction): Balance {
    tx.volume * ONE
  }

  function SecondaryAmount(tx: ObTransaction): Balance {
    FixedMul(PrimaryAmount(tx), tx.price)
  }

  /** What the taker's primary balance gains; the maker's loses as much. */
  function PrimaryGain(tx: ObTransaction): Balance {
    if tx.takerSide.Bid? then PrimaryAmount(tx) else -PrimaryAmount(tx)
  }

  /** What the taker's secondary balance gains; the maker's loses as much. */
  function SecondaryGain(tx: ObTransaction): Balance {
    if tx.takerSide.Bid? then -SecondaryAmount(tx) else SecondaryAmount(tx)
  }

  // ---- settling ----

  function Record(session: seq<PlacedOrder>, pair: AssetIdPair, tx: ObTransaction): Settled
    requires tx.maker < |session| && tx.taker < |session|
  {
    Settled(pair, tx, session[tx.maker].account, session[tx.taker].account)
  }

  /** Both orders exist and differ, and so do the four balances. */
  predicate Addressable(l: Ledger, pair: AssetIdPair, tx: ObTransaction) {
    && tx.maker < |l.session| && tx.taker < |l.session| && tx.maker != tx.taker
    && l.balances.Disjoint(pair, l.session[tx.maker].account, l.session[tx.taker].account)
  }

  /** Settling goes through: nothing is missing, aliased or would underflow. */
  predicate CanSettle(l: Ledger, pair: AssetIdPair, tx: ObTransaction) {
    && Addressable(l, pair, tx)
    && tx.volume <= l.session[tx.maker].remaining
    && tx.volume <= l.session[tx.taker].remaining
  }

  function FillOrder(order: PlacedOrder, v: Volume): PlacedOrder
    requires v <= order.remaining
  {
    order.(remaining := order.remaining - v, status := if order.remaining == v then Filled else order.status)
  }

  function MoveFunds(b: Balances, e: Settled): Balances
    requires b.Disjoint(e.pair, e.maker, e.taker)
  {
    var pm, pt := b.Index(e.pair.primary, e.maker), b.Index(e.pair.primary, e.taker);
    var sm, st := b.Index(e.pair.secondary, e.maker), b.Index(e.pair.secondary, e.taker);
    b.(cells := b.cells[pt := b.cells[pt] + PrimaryGain(e.tx)]
                       [st := b.cells[st] + SecondaryGain(e.tx)]
                       [pm := b.cells[pm] - PrimaryGain(e.tx)]
                       [sm := b.cells[sm] - SecondaryGain(e.tx)])
  }

  function SettleOne(l: Ledger, pair: AssetIdPair, tx: ObTransaction): Ledger
    requires CanSettle(l, pair, tx)
  {
    var e := Record(l.session, pair, tx);
    Ledger(l.session[tx.maker := FillOrder(l.session[tx.maker], tx.volume)]
                    [tx.taker := FillOrder(l.session[tx.taker], tx.volume)],
           MoveFunds(l.balances, e),
           l.log + [e])
  }

  /** Drain the buffer, last trade first. None: a trade could not be settled and the exchange stops. */
  function Drain(l: Ledger, txs: seq<ObTransaction>, pair: AssetIdPair): Option<Ledger>
    decreases |txs|
  {
    if txs == [] then Some(l)
    else
      var tx := txs[|txs| - 1];
      if CanSettle(l, pair, tx) then Drain(SettleOne(l, pair, tx), txs[..|txs| - 1], pair) else None
  }

  // ---- closed form ----

  predicate Touches(tx: ObTransaction, id: OrderId) {
    tx.maker == id || tx.taker == id
  }

  function Share(id: OrderId): ObTransaction -> int {
    (tx: ObTransaction) => if Touches(tx, id) then tx.volume else 0
  }

  /** The volume the trades take from order `id`. */
  function Amount(txs: seq<ObTransaction>, id: OrderId): int {
    SumBy(txs, Share(id))
  }

  predicate Involved(txs: seq<ObTransaction>, id: OrderId) {
    exists tx :: tx in txs && Touches(tx, id)
  }

  lemma AmountBounds(txs: seq<ObTransaction>, id: OrderId)
    ensures Amount(txs, id) >= 0
    ensures forall i :: 0 <= i < |txs| && Touches(txs[i], id) ==> txs[i].volume <= Amount(txs, id)
  {
    SumByNonNegative(txs, Share(id));
    forall i | 0 <= i < |txs| && Touches(txs[i], id) ensures txs[i].volume <= Amount(txs, id) {
      assert Share(id)(txs[i]) == txs[i].volume;
    }
  }

  /** The change of cell `k` made by one settled trade, `n` being the number of accounts. */
  function CellFlow(n: nat, k: nat, e: Settled): int {
    (if k == n * e.pair.primary + e.taker then PrimaryGain(e.tx) else 0)
    + (if k == n * e.pair.secondary + e.taker then SecondaryGain(e.tx) else 0)
    - (if k == n * e.pair.primary + e.maker then PrimaryGain(e.tx) else 0)
    - (if k == n * e.pair.secondary + e.maker then SecondaryGain(e.tx) else 0)
  }

  function TxFlow(session: seq<PlacedOrder>, pair: AssetIdPair, n: nat, k: nat): ObTransaction -> int {
    (tx: ObTransaction) =>
      if tx.maker < |session| && tx.taker < |session| then CellFlow(n, k, Record(session, pair, tx)) else 0
  }

  /** The log entries of a drained buffer, in the order they are written. */
  function Recorded(session: seq<PlacedOrder>, pair: AssetIdPair, txs: seq<ObTransaction>): seq<Settled>
    requires forall tx :: tx in txs ==> tx.maker < |session| && tx.taker < |session|
  {
    if txs == [] then []
    else [Record(session, pair, txs[|txs| - 1])] + Recorded(session, pair, txs[..|txs| - 1])
  }

  lemma {:induction false} RecordedLength(session: seq<PlacedOrder>, pair: AssetIdPair, txs: seq<ObTransaction>)
    requires forall tx :: tx in txs ==> tx.maker < |session| && tx.taker < |session|
    ensures |Recorded(session, pair, txs)| == |txs|
  {
    if txs != [] {
      RecordedLength(session, pair, txs[..|txs| - 1]);
    }
  }

  /** The buffer is logged backwards. */
  lemma {:induction false} RecordedAt(session: seq<PlacedOrder>, pair: AssetIdPair, txs: seq<ObTransaction>, i: nat)
    requires forall tx :: tx in txs ==> tx.maker < |session| && tx.taker < |session|
    requires i < |txs|
    ensures |Recorded(session, pair, txs)| == |txs|
    ensures Recorded(session, pair, txs)[i] == Record(session, pair, txs[|txs| - 1 - i])
  {
    if i > 0 {
      RecordedAt(session, pair, txs[..|txs| - 1], i - 1);
    } else if |txs| > 1 {
      RecordedAt(session, pair, txs[..|txs| - 1], 0);
    }
  }

  lemma LoggedInBuffer(log: seq<Settled>, session: seq<PlacedOrder>, pair: AssetIdPair, txs: seq<ObTransaction>, i: nat)
    requires forall tx :: tx in txs ==> tx.maker < |session| && tx.taker < |session|
    requires i < |txs|
    ensures Record(session, pair, txs[i]) in log + Recorded(session, pair, txs)
  {
    var k := |txs| - 1 - i;
    RecordedAt(session, pair, txs, k);
    assert (log + Recorded(session, pair, txs))[|log| + k] == Record(session, pair, txs[i]);
  }

  predicate IsBooked(e: Settled, tx: ObTransaction, pair: AssetIdPair) {
    e.tx == tx && e.pair == pair
  }

  /** The log grew by two parts, the newer trades first, and each part backwards, all booked in this market. */
  predicate LoggedBackwards(before: seq<Settled>, log: seq<Settled>, pair: AssetIdPair,
                            older: seq<ObTransaction>, newer: seq<ObTransaction>) {
    && before <= log && |log| == |before| + |newer| + |older|
    && (forall k :: 0 <= k < |newer| ==> IsBooked(log[|before| + |newer| - 1 - k], newer[k], pair))
    && (forall k :: 0 <= k < |older| ==> IsBooked(log[|log| - 1 - k], older[k], pair))
  }

  lemma LoggedAt(before: seq<Settled>, session: seq<PlacedOrder>, pair: AssetIdPair, txs: seq<ObTransaction>, k: nat)
    requires forall tx :: tx in txs ==> tx.maker < |session| && tx.taker < |session|
    requires k < |txs|
    ensures var log := before + Recorded(session, pair, txs);
            |log| == |before| + |txs| && log[|log| - 1 - k] == Record(session, pair, txs[k])
  {
    RecordedAt(session, pair, txs, |txs| - 1 - k);
  }

  /** A buffer is logged backwards. */
  lemma BufferLogged(before: seq<Settled>, session: seq<PlacedOrder>, pair: AssetIdPair,
                     older: seq<ObTransaction>, newer: seq<ObTransaction>)
    requires forall tx :: tx in older + newer ==> tx.maker < |session| && tx.taker < |session|
    ensures LoggedBackwards(before, before + Recorded(session, pair, older + newer), pair, older, newer)
  {
    hide Recorded;
    var txs := older + newer;
    RecordedLength(session, pair, txs);
    var log := before + Recorded(session, pair, txs);
    assert before <= log && |log| == |before| + |newer| + |older|;
    forall k | 0 <= k < |newer| ensures IsBooked(log[|before| + |newer| - 1 - k], newer[k], pair) {
      LoggedAt(before, session, pair, txs, |older| + k);
      assert txs[|older| + k] == newer[k];
    }
    forall k | 0 <= k < |older| ensures IsBooked(log[|log| - 1 - k], older[k], pair) {
      LoggedAt(before, session, pair, txs, k);
      assert txs[k] == older[k];
    }
  }

  /** Same orders up to what settling may change. */
  predicate SameOwners(a: seq<PlacedOrder>, b: seq<PlacedOrder>) {
    |a| == |b| && forall i :: 0 <= i < |a| ==> a[i].account == b[i].account
  }

  lemma {:induction false} RecordedSame(a: seq<PlacedOrder>, b: seq<PlacedOrder>, pair: AssetIdPair,
                                        txs: seq<ObTransaction>)
    requires SameOwners(a, b)
    requires forall tx :: tx in txs ==> tx.maker < |a| && tx.taker < |a|
    ensures Recorded(a, pair, txs) == Recorded(b, pair, txs)
  {
    if txs != [] {
      RecordedSame(a, b, pair, txs[..|txs| - 1]);
    }
  }

  lemma {:induction false} TxFlowSame(a: seq<PlacedOrder>, b: seq<PlacedOrder>, pair: AssetIdPair, n: nat, k: nat,
                                      txs: seq<ObTransaction>)
    requires SameOwners(a, b)
    ensures SumBy(txs, TxFlow(a, pair, n, k)) == SumBy(txs, TxFlow(b, pair, n, k))
  {
    if txs != [] {
      TxFlowSame(a, b, pair, n, k, txs[..|txs| - 1]);
    }
  }

  /** One settlement: the two orders, the four cells and the log change, nothing else. */
  lemma SettleOneEffect(l: Ledger, pair: AssetIdPair, tx: ObTransaction)
    requires CanSettle(l, pair, tx)
    ensures var r := SettleOne(l, pair, tx); var n := l.balances.accounts;
            && SameOwners(l.session, r.session)
            && (forall id :: 0 <= id < |l.session| ==>
                  r.session[id] == if Touches(tx, id) then FillOrder(l.session[id], tx.volume) else l.session[id])
            && r.balances.accounts == n && r.balances.assets == l.balances.assets
            && |r.balances.cells| == |l.balances.cells|
            && (forall k :: 0 <= k < |l.balances.cells| ==>
                  r.balances.cells[k] == l.balances.cells[k] + CellFlow(n, k, Record(l.session, pair, tx)))
  {}

  /** The order after the trades took `amount` from it. */
  function AfterTrades(order: PlacedOrder, amount: int, involved: bool): PlacedOrder
    requires 0 <= amount <= order.remaining
  {
    order.(remaining := order.remaining - amount,
           status := if involved && order.remaining == amount then Filled else order.status)
  }

  predicate Settleable(l: Ledger, txs: seq<ObTransaction>, pair: AssetIdPair) {
    && (forall i :: 0 <= i < |txs| ==> Addressable(l, pair, txs[i]))
    && (forall id :: 0 <= id < |l.session| ==> Amount(txs, id) <= l.session[id].remaining)
  }

  lemma AmountLast(txs: seq<ObTransaction>, id: OrderId)
    requires txs != []
    ensures var n := |txs| - 1;
            && Amount(txs, id) == Amount(txs[..n], id) + (if Touches(txs[n], id) then txs[n].volume else 0)
            && (Involved(txs, id) <==> Involved(txs[..n], id) || Touches(txs[n], id))
  {
    var n := |txs| - 1;
    assert txs == txs[..n] + [txs[n]];
  }

  lemma AddressableStep(l: Ledger, pair: AssetIdPair, tx: ObTransaction, other: ObTransaction)
    requires CanSettle(l, pair, tx)
    ensures Addressable(SettleOne(l, pair, tx), pair, other) <==> Addressable(l, pair, other)
  {
    SettleOneEffect(l, pair, tx);
  }

  lemma AmountStep(l: Ledger, txs: seq<ObTransaction>, pair: AssetIdPair, id: OrderId)
    requires txs != [] && CanSettle(l, pair, txs[|txs| - 1]) && id < |l.session|
    ensures Amount(txs, id) <= l.session[id].remaining
       <==> Amount(txs[..|txs| - 1], id) <= SettleOne(l, pair, txs[|txs| - 1]).session[id].remaining
  {
    SettleOneEffect(l, pair, txs[|txs| - 1]);
    AmountLast(txs, id);
  }

  /** Settling the last trade leaves the rest exactly as settleable as the whole was. */
  lemma SettleableStep(l: Ledger, txs: seq<ObTransaction>, pair: AssetIdPair)
    requires txs != [] && CanSettle(l, pair, txs[|txs| - 1])
    ensures Settleable(l, txs, pair)
       <==> Settleable(SettleOne(l, pair, txs[|txs| - 1]), txs[..|txs| - 1], pair)
  {
    var n := |txs| - 1;
    var r := SettleOne(l, pair, txs[n]);
    forall id | 0 <= id < |l.session|
      ensures Amount(txs, id) <= l.session[id].remaining <==> Amount(txs[..n], id) <= r.session[id].remaining
    {
      AmountStep(l, txs, pair, id);
    }
    forall i | 0 <= i < n
      ensures Addressable(r, pair, txs[..n][i]) <==> Addressable(l, pair, txs[i])
    {
      AddressableStep(l, pair, txs[n], txs[i]);
    }
  }

  /** The exchange gets through the drain exactly when every trade addresses different
      existing orders and balances, and no order gives more than it has left. */
  lemma {:induction false} DrainIff(l: Ledger, txs: seq<ObTransaction>, pair: AssetIdPair)
    ensures Drain(l, txs, pair).Some? <==> Settleable(l, txs, pair)
    decreases |txs|
  {
    if txs == [] {
      forall id: nat ensures Amount(txs, id) == 0 {}
    } else {
      var n := |txs| - 1;
      var tx := txs[n];
      if CanSettle(l, pair, tx) {
        DrainIff(SettleOne(l, pair, tx), txs[..n], pair);
        SettleableStep(l, txs, pair);
      } else {
        AmountBounds(txs, tx.maker);
        AmountBounds(txs, tx.taker);
      }
    }
  }

  /** Sizes and owners are untouched by a drain. */
  lemma {:induction false} DrainFrame(l: Ledger, txs: seq<ObTransaction>, pair: AssetIdPair)
    requires Drain(l, txs, pair).Some?
    ensures var r := Drain(l, txs, pair).value;
            && SameOwners(l.session, r.session)
            && r.balances.accounts == l.balances.accounts && r.balances.assets == l.balances.assets
            && |r.balances.cells| == |l.balances.cells|
    decreases |txs|
  {
    if txs != [] {
      var n := |txs| - 1;
      SettleOneEffect(l, pair, txs[n]);
      DrainFrame(SettleOne(l, pair, txs[n]), txs[..n], pair);
    }
  }

  lemma UninvolvedAmount(txs: seq<ObTransaction>, id: OrderId)
    requires !Involved(txs, id)
    ensures Amount(txs, id) == 0
  {
    forall i | 0 <= i < |txs| ensures Share(id)(txs[i]) == 0 {
      assert txs[i] in txs;
    }
    SumByZero(txs, Share(id));
  }

  lemma TradesCompose(order: PlacedOrder, v: Volume, amount: int, involved: bool)
    requires 0 <= amount && v <= order.remaining && amount <= order.remaining - v
    requires !involved ==> amount == 0
    ensures AfterTrades(FillOrder(order, v), amount, involved) == AfterTrades(order, amount + v, true)
  {}

  /** An order after a drain: it gave the total of its trades, in whatever order they came. */
  lemma {:induction false} DrainOrder(l: Ledger, txs: seq<ObTransaction>, pair: AssetIdPair, id: OrderId)
    requires Drain(l, txs, pair).Some? && id < |l.session|
    ensures |Drain(l, txs, pair).value.session| == |l.session|
    ensures 0 <= Amount(txs, id) <= l.session[id].remaining
    ensures Drain(l, txs, pair).value.session[id] == AfterTrades(l.session[id], Amount(txs, id), Involved(txs, id))
    decreases |txs|
  {
    if txs != [] {
      var n := |txs| - 1;
      var s := SettleOne(l, pair, txs[n]);
      SettleOneEffect(l, pair, txs[n]);
      DrainOrder(s, txs[..n], pair, id);
      AmountLast(txs, id);
      if Touches(txs[n], id) {
        if !Involved(txs[..n], id) { UninvolvedAmount(txs[..n], id); }
        TradesCompose(l.session[id], txs[n].volume, Amount(txs[..n], id), Involved(txs[..n], id));
      }
    }
  }

  /** The trades that were drained all name existing orders. */
  lemma DrainKnown(l: Ledger, txs: seq<ObTransaction>, pair: AssetIdPair)
    requires Drain(l, txs, pair).Some?
    ensures forall tx :: tx in txs ==> Addressable(l, pair, tx)
    ensures forall tx :: tx in txs ==> tx.maker < |l.session| && tx.taker < |l.session|
  {
    DrainIff(l, txs, pair);
  }

  /** The log grows by one entry per trade. */
  lemma {:induction false} DrainLog(l: Ledger, txs: seq<ObTransaction>, pair: AssetIdPair)
    requires Drain(l, txs, pair).Some?
    requires forall tx :: tx in txs ==> tx.maker < |l.session| && tx.taker < |l.session|
    ensures Drain(l, txs, pair).value.log == l.log + Recorded(l.session, pair, txs)
    decreases |txs|
  {
    if txs != [] {
      var n := |txs| - 1;
      var s := SettleOne(l, pair, txs[n]);
      SettleOneEffect(l, pair, txs[n]);
      DrainLog(s, txs[..n], pair);
      RecordedSame(l.session, s.session, pair, txs[..n]);
      ConcatAssociative(l.log, [Record(l.session, pair, txs[n])], Recorded(l.session, pair, txs[..n]));
    }
  }

  /** A balance after a drain: it moved by the sum of the flows the trades cause in its cell. */
  lemma {:induction false} DrainCell(l: Ledger, txs: seq<ObTransaction>, pair: AssetIdPair, k: nat)
    requires Drain(l, txs, pair).Some? && k < |l.balances.cells|
    ensures |Drain(l, txs, pair).value.balances.cells| == |l.balances.cells|
    ensures Drain(l, txs, pair).value.balances.cells[k]
         == l.balances.cells[k] + SumBy(txs, TxFlow(l.session, pair, l.balances.accounts, k))
    decreases |txs|
  {
    if txs != [] {
      var n := |txs| - 1;
      var s := SettleOne(l, pair, txs[n]);
      SettleOneEffect(l, pair, txs[n]);
      DrainCell(s, txs[..n], pair, k);
      TxFlowSame(l.session, s.session, pair, l.balances.accounts, k, txs[..n]);
    }
  }

  lemma SettleablePermutation(l: Ledger, txs: seq<ObTransaction>, txs': seq<ObTransaction>, pair: AssetIdPair)
    requires multiset(txs) == multiset(txs') && Settleable(l, txs, pair)
    ensures Settleable(l, txs', pair)
  {
    forall i | 0 <= i < |txs'| ensures Addressable(l, pair, txs'[i]) {
      assert txs'[i] in multiset(txs);
    }
    forall id | 0 <= id < |l.session| ensures Amount(txs', id) <= l.session[id].remaining {
      SumByPermutation(txs, txs', Share(id));
    }
  }

  /** Draining in any other order ends the same way: both fail, or both give the same
      orders and the same balances. */
  lemma SettlementOrderIrrelevant(l: Ledger, txs: seq<ObTransaction>, txs': seq<ObTransaction>, pair: AssetIdPair)
    requires multiset(txs) == multiset(txs')
    ensures Drain(l, txs, pair).Some? <==> Drain(l, txs', pair).Some?
    ensures Drain(l, txs, pair).Some? ==>
              var r, r' := Drain(l, txs, pair).value, Drain(l, txs', pair).value;
              r.session == r'.session && r.balances == r'.balances
  {
    DrainIff(l, txs, pair);
    DrainIff(l, txs', pair);
    if Settleable(l, txs, pair) { SettleablePermutation(l, txs, txs', pair); }
    if Settleable(l, txs', pair) { SettleablePermutation(l, txs', txs, pair); }
    if Drain(l, txs, pair).Some? {
      DrainFrame(l, txs, pair);
      DrainFrame(l, txs', pair);
      forall id | 0 <= id < |l.session|
        ensures Drain(l, txs, pair).value.session[id] == Drain(l, txs', pair).value.session[id]
      {
        SameOrderEitherWay(l, txs, txs', pair, id);
      }
      forall k | 0 <= k < |l.balances.cells|
        ensures Drain(l, txs, pair).value.balances.cells[k] == Drain(l, txs', pair).value.balances.cells[k]
      {
        DrainCell(l, txs, pair, k);
        DrainCell(l, txs', pair, k);
        SumByPermutation(txs, txs', TxFlow(l.session, pair, l.balances.accounts, k));
      }
    }
  }

  lemma SameOrderEitherWay(l: Ledger, txs: seq<ObTransaction>, txs': seq<ObTransaction>, pair: AssetIdPair, id: OrderId)
    requires multiset(txs) == multiset(txs') && id < |l.session|
    requires Drain(l, txs, pair).Some? && Drain(l, txs', pair).Some?
    ensures |Drain(l, txs, pair).value.session| == |Drain(l, txs', pair).value.session| == |l.session|
    ensures Drain(l, txs, pair).value.session[id] == Drain(l, txs', pair).value.session[id]
  {
    DrainOrder(l, txs, pair, id);
    DrainOrder(l, txs', pair, id);
    SumByPermutation(txs, txs', Share(id));
    assert forall tx :: tx in txs <==> tx in multiset(txs);
    assert forall tx :: tx in txs' <==> tx in multiset(txs');
  }
}
