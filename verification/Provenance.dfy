/**
 Where resting orders and waiting trades come from, in every reachable state: also after
 self-trades, when books and session table no longer agree on volumes.
 */
module Provenance {
  import opened Types
  import opened Seqs
  import opened Sums
  import opened BookSpec
  import opened Matching
  import opened MatchingFacts
  import opened BookFacts
  import opened Settlement
  import opened ExchangeSpec
  import opened Soundness
  import opened Tracking
  import opened InsertTracking

  // ---- offers and what operations leave of them ----

  predicate SameOrder(a: Offer, b: Offer) {
    a.price == b.price && a.entry.id == b.entry.id && a.entry.account == b.entry.account
  }

  /** Every offer of `after` is what is left of one of `before`. */
  predicate From(after: seq<Offer>, before: seq<Offer>) {
    forall k :: 0 <= k < |after| ==> exists j :: 0 <= j < |before| && SameOrder(after[k], before[j])
  }

  function OpenOf(id: OrderId): Offer -> int {
    (offer: Offer) => if offer.entry.id == id then offer.entry.volume else 0
  }

  /** The volume that rests under an id. */
  function IdVolume(offers: seq<Offer>, id: OrderId): int {
    SumBy(offers, OpenOf(id))
  }

  lemma IdVolumeBounds(offers: seq<Offer>, id: OrderId)
    ensures IdVolume(offers, id) >= 0
    ensures !HasOffer(offers, id) ==> IdVolume(offers, id) == 0
  {
    SumByNonNegative(offers, OpenOf(id));
    if !HasOffer(offers, id) { SumByZero(offers, OpenOf(id)); }
  }

  lemma ShrunkFrom(offers: seq<Offer>, k: nat, reduction: Volume)
    requires k < |offers|
    ensures From(ShrinkOffer(offers, k, reduction), offers) && From(RemoveAt(offers, k), offers)
  {
    var removed := RemoveAt(offers, k);
    forall i | 0 <= i < |removed| ensures exists j :: 0 <= j < |offers| && SameOrder(removed[i], offers[j]) {
      assert SameOrder(removed[i], offers[if i < k then i else i + 1]);
    }
    var shrunk := ShrinkOffer(offers, k, reduction);
    if reduction < offers[k].entry.volume {
      forall i | 0 <= i < |shrunk| ensures exists j :: 0 <= j < |offers| && SameOrder(shrunk[i], offers[j]) {
        assert SameOrder(shrunk[i], offers[i]);
      }
    }
  }

  lemma ShrunkVolume(offers: seq<Offer>, k: nat, reduction: Volume, id: OrderId)
    requires k < |offers|
    ensures IdVolume(ShrinkOffer(offers, k, reduction), id) <= IdVolume(offers, id)
    ensures IdVolume(RemoveAt(offers, k), id) <= IdVolume(offers, id)
  {
    SumByWithout(offers, k, OpenOf(id));
    if reduction < offers[k].entry.volume {
      SumByUpdate(offers, k, Reduced(offers[k], reduction), OpenOf(id));
    }
  }

  lemma {:induction false} GreedyFrom(offers: seq<Offer>, o: OrderInsertion, vol: Volume)
    ensures From(Greedy(offers, o, vol).rest, offers)
    decreases |offers|
  {
    var rest := Greedy(offers, o, vol).rest;
    if offers != [] && Crosses(o, offers[0].price) {
      var trade := TradeWith(o, offers[0], vol);
      if offers[0].entry.account != o.account && vol != trade.volume {
        GreedyFrom(offers[1..], o, vol - trade.volume);
        forall k | 0 <= k < |rest| ensures exists j :: 0 <= j < |offers| && SameOrder(rest[k], offers[j]) {
          var j :| 0 <= j < |offers[1..]| && SameOrder(rest[k], offers[1..][j]);
          assert SameOrder(rest[k], offers[j + 1]);
        }
      } else {
        var shift := |offers| - |rest|;
        forall k | 0 <= k < |rest| ensures exists j :: 0 <= j < |offers| && SameOrder(rest[k], offers[j]) {
          assert SameOrder(rest[k], offers[k + shift]);
        }
      }
    } else {
      forall k | 0 <= k < |rest| ensures exists j :: 0 <= j < |offers| && SameOrder(rest[k], offers[j]) {
        assert SameOrder(rest[k], offers[k]);
      }
    }
  }

  /** What is left under an id and what it traded is no more than what rested, self-trade or not. */
  lemma {:induction false} GreedyGives(offers: seq<Offer>, o: OrderInsertion, vol: Volume, id: OrderId)
    requires id != o.id
    ensures var g := Greedy(offers, o, vol);
            IdVolume(g.rest, id) + Amount(g.trades, id) <= IdVolume(offers, id)
    decreases |offers|
  {
    if offers != [] && Crosses(o, offers[0].price) {
      var trade := TradeWith(o, offers[0], vol);
      var after := Reduced(offers[0], trade.volume);
      SumByHead(offers, OpenOf(id));
      SumByHead([after] + offers[1..], OpenOf(id));
      assert ([after] + offers[1..])[1..] == offers[1..];
      assert [] + [trade] == [trade];
      SumByAppend([], trade, Share(id));
      if offers[0].entry.account != o.account && vol != trade.volume {
        GreedyGives(offers[1..], o, vol - trade.volume, id);
        SumByConcat([trade], Greedy(offers[1..], o, vol - trade.volume).trades, Share(id));
      }
    }
  }

  lemma FillFrom(side: Side, levels: seq<Level>, o: OrderInsertion, vol: Volume)
    ensures From(FillOf(side, levels, o, vol).rest, Offers(side, levels))
  {
    GreedyFrom(Offers(side, levels), o, vol);
    var offers := Offers(side, levels);
    assert forall k :: 0 <= k < |offers| ==> SameOrder(offers[k], offers[k]);
  }

  lemma FillGives(side: Side, levels: seq<Level>, o: OrderInsertion, vol: Volume, id: OrderId)
    requires id != o.id
    ensures var g := FillOf(side, levels, o, vol);
            IdVolume(g.rest, id) + Amount(g.trades, id) <= IdVolume(Offers(side, levels), id)
  {
    hide Greedy, Offers;
    GreedyGives(Offers(side, levels), o, vol, id);
  }

  // ---- what is known about resting orders and waiting trades ----

  /** The offer belongs to an accepted order of this market, side and price. */
  predicate Known(session: seq<PlacedOrder>, pair: AssetIdPair, side: Side, offer: Offer) {
    && offer.entry.id < |session|
    && var p := session[offer.entry.id];
       p.account == offer.entry.account && p.pair == pair && p.side == side && p.price == offer.price
  }

  predicate OffersKnown(session: seq<PlacedOrder>, pair: AssetIdPair, side: Side, offers: seq<Offer>) {
    forall k :: 0 <= k < |offers| ==> Known(session, pair, side, offers[k])
  }

  predicate MarketKnown(session: seq<PlacedOrder>, m: MarketState) {
    OffersKnown(session, m.pair, Bid, SideOffers(m, Bid)) && OffersKnown(session, m.pair, Ask, SideOffers(m, Ask))
  }

  predicate MarketsKnown(session: seq<PlacedOrder>, markets: seq<MarketState>) {
    forall m :: 0 <= m < |markets| ==> MarketKnown(session, markets[m])
  }

  /** A trade that waits for the next order: its other side is an accepted order, at that order's price. */
  predicate Waits(tx: ObTransaction, session: seq<PlacedOrder>) {
    && tx.maker < |session| && tx.taker == |session|
    && tx.price == session[tx.maker].price && tx.takerSide == session[tx.maker].side.Opposite()
  }

  predicate AllWait(buf: seq<ObTransaction>, session: seq<PlacedOrder>) {
    forall i :: 0 <= i < |buf| ==> Waits(buf[i], session)
  }

  /** Every resting order and every waiting trade stems from accepted orders. */
  predicate Traceable(s: State) {
    MarketsKnown(s.ledger.session, s.markets) && AllWait(s.buf, s.ledger.session)
  }

  lemma KnownFrom(session: seq<PlacedOrder>, pair: AssetIdPair, side: Side, after: seq<Offer>, before: seq<Offer>)
    requires OffersKnown(session, pair, side, before) && From(after, before)
    ensures OffersKnown(session, pair, side, after)
  {
    forall k | 0 <= k < |after| ensures Known(session, pair, side, after[k]) {
      var j :| 0 <= j < |before| && SameOrder(after[k], before[j]);
      assert Known(session, pair, side, before[j]);
    }
  }

  /** Records keep their owner, market, side and price. */
  predicate SameTerms(a: seq<PlacedOrder>, b: seq<PlacedOrder>) {
    && |a| <= |b|
    && forall id :: 0 <= id < |a| ==>
         b[id].account == a[id].account && b[id].pair == a[id].pair && b[id].side == a[id].side
             && b[id].price == a[id].price
  }

  lemma KnownFrame(a: seq<PlacedOrder>, b: seq<PlacedOrder>, pair: AssetIdPair, side: Side, offers: seq<Offer>)
    requires OffersKnown(a, pair, side, offers) && SameTerms(a, b)
    ensures OffersKnown(b, pair, side, offers)
  {
    forall k | 0 <= k < |offers| ensures Known(b, pair, side, offers[k]) {
      assert Known(a, pair, side, offers[k]);
    }
  }

  lemma PlaceKnown(session: seq<PlacedOrder>, pair: AssetIdPair, side: Side, offers: seq<Offer>, mine: Offer)
    requires OffersKnown(session, pair, side, offers) && Known(session, pair, side, mine)
    ensures OffersKnown(session, pair, side, Place(side, offers, mine))
  {
    var k := PlaceAt(side, offers, mine);
    InsertedAt(offers, k, mine);
  }

  lemma PlaceIdVolume(side: Side, offers: seq<Offer>, mine: Offer, id: OrderId)
    ensures IdVolume(Place(side, offers, mine), id) == IdVolume(offers, id) + OpenOf(id)(mine)
  {
    var k := PlaceAt(side, offers, mine);
    SumByConcat(offers[..k] + [mine], offers[k..], OpenOf(id));
    SumByAppend(offers[..k], mine, OpenOf(id));
    SumByConcat(offers[..k], offers[k..], OpenOf(id));
    assert offers[..k] + offers[k..] == offers;
  }

  /** Only offers of the record's own market and side carry its id. */
  lemma NotHere(session: seq<PlacedOrder>, pair: AssetIdPair, side: Side, offers: seq<Offer>, id: OrderId)
    requires OffersKnown(session, pair, side, offers)
    requires id < |session| ==> session[id].pair != pair || session[id].side != side
    ensures IdVolume(offers, id) == 0
  {
    forall k | 0 <= k < |offers| ensures offers[k].entry.id != id {
      assert Known(session, pair, side, offers[k]);
    }
    IdVolumeBounds(offers, id);
  }

  // ---- replacing a book ----

  lemma ReplacedKnown(session: seq<PlacedOrder>, session': seq<PlacedOrder>, markets: seq<MarketState>, m: nat,
                      market: MarketState)
    requires MarketsKnown(session, markets) && SameTerms(session, session') && m < |markets|
    requires MarketKnown(session', market)
    ensures MarketsKnown(session', markets[m := market])
  {
    hide Offers;
    var after := markets[m := market];
    forall i | 0 <= i < |after| ensures MarketKnown(session', after[i]) {
      if i != m {
        assert MarketKnown(session, markets[i]);
        KnownFrame(session, session', markets[i].pair, Bid, SideOffers(markets[i], Bid));
        KnownFrame(session, session', markets[i].pair, Ask, SideOffers(markets[i], Ask));
      }
    }
  }

  /** What is left of one side of a market, the other side being as before. */
  lemma OneSideKnown(session: seq<PlacedOrder>, session': seq<PlacedOrder>, before: MarketState, after: MarketState,
                     side: Side)
    requires MarketKnown(session, before) && SameTerms(session, session') && after.pair == before.pair
    requires OffersKnown(session', before.pair, side, SideOffers(after, side))
    requires after.book.Side(side.Opposite()) == before.book.Side(side.Opposite())
    ensures MarketKnown(session', after)
  {
    hide Offers;
    KnownFrame(session, session', before.pair, side.Opposite(), SideOffers(before, side.Opposite()));
  }

  // ---- cancelling and modifying ----

  lemma CancelTraceable(s: State, req: CancellationRequest)
    requires Sound(s) && Traceable(s)
    ensures Traceable(CancelOrder(s, req).state)
  {
    hide Offers, CancelIn, OffersKnown, From, UniqueMarkets;
    if CancelOrder(s, req).reply == CancelReply(Ok(())) {
      var p := s.ledger.session[req.orderId];
      var m := FindMarket(s.markets, p.pair).value;
      var s' := CancelOrder(s, req).state;
      assert BookOk(s.markets[m].book, |s.ledger.session|);
      var k := CancelOffers(p.side, s.markets[m].book.Side(p.side), p.price, req.orderId);
      assert MarketKnown(s.ledger.session, s.markets[m]);
      ShrunkFrom(SideOffers(s.markets[m], p.side), k, 0);
      KnownFrame(s.ledger.session, s'.ledger.session, p.pair, p.side, SideOffers(s.markets[m], p.side));
      KnownFrom(s'.ledger.session, p.pair, p.side, SideOffers(s'.markets[m], p.side), SideOffers(s.markets[m], p.side));
      OneSideKnown(s.ledger.session, s'.ledger.session, s.markets[m], s'.markets[m], p.side);
      ReplacedKnown(s.ledger.session, s'.ledger.session, s.markets, m, s'.markets[m]);
    }
  }

  lemma ModifyTraceable(s: State, req: ModificationRequest)
    requires Sound(s) && Traceable(s) && ModifyOrder(s, req).Done?
    ensures Traceable(ModifyOrder(s, req).state)
  {
    hide Offers, ModifyIn, OffersKnown, From, UniqueMarkets;
    if ModifyOrder(s, req).reply == ModifyReply(Ok(())) {
      var p := s.ledger.session[req.orderId];
      var m := FindMarket(s.markets, p.pair).value;
      var s' := ModifyOrder(s, req).state;
      assert BookOk(s.markets[m].book, |s.ledger.session|);
      var k := ModifyOffers(p.side, s.markets[m].book.Side(p.side), p.price, req.orderId, p.volume - req.newVolume);
      assert MarketKnown(s.ledger.session, s.markets[m]);
      ShrunkFrom(SideOffers(s.markets[m], p.side), k, p.volume - req.newVolume);
      KnownFrame(s.ledger.session, s'.ledger.session, p.pair, p.side, SideOffers(s.markets[m], p.side));
      KnownFrom(s'.ledger.session, p.pair, p.side, SideOffers(s'.markets[m], p.side), SideOffers(s.markets[m], p.side));
      OneSideKnown(s.ledger.session, s'.ledger.session, s.markets[m], s'.markets[m], p.side);
      ReplacedKnown(s.ledger.session, s'.ledger.session, s.markets, m, s'.markets[m]);
    }
  }

  // ---- matching ----

  /** The order gets as far as the matching loop of market `m`. */
  ghost predicate Filling(s: State, req: InsertionRequest, m: nat, o: OrderInsertion) {
    && Sound(s) && Traceable(s)
    && FindMarket(s.markets, req.pair) == Some(m) && req.account < s.accounts
    && o == req.IntoInsertion(|s.ledger.session|)
    && !FailsCheck(Insert(s.markets[m].book, o))
  }

  function FillIn(s: State, m: nat, o: OrderInsertion): GreedyFill
    requires m < |s.markets|
  {
    FillOf(o.side.Opposite(), s.markets[m].book.Side(o.side.Opposite()), o, o.volume)
  }

  /** The book after the insertion, in terms of the fill. */
  lemma FilledBook(s: State, req: InsertionRequest, m: nat, o: OrderInsertion)
    requires Filling(s, req, m, o)
    ensures var r := Insert(s.markets[m].book, o); var g := FillIn(s, m, o);
            var after := MarketAfter(s.markets[m], r);
            && r.trades == g.trades && (g.selfTrade <==> r.result == Err(SelfTrade))
            && (r.result.Ok? <==> !g.selfTrade)
            && (r.result.Ok? ==> r.result.value.0 == if g.left > 0 then AwaitingFill else Filled)
            && SideOffers(after, o.side.Opposite()) == g.rest
            && (g.selfTrade || g.left == 0 ==> SideOffers(after, o.side) == SideOffers(s.markets[m], o.side))
            && (!g.selfTrade && g.left > 0 ==>
                  SideOffers(after, o.side)
                  == Place(o.side, SideOffers(s.markets[m], o.side), Offer(o.price, EntryOf(o, g.left))))
  {
    hide Offers, FillOf, Insert;
    assert BookOk(s.markets[m].book, |s.ledger.session|);
    InsertIsFill(s.markets[m].book, o);
  }

  /** Trades of the fill wait for the order, with orders of other accounts on the opposite side. */
  lemma FillTrade(s: State, req: InsertionRequest, m: nat, o: OrderInsertion, i: nat)
    requires Filling(s, req, m, o) && i < |FillIn(s, m, o).trades|
    ensures var tx := FillIn(s, m, o).trades[i];
            && Waits(tx, s.ledger.session)
            && var p := s.ledger.session[tx.maker];
               p.account != o.account && p.pair == o.pair && p.side == o.side.Opposite() && Crosses(o, p.price)
  {
    hide Offers, Greedy;
    var side := o.side.Opposite();
    var offers := SideOffers(s.markets[m], side);
    GreedyTrades(offers, o, o.volume);
    assert TradesWith(FillIn(s, m, o).trades[i], offers[i], o);
    assert MarketKnown(s.ledger.session, s.markets[m]);
    assert Known(s.ledger.session, o.pair, side, offers[i]);
  }

  lemma FilledMarketKnown(s: State, req: InsertionRequest, m: nat, o: OrderInsertion, session': seq<PlacedOrder>)
    requires Filling(s, req, m, o) && SameTerms(s.ledger.session, session')
    requires var r := Insert(s.markets[m].book, o);
             r.result.Ok? ==> Known(session', o.pair, o.side, Offer(o.price, EntryOf(o, 0)))
    ensures MarketKnown(session', MarketAfter(s.markets[m], Insert(s.markets[m].book, o)))
  {
    hide Offers, FillOf, Insert, Sound;
    FilledBook(s, req, m, o);
    var side := o.side.Opposite();
    var g := FillIn(s, m, o);
    assert MarketKnown(s.ledger.session, s.markets[m]);
    KnownFrame(s.ledger.session, session', o.pair, side, SideOffers(s.markets[m], side));
    KnownFrame(s.ledger.session, session', o.pair, o.side, SideOffers(s.markets[m], o.side));
    FillFrom(side, s.markets[m].book.Side(side), o, o.volume);
    KnownFrom(session', o.pair, side, g.rest, SideOffers(s.markets[m], side));
    if !g.selfTrade && g.left > 0 {
      PlaceKnown(session', o.pair, o.side, SideOffers(s.markets[m], o.side), Offer(o.price, EntryOf(o, g.left)));
    }
  }

  // ---- accepted orders ----

  /** The insertion is accepted in this state. */
  ghost predicate AcceptsInsertion(s: State, req: InsertionRequest) {
    var r := InsertOrder(s, req);
    r.Done? && r.reply.InsertReply? && r.reply.inserted.Ok?
  }

  function MarketsAfter(s: State, m: nat, o: OrderInsertion): seq<MarketState>
    requires m < |s.markets|
  {
    s.markets[m := MarketAfter(s.markets[m], Insert(s.markets[m].book, o))]
  }

  /** The state after an accepted order that inherits whatever waits. */
  function Inheriting(s: State, req: InsertionRequest, m: nat, o: OrderInsertion): State
    requires m < |s.markets| && Drain(Placed(s, o), s.buf + FillIn(s, m, o).trades, o.pair).Some?
  {
    s.(markets := MarketsAfter(s, m, o), ledger := Drain(Placed(s, o), s.buf + FillIn(s, m, o).trades, o.pair).value,
       buf := [], requests := s.requests + [req])
  }

  /** An accepted insertion in terms of the fill: waiting trades and the order's own are settled together. */
  lemma InheritingOutcome(s: State, req: InsertionRequest) returns (m: nat, o: OrderInsertion)
    requires Sound(s) && Traceable(s) && AcceptsInsertion(s, req)
    ensures Filling(s, req, m, o) && !FillIn(s, m, o).selfTrade
    ensures Drain(Placed(s, o), s.buf + FillIn(s, m, o).trades, o.pair).Some?
    ensures InsertOrder(s, req).state == Inheriting(s, req, m, o)
    ensures InsertOrder(s, req).reply.inserted.value
            == (o.id, if FillIn(s, m, o).left > 0 then AwaitingFill else Filled)
    ensures var l, txs := Placed(s, o), s.buf + FillIn(s, m, o).trades;
            && (forall tx :: tx in txs ==> tx.maker < |l.session| && tx.taker < |l.session|)
            && InsertOrder(s, req).state.ledger.log == s.ledger.log + Recorded(l.session, o.pair, txs)
  {
    hide Offers, FillOf, Insert, Drain, Recorded, Sound, Traceable;
    m := FindMarket(s.markets, req.pair).value;
    o := req.IntoInsertion(|s.ledger.session|);
    FilledBook(s, req, m, o);
    DrainKnown(Placed(s, o), s.buf + FillIn(s, m, o).trades, o.pair);
    DrainLog(Placed(s, o), s.buf + FillIn(s, m, o).trades, o.pair);
  }

  lemma RefusedLedger(s: State, req: InsertionRequest)
    requires InsertOrder(s, req).Done? && !AcceptsInsertion(s, req)
    ensures InsertOrder(s, req).state.ledger == s.ledger && InsertOrder(s, req).state.requests == s.requests
  {
    hide Insert, Drain;
  }

  lemma InsertTraceable(s: State, req: InsertionRequest)
    requires Sound(s) && Traceable(s) && InsertOrder(s, req).Done?
    ensures Traceable(InsertOrder(s, req).state)
  {
    hide FillOf, Insert, Drain, MarketsKnown, Sound;
    var found := FindMarket(s.markets, req.pair);
    var o := req.IntoInsertion(|s.ledger.session|);
    if found.None? || req.account >= s.accounts || FailsCheck(Insert(s.markets[found.value].book, o)) {
      RejectedUnchanged(s, req);
    } else {
      var m := found.value;
      var s' := InsertOrder(s, req).state;
      var r := Insert(s.markets[m].book, o);
      FilledBook(s, req, m, o);
      forall i | 0 <= i < |r.trades| ensures Waits(r.trades[i], s.ledger.session) {
        FillTrade(s, req, m, o, i);
      }
      if r.result.Ok? {
        DrainedSession(Placed(s, o), s.buf + r.trades, req.pair);
      }
      FilledMarketKnown(s, req, m, o, s'.ledger.session);
      ReplacedKnown(s.ledger.session, s'.ledger.session, s.markets, m, MarketAfter(s.markets[m], r));
    }
  }

  lemma AddMarketTraceable(s: State, pair: AssetIdPair)
    requires Traceable(s)
    ensures Traceable(AddMarket(s, pair).state)
  {
    var s' := AddMarket(s, pair).state;
    forall m | 0 <= m < |s'.markets| ensures MarketKnown(s'.ledger.session, s'.markets[m]) {
      if m < |s.markets| {
        assert MarketKnown(s.ledger.session, s.markets[m]);
      }
    }
  }

  lemma StepTraceable(s: State, c: Command)
    requires Sound(s) && Traceable(s) && s.ledger.balances.Dense() && Step(s, c).Done?
    ensures Traceable(Step(s, c).state)
  {
    hide InsertOrder, CancelOrder, ModifyOrder, AddMarket, MarketsKnown, Sound;
    match c
    case AddMarketCmd(pair) => AddMarketTraceable(s, pair);
    case InsertCmd(req) => InsertTraceable(s, req);
    case CancelCmd(req) => CancelTraceable(s, req);
    case ModifyCmd(req) => ModifyTraceable(s, req);
    case _ =>
  }

  /** After every run, self-trades, modifications and named accounts included, every resting order has
      the owner, market, side and price of an accepted order, and every waiting trade was made with one. */
  lemma {:induction false} TraceableOverRuns(cmds: seq<Command>)
    requires Run(cmds).Running?
    ensures Traceable(Run(cmds).state)
    decreases |cmds|
  {
    hide Step, Traceable;
    if cmds == [] {
      assert Traceable(EMPTY_EXCHANGE) by { EmptyTraceable(); }
    } else {
      var n := |cmds| - 1;
      TraceableOverRuns(cmds[..n]);
      RunSound(cmds[..n]);
      StepTraceable(Run(cmds[..n]).state, cmds[n]);
    }
  }

  lemma EmptyTraceable()
    ensures Traceable(EMPTY_EXCHANGE)
  {}
}
