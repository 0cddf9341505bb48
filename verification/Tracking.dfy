/**
 The session table against the books. Without modifications every resting order agrees
 exactly with its record, and every live record rests; with modifications the record
 still bounds what rests, which is what settlement relies on.
 */
module Tracking {
  import opened Types
  import opened Seqs
  import opened Sums
  import opened BookSpec
  import opened Matching
  import opened MatchingFacts
  import opened BookFacts
  import opened BalancesSpec
  import opened Settlement
  import opened ExchangeSpec
  import opened Soundness

  // ---- the relation ----

  /** The offer has a record awaiting fill with the same owner, market, side and price,
      and no more open volume than recorded (exactly as much when `exact`). */
  predicate Matches(session: seq<PlacedOrder>, pair: AssetIdPair, side: Side, offer: Offer, exact: bool) {
    && offer.entry.id < |session|
    && var p := session[offer.entry.id];
    && p.account == offer.entry.account && p.pair == pair && p.side == side && p.price == offer.price
    && p.status.AwaitingFill?
    && 0 < offer.entry.volume <= p.remaining
    && (exact ==> offer.entry.volume == p.remaining)
  }

  predicate OffersMatch(session: seq<PlacedOrder>, pair: AssetIdPair, side: Side, offers: seq<Offer>, exact: bool) {
    forall k :: 0 <= k < |offers| ==> Matches(session, pair, side, offers[k], exact)
  }

  function SideOffers(m: MarketState, side: Side): seq<Offer> {
    Offers(side, m.book.Side(side))
  }

  predicate MarketMatches(session: seq<PlacedOrder>, m: MarketState, exact: bool) {
    && TidyBook(m.book)
    && OffersMatch(session, m.pair, Bid, SideOffers(m, Bid), exact)
    && OffersMatch(session, m.pair, Ask, SideOffers(m, Ask), exact)
  }

  /** Nothing waits in the trade buffer, and all resting orders match their records. */
  predicate Tracked(s: State, exact: bool) {
    && s.buf == []
    && forall m :: 0 <= m < |s.markets| ==> MarketMatches(s.ledger.session, s.markets[m], exact)
  }

  predicate Live(p: PlacedOrder) {
    p.status.AwaitingFill? && p.remaining > 0
  }

  predicate HasOffer(offers: seq<Offer>, id: OrderId) {
    exists k :: 0 <= k < |offers| && offers[k].entry.id == id
  }

  /** The order rests on its own side of its own market. */
  predicate Rests(session: seq<PlacedOrder>, markets: seq<MarketState>, id: OrderId)
    requires id < |session|
  {
    var m := FindMarket(markets, session[id].pair);
    m.Some? && HasOffer(SideOffers(markets[m.value], session[id].side), id)
  }

  predicate Complete(s: State) {
    forall id :: 0 <= id < |s.ledger.session| && Live(s.ledger.session[id]) ==> Rests(s.ledger.session, s.markets, id)
  }

  /** Books and session table say the same. */
  predicate Mirror(s: State) {
    Tracked(s, true) && Complete(s)
  }

  /** Balance book and exchange agree on what exists, as long as accounts come from `create_account`. */
  predicate Aligned(s: State) {
    && s.ledger.balances.Dense()
    && s.ledger.balances.accounts == s.accounts && s.ledger.balances.assets == s.assets
  }

  // ---- offers of one side have different ids ----

  predicate DistinctIds(offers: seq<Offer>) {
    forall i, j :: 0 <= i < j < |offers| ==> offers[i].entry.id != offers[j].entry.id
  }

  lemma MatchedAreDistinct(session: seq<PlacedOrder>, pair: AssetIdPair, side: Side, levels: seq<Level>, exact: bool)
    requires SideOk(levels, |session|) && OffersMatch(session, pair, side, Offers(side, levels), exact)
    ensures DistinctIds(Offers(side, levels))
  {
    var offers := Offers(side, levels);
    OffersInPriorityOrder(side, levels, |session|);
    forall i, j | 0 <= i < j < |offers|
      ensures offers[i].entry.id != offers[j].entry.id
    {
      assert Precedes(side, offers[i], offers[j]);
      assert Matches(session, pair, side, offers[i], exact) && Matches(session, pair, side, offers[j], exact);
    }
  }

  /** An offer's record changes nothing for offers with other ids. */
  lemma OffersMatchFrame(session: seq<PlacedOrder>, session': seq<PlacedOrder>, pair: AssetIdPair, side: Side,
                         offers: seq<Offer>, exact: bool)
    requires OffersMatch(session, pair, side, offers, exact) && |session| <= |session'|
    requires forall k :: 0 <= k < |offers| && offers[k].entry.id < |session| ==>
               session'[offers[k].entry.id] == session[offers[k].entry.id]
    ensures OffersMatch(session', pair, side, offers, exact)
  {
    forall k | 0 <= k < |offers| ensures Matches(session', pair, side, offers[k], exact) {
      assert Matches(session, pair, side, offers[k], exact);
    }
  }

  /** When only records of one side of one market change, all other offers still match. */
  lemma OtherSideMatches(session: seq<PlacedOrder>, session': seq<PlacedOrder>, pair: AssetIdPair, side: Side,
                         offers: seq<Offer>, exact: bool, changedPair: AssetIdPair, changedSide: Side)
    requires OffersMatch(session, pair, side, offers, exact) && |session| <= |session'|
    requires pair != changedPair || side != changedSide
    requires forall id :: 0 <= id < |session| ==>
               session[id].pair != changedPair || session[id].side != changedSide ==> session'[id] == session[id]
    ensures OffersMatch(session', pair, side, offers, exact)
  {
    forall k | 0 <= k < |offers| && offers[k].entry.id < |session|
      ensures session'[offers[k].entry.id] == session[offers[k].entry.id]
    {
      assert Matches(session, pair, side, offers[k], exact);
    }
    OffersMatchFrame(session, session', pair, side, offers, exact);
  }

  // ---- the trades of one insertion ----

  /** Trades of one insertion: different makers, none of them the taker. */
  predicate OneTaker(trades: seq<ObTransaction>, taker: OrderId) {
    && (forall i :: 0 <= i < |trades| ==> trades[i].taker == taker && trades[i].maker != taker)
    && (forall i, j :: 0 <= i < j < |trades| ==> trades[i].maker != trades[j].maker)
  }

  lemma {:induction false} TakerAmount(trades: seq<ObTransaction>, taker: OrderId)
    requires OneTaker(trades, taker)
    ensures Amount(trades, taker) == SumBy(trades, VolumeOf())
  {
    if trades != [] {
      TakerAmount(trades[..|trades| - 1], taker);
    }
  }

  lemma MakerAmount(trades: seq<ObTransaction>, taker: OrderId, i: nat)
    requires OneTaker(trades, taker) && i < |trades|
    ensures Amount(trades, trades[i].maker) == trades[i].volume
    ensures Involved(trades, trades[i].maker)
  {
    var id := trades[i].maker;
    var others := RemoveAt(trades, i);
    assert trades[i] in trades && Touches(trades[i], id);
    SumByWithout(trades, i, Share(id));
    forall j | 0 <= j < |others| ensures Share(id)(others[j]) == 0 {
      assert others[j] == trades[if j < i then j else j + 1];
    }
    SumByZero(others, Share(id));
  }

  lemma StrangerAmount(trades: seq<ObTransaction>, id: OrderId)
    requires forall i :: 0 <= i < |trades| ==> !Touches(trades[i], id)
    ensures Amount(trades, id) == 0 && !Involved(trades, id)
  {
    UninvolvedAmount(trades, id);
  }

  /** What an insertion into a tracked market works with. */
  ghost predicate Insertable(s: State, m: nat, o: OrderInsertion, exact: bool) {
    && Sound(s) && Tracked(s, exact) && Aligned(s)
    && m < |s.markets| && o.pair == s.markets[m].pair && o.pair.primary != o.pair.secondary
    && o.id == |s.ledger.session| && o.account < s.accounts
  }

  function Fills(s: State, m: nat, o: OrderInsertion): GreedyFill
    requires m < |s.markets|
  {
    Greedy(SideOffers(s.markets[m], o.side.Opposite()), o, o.volume)
  }

  function Placed(s: State, o: OrderInsertion): Ledger {
    s.ledger.(session := s.ledger.session + [PlacedOrder.FromInsertion(o)])
  }

  lemma OppositeOffers(s: State, m: nat, o: OrderInsertion, exact: bool)
    requires Insertable(s, m, o, exact)
    ensures var resting := o.side.Opposite(); var offers := SideOffers(s.markets[m], resting);
            OffersMatch(s.ledger.session, o.pair, resting, offers, exact) && DistinctIds(offers)
  {
    var resting := o.side.Opposite();
    assert MarketMatches(s.ledger.session, s.markets[m], exact);
    MatchedAreDistinct(s.ledger.session, o.pair, resting, s.markets[m].book.Side(resting), exact);
  }

  lemma TradesOneTaker(s: State, m: nat, o: OrderInsertion, exact: bool)
    requires Insertable(s, m, o, exact)
    ensures OneTaker(Fills(s, m, o).trades, o.id)
  {
    var offers := SideOffers(s.markets[m], o.side.Opposite());
    OppositeOffers(s, m, o, exact);
    GreedyTrades(offers, o, o.volume);
    var trades := Fills(s, m, o).trades;
    forall i | 0 <= i < |trades| ensures trades[i].taker == o.id && trades[i].maker == offers[i].entry.id < o.id {
      assert TradesWith(trades[i], offers[i], o);
      assert Matches(s.ledger.session, o.pair, o.side.Opposite(), offers[i], exact);
    }
  }

  lemma TradeAddressable(s: State, m: nat, o: OrderInsertion, exact: bool, i: nat)
    requires Insertable(s, m, o, exact) && i < |Fills(s, m, o).trades|
    ensures Addressable(Placed(s, o), o.pair, Fills(s, m, o).trades[i])
  {
    var offers := SideOffers(s.markets[m], o.side.Opposite());
    OppositeOffers(s, m, o, exact);
    GreedyTrades(offers, o, o.volume);
    assert Matches(s.ledger.session, o.pair, o.side.Opposite(), offers[i], exact);
    var maker := s.ledger.session[offers[i].entry.id];
    assert OrderOk(maker, offers[i].entry.id, s.requests[offers[i].entry.id], s.accounts, s.markets);
    FourCellsDisjoint(s.ledger.balances, o.pair, maker.account, o.account);
  }

  /** Position of the offer that trade `i` took from, and the amount it takes from each record. */
  lemma AmountCases(s: State, m: nat, o: OrderInsertion, exact: bool, id: OrderId) returns (i: nat)
    requires Insertable(s, m, o, exact) && id <= o.id
    requires !Fills(s, m, o).selfTrade
    ensures var g := Fills(s, m, o); var offers := SideOffers(s.markets[m], o.side.Opposite());
            && i <= |g.trades| <= |offers|
            && (id == o.id ==> Amount(g.trades, id) == o.volume - g.left && i == |g.trades|
                               && (Involved(g.trades, id) <==> g.trades != []))
            && (id < o.id && i < |g.trades| ==> offers[i].entry.id == id && Amount(g.trades, id) == g.trades[i].volume
                                                && Involved(g.trades, id))
            && (id < o.id && i == |g.trades| ==> Amount(g.trades, id) == 0 && !Involved(g.trades, id)
                                                 && forall j :: 0 <= j < i ==> offers[j].entry.id != id)
  {
    var offers := SideOffers(s.markets[m], o.side.Opposite());
    var trades := Fills(s, m, o).trades;
    GreedyTrades(offers, o, o.volume);
    GreedyRest(offers, o, o.volume);
    TradesOneTaker(s, m, o, exact);
    assert forall j :: 0 <= j < |trades| ==> TradesWith(trades[j], offers[j], o);
    i := |trades|;
    if id == o.id {
      TakerAmount(trades, o.id);
      if trades != [] { assert trades[0] in trades && Touches(trades[0], id); }
    } else if j :| 0 <= j < |trades| && trades[j].maker == id {
      i := j;
      MakerAmount(trades, o.id, j);
    } else {
      StrangerAmount(trades, id);
    }
  }

  /** A tracked exchange settles every trade of an insertion. */
  lemma InsertionSettles(s: State, m: nat, o: OrderInsertion, exact: bool)
    requires Insertable(s, m, o, exact) && !Fills(s, m, o).selfTrade
    ensures Settleable(Placed(s, o), Fills(s, m, o).trades, o.pair)
  {
    var l, g := Placed(s, o), Fills(s, m, o);
    var offers := SideOffers(s.markets[m], o.side.Opposite());
    forall i | 0 <= i < |g.trades| ensures Addressable(l, o.pair, g.trades[i]) {
      TradeAddressable(s, m, o, exact, i);
    }
    GreedyTrades(offers, o, o.volume);
    OppositeOffers(s, m, o, exact);
    forall id | 0 <= id < |l.session| ensures Amount(g.trades, id) <= l.session[id].remaining {
      var i := AmountCases(s, m, o, exact, id);
      if id < o.id && i < |g.trades| {
        assert TradesWith(g.trades[i], offers[i], o);
        assert Matches(s.ledger.session, o.pair, o.side.Opposite(), offers[i], exact);
      }
    }
  }

  // ---- the state after an insertion ----

  /** Session records after the insertion's trades were settled. */
  function SettledSession(s: State, m: nat, o: OrderInsertion): seq<PlacedOrder>
    requires m < |s.markets| && Drain(Placed(s, o), Fills(s, m, o).trades, o.pair).Some?
  {
    Drain(Placed(s, o), Fills(s, m, o).trades, o.pair).value.session
  }

  /** Records change only on the opposite side of the order's market. */
  lemma UntouchedRecord(s: State, m: nat, o: OrderInsertion, exact: bool, id: OrderId)
    requires Insertable(s, m, o, exact) && !Fills(s, m, o).selfTrade
    requires Drain(Placed(s, o), Fills(s, m, o).trades, o.pair).Some?
    requires id < o.id && (s.ledger.session[id].pair != o.pair || s.ledger.session[id].side != o.side.Opposite())
    ensures |SettledSession(s, m, o)| == o.id + 1
    ensures SettledSession(s, m, o)[id] == s.ledger.session[id]
  {
    var g, offers := Fills(s, m, o), SideOffers(s.markets[m], o.side.Opposite());
    DrainOrder(Placed(s, o), g.trades, o.pair, id);
    var i := AmountCases(s, m, o, exact, id);
    OppositeOffers(s, m, o, exact);
    assert i < |g.trades| ==> Matches(s.ledger.session, o.pair, o.side.Opposite(), offers[i], exact);
  }

  /** The record of the incoming order after settlement. */
  lemma TakerRecord(s: State, m: nat, o: OrderInsertion, exact: bool)
    requires Insertable(s, m, o, exact) && !Fills(s, m, o).selfTrade
    requires Drain(Placed(s, o), Fills(s, m, o).trades, o.pair).Some?
    ensures |SettledSession(s, m, o)| == o.id + 1
    ensures var g := Fills(s, m, o);
            SettledSession(s, m, o)[o.id]
            == PlacedOrder.FromInsertion(o).(remaining := g.left,
                 status := if g.left == 0 && g.trades != [] then Filled else AwaitingFill)
  {
    var g := Fills(s, m, o);
    DrainOrder(Placed(s, o), g.trades, o.pair, o.id);
    var i := AmountCases(s, m, o, exact, o.id);
  }

  /** `offer` is what trades leave of offer `j`: all of it, or a positive part. */
  predicate LeftOf(offer: Offer, offers: seq<Offer>, trades: seq<ObTransaction>, j: int) {
    && 0 <= j < |offers|
    && if j >= |trades| then offer == offers[j]
       else trades[j].volume < offers[j].entry.volume && offer == Reduced(offers[j], trades[j].volume)
  }

  /** Where the offers left over come from: untraded offers, or the last traded one when filled in part. */
  lemma RestPosition(offers: seq<Offer>, o: OrderInsertion, vol: Volume, k: nat)
    requires !Greedy(offers, o, vol).selfTrade && k < |Greedy(offers, o, vol).rest|
    ensures var g := Greedy(offers, o, vol);
            LeftOf(g.rest[k], offers, g.trades, |offers| - |g.rest| + k)
  {
    hide Greedy;
    GreedyRest(offers, o, vol);
  }

  /** Offers not traded, or traded in part, are left over. */
  lemma LeftOver(offers: seq<Offer>, o: OrderInsertion, vol: Volume, j: nat)
    requires !Greedy(offers, o, vol).selfTrade && j < |offers|
    requires var g := Greedy(offers, o, vol);
             j < |g.trades| ==> g.trades[j].volume < offers[j].entry.volume
    ensures HasOffer(Greedy(offers, o, vol).rest, offers[j].entry.id)
  {
    hide Greedy;
    var g := Greedy(offers, o, vol);
    GreedyTrades(offers, o, vol);
    GreedyRest(offers, o, vol);
    var k := j - (|offers| - |g.rest|);
    assert g.rest[k].entry.id == offers[j].entry.id;
  }

  /** The record `p` of offer `j`, and what settlement makes of it. */
  predicate MakerSettled(p: PlacedOrder, p': PlacedOrder, offer: Offer, trades: seq<ObTransaction>, j: nat) {
    if j < |trades| then
      trades[j].volume <= offer.entry.volume <= p.remaining && p' == AfterTrades(p, trades[j].volume, true)
    else p' == p
  }

  lemma MakerRecord(s: State, m: nat, o: OrderInsertion, exact: bool, j: nat)
    requires Insertable(s, m, o, exact) && !Fills(s, m, o).selfTrade
    requires Drain(Placed(s, o), Fills(s, m, o).trades, o.pair).Some?
    requires j < |SideOffers(s.markets[m], o.side.Opposite())|
    ensures var g := Fills(s, m, o); var offer := SideOffers(s.markets[m], o.side.Opposite())[j];
            && Matches(s.ledger.session, o.pair, o.side.Opposite(), offer, exact)
            && |SettledSession(s, m, o)| == o.id + 1
            && MakerSettled(s.ledger.session[offer.entry.id], SettledSession(s, m, o)[offer.entry.id], offer,
                            g.trades, j)
  {
    var g, offers := Fills(s, m, o), SideOffers(s.markets[m], o.side.Opposite());
    OppositeOffers(s, m, o, exact);
    var id := offers[j].entry.id;
    assert Matches(s.ledger.session, o.pair, o.side.Opposite(), offers[j], exact);
    DrainOrder(Placed(s, o), g.trades, o.pair, id);
    var i := AmountCases(s, m, o, exact, id);
    GreedyTrades(offers, o, o.volume);
    if i < |g.trades| {
      assert TradesWith(g.trades[i], offers[i], o);
      assert i == j;
    }
  }

  /** What is left of an offer matches what is left of its record. */
  lemma LeftOfMatches(session: seq<PlacedOrder>, session': seq<PlacedOrder>, pair: AssetIdPair, side: Side,
                      offer: Offer, offers: seq<Offer>, trades: seq<ObTransaction>, j: nat, exact: bool)
    requires LeftOf(offer, offers, trades, j) && Matches(session, pair, side, offers[j], exact)
    requires |session| <= |session'|
    requires var id := offers[j].entry.id; MakerSettled(session[id], session'[id], offers[j], trades, j)
    ensures Matches(session', pair, side, offer, exact)
  {}

  /** The offers a fill leaves over match the settled records when the offers matched the old ones. */
  lemma RestMatches(session: seq<PlacedOrder>, session': seq<PlacedOrder>, pair: AssetIdPair, side: Side,
                    offers: seq<Offer>, o: OrderInsertion, vol: Volume, exact: bool)
    requires !Greedy(offers, o, vol).selfTrade && |session| <= |session'|
    requires OffersMatch(session, pair, side, offers, exact)
    requires forall j :: 0 <= j < |offers| && offers[j].entry.id < |session| ==>
               MakerSettled(session[offers[j].entry.id], session'[offers[j].entry.id], offers[j],
                            Greedy(offers, o, vol).trades, j)
    ensures OffersMatch(session', pair, side, Greedy(offers, o, vol).rest, exact)
  {
    var g := Greedy(offers, o, vol);
    forall k | 0 <= k < |g.rest| ensures Matches(session', pair, side, g.rest[k], exact) {
      RestPosition(offers, o, vol, k);
      var j := |offers| - |g.rest| + k;
      assert Matches(session, pair, side, offers[j], exact);
      LeftOfMatches(session, session', pair, side, g.rest[k], offers, g.trades, j, exact);
    }
  }
}
