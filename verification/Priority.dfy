/** Price-time priority in every reachable state: also after reductions and self-trades. */
module Priority {
  import opened Types
  import opened BookSpec
  import opened Matching
  import opened MatchingFacts
  import opened BookFacts
  import opened Settlement
  import opened ExchangeSpec
  import opened Soundness
  import opened Tracking
  import opened CancelTracking
  import opened Provenance
  import opened Aftermath

  /** When an offer trades, all offers ahead of it are traded away completely. */
  lemma EarlierOffersExhausted(offers: seq<Offer>, o: OrderInsertion, vol: Volume, i: nat, j: nat)
    requires i < j < |Greedy(offers, o, vol).trades|
    ensures |Greedy(offers, o, vol).trades| <= |offers|
    ensures Greedy(offers, o, vol).trades[i].maker == offers[i].entry.id
    ensures Greedy(offers, o, vol).trades[i].volume == offers[i].entry.volume
  {
    GreedyTrades(offers, o, vol);
    assert TradesWith(Greedy(offers, o, vol).trades[i], offers[i], o);
  }

  /** Order `a` comes before order `b`: same side of the same market, better price, or same price and older. */
  predicate HasPriorityOver(a: PlacedOrder, b: PlacedOrder) {
    && a.pair == b.pair && a.side == b.side
    && (BetterPrice(a.side, a.price, b.price) || (a.price == b.price && a.id < b.id))
  }

  function Opposing(s: State, m: nat, o: OrderInsertion): seq<Offer>
    requires m < |s.markets|
  {
    SideOffers(s.markets[m], o.side.Opposite())
  }

  lemma PriorityPosition(s: State, m: nat, side: Side, k: nat, i: nat)
    requires Sound(s) && Traceable(s) && m < |s.markets|
    requires var offers := SideOffers(s.markets[m], side); var session := s.ledger.session;
             && k < |offers| && i < |offers| && offers[k].entry.id < |session| && offers[i].entry.id < |session|
             && HasPriorityOver(session[offers[k].entry.id], session[offers[i].entry.id])
    ensures k < i
  {
    hide Offers;
    var offers := SideOffers(s.markets[m], side);
    assert BookOk(s.markets[m].book, |s.ledger.session|);
    OffersInPriorityOrder(side, s.markets[m].book.Side(side), |s.ledger.session|);
    assert MarketKnown(s.ledger.session, s.markets[m]);
    assert Known(s.ledger.session, s.markets[m].pair, side, offers[k]);
    assert Known(s.ledger.session, s.markets[m].pair, side, offers[i]);
    RecordIds(s);
    assert i < k ==> Precedes(side, offers[i], offers[k]);
  }

  /** Trade `i` is with offer `i`. */
  lemma TradeMaker(s: State, req: InsertionRequest, m: nat, o: OrderInsertion, i: nat)
    requires Filling(s, req, m, o) && i < |FillIn(s, m, o).trades|
    ensures var b := FillIn(s, m, o).trades[i].maker;
            && |FillIn(s, m, o).trades| <= |Opposing(s, m, o)| && Opposing(s, m, o)[i].entry.id == b
            && b < |s.ledger.session|
            && s.ledger.session[b].pair == s.markets[m].pair && s.ledger.session[b].side == o.side.Opposite()
  {
    hide Offers, Greedy, Insert, Sound;
    GreedyTrades(Opposing(s, m, o), o, o.volume);
    assert TradesWith(FillIn(s, m, o).trades[i], Opposing(s, m, o)[i], o);
    FillTrade(s, req, m, o, i);
  }

  /** An offer ahead of a traded one was traded whole, at the same position of the trades. */
  lemma AheadTradesWhole(s: State, req: InsertionRequest, m: nat, o: OrderInsertion, k: nat, i: nat)
    requires Filling(s, req, m, o) && i < |FillIn(s, m, o).trades| && k < |Opposing(s, m, o)|
    requires var a, b := Opposing(s, m, o)[k].entry.id, FillIn(s, m, o).trades[i].maker;
             && a < |s.ledger.session| && b < |s.ledger.session|
             && HasPriorityOver(s.ledger.session[a], s.ledger.session[b])
    ensures k < i && FillIn(s, m, o).trades[k].maker == Opposing(s, m, o)[k].entry.id
    ensures FillIn(s, m, o).trades[k].volume == Opposing(s, m, o)[k].entry.volume
  {
    hide Offers, Greedy, Insert, Sound, Traceable;
    TradeMaker(s, req, m, o, i);
    PriorityPosition(s, m, o.side.Opposite(), k, i);
    EarlierOffersExhausted(Opposing(s, m, o), o, o.volume, k, i);
  }

  lemma SameMarket(s: State, m: nat, a: OrderId, side: Side)
    requires Sound(s) && m < |s.markets| && a < |s.ledger.session| && Rests(s.ledger.session, s.markets, a)
    requires s.ledger.session[a].pair == s.markets[m].pair && s.ledger.session[a].side == side
    ensures HasOffer(SideOffers(s.markets[m], side), a)
  {
    hide Offers;
    FindMarketAt(s.markets, m);
  }

  /** Price-time priority: when a resting order `a` is ahead of `b` and trade `i` of an insertion is
      with `b`, an earlier trade takes the whole open volume of `a`. */
  lemma PriceTimePriority(s: State, req: InsertionRequest, m: nat, o: OrderInsertion, a: OrderId, i: nat)
    requires Filling(s, req, m, o) && i < |FillIn(s, m, o).trades|
    requires a < |s.ledger.session| && Rests(s.ledger.session, s.markets, a)
    requires var b := FillIn(s, m, o).trades[i].maker;
             b < |s.ledger.session| ==> HasPriorityOver(s.ledger.session[a], s.ledger.session[b])
    ensures var offers := Opposing(s, m, o); var trades := FillIn(s, m, o).trades;
            && HasOffer(offers, a)
            && forall k: nat :: k < |offers| && offers[k].entry.id == a ==>
                 k < i && trades[k].maker == a && trades[k].volume == offers[k].entry.volume
  {
    hide Offers, FillIn, Insert, Sound, Traceable;
    TradeMaker(s, req, m, o, i);
    SameMarket(s, m, a, o.side.Opposite());
    var offers, trades := Opposing(s, m, o), FillIn(s, m, o).trades;
    forall k: nat | k < |offers| && offers[k].entry.id == a
      ensures k < i && trades[k].maker == a && trades[k].volume == offers[k].entry.volume
    {
      AheadTradesWhole(s, req, m, o, k, i);
    }
  }

  /** What a fill leaves does not contain an offer ahead of the last traded one. */
  lemma GoneFromRest(offers: seq<Offer>, o: OrderInsertion, vol: Volume, k: nat)
    requires DistinctIds(offers) && !Greedy(offers, o, vol).selfTrade && k < |Greedy(offers, o, vol).trades| - 1
    ensures k < |offers| && !HasOffer(Greedy(offers, o, vol).rest, offers[k].entry.id)
  {
    hide Greedy;
    GreedyRest(offers, o, vol);
    var rest := Greedy(offers, o, vol).rest;
    forall r | 0 <= r < |rest| ensures rest[r].entry.id != offers[k].entry.id {
      RestPosition(offers, o, vol, r);
      assert DistinctIds(offers);
    }
  }

  /** The order rests where the fill left it, or nowhere. */
  lemma RestsInRest(s: State, req: InsertionRequest, m: nat, o: OrderInsertion, a: OrderId)
    requires Filling(s, req, m, o) && !FillIn(s, m, o).selfTrade && a < |s.ledger.session|
    requires Drain(Placed(s, o), s.buf + FillIn(s, m, o).trades, o.pair).Some?
    requires var p := s.ledger.session[a]; p.pair == s.markets[m].pair && p.side == o.side.Opposite()
    ensures var s' := Inheriting(s, req, m, o);
            && a < |s'.ledger.session|
            && (Rests(s'.ledger.session, s'.markets, a) <==> HasOffer(FillIn(s, m, o).rest, a))
  {
    hide Offers, FillOf, Insert, Drain, Traceable;
    FilledBook(s, req, m, o);
    DrainedSession(Placed(s, o), s.buf + FillIn(s, m, o).trades, o.pair);
    FindMarketAt(s.markets, m);
    FindMarketSame(s.markets, MarketsAfter(s, m, o), s.markets[m].pair);
  }

  /** What an accepted insertion does to an order it passed over on the way to a worse one: the order is gone
      from the book, and its record has given its whole open volume and all that waiting trades took. */
  lemma PassedIsGone(s: State, req: InsertionRequest, m: nat, o: OrderInsertion, a: OrderId, i: nat, k: nat)
    requires Filling(s, req, m, o) && i < |FillIn(s, m, o).trades| && !FillIn(s, m, o).selfTrade
    requires Drain(Placed(s, o), s.buf + FillIn(s, m, o).trades, o.pair).Some?
    requires a < |s.ledger.session| && Rests(s.ledger.session, s.markets, a)
    requires var b := FillIn(s, m, o).trades[i].maker;
             b < |s.ledger.session| ==> HasPriorityOver(s.ledger.session[a], s.ledger.session[b])
    requires k < |Opposing(s, m, o)| && Opposing(s, m, o)[k].entry.id == a
    ensures var s' := Inheriting(s, req, m, o); var given := Amount(s.buf, a) + Opposing(s, m, o)[k].entry.volume;
            && a < |s'.ledger.session| && !Rests(s'.ledger.session, s'.markets, a)
            && 0 <= given <= s.ledger.session[a].remaining
            && s'.ledger.session[a] == AfterTrades(s.ledger.session[a], given, true)
  {
    hide Offers, FillIn, Insert, Drain, Sound, Traceable, Rests;
    PriceTimePriority(s, req, m, o, a, i);
    TradeMaker(s, req, m, o, i);
    RestsInRest(s, req, m, o, a);
    KnownAreDistinct(s, m, o.side.Opposite());
    NotLeft(s, m, o, k);
    PassedRecord(s, req, m, o, k);
  }

  lemma NotLeft(s: State, m: nat, o: OrderInsertion, k: nat)
    requires m < |s.markets| && DistinctIds(Opposing(s, m, o)) && !FillIn(s, m, o).selfTrade
    requires k < |FillIn(s, m, o).trades| - 1
    ensures k < |Opposing(s, m, o)| && !HasOffer(FillIn(s, m, o).rest, Opposing(s, m, o)[k].entry.id)
  {
    hide Offers, Greedy;
    GoneFromRest(Opposing(s, m, o), o, o.volume, k);
  }

  lemma PassedRecord(s: State, req: InsertionRequest, m: nat, o: OrderInsertion, k: nat)
    requires Filling(s, req, m, o) && !FillIn(s, m, o).selfTrade && k < |Opposing(s, m, o)|
    requires Drain(Placed(s, o), s.buf + FillIn(s, m, o).trades, o.pair).Some?
    requires var a, trades := Opposing(s, m, o)[k].entry.id, FillIn(s, m, o).trades;
             && a < |s.ledger.session| && k < |trades| && trades[k].maker == a
             && trades[k].volume == Opposing(s, m, o)[k].entry.volume
    ensures var a := Opposing(s, m, o)[k].entry.id;
            var s' := Inheriting(s, req, m, o); var given := Amount(s.buf, a) + Opposing(s, m, o)[k].entry.volume;
            && a < |s'.ledger.session| && 0 <= given <= s.ledger.session[a].remaining
            && s'.ledger.session[a] == AfterTrades(s.ledger.session[a], given, true)
  {
    hide Offers, FillIn, Insert, Drain, Sound, Traceable;
    var a, trades := Opposing(s, m, o)[k].entry.id, FillIn(s, m, o).trades;
    var txs := s.buf + trades;
    DrainOrder(Placed(s, o), txs, o.pair, a);
    AmountConcat(s.buf, trades, a);
    OneTrade(s, req, m, o, k);
    assert txs[|s.buf| + k] == trades[k] && trades[k] in txs && Touches(trades[k], a);
  }

  /** All that the order's trades take from offer `k`'s record is trade `k`. */
  lemma OneTrade(s: State, req: InsertionRequest, m: nat, o: OrderInsertion, k: nat)
    requires Filling(s, req, m, o) && k < |FillIn(s, m, o).trades| && k < |Opposing(s, m, o)|
    ensures Amount(FillIn(s, m, o).trades, Opposing(s, m, o)[k].entry.id) == FillIn(s, m, o).trades[k].volume
  {
    hide Offers, Greedy, Insert, Sound;
    var offers, trades := Opposing(s, m, o), FillIn(s, m, o).trades;
    KnownAreDistinct(s, m, o.side.Opposite());
    GreedyTrades(offers, o, o.volume);
    assert forall i :: 0 <= i < |trades| ==> TradesWith(trades[i], offers[i], o);
    assert MarketKnown(s.ledger.session, s.markets[m]);
    assert forall i :: 0 <= i < |offers| ==> Known(s.ledger.session, o.pair, o.side.Opposite(), offers[i]);
    AmountOfTrade(offers, trades, o, k);
  }

  // ---- over runs ----

  /** The insertion, accepted, logs entry `i` for a trade of its own with an order that `a` is ahead of. */
  ghost predicate PassesOver(s: State, req: InsertionRequest, a: OrderId, i: nat) {
    && AcceptsInsertion(s, req)
    && var log := InsertOrder(s, req).state.ledger.log;
    && |s.ledger.log| <= i < |log| - |s.buf|
    && var b := log[i].tx.maker;
    && a < |s.ledger.session| && b < |s.ledger.session| && Rests(s.ledger.session, s.markets, a)
    && HasPriorityOver(s.ledger.session[a], s.ledger.session[b])
  }

  /** The whole open volume of `a` is booked at entry `j` of the log. */
  predicate BookedWhole(s: State, s': State, a: OrderId, j: nat, k: nat)
    requires a < |s.ledger.session|
  {
    var p := s.ledger.session[a];
    && FindMarket(s.markets, p.pair).Some?
    && var offers := SideOffers(s.markets[FindMarket(s.markets, p.pair).value], p.side);
    && k < |offers| && offers[k].entry.id == a
    && |s.ledger.log| <= j < |s'.ledger.log| - |s.buf|
    && s'.ledger.log[j].tx.maker == a && s'.ledger.log[j].tx.volume == offers[k].entry.volume
  }

  /** The own trade behind a log entry, and the log entry of an own trade. */
  lemma OwnEntry(s: State, session: seq<PlacedOrder>, pair: AssetIdPair, trades: seq<ObTransaction>, i: nat)
    requires forall tx :: tx in s.buf + trades ==> tx.maker < |session| && tx.taker < |session|
    requires i < |trades|
    ensures var log := s.ledger.log + Recorded(session, pair, s.buf + trades);
            var j := |s.ledger.log| + |trades| - 1 - i;
            |log| == |s.ledger.log| + |s.buf| + |trades| && log[j].tx == trades[i]
  {
    RecordedLength(session, pair, s.buf + trades);
    RecordedAt(session, pair, s.buf + trades, |trades| - 1 - i);
    assert (s.buf + trades)[|s.buf| + i] == trades[i];
  }

  lemma PassedIsBooked(s: State, req: InsertionRequest, a: OrderId, i: nat) returns (j: nat, k: nat)
    requires Sound(s) && Traceable(s) && PassesOver(s, req, a, i)
    ensures BookedWhole(s, InsertOrder(s, req).state, a, j, k)
    ensures var s' := InsertOrder(s, req).state; a < |s'.ledger.session| && !Rests(s'.ledger.session, s'.markets, a)
  {
    hide Offers, FillIn, Insert, InsertOrder, Drain, Recorded, Sound, Traceable, Rests;
    var m, o := InheritingOutcome(s, req);
    var trades := FillIn(s, m, o).trades;
    var session := Placed(s, o).session;
    RecordedLength(session, o.pair, s.buf + trades);
    var t := |trades| - 1 - (i - |s.ledger.log|);
    OwnEntry(s, session, o.pair, trades, t);
    TradeMaker(s, req, m, o, t);
    PriceTimePriority(s, req, m, o, a, t);
    k :| 0 <= k < |Opposing(s, m, o)| && Opposing(s, m, o)[k].entry.id == a;
    PassedIsGone(s, req, m, o, a, t, k);
    OwnEntry(s, session, o.pair, trades, k);
    j := |s.ledger.log| + |trades| - 1 - k;
    MarketFound(s, m);
  }

  lemma MarketFound(s: State, m: nat)
    requires Sound(s) && m < |s.markets|
    ensures FindMarket(s.markets, s.markets[m].pair) == Some(m)
  {
    FindMarketAt(s.markets, m);
  }

  /** After every run: when an accepted order has a trade of its own with `b` booked and `a` rested ahead of
      `b`, then a trade with all open volume of `a` is booked too, and `a` no longer rests. */
  lemma PriorityOverRuns(cmds: seq<Command>, req: InsertionRequest, a: OrderId, i: nat)
    requires Run(cmds).Running? && PassesOver(Run(cmds).state, req, a, i)
    ensures var s := Run(cmds).state; var s' := InsertOrder(s, req).state;
            && (exists j: nat, k: nat :: BookedWhole(s, s', a, j, k))
            && a < |s'.ledger.session| && !Rests(s'.ledger.session, s'.markets, a)
  {
    RunSound(cmds);
    TraceableOverRuns(cmds);
    hide Run, InsertOrder, Sound, Traceable, BookedWhole, Rests;
    var j, k := PassedIsBooked(Run(cmds).state, req, a, i);
  }
}
