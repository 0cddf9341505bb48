/** An insertion keeps books and session table together, unless it ends in a self-trade. */
module InsertTracking {
  import opened Types
  import opened Seqs
  import opened BookSpec
  import opened Matching
  import opened BookFacts
  import opened Settlement
  import opened ExchangeSpec
  import opened Soundness
  import opened Tracking

  /** Every market trades two different assets. */
  predicate DistinctAssets(s: State) {
    forall m :: 0 <= m < |s.markets| ==> s.markets[m].pair.primary != s.markets[m].pair.secondary
  }

  predicate FailsCheck(r: Inserted) {
    r.result.Err? && r.result.error != SelfTrade
  }

  /** The order gets as far as the matching loop of market `m`. */
  ghost predicate Matched(s: State, req: InsertionRequest, m: nat, o: OrderInsertion, exact: bool) {
    && Sound(s) && Tracked(s, exact) && Aligned(s) && DistinctAssets(s)
    && FindMarket(s.markets, req.pair) == Some(m) && req.account < s.accounts
    && o == req.IntoInsertion(|s.ledger.session|)
    && !FailsCheck(Insert(s.markets[m].book, o))
  }

  lemma MatchedInsertable(s: State, req: InsertionRequest, m: nat, o: OrderInsertion, exact: bool)
    requires Matched(s, req, m, o, exact)
    ensures Insertable(s, m, o, exact)
    ensures TidyBook(s.markets[m].book)
    ensures SortedSide(s.markets[m].book.bids) && SortedSide(s.markets[m].book.asks)
  {
    assert MarketMatches(s.ledger.session, s.markets[m], exact);
    assert BookOk(s.markets[m].book, |s.ledger.session|);
  }

  function SelfTraded(s: State, m: nat, o: OrderInsertion): State
    requires m < |s.markets|
  {
    s.(markets := s.markets[m := MarketAfter(s.markets[m], Insert(s.markets[m].book, o))], buf := Fills(s, m, o).trades)
  }

  function Accepted(s: State, req: InsertionRequest, m: nat, o: OrderInsertion): State
    requires m < |s.markets| && Drain(Placed(s, o), Fills(s, m, o).trades, o.pair).Some?
  {
    s.(markets := s.markets[m := MarketAfter(s.markets[m], Insert(s.markets[m].book, o))],
       ledger := Drain(Placed(s, o), Fills(s, m, o).trades, o.pair).value,
       requests := s.requests + [req])
  }

  /** Which reply the insertion gives, and the state it leaves, in terms of the greedy fill. */
  lemma InsertOutcome(s: State, req: InsertionRequest, m: nat, o: OrderInsertion, exact: bool)
    requires Matched(s, req, m, o, exact)
    ensures var g := Fills(s, m, o); var r := Insert(s.markets[m].book, o);
            && r.trades == g.trades
            && (g.selfTrade ==>
                  && r.result == Err(SelfTrade)
                  && InsertOrder(s, req) == Done(SelfTraded(s, m, o), InsertReply(Err(SelfTrade))))
            && (!g.selfTrade ==>
                  && Drain(Placed(s, o), g.trades, o.pair).Some?
                  && r.result.Ok? && r.result.value.0 == (if g.left > 0 then AwaitingFill else Status.Filled)
                  && InsertOrder(s, req) == Done(Accepted(s, req, m, o), InsertReply(Ok((o.id, r.result.value.0)))))
  {
    hide Offers, Greedy, Insert, Drain, Settleable, Sound;
    MatchedInsertable(s, req, m, o, exact);
    InsertIsGreedy(s.markets[m].book, o);
    var g := Fills(s, m, o);
    assert s.buf + g.trades == g.trades;
    if !g.selfTrade {
      InsertionSettles(s, m, o, exact);
      DrainIff(Placed(s, o), g.trades, o.pair);
    }
  }

  // ---- the market of the order ----

  lemma OppositeSideMatches(s: State, req: InsertionRequest, m: nat, o: OrderInsertion, exact: bool)
    requires Matched(s, req, m, o, exact) && !Fills(s, m, o).selfTrade
    requires Drain(Placed(s, o), Fills(s, m, o).trades, o.pair).Some?
    ensures OffersMatch(SettledSession(s, m, o), o.pair, o.side.Opposite(), Fills(s, m, o).rest, exact)
  {
    MatchedInsertable(s, req, m, o, exact);
    OppositeOffers(s, m, o, exact);
    DrainFrame(Placed(s, o), Fills(s, m, o).trades, o.pair);
    var offers := SideOffers(s.markets[m], o.side.Opposite());
    forall j | 0 <= j < |offers| && offers[j].entry.id < |s.ledger.session|
      ensures MakerSettled(s.ledger.session[offers[j].entry.id], SettledSession(s, m, o)[offers[j].entry.id], offers[j],
                           Fills(s, m, o).trades, j)
    {
      MakerRecord(s, m, o, exact, j);
    }
    RestMatches(s.ledger.session, SettledSession(s, m, o), o.pair, o.side.Opposite(), offers, o, o.volume, exact);
  }

  lemma OldOffersMatch(s: State, m: nat, o: OrderInsertion, exact: bool, i: nat, side: Side)
    requires Insertable(s, m, o, exact) && !Fills(s, m, o).selfTrade
    requires Drain(Placed(s, o), Fills(s, m, o).trades, o.pair).Some?
    requires i < |s.markets| && (i != m || side == o.side)
    ensures OffersMatch(SettledSession(s, m, o), s.markets[i].pair, side, SideOffers(s.markets[i], side), exact)
  {
    var session := s.ledger.session;
    assert MarketMatches(session, s.markets[i], exact);
    DrainFrame(Placed(s, o), Fills(s, m, o).trades, o.pair);
    forall id | 0 <= id < |session| && (session[id].pair != o.pair || session[id].side != o.side.Opposite())
      ensures SettledSession(s, m, o)[id] == session[id]
    {
      UntouchedRecord(s, m, o, exact, id);
    }
    OtherSideMatches(session, SettledSession(s, m, o), s.markets[i].pair, side, SideOffers(s.markets[i], side), exact,
                     o.pair, o.side.Opposite());
  }

  lemma NewOfferMatches(s: State, m: nat, o: OrderInsertion, exact: bool)
    requires Insertable(s, m, o, exact) && !Fills(s, m, o).selfTrade && Fills(s, m, o).left > 0
    requires Drain(Placed(s, o), Fills(s, m, o).trades, o.pair).Some?
    ensures Matches(SettledSession(s, m, o), o.pair, o.side, Offer(o.price, EntryOf(o, Fills(s, m, o).left)), exact)
  {
    TakerRecord(s, m, o, exact);
  }

  lemma PlaceMatches(session: seq<PlacedOrder>, pair: AssetIdPair, side: Side, offers: seq<Offer>, mine: Offer,
                     exact: bool)
    requires OffersMatch(session, pair, side, offers, exact) && Matches(session, pair, side, mine, exact)
    ensures OffersMatch(session, pair, side, Place(side, offers, mine), exact)
  {
    var k := PlaceAt(side, offers, mine);
    InsertedAt(offers, k, mine);
  }

  lemma OwnSideMatches(s: State, req: InsertionRequest, m: nat, o: OrderInsertion, exact: bool)
    requires Matched(s, req, m, o, exact) && !Fills(s, m, o).selfTrade
    requires Drain(Placed(s, o), Fills(s, m, o).trades, o.pair).Some?
    ensures var r := Insert(s.markets[m].book, o);
            OffersMatch(SettledSession(s, m, o), o.pair, o.side, Offers(o.side, r.book.Side(o.side)), exact)
  {
    MatchedInsertable(s, req, m, o, exact);
    InsertIsGreedy(s.markets[m].book, o);
    OldOffersMatch(s, m, o, exact, m, o.side);
    var left := Fills(s, m, o).left;
    if left > 0 {
      NewOfferMatches(s, m, o, exact);
      PlaceMatches(SettledSession(s, m, o), o.pair, o.side, SideOffers(s.markets[m], o.side),
                   Offer(o.price, EntryOf(o, left)), exact);
    }
  }

  lemma MarketStillMatches(s: State, req: InsertionRequest, m: nat, o: OrderInsertion, exact: bool)
    requires Matched(s, req, m, o, exact) && !Fills(s, m, o).selfTrade
    requires Drain(Placed(s, o), Fills(s, m, o).trades, o.pair).Some?
    ensures MarketMatches(SettledSession(s, m, o), MarketAfter(s.markets[m], Insert(s.markets[m].book, o)), exact)
  {
    MatchedInsertable(s, req, m, o, exact);
    InsertIsGreedy(s.markets[m].book, o);
    InsertKeepsBook(s.markets[m].book, o);
    OppositeSideMatches(s, req, m, o, exact);
    OwnSideMatches(s, req, m, o, exact);
  }

  lemma AcceptedTracked(s: State, req: InsertionRequest, m: nat, o: OrderInsertion, exact: bool)
    requires Matched(s, req, m, o, exact) && !Fills(s, m, o).selfTrade
    requires Drain(Placed(s, o), Fills(s, m, o).trades, o.pair).Some?
    ensures Tracked(Accepted(s, req, m, o), exact)
  {
    var s' := Accepted(s, req, m, o);
    MatchedInsertable(s, req, m, o, exact);
    forall i | 0 <= i < |s'.markets| ensures MarketMatches(s'.ledger.session, s'.markets[i], exact) {
      if i == m {
        MarketStillMatches(s, req, m, o, exact);
      } else {
        assert MarketMatches(s.ledger.session, s.markets[i], exact);
        OldOffersMatch(s, m, o, exact, i, Bid);
        OldOffersMatch(s, m, o, exact, i, Ask);
      }
    }
  }

  /** Outside the matching loop nothing changes. */
  lemma RejectedUnchanged(s: State, req: InsertionRequest)
    requires var m := FindMarket(s.markets, req.pair);
             m.None? || req.account >= s.accounts
             || FailsCheck(Insert(s.markets[m.value].book, req.IntoInsertion(|s.ledger.session|)))
    ensures InsertOrder(s, req).Done? && InsertOrder(s, req).state == s
    ensures InsertOrder(s, req).reply.InsertReply? && InsertOrder(s, req).reply.inserted.Err?
    ensures InsertOrder(s, req).reply.inserted.error != SelfTrade
  {
    var m := FindMarket(s.markets, req.pair);
    if m.Some? && req.account < s.accounts {
      var r := Insert(s.markets[m.value].book, req.IntoInsertion(|s.ledger.session|));
      assert s.markets[m.value := MarketAfter(s.markets[m.value], r)] == s.markets;
      assert s.buf + r.trades == s.buf;
    }
  }

  /** An insertion never stops a tracked exchange, and settles all its trades; without a
      self-trade all books match the table afterwards. */
  lemma InsertKeepsTracked(s: State, req: InsertionRequest, exact: bool)
    requires Sound(s) && Tracked(s, exact) && Aligned(s) && DistinctAssets(s)
    ensures InsertOrder(s, req).Done?
    ensures Aligned(InsertOrder(s, req).state) && DistinctAssets(InsertOrder(s, req).state)
    ensures InsertOrder(s, req).reply != InsertReply(Err(SelfTrade)) ==> Tracked(InsertOrder(s, req).state, exact)
  {
    hide Fills, Insert, Drain, InsertOrder, Sound, Tracked;
    var found := FindMarket(s.markets, req.pair);
    var o := req.IntoInsertion(|s.ledger.session|);
    if found.None? || req.account >= s.accounts || FailsCheck(Insert(s.markets[found.value].book, o)) {
      RejectedUnchanged(s, req);
    } else {
      var m := found.value;
      InsertOutcome(s, req, m, o, exact);
      if !Fills(s, m, o).selfTrade {
        DrainFrame(Placed(s, o), Fills(s, m, o).trades, o.pair);
        AcceptedTracked(s, req, m, o, exact);
      }
    }
  }

  // ---- every live order rests ----

  /** A live record whose side of its market is untouched by the insertion keeps its place. */
  lemma OfferSurvives(offers: seq<Offer>, side: Side, mine: Offer, id: OrderId)
    requires HasOffer(offers, id)
    ensures HasOffer(Place(side, offers, mine), id)
  {
    hide Place;
    var k := PlaceAt(side, offers, mine);
    var after := offers[..k] + [mine] + offers[k..];
    InsertedAt(offers, k, mine);
    var j :| 0 <= j < |offers| && offers[j].entry.id == id;
    assert after[if j < k then j else j + 1] == offers[j];
  }

  /** A live order on the opposite side that did not trade, or traded in part, is still there. */
  lemma OppositeStillRests(s: State, m: nat, o: OrderInsertion, id: OrderId)
    requires Insertable(s, m, o, true) && !Fills(s, m, o).selfTrade
    requires Drain(Placed(s, o), Fills(s, m, o).trades, o.pair).Some?
    requires id < o.id && s.ledger.session[id].pair == o.pair && s.ledger.session[id].side == o.side.Opposite()
    requires HasOffer(SideOffers(s.markets[m], o.side.Opposite()), id)
    requires |SettledSession(s, m, o)| == o.id + 1 && Live(SettledSession(s, m, o)[id])
    ensures HasOffer(Fills(s, m, o).rest, id)
  {
    var offers := SideOffers(s.markets[m], o.side.Opposite());
    var j :| 0 <= j < |offers| && offers[j].entry.id == id;
    MakerRecord(s, m, o, true, j);
    LeftOver(offers, o, o.volume, j);
  }

  lemma NewOrderRests(s: State, req: InsertionRequest, m: nat, o: OrderInsertion)
    requires Matched(s, req, m, o, true) && !Fills(s, m, o).selfTrade && Fills(s, m, o).left > 0
    ensures var book := Insert(s.markets[m].book, o).book;
            HasOffer(Offers(o.side, book.Side(o.side)), o.id)
  {
    MatchedInsertable(s, req, m, o, true);
    InsertIsGreedy(s.markets[m].book, o);
    var own := SideOffers(s.markets[m], o.side);
    var mine := Offer(o.price, EntryOf(o, Fills(s, m, o).left));
    var k := PlaceAt(o.side, own, mine);
    InsertedAt(own, k, mine);
    assert Place(o.side, own, mine)[k].entry.id == o.id;
  }

  /** An order of the same market that is live after the insertion and was resting before, rests. */
  lemma OldOrderRests(s: State, req: InsertionRequest, m: nat, o: OrderInsertion, id: OrderId)
    requires Matched(s, req, m, o, true) && !Fills(s, m, o).selfTrade
    requires Drain(Placed(s, o), Fills(s, m, o).trades, o.pair).Some?
    requires id < o.id && s.ledger.session[id].pair == o.pair
    requires HasOffer(SideOffers(s.markets[m], s.ledger.session[id].side), id)
    requires |SettledSession(s, m, o)| == o.id + 1 && Live(SettledSession(s, m, o)[id])
    ensures var book := Insert(s.markets[m].book, o).book; var side := s.ledger.session[id].side;
            HasOffer(Offers(side, book.Side(side)), id)
  {
    MatchedInsertable(s, req, m, o, true);
    InsertIsGreedy(s.markets[m].book, o);
    if s.ledger.session[id].side == o.side {
      if Fills(s, m, o).left > 0 {
        OfferSurvives(SideOffers(s.markets[m], o.side), o.side, Offer(o.price, EntryOf(o, Fills(s, m, o).left)), id);
      }
    } else {
      OppositeStillRests(s, m, o, id);
    }
  }

  lemma InsertedRests(s: State, req: InsertionRequest, m: nat, o: OrderInsertion, id: OrderId)
    requires Matched(s, req, m, o, true) && Complete(s) && !Fills(s, m, o).selfTrade
    requires Drain(Placed(s, o), Fills(s, m, o).trades, o.pair).Some?
    requires |SettledSession(s, m, o)| == o.id + 1 && id <= o.id && Live(SettledSession(s, m, o)[id])
    ensures Rests(SettledSession(s, m, o), s.markets[m := MarketAfter(s.markets[m], Insert(s.markets[m].book, o))], id)
  {
    var markets' := s.markets[m := MarketAfter(s.markets[m], Insert(s.markets[m].book, o))];
    MatchedInsertable(s, req, m, o, true);
    if id == o.id {
      TakerRecord(s, m, o, true);
      FindMarketSame(s.markets, markets', o.pair);
      NewOrderRests(s, req, m, o);
    } else {
      var p := s.ledger.session[id];
      DrainOrder(Placed(s, o), Fills(s, m, o).trades, o.pair, id);
      FindMarketSame(s.markets, markets', p.pair);
      assert Rests(s.ledger.session, s.markets, id);
      if p.pair == o.pair {
        OldOrderRests(s, req, m, o, id);
      }
    }
  }

  lemma AcceptedComplete(s: State, req: InsertionRequest, m: nat, o: OrderInsertion)
    requires Matched(s, req, m, o, true) && Complete(s) && !Fills(s, m, o).selfTrade
    requires Drain(Placed(s, o), Fills(s, m, o).trades, o.pair).Some?
    ensures Complete(Accepted(s, req, m, o))
  {
    var s' := Accepted(s, req, m, o);
    DrainFrame(Placed(s, o), Fills(s, m, o).trades, o.pair);
    forall id | 0 <= id < |s'.ledger.session| && Live(s'.ledger.session[id])
      ensures Rests(s'.ledger.session, s'.markets, id)
    {
      InsertedRests(s, req, m, o, id);
    }
  }

  /** Without a self-trade an insertion keeps books and table mirror images. */
  lemma InsertKeepsMirror(s: State, req: InsertionRequest)
    requires Sound(s) && Mirror(s) && Aligned(s) && DistinctAssets(s)
    requires InsertOrder(s, req).Done? && InsertOrder(s, req).reply != InsertReply(Err(SelfTrade))
    ensures Mirror(InsertOrder(s, req).state)
  {
    hide Fills, Insert, Drain, InsertOrder, Sound, Tracked, Complete;
    InsertKeepsTracked(s, req, true);
    var found := FindMarket(s.markets, req.pair);
    var o := req.IntoInsertion(|s.ledger.session|);
    if found.None? || req.account >= s.accounts || FailsCheck(Insert(s.markets[found.value].book, o)) {
      RejectedUnchanged(s, req);
    } else {
      InsertOutcome(s, req, found.value, o, true);
      AcceptedComplete(s, req, found.value, o);
    }
  }
}
