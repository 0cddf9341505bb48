/**
 Cancellations and modifications against the session table: what they keep, exactly when
 they succeed, and exactly when a modification makes book and table disagree.
 */
module CancelTracking {
  import opened Types
  import opened Seqs
  import opened BookSpec
  import opened Matching
  import opened BookFacts
  import opened ExchangeSpec
  import opened Soundness
  import opened Tracking

  /** The records after order `id` was rewritten in its status and volume. */
  predicate Rewritten(p: PlacedOrder, p': PlacedOrder) {
    p' == p.(volume := p'.volume, status := p'.status)
  }

  /** One offer of a side was taken away. */
  lemma RemovedStillMatch(session: seq<PlacedOrder>, session': seq<PlacedOrder>, pair: AssetIdPair, side: Side,
                          offers: seq<Offer>, k: nat, exact: bool)
    requires OffersMatch(session, pair, side, offers, exact) && DistinctIds(offers) && k < |offers|
    requires |session'| == |session|
    requires forall id :: 0 <= id < |session| && id != offers[k].entry.id ==> session'[id] == session[id]
    ensures OffersMatch(session', pair, side, RemoveAt(offers, k), exact)
  {
    var rest := RemoveAt(offers, k);
    forall i | 0 <= i < |rest| ensures Matches(session', pair, side, rest[i], exact) {
      var j := if i < k then i else i + 1;
      assert rest[i] == offers[j] && Matches(session, pair, side, offers[j], exact);
    }
  }

  /** One offer of a side shrank while its record kept its remaining volume. */
  lemma ShrunkStillMatch(session: seq<PlacedOrder>, session': seq<PlacedOrder>, pair: AssetIdPair, side: Side,
                         offers: seq<Offer>, k: nat, reduction: Volume, exact: bool)
    requires OffersMatch(session, pair, side, offers, exact) && DistinctIds(offers) && k < |offers|
    requires reduction < offers[k].entry.volume && (exact ==> reduction == 0)
    requires |session'| == |session|
    requires forall id :: 0 <= id < |session| && id != offers[k].entry.id ==> session'[id] == session[id]
    requires var id := offers[k].entry.id;
             id < |session| && Rewritten(session[id], session'[id]) && session'[id].status.AwaitingFill?
    ensures OffersMatch(session', pair, side, offers[k := Reduced(offers[k], reduction)], exact)
  {
    var after := offers[k := Reduced(offers[k], reduction)];
    forall i | 0 <= i < |after| ensures Matches(session', pair, side, after[i], exact) {
      assert Matches(session, pair, side, offers[i], exact);
    }
  }

  /** When one side of market `m` matches the rewritten table, everything does. */
  lemma RewriteTracked(s: State, m: nat, book: Book, id: OrderId, order: PlacedOrder, exact: bool)
    requires Sound(s) && Tracked(s, exact) && m < |s.markets| && id < |s.ledger.session|
    requires s.markets[m].pair == s.ledger.session[id].pair
    requires Rewritten(s.ledger.session[id], order) && TidyBook(book)
    requires book.Side(order.side.Opposite()) == s.markets[m].book.Side(order.side.Opposite())
    requires OffersMatch(s.ledger.session[id := order], order.pair, order.side,
                         Offers(order.side, book.Side(order.side)), exact)
    ensures Tracked(WithOrder(s, m, book, id, order), exact)
  {
    var s' := WithOrder(s, m, book, id, order);
    var session, session' := s.ledger.session, s'.ledger.session;
    forall i | 0 <= i < |s'.markets| ensures MarketMatches(session', s'.markets[i], exact) {
      assert MarketMatches(session, s.markets[i], exact);
      if i == m {
        var other := order.side.Opposite();
        OtherSideMatches(session, session', order.pair, other, SideOffers(s.markets[m], other), exact,
                         order.pair, order.side);
      } else {
        OtherSideMatches(session, session', s.markets[i].pair, Bid, SideOffers(s.markets[i], Bid), exact,
                         order.pair, order.side);
        OtherSideMatches(session, session', s.markets[i].pair, Ask, SideOffers(s.markets[i], Ask), exact,
                         order.pair, order.side);
      }
    }
  }

  lemma SideFacts(s: State, m: nat, side: Side, exact: bool)
    requires Sound(s) && Tracked(s, exact) && m < |s.markets|
    ensures SideOk(s.markets[m].book.Side(side), |s.ledger.session|)
    ensures OffersMatch(s.ledger.session, s.markets[m].pair, side, SideOffers(s.markets[m], side), exact)
    ensures DistinctIds(SideOffers(s.markets[m], side))
    ensures TidyBook(s.markets[m].book)
  {
    assert MarketMatches(s.ledger.session, s.markets[m], exact);
    assert BookOk(s.markets[m].book, |s.ledger.session|);
    MatchedAreDistinct(s.ledger.session, s.markets[m].pair, side, s.markets[m].book.Side(side), exact);
  }

  // ---- taking an order out of its book ----

  /** Book `book` of market `m` is the old one without order `id`, whose record becomes `order`. */
  ghost predicate TakesOut(s: State, m: nat, book: Book, id: OrderId, order: PlacedOrder, k: nat) {
    && m < |s.markets| && id < |s.ledger.session|
    && FindMarket(s.markets, order.pair) == Some(m)
    && Rewritten(s.ledger.session[id], order)
    && TidyBook(book)
    && book.Side(order.side.Opposite()) == s.markets[m].book.Side(order.side.Opposite())
    && var offers := SideOffers(s.markets[m], order.side);
       k < |offers| && offers[k].entry.id == id && Offers(order.side, book.Side(order.side)) == RemoveAt(offers, k)
  }

  lemma TakeOutTracked(s: State, m: nat, book: Book, id: OrderId, order: PlacedOrder, k: nat, exact: bool)
    requires Sound(s) && Tracked(s, exact) && TakesOut(s, m, book, id, order, k)
    ensures Tracked(WithOrder(s, m, book, id, order), exact)
  {
    SideFacts(s, m, order.side, exact);
    RemovedStillMatch(s.ledger.session, s.ledger.session[id := order], order.pair, order.side,
                      SideOffers(s.markets[m], order.side), k, exact);
    RewriteTracked(s, m, book, id, order, exact);
  }

  lemma OfferKept(offers: seq<Offer>, k: nat, id: OrderId)
    requires k < |offers| && offers[k].entry.id != id && HasOffer(offers, id)
    ensures HasOffer(RemoveAt(offers, k), id)
  {
    var j :| 0 <= j < |offers| && offers[j].entry.id == id;
    assert RemoveAt(offers, k)[if j < k then j else j - 1].entry.id == id;
  }

  lemma OfferGone(offers: seq<Offer>, k: nat)
    requires k < |offers| && DistinctIds(offers)
    ensures !HasOffer(RemoveAt(offers, k), offers[k].entry.id)
  {
    var rest := RemoveAt(offers, k);
    assert forall i :: 0 <= i < |rest| ==> rest[i] == offers[if i < k then i else i + 1];
  }

  lemma TakeOutOthersRest(s: State, m: nat, book: Book, id: OrderId, order: PlacedOrder, k: nat, other: OrderId)
    requires TakesOut(s, m, book, id, order, k)
    requires other < |s.ledger.session| && other != id && Rests(s.ledger.session, s.markets, other)
    ensures var s' := WithOrder(s, m, book, id, order); Rests(s'.ledger.session, s'.markets, other)
  {
    var s' := WithOrder(s, m, book, id, order);
    var p := s.ledger.session[other];
    FindMarketSame(s.markets, s'.markets, p.pair);
    if FindMarket(s.markets, p.pair).value == m && p.side == order.side {
      OfferKept(SideOffers(s.markets[m], order.side), k, other);
    }
  }

  lemma TakeOutGone(s: State, m: nat, book: Book, id: OrderId, order: PlacedOrder, k: nat, exact: bool)
    requires Sound(s) && Tracked(s, exact) && TakesOut(s, m, book, id, order, k)
    ensures var s' := WithOrder(s, m, book, id, order); !Rests(s'.ledger.session, s'.markets, id)
  {
    var s' := WithOrder(s, m, book, id, order);
    SideFacts(s, m, order.side, exact);
    FindMarketSame(s.markets, s'.markets, order.pair);
    OfferGone(SideOffers(s.markets[m], order.side), k);
  }

  /** Taking out an order whose record stops being live keeps the mirror. */
  lemma TakeOutMirror(s: State, m: nat, book: Book, id: OrderId, order: PlacedOrder, k: nat)
    requires Sound(s) && Mirror(s) && TakesOut(s, m, book, id, order, k) && !Live(order)
    ensures Mirror(WithOrder(s, m, book, id, order))
  {
    var s' := WithOrder(s, m, book, id, order);
    TakeOutTracked(s, m, book, id, order, k, true);
    forall other | 0 <= other < |s'.ledger.session| && Live(s'.ledger.session[other])
      ensures Rests(s'.ledger.session, s'.markets, other)
    {
      TakeOutOthersRest(s, m, book, id, order, k, other);
    }
  }

  lemma RecordIds(s: State)
    requires Sound(s)
    ensures forall id :: 0 <= id < |s.ledger.session| ==> s.ledger.session[id].id == id
  {
    assert forall id :: 0 <= id < |s.ledger.session| ==>
             OrderOk(s.ledger.session[id], id, s.requests[id], s.accounts, s.markets);
  }

  // ---- cancelling ----

  /** Removing the order found by record `id` takes exactly that order out. */
  lemma FoundTakesOut(s: State, m: nat, book: Book, id: OrderId, order: PlacedOrder, exact: bool) returns (k: nat)
    requires Sound(s) && Tracked(s, exact) && id < |s.ledger.session|
    requires FindMarket(s.markets, order.pair) == Some(m) && Rewritten(s.ledger.session[id], order)
    requires Cancel(s.markets[m].book, OrderCancellation(order.pair, id, order.side, order.price)) == Ok(book)
    ensures TakesOut(s, m, book, id, order, k)
  {
    var c := OrderCancellation(order.pair, id, order.side, order.price);
    SideFacts(s, m, order.side, exact);
    assert BookOk(s.markets[m].book, |s.ledger.session|);
    CancelKeepsBook(s.markets[m].book, c, |s.ledger.session|);
    k := CancelOffers(order.side, s.markets[m].book.Side(order.side), order.price, id);
  }

  /** A cancellation either changes nothing, or takes the order out of its book. */
  lemma CancelCases(s: State, req: CancellationRequest, exact: bool) returns (m: nat, book: Book, k: nat,
                    order: PlacedOrder)
    requires Sound(s) && Tracked(s, exact)
    ensures if CancelOrder(s, req).reply != CancelReply(Ok(())) then CancelOrder(s, req).state == s
            else TakesOut(s, m, book, req.orderId, order, k) && order.status.Cancelled?
                 && CancelOrder(s, req).state == WithOrder(s, m, book, req.orderId, order)
  {
    hide Offers, Cancel, WithOrder, Sound, Tracked, TakesOut;
    m, book, k := 0, EMPTY_BOOK, 0;
    order := PlacedOrder(0, 0, AssetIdPair(0, 0), Bid, 0, 0, 0, Cancelled);
    if CancelOrder(s, req).reply == CancelReply(Ok(())) {
      var p := s.ledger.session[req.orderId];
      order := p.(status := Cancelled);
      m := FindMarket(s.markets, p.pair).value;
      book := Cancel(s.markets[m].book, req.IntoCancellation(p.pair, p.side, p.price)).value;
      k := FoundTakesOut(s, m, book, req.orderId, order, exact);
    }
  }

  /** Cancelling keeps all remaining orders matching their records. */
  lemma CancelKeepsTracked(s: State, req: CancellationRequest, exact: bool)
    requires Sound(s) && Tracked(s, exact)
    ensures Tracked(CancelOrder(s, req).state, exact)
  {
    hide CancelOrder, Offers, Sound, Tracked, WithOrder, TakesOut;
    var m, book, k, order := CancelCases(s, req, exact);
    if CancelOrder(s, req).reply == CancelReply(Ok(())) {
      TakeOutTracked(s, m, book, req.orderId, order, k, exact);
    }
  }

  lemma CancelKeepsMirror(s: State, req: CancellationRequest)
    requires Sound(s) && Mirror(s)
    ensures Mirror(CancelOrder(s, req).state)
  {
    hide CancelOrder, Offers, Sound, Tracked, Complete, WithOrder, TakesOut;
    var m, book, k, order := CancelCases(s, req, true);
    if CancelOrder(s, req).reply == CancelReply(Ok(())) {
      TakeOutMirror(s, m, book, req.orderId, order, k);
    }
  }

  /** A live order is found by its record, for cancelling and for modifying. */
  lemma LiveIsFound(s: State, id: OrderId)
    requires Sound(s) && Mirror(s) && id < |s.ledger.session| && Live(s.ledger.session[id])
    ensures var p := s.ledger.session[id]; var m := FindMarket(s.markets, p.pair);
            && m.Some?
            && var levels := s.markets[m.value].book.Side(p.side);
               CancelIn(levels, p.price, id).Some? && forall reduction :: ModifyIn(levels, p.price, id, reduction).Some?
  {
    var p := s.ledger.session[id];
    assert Rests(s.ledger.session, s.markets, id);
    var m := FindMarket(s.markets, p.pair).value;
    SideFacts(s, m, p.side, true);
    var offers := SideOffers(s.markets[m], p.side);
    var j :| 0 <= j < |offers| && offers[j].entry.id == id;
    assert Matches(s.ledger.session, p.pair, p.side, offers[j], true);
    OfferIsFound(p.side, s.markets[m].book.Side(p.side), j);
  }

  /** An order found in the book by its record is live. */
  lemma FoundIsLive(s: State, m: nat, id: OrderId, exact: bool)
    requires Sound(s) && Tracked(s, exact) && id < |s.ledger.session| && m < |s.markets|
    requires var p := s.ledger.session[id];
             s.markets[m].pair == p.pair && CancelIn(s.markets[m].book.Side(p.side), p.price, id).Some?
    ensures Live(s.ledger.session[id])
  {
    var p := s.ledger.session[id];
    SideFacts(s, m, p.side, exact);
    var k := CancelOffers(p.side, s.markets[m].book.Side(p.side), p.price, id);
    assert Matches(s.ledger.session, p.pair, p.side, SideOffers(s.markets[m], p.side)[k], exact);
  }

  /** A cancellation succeeds exactly when the owner asks for an order that is awaiting fill
      with volume left. */
  lemma CancelSucceedsIff(s: State, req: CancellationRequest)
    requires Sound(s) && Mirror(s)
    ensures CancelOrder(s, req).reply == CancelReply(Ok(()))
       <==> req.orderId < |s.ledger.session| && s.ledger.session[req.orderId].account == req.account
            && Live(s.ledger.session[req.orderId])
  {
    hide Offers, CancelIn, Sound, Tracked, Complete;
    if req.orderId < |s.ledger.session| {
      var p := s.ledger.session[req.orderId];
      if Live(p) {
        LiveIsFound(s, req.orderId);
      }
      var m := FindMarket(s.markets, p.pair);
      if m.Some? && CancelIn(s.markets[m.value].book.Side(p.side), p.price, req.orderId).Some? {
        FoundIsLive(s, m.value, req.orderId, true);
      }
    }
  }

  /** A cancelled order is gone from its book. */
  lemma CancelledIsGone(s: State, req: CancellationRequest, exact: bool)
    requires Sound(s) && Tracked(s, exact) && CancelOrder(s, req).reply == CancelReply(Ok(()))
    ensures var s' := CancelOrder(s, req).state;
            req.orderId < |s'.ledger.session| && !Rests(s'.ledger.session, s'.markets, req.orderId)
  {
    hide CancelOrder, Offers, Sound, Tracked;
    var m, book, k, order := CancelCases(s, req, exact);
    TakeOutGone(s, m, book, req.orderId, order, k, exact);
  }

  // ---- modifying ----

  function ModificationOf(order: PlacedOrder, req: ModificationRequest): OrderModification
    requires req.newVolume <= order.volume
  {
    req.IntoModification(order.pair, order.side, order.price, order.volume)
  }

  /** The modification gets through the guards and finds the order in the book. */
  ghost predicate ReachesBook(s: State, req: ModificationRequest, m: nat) {
    && req.orderId < |s.ledger.session|
    && var order := s.ledger.session[req.orderId];
    && order.account == req.account && !order.status.Filled? && req.newVolume <= order.volume
    && FindMarket(s.markets, order.pair) == Some(m)
    && Modify(s.markets[m].book, ModificationOf(order, req)).Ok?
  }

  /** A modification that does not reach the book changes nothing. */
  lemma ModifyRejected(s: State, req: ModificationRequest)
    requires forall m :: !ReachesBook(s, req, m)
    ensures ModifyOrder(s, req).Done? && ModifyOrder(s, req).state == s
  {
    if req.orderId < |s.ledger.session| {
      var m := FindMarket(s.markets, s.ledger.session[req.orderId].pair);
      if m.Some? { assert !ReachesBook(s, req, m.value); }
    }
  }

  /** The offer a modification reaches, and what becomes of its book. */
  ghost predicate Shrinks(s: State, m: nat, book: Book, order: PlacedOrder, k: nat, reduction: Volume, exact: bool) {
    && m < |s.markets| && TidyBook(book)
    && book.Side(order.side.Opposite()) == s.markets[m].book.Side(order.side.Opposite())
    && var offers := SideOffers(s.markets[m], order.side);
    && k < |offers| && offers[k].entry.id == order.id
    && Matches(s.ledger.session, order.pair, order.side, offers[k], exact)
    && Offers(order.side, book.Side(order.side)) == ShrinkOffer(offers, k, reduction)
  }

  lemma ModifiedOffer(s: State, m: nat, id: OrderId, reduction: Volume, exact: bool) returns (k: nat)
    requires Sound(s) && Tracked(s, exact) && m < |s.markets| && id < |s.ledger.session|
    requires var p := s.ledger.session[id];
             && s.markets[m].pair == p.pair
             && Modify(s.markets[m].book, OrderModification(p.pair, id, reduction, p.side, p.price)).Ok?
    ensures var p := s.ledger.session[id];
            Shrinks(s, m, Modify(s.markets[m].book, OrderModification(p.pair, id, reduction, p.side, p.price)).value,
                    p, k, reduction, exact)
  {
    var p := s.ledger.session[id];
    assert OrderOk(p, id, s.requests[id], s.accounts, s.markets);
    var c := OrderModification(p.pair, id, reduction, p.side, p.price);
    SideFacts(s, m, p.side, exact);
    assert BookOk(s.markets[m].book, |s.ledger.session|);
    ModifyKeepsBook(s.markets[m].book, c, |s.ledger.session|);
    k := ModifyOffers(p.side, s.markets[m].book.Side(p.side), p.price, id, reduction);
    assert Matches(s.ledger.session, s.markets[m].pair, p.side, SideOffers(s.markets[m], p.side)[k], exact);
  }

  /** Shrinking an offer in place keeps the bound; it keeps exact agreement only when nothing shrinks. */
  lemma ShrinkTracked(s: State, m: nat, book: Book, id: OrderId, order: PlacedOrder, k: nat, reduction: Volume,
                      exact: bool)
    requires Sound(s) && Tracked(s, exact)
    requires m < |s.markets| && id < |s.ledger.session| && FindMarket(s.markets, order.pair) == Some(m)
    requires Rewritten(s.ledger.session[id], order) && order.status.AwaitingFill? && TidyBook(book)
    requires book.Side(order.side.Opposite()) == s.markets[m].book.Side(order.side.Opposite())
    requires var offers := SideOffers(s.markets[m], order.side);
             && k < |offers| && offers[k].entry.id == id && reduction < offers[k].entry.volume
             && Offers(order.side, book.Side(order.side)) == offers[k := Reduced(offers[k], reduction)]
    requires exact ==> reduction == 0
    ensures Tracked(WithOrder(s, m, book, id, order), exact)
  {
    SideFacts(s, m, order.side, exact);
    ShrunkStillMatch(s.ledger.session, s.ledger.session[id := order], order.pair, order.side,
                     SideOffers(s.markets[m], order.side), k, reduction, exact);
    RewriteTracked(s, m, book, id, order, exact);
  }

  /** A modification that reaches the book stops the exchange exactly when the record has less
      volume than it has open volume; otherwise book and record change. */
  lemma ModifyCases(s: State, req: ModificationRequest, m: nat)
    requires ReachesBook(s, req, m)
    ensures var order := s.ledger.session[req.orderId];
            var book := Modify(s.markets[m].book, ModificationOf(order, req)).value;
            ModifyOrder(s, req)
            == if order.volume < order.remaining then Stopped
               else Done(WithOrder(s, m, book, req.orderId, Resized(order, req.newVolume)), ModifyReply(Ok(())))
  {}

  /** When the table's filled volume exceeds the new one, the whole offer is gone from the book. */
  lemma ResizedTracked(s: State, m: nat, book: Book, id: OrderId, newVolume: Volume, k: nat)
    requires Sound(s) && Tracked(s, false) && id < |s.ledger.session|
    requires var p := s.ledger.session[id];
             && p.id == id && FindMarket(s.markets, p.pair) == Some(m) && p.remaining <= p.volume
                && newVolume <= p.volume
             && Shrinks(s, m, book, p, k, p.volume - newVolume, false)
    ensures Tracked(WithOrder(s, m, book, id, Resized(s.ledger.session[id], newVolume)), false)
  {
    hide Offers, Sound, Tracked;
    var p := s.ledger.session[id];
    var order := Resized(p, newVolume);
    if p.volume - newVolume >= SideOffers(s.markets[m], p.side)[k].entry.volume {
      TakeOutTracked(s, m, book, id, order, k, false);
    } else {
      ShrinkTracked(s, m, book, id, order, k, p.volume - newVolume, false);
    }
  }

  /** Even with modifications the table bounds what rests. */
  lemma ModifyKeepsTracked(s: State, req: ModificationRequest)
    requires Sound(s) && Tracked(s, false) && ModifyOrder(s, req).Done?
    ensures Tracked(ModifyOrder(s, req).state, false)
  {
    hide Modify, Offers, WithOrder, Sound, Tracked, ModifyOrder, Shrinks;
    RecordIds(s);
    if m: nat :| ReachesBook(s, req, m) {
      var p := s.ledger.session[req.orderId];
      ModifyCases(s, req, m);
      var k := ModifiedOffer(s, m, req.orderId, p.volume - req.newVolume, false);
      ResizedTracked(s, m, Modify(s.markets[m].book, ModificationOf(p, req)).value, req.orderId, req.newVolume, k);
    } else {
      ModifyRejected(s, req);
    }
  }

  /** In the mirrored state before any modification, records have at least their open volume. */
  predicate VolumesCover(s: State) {
    forall id :: 0 <= id < |s.ledger.session| ==> s.ledger.session[id].remaining <= s.ledger.session[id].volume
  }

  /** A modification keeps the mirror exactly when it asks for the volume the order already
      has, or for less than was already filled. Anything between leaves the table wrong. */
  lemma ModifyKeepsMirrorIff(s: State, req: ModificationRequest, m: nat)
    requires Sound(s) && Mirror(s) && ReachesBook(s, req, m)
    requires var p := s.ledger.session[req.orderId]; p.remaining <= p.volume
    ensures ModifyOrder(s, req).Done? && ModifyOrder(s, req).reply == ModifyReply(Ok(()))
    ensures var order := s.ledger.session[req.orderId];
            Mirror(ModifyOrder(s, req).state)
            <==> req.newVolume == order.volume || req.newVolume < order.volume - order.remaining
  {
    hide Modify, Offers, WithOrder, Sound, Tracked, Complete, ModifyOrder, Shrinks;
    RecordIds(s);
    var p := s.ledger.session[req.orderId];
    var book := Modify(s.markets[m].book, ModificationOf(p, req)).value;
    ModifyCases(s, req, m);
    var k := ModifiedOffer(s, m, req.orderId, p.volume - req.newVolume, true);
    ShrinksLive(s, m, book, p, k, p.volume - req.newVolume);
    ResizedMirrorIff(s, m, book, req.orderId, req.newVolume, k);
  }

  lemma ShrinksLive(s: State, m: nat, book: Book, p: PlacedOrder, k: nat, reduction: Volume)
    requires Shrinks(s, m, book, p, k, reduction, true) && p.id < |s.ledger.session| && s.ledger.session[p.id] == p
    ensures Live(p)
  {
    hide Offers;
  }

  /** A reduction of at least the open volume takes the order out. */
  lemma ShrinksTakesOut(s: State, m: nat, book: Book, order: PlacedOrder, k: nat, reduction: Volume)
    requires order.id < |s.ledger.session| && Rewritten(s.ledger.session[order.id], order)
    requires FindMarket(s.markets, order.pair) == Some(m)
    requires Shrinks(s, m, book, s.ledger.session[order.id], k, reduction, true) && reduction >= order.remaining
    ensures TakesOut(s, m, book, order.id, order, k)
  {
    hide Offers;
  }

  lemma ResizedMirrorIff(s: State, m: nat, book: Book, id: OrderId, newVolume: Volume, k: nat)
    requires Sound(s) && Mirror(s) && id < |s.ledger.session|
    requires var p := s.ledger.session[id];
             && p.id == id && FindMarket(s.markets, p.pair) == Some(m) && p.remaining <= p.volume
                && newVolume <= p.volume
             && Live(p) && Shrinks(s, m, book, p, k, p.volume - newVolume, true)
    ensures var p := s.ledger.session[id];
            Mirror(WithOrder(s, m, book, id, Resized(p, newVolume)))
            <==> newVolume == p.volume || newVolume < p.volume - p.remaining
  {
    hide Offers, Sound, Tracked, Rests, Shrinks, TakesOut;
    var p := s.ledger.session[id];
    var order := Resized(p, newVolume);
    var reduction := p.volume - newVolume;
    if reduction >= p.remaining {
      ShrinksTakesOut(s, m, book, order, k, reduction);
      if reduction > p.remaining {
        TakeOutMirror(s, m, book, id, order, k);
      } else {
        LiveTakenOutBreaks(s, m, book, id, order, k);
      }
    } else if reduction > 0 {
      ShrunkBreaks(s, m, book, id, order, k, reduction);
    } else {
      ZeroReduction(s, m, book, id, order, k);
    }
  }

  lemma LiveTakenOutBreaks(s: State, m: nat, book: Book, id: OrderId, order: PlacedOrder, k: nat)
    requires Sound(s) && Mirror(s) && TakesOut(s, m, book, id, order, k) && Live(order)
    ensures !Mirror(WithOrder(s, m, book, id, order))
  {
    hide Offers, Sound, Tracked, Rests;
    TakeOutGone(s, m, book, id, order, k, true);
    assert Live(WithOrder(s, m, book, id, order).ledger.session[id]);
  }

  lemma ShrunkBreaks(s: State, m: nat, book: Book, id: OrderId, order: PlacedOrder, k: nat, reduction: Volume)
    requires Sound(s) && id < |s.ledger.session| && Rewritten(s.ledger.session[id], order) && order.id == id
    requires FindMarket(s.markets, order.pair) == Some(m)
    requires Shrinks(s, m, book, s.ledger.session[id], k, reduction, true) && 0 < reduction < order.remaining
    ensures !Tracked(WithOrder(s, m, book, id, order), true)
  {
    var s' := WithOrder(s, m, book, id, order);
    var offers := Offers(order.side, book.Side(order.side));
    assert SideOffers(s'.markets[m], order.side) == offers;
    assert !Matches(s'.ledger.session, order.pair, order.side, offers[k], true);
    assert !MarketMatches(s'.ledger.session, s'.markets[m], true);
  }

  lemma ZeroReduction(s: State, m: nat, book: Book, id: OrderId, order: PlacedOrder, k: nat)
    requires Sound(s) && Mirror(s) && id < |s.ledger.session|
    requires Rewritten(s.ledger.session[id], order) && order.status.AwaitingFill? && order.id == id
    requires FindMarket(s.markets, order.pair) == Some(m)
    requires Shrinks(s, m, book, s.ledger.session[id], k, 0, true)
    ensures Mirror(WithOrder(s, m, book, id, order))
  {
    hide Offers, Tracked, Sound;
    var s' := WithOrder(s, m, book, id, order);
    ShrinkTracked(s, m, book, id, order, k, 0, true);
    var offers := SideOffers(s.markets[m], order.side);
    assert offers[k := Reduced(offers[k], 0)] == offers;
    forall other | 0 <= other < |s'.ledger.session| && Live(s'.ledger.session[other])
      ensures Rests(s'.ledger.session, s'.markets, other)
    {
      var p := s.ledger.session[other];
      FindMarketSame(s.markets, s'.markets, p.pair);
      if other == id {
        assert offers[k].entry.id == id;
      } else {
        assert Rests(s.ledger.session, s.markets, other);
      }
    }
  }

  /** Modifying a resting order to less than its open volume makes the owner's next
      modification stop the exchange, unless the order is traded or removed in between. */
  lemma SecondModifyStops(s: State, first: ModificationRequest, second: ModificationRequest)
    requires Sound(s) && Mirror(s)
    requires first.orderId < |s.ledger.session| && first.orderId == second.orderId
    requires var p := s.ledger.session[first.orderId];
             && Live(p) && p.account == first.account == second.account
             && p.remaining <= p.volume && p.volume - p.remaining < first.newVolume < p.remaining
                && second.newVolume <= first.newVolume
    ensures ModifyOrder(s, first).Done? && ModifyOrder(s, first).reply == ModifyReply(Ok(()))
    ensures ModifyOrder(ModifyOrder(s, first).state, second).Stopped?
  {
    hide Offers, Cancel, CancelIn, Modify, Sound, Tracked, Complete, ModifyOrder;
    RecordIds(s);
    var p := s.ledger.session[first.orderId];
    var m := LiveReachesBook(s, first);
    ModifyCases(s, first, m);
    ModifySound(s, first);
    var k := ModifiedOffer(s, m, first.orderId, p.volume - first.newVolume, true);
    var s' := ModifyOrder(s, first).state;
    StillReachesBook(s', second, m, k);
    ModifyCases(s', second, m);
  }

  lemma LiveReachesBook(s: State, req: ModificationRequest) returns (m: nat)
    requires Sound(s) && Mirror(s) && req.orderId < |s.ledger.session|
    requires var p := s.ledger.session[req.orderId]; Live(p) && p.account == req.account && req.newVolume <= p.volume
    ensures ReachesBook(s, req, m)
  {
    hide Offers, CancelIn, ModifyIn;
    LiveIsFound(s, req.orderId);
    m := FindMarket(s.markets, s.ledger.session[req.orderId].pair).value;
  }

  lemma StillReachesBook(s: State, req: ModificationRequest, m: nat, k: nat)
    requires Sound(s) && m < |s.markets| && req.orderId < |s.ledger.session|
    requires var p := s.ledger.session[req.orderId]; var offers := SideOffers(s.markets[m], p.side);
             && p.account == req.account && !p.status.Filled? && req.newVolume <= p.volume
                && s.markets[m].pair == p.pair
             && k < |offers| && offers[k].entry.id == req.orderId && offers[k].price == p.price
    ensures ReachesBook(s, req, m)
  {
    hide Offers, ModifyIn;
    FindMarketAt(s.markets, m);
    StillFound(s, m, req.orderId, k);
  }

  lemma StillFound(s: State, m: nat, id: OrderId, k: nat)
    requires Sound(s) && m < |s.markets| && id < |s.ledger.session|
    requires var p := s.ledger.session[id]; var offers := SideOffers(s.markets[m], p.side);
             k < |offers| && offers[k].entry.id == id && offers[k].price == p.price
    ensures var p := s.ledger.session[id];
            forall reduction :: ModifyIn(s.markets[m].book.Side(p.side), p.price, id, reduction).Some?
  {
    var p := s.ledger.session[id];
    assert BookOk(s.markets[m].book, |s.ledger.session|);
    OfferIsFound(p.side, s.markets[m].book.Side(p.side), k);
  }
}
