/** What a request to insert an order is answered, and what becomes of it, in terms of the request itself. */
module InsertReplies {
  import opened Types
  import opened Sums
  import opened BookSpec
  import opened Matching
  import opened MatchingFacts
  import opened BookFacts
  import opened Settlement
  import opened ExchangeSpec
  import opened Soundness
  import opened Tracking
  import opened Provenance
  import opened Guarantees
  import opened History
  import opened Eligibility

  /** The offers the request may meet in its market. */
  function Facing(m: MarketState, req: InsertionRequest): seq<Offer> {
    SideOffers(m, if req.side.Bid? then Ask else Bid)
  }

  /** Too little is offered for a request that must be filled at once; a limit request needs nothing. */
  predicate Lacks(m: MarketState, req: InsertionRequest) {
    var offers := Facing(m, req);
    match req.orderType
    case Limit => false
    case Market => offers == [] || SumBy(offers, OpenVolume()) < req.volume
    case FillOrKill =>
      || (forall k :: 0 <= k < |offers| ==> !Within(req.side, req.price, offers[k].price))
      || SumBy(offers, VolumeWithin(req.side, req.price)) < req.volume
      || (req.side.Ask? && m.book.bids != [] && m.book.bids[0].price < req.price)
  }

  /** Offer `k` is the account's own, everything up to it may trade, and what is ahead of it does not suffice. */
  predicate MeetsOwnAt(offers: seq<Offer>, req: InsertionRequest, k: nat) {
    && k < |offers|
    && offers[k].entry.account == req.account
    && (req.orderType.Market? || forall i :: 0 <= i <= k ==> Within(req.side, req.price, offers[i].price))
    && (k == 0 || SumBy(offers[..k], OpenVolume()) < req.volume)
  }

  /** The request would trade with an order of its own account. A request for nothing that finds an empty level in
      front of it stops there. */
  ghost predicate MeetsOwn(m: MarketState, req: InsertionRequest) {
    var side := if req.side.Bid? then Ask else Bid;
    && (exists k: nat :: MeetsOwnAt(Facing(m, req), req, k))
    && !StopsAtEmptyLevel(side, m.book.Side(side), req.volume)
  }

  lemma CheckIff(m: MarketState, req: InsertionRequest, id: OrderId)
    requires SortedSide(m.book.bids) && SortedSide(m.book.asks)
    ensures var r := Insert(m.book, req.IntoInsertion(id)).result;
            && (r == Err(InadequateVolume) <==> req.orderType.Market? && Lacks(m, req))
            && (r == Err(OrderKilled) <==> req.orderType.FillOrKill? && Lacks(m, req))
  {
    hide Offers, Insert;
    var o := req.IntoInsertion(id);
    assert Facing(m, req) == Offers(o.side.Opposite(), m.book.Side(o.side.Opposite()));
    match req.orderType
    case Limit => LimitNeverRefused(m.book, o);
    case Market => MarketRefusedIff(m.book, o);
    case FillOrKill => FillOrKillKilledIff(m.book, o);
  }

  lemma LacksIff(m: MarketState, req: InsertionRequest, id: OrderId)
    requires SortedSide(m.book.bids) && SortedSide(m.book.asks)
    ensures var o := req.IntoInsertion(id);
            Lacks(m, req) <==> !o.orderType.Limit? && !EnoughVolume(m.book.Side(o.side.Opposite()), o)
  {
    CheckIff(m, req, id);
    hide Offers, Sweep, RestEntry, EnoughVolume, Facing;
  }

  lemma BlockedIsOwn(offers: seq<Offer>, req: InsertionRequest, id: OrderId, k: nat)
    ensures BlockedAt(offers, req.IntoInsertion(id), req.volume, k) <==> MeetsOwnAt(offers, req, k)
  {}

  lemma OwnIff(m: MarketState, req: InsertionRequest, id: OrderId)
    requires SortedSide(m.book.bids) && SortedSide(m.book.asks)
    ensures Insert(m.book, req.IntoInsertion(id)).result == Err(SelfTrade) <==> !Lacks(m, req) && MeetsOwn(m, req)
  {
    hide Offers, Insert, Lacks, StopsAtEmptyLevel, EnoughVolume, BlockedAt, MeetsOwnAt;
    var o := req.IntoInsertion(id);
    var side := o.side.Opposite();
    assert Facing(m, req) == Offers(side, m.book.Side(side));
    InsertSelfTradeIff(m.book, o);
    LacksIff(m, req, id);
    forall k: nat ensures BlockedAt(Facing(m, req), o, o.volume, k) <==> MeetsOwnAt(Facing(m, req), req, k) {
      BlockedIsOwn(Facing(m, req), req, id, k);
    }
    assert Blocked(Facing(m, req), o, o.volume) <==> exists k: nat :: MeetsOwnAt(Facing(m, req), req, k);
  }

  lemma SortedBooks(s: State, m: nat)
    requires Sound(s) && m < |s.markets|
    ensures SortedSide(s.markets[m].book.bids) && SortedSide(s.markets[m].book.asks)
    ensures FindMarket(s.markets, s.markets[m].pair) == Some(m)
  {
    assert BookOk(s.markets[m].book, |s.ledger.session|);
    FindMarketAt(s.markets, m);
  }

  /** The request is refused with this error. */
  ghost predicate Refused(s: State, req: InsertionRequest, e: InsertionError) {
    var r := InsertOrder(s, req);
    r.Done? && r.reply == InsertReply(Err(e))
  }

  /** How the market's answer decides the reply. */
  lemma RefusedByMarket(s: State, req: InsertionRequest, m: nat, e: InsertionError)
    requires FindMarket(s.markets, req.pair) == Some(m)
    ensures var r := Insert(s.markets[m].book, req.IntoInsertion(|s.ledger.session|)).result;
            && (Refused(s, req, e) <==> if req.account >= s.accounts then e == NoSuchAccount else r == Err(e))
            && (AcceptsInsertion(s, req) || InsertOrder(s, req).Stopped? <==> req.account < s.accounts && r.Ok?)
            && (AcceptsInsertion(s, req) ==> InsertOrder(s, req).reply.inserted.value.0 == |s.ledger.session|)
  {
    hide Insert, Drain;
  }

  /** Every reason for which a request is refused in market `m`; an accepted request is given the next id. */
  lemma RefusedIff(s: State, req: InsertionRequest, m: nat)
    requires Sound(s) && m < |s.markets| && s.markets[m].pair == req.pair
    ensures Refused(s, req, NoSuchAccount) <==> req.account >= s.accounts
    ensures Refused(s, req, OrderKilled)
       <==> req.account < s.accounts && req.orderType.FillOrKill? && Lacks(s.markets[m], req)
    ensures Refused(s, req, InadequateVolume)
       <==> req.account < s.accounts && req.orderType.Market? && Lacks(s.markets[m], req)
    ensures Refused(s, req, SelfTrade)
       <==> req.account < s.accounts && !Lacks(s.markets[m], req) && MeetsOwn(s.markets[m], req)
    ensures AcceptsInsertion(s, req) || InsertOrder(s, req).Stopped?
       <==> req.account < s.accounts && !Lacks(s.markets[m], req) && !MeetsOwn(s.markets[m], req)
    ensures AcceptsInsertion(s, req) ==> InsertOrder(s, req).reply.inserted.value.0 == |s.ledger.session|
  {
    assert req.orderType.Limit? ==> !Lacks(s.markets[m], req);
    hide Insert, InsertOrder, Refused, AcceptsInsertion, Lacks, MeetsOwn, Sound;
    SortedBooks(s, m);
    var book, o := s.markets[m].book, req.IntoInsertion(|s.ledger.session|);
    CheckIff(s.markets[m], req, |s.ledger.session|);
    OwnIff(s.markets[m], req, |s.ledger.session|);
    NoOtherError(book, o);
    RefusedByMarket(s, req, m, NoSuchAccount);
    RefusedByMarket(s, req, m, OrderKilled);
    RefusedByMarket(s, req, m, InadequateVolume);
    RefusedByMarket(s, req, m, SelfTrade);
  }

  lemma NoOtherError(book: Book, o: OrderInsertion)
    ensures var r := Insert(book, o).result; r.Err? ==> r.error in {OrderKilled, InadequateVolume, SelfTrade}
  {
    hide Sweep, EnoughVolume, RestEntry;
  }

  /** Without a market for the pair the request is refused, and only then for that reason. */
  lemma NoMarketIff(s: State, req: InsertionRequest)
    ensures Refused(s, req, NoSuchMarket) <==> forall m :: 0 <= m < |s.markets| ==> s.markets[m].pair != req.pair
  {
    hide Drain;
    var m := FindMarket(s.markets, req.pair);
    if m.Some? { NoOtherError(s.markets[m.value].book, req.IntoInsertion(|s.ledger.session|)); }
    hide Insert;
  }

  // ---- accepted requests ----

  /** What the request leaves untraded. */
  function Left(m: MarketState, req: InsertionRequest): int {
    LeftUntraded(Facing(m, req), req.orderType, req.side, req.volume, req.price)
  }

  /** The request's side with the new order in it, behind all offers at least as good and before all worse ones. */
  predicate RestsAt(before: seq<Offer>, after: seq<Offer>, req: InsertionRequest, id: OrderId, volume: int, k: nat) {
    && k <= |before| && 0 < volume <= 0xFFFF_FFFF
    && after == before[..k] + [Offer(req.price, Entry(id, req.account, volume))] + before[k..]
    && (forall i :: 0 <= i < k ==> if req.side.Bid? then before[i].price >= req.price else before[i].price <= req.price)
    && (k < |before| ==> if req.side.Bid? then before[k].price < req.price else before[k].price > req.price)
  }

  predicate RestsNowhere(markets: seq<MarketState>, id: OrderId) {
    forall m :: 0 <= m < |markets| ==>
      !HasOffer(SideOffers(markets[m], Bid), id) && !HasOffer(SideOffers(markets[m], Ask), id)
  }

  /** What an accepted request does to the books: it rests with what it leaves untraded; other markets are untouched. */
  ghost predicate RestsUntraded(s: State, s': State, req: InsertionRequest, m: nat)
    requires m < |s.markets|
  {
    var id, left := |s.ledger.session|, Left(s.markets[m], req);
    && |s'.markets| == |s.markets|
    && (forall i :: 0 <= i < |s.markets| && i != m ==> s'.markets[i] == s.markets[i])
    && s'.markets[m].pair == s.markets[m].pair
    && var before, after := SideOffers(s.markets[m], req.side), SideOffers(s'.markets[m], req.side);
    && (left == 0 ==> after == before && RestsNowhere(s'.markets, id))
    && (left > 0 ==> exists k: nat :: RestsAt(before, after, req, id, left, k))
    && left >= 0
  }

  lemma AcceptedResult(s: State, req: InsertionRequest, m: nat)
    requires Sound(s) && AcceptsInsertion(s, req) && m < |s.markets| && s.markets[m].pair == req.pair
    ensures var r := Insert(s.markets[m].book, req.IntoInsertion(|s.ledger.session|));
            var s' := InsertOrder(s, req).state;
            && r.result.Ok? && s'.markets == s.markets[m := MarketAfter(s.markets[m], r)]
            && InsertOrder(s, req).reply.inserted.value == (|s.ledger.session|, r.result.value.0)
  {
    hide Insert, Drain, Sound;
    SortedBooks(s, m);
  }

  lemma OldIds(s: State, m: nat, side: Side)
    requires Sound(s) && m < |s.markets|
    ensures !HasOffer(SideOffers(s.markets[m], side), |s.ledger.session|)
  {
    assert BookOk(s.markets[m].book, |s.ledger.session|);
    OffersInPriorityOrder(side, s.markets[m].book.Side(side), |s.ledger.session|);
  }

  lemma NewIdNotFacing(s: State, req: InsertionRequest, m: nat)
    requires Sound(s) && AcceptsInsertion(s, req) && m < |s.markets| && s.markets[m].pair == req.pair
    ensures var side := if req.side.Bid? then Ask else Bid;
            !HasOffer(SideOffers(InsertOrder(s, req).state.markets[m], side), |s.ledger.session|)
  {
    hide Offers, Insert, InsertOrder, FillOf, Sound;
    AcceptedResult(s, req, m);
    SortedBooks(s, m);
    var o := req.IntoInsertion(|s.ledger.session|);
    var side := o.side.Opposite();
    OldIds(s, m, side);
    InsertIsFill(s.markets[m].book, o);
    FillFrom(side, s.markets[m].book.Side(side), o, o.volume);
    FromHas(FillOf(side, s.markets[m].book.Side(side), o, o.volume).rest, SideOffers(s.markets[m], side), o.id);
  }

  lemma FromHas(after: seq<Offer>, before: seq<Offer>, id: OrderId)
    requires From(after, before) && !HasOffer(before, id)
    ensures !HasOffer(after, id)
  {
    forall k | 0 <= k < |after| ensures after[k].entry.id != id {
      var j :| 0 <= j < |before| && SameOrder(after[k], before[j]);
    }
  }

  /** In every reachable state: an accepted request is answered with the next id, and with `Filled` exactly when it
      leaves nothing untraded, as all market and fill-or-kill requests do; it rests with what it leaves. */
  lemma AcceptedRests(s: State, req: InsertionRequest, m: nat)
    requires Sound(s) && AcceptsInsertion(s, req) && m < |s.markets| && s.markets[m].pair == req.pair
    ensures InsertOrder(s, req).reply
         == InsertReply(Ok((|s.ledger.session|, if Left(s.markets[m], req) > 0 then AwaitingFill else Status.Filled)))
    ensures !req.orderType.Limit? ==> Left(s.markets[m], req) == 0
    ensures RestsUntraded(s, InsertOrder(s, req).state, req, m)
  {
    hide Offers, Insert, InsertOrder, Lacks, LeftUntraded, Sound;
    SortedBooks(s, m);
    AcceptedResult(s, req, m);
    var o := req.IntoInsertion(|s.ledger.session|);
    var s' := InsertOrder(s, req).state;
    var k := InsertRests(s.markets[m].book, o);
    if !req.orderType.Limit? { CheckedOrdersFillAtOnce(s.markets[m].book, o); }
    var left := Left(s.markets[m], req);
    if left > 0 {
      assert RestsAt(SideOffers(s.markets[m], req.side), SideOffers(s'.markets[m], req.side), req, o.id, left, k);
    } else {
      NewIdNotFacing(s, req, m);
      forall i | 0 <= i < |s'.markets|
        ensures !HasOffer(SideOffers(s'.markets[i], Bid), o.id) && !HasOffer(SideOffers(s'.markets[i], Ask), o.id)
      {
        OldIds(s, i, Bid);
        OldIds(s, i, Ask);
      }
    }
  }

  /** The last traded price of the market changes only when the order is filled by trades of its own. */
  lemma AcceptedLastPrice(s: State, req: InsertionRequest, m: nat)
    requires Sound(s) && AcceptsInsertion(s, req) && m < |s.markets| && s.markets[m].pair == req.pair
    ensures var s' := InsertOrder(s, req).state;
            var trades := Insert(s.markets[m].book, req.IntoInsertion(|s.ledger.session|)).trades;
            && |trades| <= |Facing(s.markets[m], req)| && |s'.markets| == |s.markets|
            && s'.markets[m].lastPrice == if Left(s.markets[m], req) == 0 && trades != [] then
                                            Facing(s.markets[m], req)[|trades| - 1].price
                                          else s.markets[m].lastPrice
  {
    hide Offers, Insert, InsertOrder, LeftUntraded, Sound;
    SortedBooks(s, m);
    AcceptedResult(s, req, m);
    var o := req.IntoInsertion(|s.ledger.session|);
    var offers, trades := Facing(s.markets[m], req), Insert(s.markets[m].book, o).trades;
    LastTradedPrice(s.markets[m].book, o);
    if offers != [] {
      InsertTrade(s.markets[m].book, o, 0);
      if trades != [] { InsertTrade(s.markets[m].book, o, |trades| - 1); }
    } else {
      NothingFaced(s.markets[m].book, o);
    }
  }

  lemma NothingFaced(book: Book, o: OrderInsertion)
    requires SortedSide(book.bids) && SortedSide(book.asks) && Insert(book, o).result.Ok?
    requires Offers(o.side.Opposite(), book.Side(o.side.Opposite())) == []
    ensures Insert(book, o).trades == []
  {
    hide Offers, Insert;
    InsertIsFill(book, o);
  }

  // ---- the log ----

  /** The request trades with offer `k`, this much. */
  predicate TradesWithOffer(m: MarketState, req: InsertionRequest, k: nat, volume: int) {
    var side := if req.side.Bid? then Ask else Bid;
    var offers := Facing(m, req);
    && k < |offers|
    && !StopsAtEmptyLevel(side, m.book.Side(side), req.volume)
    && (req.orderType.Market? || Within(req.side, req.price, offers[k].price))
    && (k == 0 || SumBy(offers[..k], OpenVolume()) < req.volume)
    && var left := req.volume - SumBy(offers[..k], OpenVolume());
       volume == if left < offers[k].entry.volume then left else offers[k].entry.volume
  }

  /** What an accepted request adds to the log: its own trades, last one first, then those that waited, last first. */
  lemma AcceptedLog(s: State, req: InsertionRequest, m: nat)
    requires Sound(s) && Traceable(s) && AcceptsInsertion(s, req) && m < |s.markets| && s.markets[m].pair == req.pair
    ensures LoggedBackwards(s.ledger.log, InsertOrder(s, req).state.ledger.log, req.pair, s.buf,
                            Insert(s.markets[m].book, req.IntoInsertion(|s.ledger.session|)).trades)
  {
    hide Offers, FillOf, Insert, InsertOrder, Drain, Recorded, Sound, Traceable, LoggedBackwards;
    var m', o := InheritingOutcome(s, req);
    SortedBooks(s, m);
    FilledBook(s, req, m, o);
    BufferLogged(s.ledger.log, Placed(s, o).session, o.pair, s.buf, FillIn(s, m, o).trades);
  }

  /** The own trades among them: one with every offer the request trades with, at that offer's price. */
  lemma AcceptedTrade(s: State, req: InsertionRequest, m: nat, k: nat, volume: int)
    requires Sound(s) && Traceable(s) && AcceptsInsertion(s, req) && m < |s.markets| && s.markets[m].pair == req.pair
    requires TradesWithOffer(s.markets[m], req, k, volume)
    ensures var offer := Facing(s.markets[m], req)[k]; var log := InsertOrder(s, req).state.ledger.log;
            var at := |log| - |s.buf| - 1 - k;
            && |s.ledger.log| <= at < |log|
            && log[at].pair == req.pair && log[at].tx.price == offer.price && log[at].tx.volume == volume
            && log[at].tx.takerSide == req.side
            && log[at].tx.maker == offer.entry.id && log[at].tx.taker == |s.ledger.session|
  {
    hide Offers, Insert, InsertOrder, Sound, Traceable;
    SortedBooks(s, m);
    AcceptedResult(s, req, m);
    AcceptedLog(s, req, m);
    InsertTrade(s.markets[m].book, req.IntoInsertion(|s.ledger.session|), k);
  }

  predicate TouchedIn(log: seq<Settled>, id: OrderId) {
    exists i :: 0 <= i < |log| && (log[i].tx.maker == id || log[i].tx.taker == id)
  }

  /** The record after trades were settled: its open volume falls by theirs, and it is filled when that was the last
      of it. */
  predicate GaveTo(p: PlacedOrder, p': PlacedOrder, log: seq<Settled>, id: OrderId) {
    && p' == p.(remaining := p'.remaining, status := p'.status)
    && p'.remaining == p.remaining - FilledVolume(log, id)
    && p'.status == if TouchedIn(log, id) && p'.remaining == 0 then Filled else p.status
  }

  lemma {:induction false} TouchedIff(session: seq<PlacedOrder>, pair: AssetIdPair, txs: seq<ObTransaction>,
                                      id: OrderId)
    requires forall tx :: tx in txs ==> tx.maker < |session| && tx.taker < |session|
    ensures TouchedIn(Recorded(session, pair, txs), id) <==> Involved(txs, id)
  {
    if txs != [] {
      var n := |txs| - 1;
      TouchedIff(session, pair, txs[..n], id);
      AmountLast(txs, id);
      TouchedHead(Record(session, pair, txs[n]), Recorded(session, pair, txs[..n]), id);
    }
  }

  lemma TouchedHead(e: Settled, log: seq<Settled>, id: OrderId)
    ensures TouchedIn([e] + log, id) <==> TouchedIn(log, id) || Touches(e.tx, id)
  {
    var all := [e] + log;
    assert all[0] == e && forall i :: 0 <= i < |log| ==> all[i + 1] == log[i];
    if TouchedIn(all, id) {
      var i :| 0 <= i < |all| && (all[i].tx.maker == id || all[i].tx.taker == id);
      if i > 0 { assert all[i] == log[i - 1]; }
    }
  }

  /** After an accepted request the new record starts with the request's terms and volume, and it and all others have
      given what the new log entries say. */
  lemma AcceptedRecords(s: State, req: InsertionRequest, id: OrderId)
    requires Sound(s) && Traceable(s) && AcceptsInsertion(s, req) && id <= |s.ledger.session|
    ensures var l, l' := s.ledger, InsertOrder(s, req).state.ledger;
            && |l'.session| == |l.session| + 1 && l.log <= l'.log
            && GaveTo(if id < |l.session| then l.session[id]
                      else PlacedOrder(id, req.account, req.pair, req.side, req.price, req.volume, req.volume,
                                       AwaitingFill),
                      l'.session[id], l'.log[|l.log|..], id)
  {
    hide Offers, FillIn, Insert, InsertOrder, Drain, Recorded, Sound, Traceable, FilledVolume, TouchedIn, Involved,
         Amount;
    var m, o := InheritingOutcome(s, req);
    var l, txs := Placed(s, o), s.buf + FillIn(s, m, o).trades;
    DrainOrder(l, txs, o.pair, id);
    RecordedVolume(l.session, o.pair, txs, id);
    TouchedIff(l.session, o.pair, txs, id);
    assert InsertOrder(s, req).state.ledger.log[|s.ledger.log|..] == Recorded(l.session, o.pair, txs);
  }

  /** The accounts of a log entry are those of its orders. */
  predicate AccountsLogged(log: seq<Settled>, session: seq<PlacedOrder>) {
    forall i :: 0 <= i < |log| ==>
      && log[i].tx.maker < |session| && log[i].tx.taker < |session|
      && log[i].maker == session[log[i].tx.maker].account && log[i].taker == session[log[i].tx.taker].account
  }

  lemma {:induction false} RecordedAccounts(session: seq<PlacedOrder>, pair: AssetIdPair, txs: seq<ObTransaction>)
    requires forall tx :: tx in txs ==> tx.maker < |session| && tx.taker < |session|
    ensures AccountsLogged(Recorded(session, pair, txs), session)
  {
    if txs != [] {
      RecordedAccounts(session, pair, txs[..|txs| - 1]);
    }
  }

  lemma InsertLogsAccounts(s: State, req: InsertionRequest)
    requires AccountsLogged(s.ledger.log, s.ledger.session) && Sound(s) && Traceable(s) && AcceptsInsertion(s, req)
    ensures var l := InsertOrder(s, req).state.ledger; AccountsLogged(l.log, l.session)
  {
    hide Offers, FillIn, Insert, InsertOrder, Drain, Recorded, Sound, Traceable;
    var m, o := InheritingOutcome(s, req);
    var l, txs := Placed(s, o), s.buf + FillIn(s, m, o).trades;
    RecordedAccounts(l.session, o.pair, txs);
    DrainedSession(l, txs, o.pair);
  }

  lemma StepLogsAccounts(s: State, c: Command)
    requires AccountsLogged(s.ledger.log, s.ledger.session) && Sound(s) && Traceable(s)
    requires s.ledger.balances.Dense() && Step(s, c).Done?
    ensures var l := Step(s, c).state.ledger; AccountsLogged(l.log, l.session)
  {
    hide InsertOrder, Cancel, Modify, Sound, Traceable;
    if c.InsertCmd? && AcceptsInsertion(s, c.insertion) {
      InsertLogsAccounts(s, c.insertion);
    } else if c.InsertCmd? {
      RefusedLedger(s, c.insertion);
    }
  }

  /** After every run every settled trade was booked on the accounts of its two orders. */
  lemma {:induction false} AccountsOverRuns(cmds: seq<Command>)
    requires Run(cmds).Running?
    ensures var l := Run(cmds).state.ledger; AccountsLogged(l.log, l.session)
    decreases |cmds|
  {
    hide Step, Sound, Traceable, AccountsLogged;
    if cmds == [] {
      assert AccountsLogged([], []) by { NothingLogged(); }
    } else {
      var n := |cmds| - 1;
      AccountsOverRuns(cmds[..n]);
      RunSound(cmds[..n]);
      TraceableOverRuns(cmds[..n]);
      StepLogsAccounts(Run(cmds[..n]).state, cmds[n]);
    }
  }

  lemma NothingLogged()
    ensures AccountsLogged([], [])
  {}

  // ---- refused requests ----

  /** A refused request changes nothing, except for a self-trade: then the market's opposite side and the trades that
      wait are as the fill left them, and nothing else changes. */
  lemma RefusedChanges(s: State, req: InsertionRequest, e: InsertionError, m: nat)
    requires Sound(s) && Refused(s, req, e) && m < |s.markets| && s.markets[m].pair == req.pair
    ensures var s' := InsertOrder(s, req).state; var o := req.IntoInsertion(|s.ledger.session|);
            var r := Insert(s.markets[m].book, o);
            && (e != SelfTrade ==> s' == s)
            && (e == SelfTrade ==>
                  && s' == s.(markets := s.markets[m := s.markets[m].(book := r.book)], buf := s.buf + r.trades)
                  && SideOffers(s'.markets[m], req.side) == SideOffers(s.markets[m], req.side)
                  && StoppedAt(GreedyFill(Facing(s'.markets[m], req), r.trades, 0, true),
                               Facing(s.markets[m], req), o, req.volume, |r.trades|))
  {
    hide Offers, Insert, Drain, Sound, StoppedAt;
    SortedBooks(s, m);
    var o := req.IntoInsertion(|s.ledger.session|);
    var book := s.markets[m].book;
    NoOtherError(book, o);
    if e == SelfTrade && req.account < s.accounts {
      SelfTradeLeaves(book, o);
    } else {
      CheckLeaves(book, o);
      assert s.markets[m := s.markets[m]] == s.markets && s.buf + [] == s.buf;
    }
  }

  lemma CheckLeaves(book: Book, o: OrderInsertion)
    ensures var r := Insert(book, o);
            r.result in {Err(OrderKilled), Err(InadequateVolume)} ==> r.book == book && r.trades == []
  {
    hide Sweep, EnoughVolume, RestEntry;
  }

  // ---- over runs ----

  /** After every run: when a request for an existing market is refused, and for which reason. */
  lemma RefusalsOverRuns(cmds: seq<Command>, req: InsertionRequest, m: nat)
    requires Run(cmds).Running?
    requires m < |Run(cmds).state.markets| && Run(cmds).state.markets[m].pair == req.pair
    ensures var s, c := Run(cmds).state, InsertCmd(req); var market := s.markets[m];
            && (Answered(cmds, c, InsertReply(Err(NoSuchAccount))) <==> req.account >= s.accounts)
            && (Answered(cmds, c, InsertReply(Err(OrderKilled)))
                <==> req.account < s.accounts && req.orderType.FillOrKill? && Lacks(market, req))
            && (Answered(cmds, c, InsertReply(Err(InadequateVolume)))
                <==> req.account < s.accounts && req.orderType.Market? && Lacks(market, req))
            && (Answered(cmds, c, InsertReply(Err(SelfTrade)))
                <==> req.account < s.accounts && !Lacks(market, req) && MeetsOwn(market, req))
  {
    RunSound(cmds);
    hide Run, Lacks, MeetsOwn, Answered, InsertOrder, Sound;
    RefusedIff(Run(cmds).state, req, m);
    RefusedAnswer(cmds, req, NoSuchAccount);
    RefusedAnswer(cmds, req, OrderKilled);
    RefusedAnswer(cmds, req, InadequateVolume);
    RefusedAnswer(cmds, req, SelfTrade);
  }

  lemma RefusedAnswer(cmds: seq<Command>, req: InsertionRequest, e: InsertionError)
    requires Run(cmds).Running?
    ensures Answered(cmds, InsertCmd(req), InsertReply(Err(e))) <==> Refused(Run(cmds).state, req, e)
  {
    hide Run, Answered, InsertOrder;
    AnsweredIff(cmds, InsertCmd(req), InsertReply(Err(e)));
  }

  lemma AcceptedNext(cmds: seq<Command>, req: InsertionRequest)
    requires Run(cmds).Running? && AcceptsInsertion(Run(cmds).state, req)
    ensures var r, next := InsertOrder(Run(cmds).state, req), Run(cmds + [InsertCmd(req)]);
            r.Done? && next.Running? && next.state == r.state && Answered(cmds, InsertCmd(req), r.reply)
  {
    hide Run, InsertOrder;
    RunNext(cmds, InsertCmd(req));
  }

  /** After every run: the answer to an accepted request, and where its order rests. Market and fill-or-kill requests
      are filled at once and rest nowhere. */
  lemma AcceptedOverRuns(cmds: seq<Command>, req: InsertionRequest, m: nat)
    requires Run(cmds).Running? && AcceptsInsertion(Run(cmds).state, req)
    requires m < |Run(cmds).state.markets| && Run(cmds).state.markets[m].pair == req.pair
    ensures var s, next := Run(cmds).state, Run(cmds + [InsertCmd(req)]);
            var left := Left(s.markets[m], req);
            && next.Running? && RestsUntraded(s, next.state, req, m)
            && Answered(cmds, InsertCmd(req),
                        InsertReply(Ok((|s.ledger.session|, if left > 0 then AwaitingFill else Status.Filled))))
            && (!req.orderType.Limit? ==> left == 0 && RestsNowhere(next.state.markets, |s.ledger.session|))
  {
    RunSound(cmds);
    hide Run, Answered, AcceptsInsertion, InsertOrder, Sound, RestsNowhere, RestsAt, LeftUntraded, Offers;
    AcceptedNext(cmds, req);
    AcceptedRests(Run(cmds).state, req, m);
  }
}
