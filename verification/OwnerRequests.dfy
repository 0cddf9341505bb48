/** What owners can do with their orders, exactly, in every reachable state. */
module OwnerRequests {
  import opened Types
  import opened BookSpec
  import opened Matching
  import opened BookFacts
  import opened ExchangeSpec
  import opened Soundness
  import opened Tracking
  import opened CancelTracking
  import opened Provenance

  /** The book finds an order by its record exactly when the order rests. */
  lemma FoundIffRests(s: State, id: OrderId, m: nat, reduction: Volume)
    requires Sound(s) && Traceable(s) && id < |s.ledger.session|
    requires FindMarket(s.markets, s.ledger.session[id].pair) == Some(m)
    ensures var p := s.ledger.session[id]; var levels := s.markets[m].book.Side(p.side);
            && (CancelIn(levels, p.price, id).Some? <==> Rests(s.ledger.session, s.markets, id))
            && (ModifyIn(levels, p.price, id, reduction).Some? <==> Rests(s.ledger.session, s.markets, id))
  {
    hide Offers, CancelIn, ModifyIn;
    var p := s.ledger.session[id];
    var levels, offers := s.markets[m].book.Side(p.side), SideOffers(s.markets[m], p.side);
    assert BookOk(s.markets[m].book, |s.ledger.session|);
    assert MarketKnown(s.ledger.session, s.markets[m]);
    var c := CancelOffers(p.side, levels, p.price, id);
    var k := ModifyOffers(p.side, levels, p.price, id, reduction);
    if Rests(s.ledger.session, s.markets, id) {
      var j :| 0 <= j < |offers| && offers[j].entry.id == id;
      assert Known(s.ledger.session, p.pair, p.side, offers[j]);
      OfferIsFound(p.side, levels, j);
    }
  }

  lemma RecordedMarket(s: State, id: OrderId) returns (m: nat)
    requires Sound(s) && id < |s.ledger.session|
    ensures FindMarket(s.markets, s.ledger.session[id].pair) == Some(m)
  {
    assert OrderOk(s.ledger.session[id], id, s.requests[id], s.accounts, s.markets);
    m := FindMarket(s.markets, s.ledger.session[id].pair).value;
  }

  /** A cancellation succeeds exactly when the owner asks for a resting order that is recorded neither as
      filled nor as cancelled. */
  lemma CancelSucceedsIff(s: State, req: CancellationRequest)
    requires Sound(s) && Traceable(s)
    ensures CancelOrder(s, req).reply == CancelReply(Ok(()))
       <==> req.orderId < |s.ledger.session|
            && var p := s.ledger.session[req.orderId];
               p.account == req.account && !p.status.Filled? && !p.status.Cancelled?
               && Rests(s.ledger.session, s.markets, req.orderId)
  {
    hide CancelIn, Rests, Sound, Traceable;
    if req.orderId < |s.ledger.session| {
      var m := RecordedMarket(s, req.orderId);
      FoundIffRests(s, req.orderId, m, 0);
    }
  }

  /** The owner asks for no more than the recorded volume of a resting order that is not recorded as filled. */
  predicate OwnerReduces(s: State, req: ModificationRequest) {
    && req.orderId < |s.ledger.session|
    && var p := s.ledger.session[req.orderId];
    && p.account == req.account && !p.status.Filled? && req.newVolume <= p.volume
    && Rests(s.ledger.session, s.markets, req.orderId)
  }

  /** A modification reaches the book exactly when its owner asks for no more than the recorded volume of
      an order that rests and is not recorded as filled. */
  lemma ReachesBookIff(s: State, req: ModificationRequest)
    requires Sound(s) && Traceable(s)
    ensures (exists m: nat :: ReachesBook(s, req, m)) <==> OwnerReduces(s, req)
  {
    hide ModifyIn, Rests, Sound, Traceable;
    if req.orderId < |s.ledger.session| && req.newVolume <= s.ledger.session[req.orderId].volume {
      var p := s.ledger.session[req.orderId];
      var m := RecordedMarket(s, req.orderId);
      FoundIffRests(s, req.orderId, m, p.volume - req.newVolume);
      if Rests(s.ledger.session, s.markets, req.orderId) && p.account == req.account && !p.status.Filled? {
        assert ReachesBook(s, req, m);
      }
    }
  }

  /** Such a modification stops the exchange when earlier ones took the recorded volume below the recorded
      open volume, and succeeds otherwise; every other modification is refused. */
  lemma ModifyOutcomeIff(s: State, req: ModificationRequest)
    requires Sound(s) && Traceable(s)
    ensures var r := ModifyOrder(s, req);
            && (r.Stopped? <==> OwnerReduces(s, req) && var p := s.ledger.session[req.orderId]; p.volume < p.remaining)
            && (r.Done? && r.reply == ModifyReply(Ok(()))
                <==> OwnerReduces(s, req) && var p := s.ledger.session[req.orderId]; p.remaining <= p.volume)
  {
    hide Rests, Modify, ModifyOrder, Sound, Traceable;
    ReachesBookIff(s, req);
    if m: nat :| ReachesBook(s, req, m) {
      ModifyCases(s, req, m);
    } else {
      NotReached(s, req);
    }
  }

  lemma NotReached(s: State, req: ModificationRequest)
    requires forall m: nat :: !ReachesBook(s, req, m)
    ensures ModifyOrder(s, req).Done? && ModifyOrder(s, req).reply != ModifyReply(Ok(()))
  {
    if req.orderId < |s.ledger.session| {
      var m := FindMarket(s.markets, s.ledger.session[req.orderId].pair);
      if m.Some? { assert !ReachesBook(s, req, m.value); }
    }
  }

  // ---- over runs ----

  /** After every run. */
  lemma CancelSucceedsOverRuns(cmds: seq<Command>, req: CancellationRequest)
    requires Run(cmds).Running?
    ensures var s := Run(cmds).state;
            CancelOrder(s, req).reply == CancelReply(Ok(()))
            <==> req.orderId < |s.ledger.session|
                 && var p := s.ledger.session[req.orderId];
                    p.account == req.account && !p.status.Filled? && !p.status.Cancelled?
                    && Rests(s.ledger.session, s.markets, req.orderId)
  {
    RunSound(cmds);
    TraceableOverRuns(cmds);
    CancelSucceedsIff(Run(cmds).state, req);
  }

  /** After every run. */
  lemma ModifyOutcomeOverRuns(cmds: seq<Command>, req: ModificationRequest)
    requires Run(cmds).Running?
    ensures var s := Run(cmds).state;
            var r := ModifyOrder(s, req);
            && (r.Stopped? <==> OwnerReduces(s, req) && var p := s.ledger.session[req.orderId]; p.volume < p.remaining)
            && (r.Done? && r.reply == ModifyReply(Ok(()))
                <==> OwnerReduces(s, req) && var p := s.ledger.session[req.orderId]; p.remaining <= p.volume)
  {
    RunSound(cmds);
    TraceableOverRuns(cmds);
    ModifyOutcomeIff(Run(cmds).state, req);
  }

  // ---- reasons ----

  /** The id is that of an order of the account. */
  predicate Owns(s: State, account: AccountId, id: OrderId) {
    id < |s.ledger.session| && s.ledger.session[id].account == account
  }

  /** The reason for which a cancellation must be refused. */
  predicate CancelDue(s: State, req: CancellationRequest, e: CancellationError) {
    var id := req.orderId;
    match e
    case CancelUnknownOrder => id >= |s.ledger.session|
    case CancelUnauthorized => id < |s.ledger.session| && s.ledger.session[id].account != req.account
    case CancelAlreadyCancelled => Owns(s, req.account, id) && s.ledger.session[id].status.Cancelled?
    case CancelAlreadyFilled =>
      && Owns(s, req.account, id) && !s.ledger.session[id].status.Cancelled?
      && (s.ledger.session[id].status.Filled? || !Rests(s.ledger.session, s.markets, id))
    case CancelNoSuchMarket => false
  }

  /** Exactly when a cancellation is refused for which reason. */
  lemma CancelReasons(s: State, req: CancellationRequest, e: CancellationError)
    requires Sound(s) && Traceable(s)
    ensures CancelOrder(s, req).reply == CancelReply(Err(e)) <==> CancelDue(s, req, e)
  {
    hide CancelIn, Rests, Sound, Traceable;
    if req.orderId < |s.ledger.session| {
      var m := RecordedMarket(s, req.orderId);
      FoundIffRests(s, req.orderId, m, 0);
    }
  }

  /** A modification is refused for this reason. */
  ghost predicate ModifyRefused(s: State, req: ModificationRequest, e: ModificationError) {
    ModifyOrder(s, req).Done? && ModifyOrder(s, req).reply == ModifyReply(Err(e))
  }

  /** The reason for which a modification must be refused. */
  predicate ModifyDue(s: State, req: ModificationRequest, e: ModificationError) {
    var id := req.orderId;
    match e
    case ModifyUnknownOrder => id >= |s.ledger.session|
    case ModifyUnauthorized => id < |s.ledger.session| && s.ledger.session[id].account != req.account
    case ModifyAlreadyFilled => Owns(s, req.account, id) && s.ledger.session[id].status.Filled?
    case VolumeNotLower =>
      && Owns(s, req.account, id) && !s.ledger.session[id].status.Filled?
      && req.newVolume > s.ledger.session[id].volume
    case OrderNotFound =>
      && Owns(s, req.account, id) && !s.ledger.session[id].status.Filled?
      && req.newVolume <= s.ledger.session[id].volume && !Rests(s.ledger.session, s.markets, id)
    case ModifyNoSuchMarket => false
  }

  /** Exactly when a modification is refused for which reason. */
  lemma ModifyReasons(s: State, req: ModificationRequest, e: ModificationError)
    requires Sound(s) && Traceable(s)
    ensures ModifyRefused(s, req, e) <==> ModifyDue(s, req, e)
  {
    hide ModifyIn, Rests, Sound, Traceable;
    if req.orderId < |s.ledger.session| {
      var p := s.ledger.session[req.orderId];
      var m := RecordedMarket(s, req.orderId);
      FoundIffRests(s, req.orderId, m, if req.newVolume <= p.volume then p.volume - req.newVolume else 0);
    }
  }

  // ---- effects ----

  /** Only one side of one market's book and one record differ, and the record keeps its terms and open volume. */
  ghost predicate OnlyOrderChanged(s: State, s': State, m: nat, id: OrderId) {
    && m < |s.markets| == |s'.markets| && id < |s.ledger.session| == |s'.ledger.session|
    && var p := s'.ledger.session[id];
    && s' == s.(markets := s'.markets, ledger := s.ledger.(session := s.ledger.session[id := p]))
    && p == s.ledger.session[id].(volume := p.volume, status := p.status)
    && (forall i :: 0 <= i < |s.markets| && i != m ==> s'.markets[i] == s.markets[i])
    && s'.markets[m].pair == s.markets[m].pair == p.pair && s'.markets[m].lastPrice == s.markets[m].lastPrice
    && s'.markets[m].book.Side(p.side.Opposite()) == s.markets[m].book.Side(p.side.Opposite())
  }

  /** A successful cancellation takes exactly that order out of its book and marks its record; a refused one does
      nothing. */
  lemma CancelEffect(s: State, req: CancellationRequest) returns (m: nat, k: nat)
    requires Sound(s) && Traceable(s)
    ensures var r := CancelOrder(s, req); var s', id := r.state, req.orderId;
            if r.reply != CancelReply(Ok(())) then s' == s
            else
              && OnlyOrderChanged(s, s', m, id)
              && s'.ledger.session[id] == s.ledger.session[id].(status := Cancelled)
              && var side := s.ledger.session[id].side;
                 var before, after := SideOffers(s.markets[m], side), SideOffers(s'.markets[m], side);
                 k < |before| && before[k].entry.id == id && after == before[..k] + before[k + 1..]
  {
    hide Offers, CancelIn, Sound;
    m, k := 0, 0;
    if CancelOrder(s, req).reply == CancelReply(Ok(())) {
      var p := s.ledger.session[req.orderId];
      m := RecordedMarket(s, req.orderId);
      SortedBook(s, m, p.side);
      k := CancelOffers(p.side, s.markets[m].book.Side(p.side), p.price, req.orderId);
    }
  }

  lemma SortedBook(s: State, m: nat, side: Side)
    requires Sound(s) && m < |s.markets|
    ensures SortedSide(s.markets[m].book.Side(side))
  {
    assert BookOk(s.markets[m].book, |s.ledger.session|);
  }

  /** A successful modification takes from the order in the book what the new volume is below the recorded one, and
      the whole order when it has no more. The recorded volume becomes the larger of the new one and of what the record
      calls filled (its volume less its open volume), and the order is filled when the new volume is below that. */
  lemma ModifyEffect(s: State, req: ModificationRequest) returns (m: nat, k: nat)
    requires Sound(s) && Traceable(s) && ModifyOrder(s, req).Done?
    ensures var r := ModifyOrder(s, req); var s', id := r.state, req.orderId;
            if r.reply != ModifyReply(Ok(())) then s' == s
            else
              && OnlyOrderChanged(s, s', m, id)
              && var p, p' := s.ledger.session[id], s'.ledger.session[id];
              && req.newVolume <= p.volume
              && p'.volume == (if req.newVolume < p.volume - p.remaining then p.volume - p.remaining else req.newVolume)
              && p'.status == (if req.newVolume < p.volume - p.remaining then Filled else p.status)
              && var before, after := SideOffers(s.markets[m], p.side), SideOffers(s'.markets[m], p.side);
              && k < |before| && before[k].entry.id == id
              && var taken, entry := p.volume - req.newVolume, before[k].entry;
              && after == if taken >= entry.volume then before[..k] + before[k + 1..]
                          else before[k := before[k].(entry := entry.(volume := entry.volume - taken))]
  {
    hide Offers, ModifyIn, Sound;
    m, k := 0, 0;
    if ModifyOrder(s, req).reply == ModifyReply(Ok(())) {
      var p := s.ledger.session[req.orderId];
      m := RecordedMarket(s, req.orderId);
      SortedBook(s, m, p.side);
      k := ModifyOffers(p.side, s.markets[m].book.Side(p.side), p.price, req.orderId, p.volume - req.newVolume);
    }
  }

  lemma CancelAnswered(cmds: seq<Command>, req: CancellationRequest, reply: Reply)
    requires Run(cmds).Running?
    ensures Answered(cmds, CancelCmd(req), reply) <==> CancelOrder(Run(cmds).state, req).reply == reply
  {
    hide Run, CancelOrder, Answered;
    AnsweredIff(cmds, CancelCmd(req), reply);
  }

  lemma ModifyAnswered(cmds: seq<Command>, req: ModificationRequest, reply: Reply)
    requires Run(cmds).Running?
    ensures var r := ModifyOrder(Run(cmds).state, req);
            Answered(cmds, ModifyCmd(req), reply) <==> r.Done? && r.reply == reply
  {
    hide Run, ModifyOrder, Answered;
    AnsweredIff(cmds, ModifyCmd(req), reply);
  }

  /** After every run. */
  lemma CancelReasonsOverRuns(cmds: seq<Command>, req: CancellationRequest, e: CancellationError)
    requires Run(cmds).Running?
    ensures Answered(cmds, CancelCmd(req), CancelReply(Err(e))) <==> CancelDue(Run(cmds).state, req, e)
  {
    hide CancelOrder, CancelDue, Sound, Traceable, Answered, Step;
    RunSound(cmds);
    TraceableOverRuns(cmds);
    CancelAnswered(cmds, req, CancelReply(Err(e)));
    CancelReasons(Run(cmds).state, req, e);
  }

  /** After every run. */
  lemma ModifyReasonsOverRuns(cmds: seq<Command>, req: ModificationRequest, e: ModificationError)
    requires Run(cmds).Running?
    ensures Answered(cmds, ModifyCmd(req), ModifyReply(Err(e))) <==> ModifyDue(Run(cmds).state, req, e)
  {
    hide ModifyOrder, ModifyDue, Sound, Traceable, Answered, Step;
    RunSound(cmds);
    TraceableOverRuns(cmds);
    ModifyAnswered(cmds, req, ModifyReply(Err(e)));
    ModifyReasons(Run(cmds).state, req, e);
  }
}
