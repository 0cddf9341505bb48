/** Orders that are filled or cancelled are done for good, over whole calm runs. */
module RunGuarantees {
  import opened Types
  import opened BookSpec
  import opened Matching
  import opened Settlement
  import opened ExchangeSpec
  import opened Soundness
  import opened Tracking
  import opened InsertTracking
  import opened CancelTracking
  import opened Runs
  import opened Provenance

  /** An accepted insertion in terms of the greedy fill, with what it adds to the log. */
  lemma AcceptedOutcome(s: State, req: InsertionRequest, exact: bool) returns (m: nat, o: OrderInsertion)
    requires Sound(s) && Tracked(s, exact) && Aligned(s) && DistinctAssets(s) && AcceptsInsertion(s, req)
    ensures Matched(s, req, m, o, exact) && !Fills(s, m, o).selfTrade
    ensures Drain(Placed(s, o), Fills(s, m, o).trades, o.pair).Some?
    ensures InsertOrder(s, req).state == Accepted(s, req, m, o)
    ensures forall tx :: tx in Fills(s, m, o).trades ==>
              tx.maker < |Placed(s, o).session| && tx.taker < |Placed(s, o).session|
    ensures InsertOrder(s, req).state.ledger.log
            == s.ledger.log + Recorded(Placed(s, o).session, o.pair, Fills(s, m, o).trades)
  {
    hide Fills, Insert, InsertOrder, Drain, Recorded, Sound, Tracked;
    o := req.IntoInsertion(|s.ledger.session|);
    m := 0;
    var found := FindMarket(s.markets, req.pair);
    if found.None? || req.account >= s.accounts || FailsCheck(Insert(s.markets[found.value].book, o)) {
      RejectedUnchanged(s, req);
    } else {
      m := found.value;
      InsertOutcome(s, req, m, o, exact);
      DrainKnown(Placed(s, o), Fills(s, m, o).trades, o.pair);
      DrainLog(Placed(s, o), Fills(s, m, o).trades, o.pair);
    }
  }

  /** The trade behind a new log entry. */
  lemma TradeOfEntry(s: State, req: InsertionRequest, m: nat, o: OrderInsertion, i: nat) returns (t: nat)
    requires m < |s.markets|
    requires forall tx :: tx in Fills(s, m, o).trades ==>
               tx.maker < |Placed(s, o).session| && tx.taker < |Placed(s, o).session|
    requires var log := s.ledger.log + Recorded(Placed(s, o).session, o.pair, Fills(s, m, o).trades);
             |s.ledger.log| <= i < |log|
    ensures var trades := Fills(s, m, o).trades;
            var log := s.ledger.log + Recorded(Placed(s, o).session, o.pair, trades);
            t < |trades| && log[i].tx == trades[t]
  {
    hide Fills;
    var trades := Fills(s, m, o).trades;
    if trades == [] {
      assert false;
    }
    RecordedAt(Placed(s, o).session, o.pair, trades, 0);
    RecordedAt(Placed(s, o).session, o.pair, trades, i - |s.ledger.log|);
    t := |trades| - 1 - (i - |s.ledger.log|);
  }

  // ---- orders that are done ----

  /** The record of order `id` and the log when no further trade touched it. */
  predicate Untouched(s: State, s': State, id: OrderId) {
    && id < |s.ledger.session| <= |s'.ledger.session| && s'.ledger.session[id] == s.ledger.session[id]
    && s.ledger.log <= s'.ledger.log
    && forall i :: |s.ledger.log| <= i < |s'.ledger.log| ==> !Touches(s'.ledger.log[i].tx, id)
  }

  lemma InsertUntouched(s: State, req: InsertionRequest, id: OrderId)
    requires Sound(s) && Tracked(s, false) && Aligned(s) && DistinctAssets(s)
    requires id < |s.ledger.session| && !s.ledger.session[id].status.AwaitingFill?
    ensures InsertOrder(s, req).Done? && Untouched(s, InsertOrder(s, req).state, id)
  {
    hide Offers, Fills, Insert, InsertOrder, Drain, Recorded, Sound, Tracked;
    InsertKeepsTracked(s, req, false);
    if AcceptsInsertion(s, req) {
      var m, o := AcceptedOutcome(s, req, false);
      MatchedInsertable(s, req, m, o, false);
      var trades := Fills(s, m, o).trades;
      var position := AmountCases(s, m, o, false, id);
      OppositeOffers(s, m, o, false);
      assert position < |trades| ==>
          Matches(s.ledger.session, o.pair, o.side.Opposite(),
                  SideOffers(s.markets[m], o.side.Opposite())[position], false);
      DrainOrder(Placed(s, o), trades, o.pair, id);
      var s' := InsertOrder(s, req).state;
      forall i | |s.ledger.log| <= i < |s'.ledger.log| ensures !Touches(s'.ledger.log[i].tx, id) {
        var t := TradeOfEntry(s, req, m, o, i);
        assert trades[t] in trades;
      }
    } else {
      RefusedLedger(s, req);
    }
  }

  lemma CancelUntouched(s: State, req: CancellationRequest, id: OrderId)
    requires Sound(s) && Tracked(s, false)
    requires id < |s.ledger.session| && !s.ledger.session[id].status.AwaitingFill?
    ensures Untouched(s, CancelOrder(s, req).state, id)
  {
    hide CancelIn, Offers, Sound, Tracked;
    if CancelOrder(s, req).reply == CancelReply(Ok(())) && req.orderId == id {
      FoundIsLive(s, FindMarket(s.markets, s.ledger.session[id].pair).value, id, false);
      assert false;
    }
  }

  lemma ModifyUntouched(s: State, req: ModificationRequest, id: OrderId)
    requires Sound(s) && Tracked(s, false) && ModifyOrder(s, req).Done?
    requires id < |s.ledger.session| && !s.ledger.session[id].status.AwaitingFill?
    ensures Untouched(s, ModifyOrder(s, req).state, id)
  {
    hide Offers, Modify, ModifyOrder, Sound, Tracked;
    if m: nat :| ReachesBook(s, req, m) {
      ModifyCases(s, req, m);
      if req.orderId == id {
        var p := s.ledger.session[id];
        var k := ModifiedOffer(s, m, id, p.volume - req.newVolume, false);
        RecordIds(s);
        assert false;
      }
    } else {
      ModifyRejected(s, req);
    }
  }

  lemma StepUntouched(s: State, c: Command, id: OrderId)
    requires Sound(s) && Tracked(s, false) && Aligned(s) && DistinctAssets(s) && Step(s, c).Done?
    requires id < |s.ledger.session| && !s.ledger.session[id].status.AwaitingFill?
    ensures Untouched(s, Step(s, c).state, id)
  {
    hide InsertOrder, CancelOrder, ModifyOrder, Sound, Tracked;
    match c
    case InsertCmd(req) => InsertUntouched(s, req, id);
    case CancelCmd(req) => CancelUntouched(s, req, id);
    case ModifyCmd(req) => ModifyUntouched(s, req, id);
    case _ =>
  }

  lemma {:induction false} CalmPrefix(cmds: seq<Command>, k: nat)
    requires Calm(cmds) && k <= |cmds|
    ensures Calm(cmds[..k])
    decreases |cmds|
  {
    if k < |cmds| {
      var n := |cmds| - 1;
      CalmPrefix(cmds[..n], k);
      assert cmds[..n][..k] == cmds[..k];
    } else {
      assert cmds[..k] == cmds;
    }
  }

  lemma UntouchedTwice(a: State, b: State, c: State, id: OrderId)
    requires Untouched(a, b, id) && Untouched(b, c, id)
    ensures Untouched(a, c, id)
  {}

  /** In a calm run an order that is filled or cancelled stays so: its record never changes again and
      no later trade touches it. */
  lemma {:induction false} DoneForGood(cmds: seq<Command>, k: nat, id: OrderId)
    requires Calm(cmds) && k <= |cmds| && Run(cmds[..k]).Running? && Run(cmds).Running?
    requires var session := Run(cmds[..k]).state.ledger.session; id < |session| && !session[id].status.AwaitingFill?
    ensures Untouched(Run(cmds[..k]).state, Run(cmds).state, id)
    decreases |cmds|
  {
    hide Sound, Tracked, Step;
    if k == |cmds| {
      assert cmds[..k] == cmds;
    } else {
      var n := |cmds| - 1;
      assert cmds[..n][..k] == cmds[..k];
      DoneForGood(cmds[..n], k, id);
      TrackedOverRuns(cmds[..n]);
      StepUntouched(Run(cmds[..n]).state, cmds[n], id);
      UntouchedTwice(Run(cmds[..k]).state, Run(cmds[..n]).state, Run(cmds).state, id);
    }
  }

  /** In a calm run no trade after a successful cancellation touches the cancelled order, and it stays cancelled. */
  lemma CancelledNeverTrades(cmds: seq<Command>, k: nat, req: CancellationRequest)
    requires Calm(cmds) && Run(cmds).Running? && k < |cmds| && cmds[k] == CancelCmd(req)
    requires Run(cmds[..k]).Running? && CancelOrder(Run(cmds[..k]).state, req).reply == CancelReply(Ok(()))
    ensures var s, s' := Run(cmds[..k]).state, Run(cmds).state;
            && req.orderId < |s.ledger.session| <= |s'.ledger.session| && |s.ledger.log| <= |s'.ledger.log|
            && s'.ledger.session[req.orderId] == s.ledger.session[req.orderId].(status := Cancelled)
            && forall i :: |s.ledger.log| <= i < |s'.ledger.log| ==> !Touches(s'.ledger.log[i].tx, req.orderId)
  {
    assert cmds[..k + 1][..k] == cmds[..k];
    CancelMarks(Run(cmds[..k]).state, req);
    assert Run(cmds[..k + 1]).Running?;
    DoneForGood(cmds, k + 1, req.orderId);
  }

  lemma CancelMarks(s: State, req: CancellationRequest)
    requires CancelOrder(s, req).reply == CancelReply(Ok(()))
    ensures var s' := CancelOrder(s, req).state;
            && req.orderId < |s.ledger.session| == |s'.ledger.session| && s'.ledger.log == s.ledger.log
            && s'.ledger.session[req.orderId] == s.ledger.session[req.orderId].(status := Cancelled)
  {
    hide Cancel;
  }
}
