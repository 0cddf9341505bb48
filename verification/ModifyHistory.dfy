/** Modifications against the history of trades: when an order is rightly marked as filled. */
module ModifyHistory {
  import opened Types
  import opened Sums
  import opened BookSpec
  import opened Settlement
  import opened ExchangeSpec
  import opened Soundness
  import opened Tracking
  import opened CancelTracking
  import opened Runs
  import opened History

  /** Nobody has modified an order: its recorded volume is the requested one. */
  predicate OriginalVolumes(s: State) {
    && |s.requests| == |s.ledger.session|
    && forall id :: 0 <= id < |s.ledger.session| ==> s.ledger.session[id].volume == s.requests[id].volume
  }

  lemma InsertKeepsOriginal(s: State, req: InsertionRequest)
    requires OriginalVolumes(s) && InsertOrder(s, req).Done?
    ensures OriginalVolumes(InsertOrder(s, req).state)
  {
    hide Insert, Drain;
    var m := FindMarket(s.markets, req.pair);
    if m.Some? && req.account < s.accounts {
      var o := req.IntoInsertion(|s.ledger.session|);
      var r := Insert(s.markets[m.value].book, o);
      if r.result.Ok? {
        DrainedSession(Placed(s, o), s.buf + r.trades, req.pair);
      }
    }
  }

  lemma {:induction false} UnmodifiedVolumes(cmds: seq<Command>)
    requires Unmodified(cmds) && Run(cmds).Running?
    ensures OriginalVolumes(Run(cmds).state)
    decreases |cmds|
  {
    if cmds != [] {
      var n := |cmds| - 1;
      UnmodifiedVolumes(cmds[..n]);
      StepKeepsOriginal(Run(cmds[..n]).state, cmds[n]);
    }
  }

  lemma StepKeepsOriginal(s: State, c: Command)
    requires OriginalVolumes(s) && s.ledger.balances.Dense() && !c.ModifyCmd? && Step(s, c).Done?
    ensures OriginalVolumes(Step(s, c).state)
  {
    hide InsertOrder, Cancel;
    if c.InsertCmd? {
      InsertKeepsOriginal(s, c.insertion);
    }
  }

  lemma FilledNonNegative(log: seq<Settled>, id: OrderId)
    ensures FilledVolume(log, id) >= 0
  {
    SumByNonNegative(log, FilledBy(id));
  }

  /** In a run without modifications every record covers its open volume, so the first
      modification of any order is safe. */
  lemma FirstModifySafe(cmds: seq<Command>)
    requires Unmodified(cmds) && Run(cmds).Running?
    ensures VolumesCover(Run(cmds).state)
  {
    UnmodifiedVolumes(cmds);
    OpenVolumeIsHistory(cmds);
    var s := Run(cmds).state;
    hide Run, FilledVolume;
    forall id | 0 <= id < |s.ledger.session|
      ensures s.ledger.session[id].remaining <= s.ledger.session[id].volume
    {
      FilledNonNegative(s.ledger.log, id);
    }
  }

  /** Recorded volumes never exceed what was requested. */
  predicate VolumesWithin(s: State) {
    && |s.requests| == |s.ledger.session|
    && forall id :: 0 <= id < |s.ledger.session| ==> s.ledger.session[id].volume <= s.requests[id].volume
  }

  lemma InsertKeepsWithin(s: State, req: InsertionRequest)
    requires VolumesWithin(s) && InsertOrder(s, req).Done?
    ensures VolumesWithin(InsertOrder(s, req).state)
  {
    hide Insert, Drain;
    var m := FindMarket(s.markets, req.pair);
    if m.Some? && req.account < s.accounts {
      var o := req.IntoInsertion(|s.ledger.session|);
      var r := Insert(s.markets[m.value].book, o);
      if r.result.Ok? {
        DrainedSession(Placed(s, o), s.buf + r.trades, req.pair);
      }
    }
  }

  lemma StepKeepsWithin(s: State, c: Command)
    requires VolumesWithin(s) && s.ledger.balances.Dense() && Step(s, c).Done?
    ensures VolumesWithin(Step(s, c).state)
  {
    hide InsertOrder, Cancel, Modify;
    if c.InsertCmd? {
      InsertKeepsWithin(s, c.insertion);
    }
  }

  lemma {:induction false} VolumesNeverGrow(cmds: seq<Command>)
    requires Run(cmds).Running?
    ensures VolumesWithin(Run(cmds).state)
    decreases |cmds|
  {
    if cmds != [] {
      var n := |cmds| - 1;
      VolumesNeverGrow(cmds[..n]);
      StepKeepsWithin(Run(cmds[..n]).state, cmds[n]);
    }
  }

  /** An order whose new volume is below what was settled should be marked as filled, and only then.
      The code compares with the recorded volume less the open volume instead; in every reachable
      state it is right exactly when the new volume is not between that and the volume really settled. */
  lemma MarkedFilledIff(cmds: seq<Command>, req: ModificationRequest, m: nat)
    requires Run(cmds).Running? && ReachesBook(Run(cmds).state, req, m) && ModifyOrder(Run(cmds).state, req).Done?
    ensures var s := Run(cmds).state;
            var p := s.ledger.session[req.orderId];
            var p' := ModifyOrder(s, req).state.ledger.session[req.orderId];
            var settled := FilledVolume(s.ledger.log, req.orderId);
            (p'.status.Filled? <==> settled > req.newVolume)
            <==> !(p.volume - p.remaining <= req.newVolume < settled)
  {
    OpenVolumeIsHistory(cmds);
    VolumesNeverGrow(cmds);
    var s := Run(cmds).state;
    hide Run, Modify, FilledVolume;
    ModifyCases(s, req, m);
  }
}
