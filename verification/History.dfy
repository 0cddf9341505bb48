/**
 Balances and open volumes as functions of the history of settled trades, in every
 reachable state: after self-trades and modifications too.
 */
module History {
  import opened Types
  import opened Sums
  import opened BookSpec
  import opened BalancesSpec
  import opened Settlement
  import opened ExchangeSpec
  import opened Soundness
  import opened Tracking

  /** What the taker of a settled trade gains of an asset, and the maker loses. */
  function TakerGain(asset: AssetId, e: Settled): Balance {
    (if e.pair.primary == asset then PrimaryGain(e.tx) else 0)
    + (if e.pair.secondary == asset then SecondaryGain(e.tx) else 0)
  }

  /** What a settled trade adds to the balance of an account in an asset. */
  function FlowOf(asset: AssetId, account: AccountId, e: Settled): Balance {
    (if e.taker == account then TakerGain(asset, e) else 0) - (if e.maker == account then TakerGain(asset, e) else 0)
  }

  function Flow(asset: AssetId, account: AccountId): Settled -> int {
    (e: Settled) => FlowOf(asset, account, e)
  }

  /** The balance obtained by replaying all settled trades from zero. */
  function Net(log: seq<Settled>, asset: AssetId, account: AccountId): Balance {
    SumBy(log, Flow(asset, account))
  }

  /** Trades between different known accounts, in known assets. */
  predicate LogInRange(log: seq<Settled>, accounts: nat, assets: nat) {
    forall i :: 0 <= i < |log| ==>
      && log[i].maker < accounts && log[i].taker < accounts && log[i].maker != log[i].taker
      && log[i].pair.primary < assets && log[i].pair.secondary < assets
  }

  ghost predicate BalancesReplay(b: Balances, log: seq<Settled>) {
    forall asset: nat, account: nat :: asset < b.assets && account < b.accounts ==>
      b.Get(asset, account) == Net(log, asset, account)
  }

  /** Only accounts the balance book knows have placed orders, and every balance is the replay of the log. */
  ghost predicate Replayed(s: State) {
    var b := s.ledger.balances;
    && b.Dense() && b.assets == s.assets && b.accounts <= s.accounts
    && (forall id :: 0 <= id < |s.ledger.session| ==> s.ledger.session[id].account < b.accounts)
    && LogInRange(s.ledger.log, b.accounts, b.assets)
    && BalancesReplay(b, s.ledger.log)
  }

  /** The account that bought the primary asset, and the one that sold it. */
  function Buyer(e: Settled): AccountId {
    if e.tx.takerSide.Bid? then e.taker else e.maker
  }

  function Seller(e: Settled): AccountId {
    if e.tx.takerSide.Bid? then e.maker else e.taker
  }

  /** A trade gives the buyer its volume of the primary asset (2^31 to the unit) for volume times price of the
      secondary, takes the same from the seller, and touches nobody and nothing else. */
  lemma BuyerPaysSeller(e: Settled, asset: AssetId, account: AccountId)
    requires e.maker != e.taker && e.pair.primary != e.pair.secondary
    ensures FlowOf(asset, account, e)
         == (if account == Buyer(e) then 1 else if account == Seller(e) then -1 else 0)
            * (if asset == e.pair.primary then e.tx.volume * 0x8000_0000
               else if asset == e.pair.secondary then -(e.tx.volume * e.tx.price) else 0)
  {
    NotionalIsExact(e.tx);
  }

  // ---- one trade ----

  lemma MoveFundsGet(b: Balances, e: Settled, asset: AssetId, account: AccountId)
    requires b.Disjoint(e.pair, e.maker, e.taker) && b.Index(asset, account) < |b.cells|
    ensures MoveFunds(b, e).Get(asset, account)
            == b.Get(asset, account) + CellFlow(b.accounts, b.Index(asset, account), e)
  {}

  /** Every known account's balance moves by the account's own part of the trade. */
  ghost predicate BookedRightly(b: Balances, e: Settled)
    requires b.Disjoint(e.pair, e.maker, e.taker)
  {
    forall asset: nat, account: nat :: asset < b.assets && account < b.accounts ==>
      MoveFunds(b, e).Get(asset, account) == b.Get(asset, account) + FlowOf(asset, account, e)
  }

  /** What an unknown taker gains of the primary asset goes to a known account in another asset. */
  lemma UnknownTakerMisbooked(b: Balances, e: Settled)
    requires b.Dense() && b.Disjoint(e.pair, e.maker, e.taker) && e.tx.volume > 0 && b.accounts <= e.taker
    ensures !BookedRightly(b, e)
  {
    hide MoveFunds;
    var asset, account := UnknownAccountAliases(b, e.pair.primary, e.taker);
    MoveFundsGet(b, e, asset, account);
    assert FlowOf(asset, account, e) == 0;
  }

  lemma UnknownMakerMisbooked(b: Balances, e: Settled)
    requires b.Dense() && b.Disjoint(e.pair, e.maker, e.taker) && e.tx.volume > 0 && b.accounts <= e.maker
    requires e.taker < b.accounts
    ensures !BookedRightly(b, e)
  {
    hide MoveFunds;
    var asset, account := UnknownAccountAliases(b, e.pair.primary, e.maker);
    MoveFundsGet(b, e, asset, account);
    assert FlowOf(asset, account, e) == 0;
  }

  /** A trade is booked on the right balances exactly when the balance book knows both of its accounts. */
  lemma BookedRightlyIff(b: Balances, e: Settled)
    requires b.Dense() && b.Disjoint(e.pair, e.maker, e.taker) && e.tx.volume > 0
    ensures BookedRightly(b, e) <==> e.maker < b.accounts && e.taker < b.accounts
  {
    hide MoveFunds;
    if e.taker >= b.accounts {
      UnknownTakerMisbooked(b, e);
    } else if e.maker >= b.accounts {
      UnknownMakerMisbooked(b, e);
    } else {
      forall asset: nat, account: nat | asset < b.assets && account < b.accounts
        ensures MoveFunds(b, e).Get(asset, account) == b.Get(asset, account) + FlowOf(asset, account, e)
      {
        CellInRange(b.accounts, b.assets, asset, account);
        MoveFundsGet(b, e, asset, account);
        CellFlowIsFlow(b.accounts, asset, account, e);
      }
    }
  }

  /** The purchase of the first account the balance book does not know is booked on account 0, in the next asset. */
  lemma UnknownTakerMovesBystander(b: Balances, e: Settled)
    requires b.Dense() && b.Disjoint(e.pair, e.maker, e.taker) && e.taker == b.accounts
    ensures MoveFunds(b, e).Get(e.pair.primary + 1, 0) == b.Get(e.pair.primary + 1, 0) + PrimaryGain(e.tx)
  {
    hide MoveFunds;
    var asset, account := UnknownAccountAliases(b, e.pair.primary, e.taker);
    MoveFundsGet(b, e, asset, account);
  }

  // ---- settling a buffer ----

  lemma CellFlowIsFlow(n: nat, asset: AssetId, account: AccountId, e: Settled)
    requires account < n && e.maker < n && e.taker < n
    ensures CellFlow(n, n * asset + account, e) == FlowOf(asset, account, e)
  {
    CellInjective(n, asset, account, e.pair.primary, e.taker);
    CellInjective(n, asset, account, e.pair.primary, e.maker);
    CellInjective(n, asset, account, e.pair.secondary, e.taker);
    CellInjective(n, asset, account, e.pair.secondary, e.maker);
  }

  lemma {:induction false} RecordedFlow(session: seq<PlacedOrder>, pair: AssetIdPair, txs: seq<ObTransaction>,
                                        n: nat, asset: AssetId, account: AccountId)
    requires account < n && forall id :: 0 <= id < |session| ==> session[id].account < n
    requires forall tx :: tx in txs ==> tx.maker < |session| && tx.taker < |session|
    ensures Net(Recorded(session, pair, txs), asset, account)
            == SumBy(txs, TxFlow(session, pair, n, n * asset + account))
  {
    if txs != [] {
      var k := |txs| - 1;
      RecordedFlow(session, pair, txs[..k], n, asset, account);
      CellFlowIsFlow(n, asset, account, Record(session, pair, txs[k]));
      SumByHead(Recorded(session, pair, txs), Flow(asset, account));
    }
  }

  /** A drain moves each balance by the flows of the trades it logs. */
  lemma DrainReplays(l: Ledger, txs: seq<ObTransaction>, pair: AssetIdPair, asset: AssetId, account: AccountId)
    requires Drain(l, txs, pair).Some?
    requires l.balances.Dense() && asset < l.balances.assets && account < l.balances.accounts
    requires forall id :: 0 <= id < |l.session| ==> l.session[id].account < l.balances.accounts
    ensures var r := Drain(l, txs, pair).value;
            r.balances.Get(asset, account) - l.balances.Get(asset, account)
                == Net(r.log, asset, account) - Net(l.log, asset, account)
  {
    hide Drain, Recorded;
    var n := l.balances.accounts;
    CellInRange(n, l.balances.assets, asset, account);
    DrainKnown(l, txs, pair);
    DrainFrame(l, txs, pair);
    DrainLog(l, txs, pair);
    DrainCell(l, txs, pair, n * asset + account);
    RecordedFlow(l.session, pair, txs, n, asset, account);
    SumByConcat(l.log, Recorded(l.session, pair, txs), Flow(asset, account));
  }

  lemma {:induction false} RecordedInRange(l: Ledger, txs: seq<ObTransaction>, pair: AssetIdPair, assets: nat)
    requires forall tx :: tx in txs ==> Addressable(l, pair, tx)
    requires forall tx :: tx in txs ==> tx.maker < |l.session| && tx.taker < |l.session|
    requires forall id :: 0 <= id < |l.session| ==> l.session[id].account < l.balances.accounts
    requires pair.primary < assets && pair.secondary < assets
    ensures LogInRange(Recorded(l.session, pair, txs), l.balances.accounts, assets)
  {
    if txs != [] {
      RecordedInRange(l, txs[..|txs| - 1], pair, assets);
    }
  }

  lemma DrainReplayed(l: Ledger, txs: seq<ObTransaction>, pair: AssetIdPair)
    requires l.balances.Dense() && LogInRange(l.log, l.balances.accounts, l.balances.assets)
             && BalancesReplay(l.balances, l.log)
    requires forall id :: 0 <= id < |l.session| ==> l.session[id].account < l.balances.accounts
    requires pair.primary < l.balances.assets && pair.secondary < l.balances.assets
    requires Drain(l, txs, pair).Some?
    ensures var r := Drain(l, txs, pair).value;
            && r.balances.Dense() && r.balances.accounts == l.balances.accounts
               && r.balances.assets == l.balances.assets
            && |r.session| == |l.session|
            && (forall id :: 0 <= id < |r.session| ==> r.session[id].account < r.balances.accounts)
            && LogInRange(r.log, r.balances.accounts, r.balances.assets) && BalancesReplay(r.balances, r.log)
  {
    hide Drain, Recorded, Net;
    DrainKnown(l, txs, pair);
    DrainFrame(l, txs, pair);
    DrainLog(l, txs, pair);
    RecordedInRange(l, txs, pair, l.balances.assets);
    var r := Drain(l, txs, pair).value;
    forall asset: nat, account: nat | asset < r.balances.assets && account < r.balances.accounts
      ensures r.balances.Get(asset, account) == Net(r.log, asset, account)
    {
      DrainReplays(l, txs, pair, asset, account);
    }
  }

  // ---- the commands ----

  lemma {:induction false} NothingYet(log: seq<Settled>, accounts: nat, assets: nat, asset: AssetId, account: AccountId)
    requires LogInRange(log, accounts, assets) && (asset >= assets || account >= accounts)
    ensures Net(log, asset, account) == 0
  {
    SumByZero(log, Flow(asset, account));
  }

  lemma AddAssetReplayed(b: Balances, log: seq<Settled>)
    requires b.Dense() && LogInRange(log, b.accounts, b.assets) && BalancesReplay(b, log)
    ensures BalancesReplay(AddAsset(b), log)
  {
    forall asset: nat, account: nat | asset < b.assets + 1 && account < b.accounts
      ensures AddAsset(b).Get(asset, account) == Net(log, asset, account)
    {
      AddAssetGet(b, asset, account);
      if asset == b.assets { NothingYet(log, b.accounts, b.assets, asset, account); }
    }
  }

  lemma AddAccountReplayed(b: Balances, log: seq<Settled>)
    requires b.Dense() && LogInRange(log, b.accounts, b.assets) && BalancesReplay(b, log)
    ensures BalancesReplay(AddAccount(b), log)
  {
    forall asset: nat, account: nat | asset < b.assets && account < b.accounts + 1
      ensures AddAccount(b).Get(asset, account) == Net(log, asset, account)
    {
      AddAccountGet(b, asset, account);
      if account == b.accounts { NothingYet(log, b.accounts, b.assets, asset, account); }
    }
  }

  /** Orders are only placed for accounts the balance book knows. */
  predicate ByKnownAccount(s: State, c: Command) {
    c.InsertCmd? && c.insertion.account < s.accounts ==> c.insertion.account < s.ledger.balances.accounts
  }

  lemma InsertReplayed(s: State, req: InsertionRequest)
    requires Sound(s) && Replayed(s) && ByKnownAccount(s, InsertCmd(req)) && InsertOrder(s, req).Done?
    ensures Replayed(InsertOrder(s, req).state)
  {
    hide Insert, Drain, Net, UniqueMarkets, BooksOk, LogInRange, BalancesReplay;
    var m := FindMarket(s.markets, req.pair);
    if m.Some? && req.account < s.accounts {
      var o := req.IntoInsertion(|s.ledger.session|);
      var r := Insert(s.markets[m.value].book, o);
      if r.result.Ok? {
        DrainReplayed(Placed(s, o), s.buf + r.trades, req.pair);
      }
    }
  }

  lemma StepReplayed(s: State, c: Command)
    requires Sound(s) && Replayed(s) && ByKnownAccount(s, c) && Step(s, c).Done?
    ensures Replayed(Step(s, c).state)
  {
    hide InsertOrder, Net, Sound, Cancel, Modify;
    match c
    case AddAssetCmd => AddAssetReplayed(s.ledger.balances, s.ledger.log); AddAssetDense(s.ledger.balances);
    case CreateAccountCmd => AddAccountReplayed(s.ledger.balances, s.ledger.log);
    case CreateNamedAccountCmd =>
    case AddMarketCmd(pair) =>
    case InsertCmd(req) => InsertReplayed(s, req);
    case CancelCmd(req) =>
    case ModifyCmd(req) =>
    case QueryCmd(q) =>
  }

  /** A run in which every order is placed for an account the balance book knows. */
  predicate KnownAccounts(cmds: seq<Command>)
    decreases |cmds|
  {
    cmds == [] ||
    var n := |cmds| - 1;
    && KnownAccounts(cmds[..n])
    && (Run(cmds[..n]).Running? ==> ByKnownAccount(Run(cmds[..n]).state, cmds[n]))
  }

  /** That is so when no account is created by name. */
  lemma {:induction false} WithoutNamesKnown(cmds: seq<Command>)
    requires forall i :: 0 <= i < |cmds| ==> !cmds[i].CreateNamedAccountCmd?
    ensures KnownAccounts(cmds)
    ensures Run(cmds).Running? ==> Run(cmds).state.ledger.balances.accounts == Run(cmds).state.accounts
    decreases |cmds|
  {
    hide Step;
    if cmds != [] {
      var n := |cmds| - 1;
      WithoutNamesKnown(cmds[..n]);
      if Run(cmds).Running? {
        StepCountsAccounts(Run(cmds[..n]).state, cmds[n]);
      }
    }
  }

  lemma StepCountsAccounts(s: State, c: Command)
    requires s.ledger.balances.Dense() && s.ledger.balances.accounts == s.accounts
    requires !c.CreateNamedAccountCmd? && Step(s, c).Done?
    ensures Step(s, c).state.ledger.balances.accounts == Step(s, c).state.accounts
  {
    hide Insert, Drain, Cancel, Modify;
    if c.InsertCmd? {
      var m := FindMarket(s.markets, c.insertion.pair);
      if m.Some? && c.insertion.account < s.accounts {
        var o := c.insertion.IntoInsertion(|s.ledger.session|);
        var r := Insert(s.markets[m.value].book, o);
        if r.result.Ok? {
          DrainFrame(Placed(s, o), s.buf + r.trades, c.insertion.pair);
        }
      }
    }
  }

  lemma {:induction false} RunReplayed(cmds: seq<Command>)
    requires KnownAccounts(cmds) && Run(cmds).Running?
    ensures Replayed(Run(cmds).state)
    decreases |cmds|
  {
    hide Step, Replayed;
    if cmds == [] {
      EmptyReplayed();
    } else {
      var n := |cmds| - 1;
      RunReplayed(cmds[..n]);
      RunSound(cmds[..n]);
      StepReplayed(Run(cmds[..n]).state, cmds[n]);
    }
  }

  lemma EmptyReplayed()
    ensures Replayed(EMPTY_EXCHANGE)
  {}

  /** While orders come from accounts the balance book knows, every balance is the replay of the settled trades. */
  lemma BalancesAreHistory(cmds: seq<Command>, asset: AssetId, account: AccountId)
    requires KnownAccounts(cmds) && Run(cmds).Running?
    requires asset < Run(cmds).state.assets && account < Run(cmds).state.ledger.balances.accounts
    ensures var l := Run(cmds).state.ledger;
            l.balances.Index(asset, account) < |l.balances.cells|
            && l.balances.cells[l.balances.Index(asset, account)] == Net(l.log, asset, account)
  {
    RunReplayed(cmds);
    var b := Run(cmds).state.ledger.balances;
    CellInRange(b.accounts, b.assets, asset, account);
  }

  // ---- conservation ----

  /** The sum of the balances of the first `n` accounts. */
  function TotalBalance(b: Balances, asset: AssetId, n: nat): Balance {
    if n == 0 then 0 else TotalBalance(b, asset, n - 1) + b.Get(asset, n - 1)
  }

  function TotalNet(log: seq<Settled>, asset: AssetId, n: nat): Balance {
    if n == 0 then 0 else TotalNet(log, asset, n - 1) + Net(log, asset, n - 1)
  }

  function TotalFlow(e: Settled, asset: AssetId, n: nat): Balance {
    if n == 0 then 0 else TotalFlow(e, asset, n - 1) + FlowOf(asset, n - 1, e)
  }

  /** One trade moves as much to one account as it takes from the other. */
  lemma {:induction false} TradeConserves(e: Settled, asset: AssetId, n: nat)
    ensures TotalFlow(e, asset, n)
         == (if e.taker < n then TakerGain(asset, e) else 0) - (if e.maker < n then TakerGain(asset, e) else 0)
  {
    if n > 0 {
      TradeConserves(e, asset, n - 1);
    }
  }

  lemma {:induction false} TotalNetEmpty(asset: AssetId, n: nat)
    ensures TotalNet([], asset, n) == 0
  {
    if n > 0 { TotalNetEmpty(asset, n - 1); }
  }

  lemma {:induction false} TotalNetAppend(log: seq<Settled>, e: Settled, asset: AssetId, n: nat)
    ensures TotalNet(log + [e], asset, n) == TotalNet(log, asset, n) + TotalFlow(e, asset, n)
  {
    if n > 0 {
      TotalNetAppend(log, e, asset, n - 1);
      SumByAppend(log, e, Flow(asset, n - 1));
    }
  }

  lemma {:induction false} HistoryConserves(log: seq<Settled>, asset: AssetId, accounts: nat, assets: nat)
    requires LogInRange(log, accounts, assets)
    ensures TotalNet(log, asset, accounts) == 0
  {
    if log == [] {
      TotalNetEmpty(asset, accounts);
    } else {
      var k := |log| - 1;
      HistoryConserves(log[..k], asset, accounts, assets);
      assert log == log[..k] + [log[k]];
      TotalNetAppend(log[..k], log[k], asset, accounts);
      TradeConserves(log[k], asset, accounts);
    }
  }

  lemma {:induction false} TotalsAgree(b: Balances, log: seq<Settled>, asset: AssetId, n: nat)
    requires BalancesReplay(b, log) && asset < b.assets && n <= b.accounts
    ensures TotalBalance(b, asset, n) == TotalNet(log, asset, n)
  {
    if n > 0 { TotalsAgree(b, log, asset, n - 1); }
  }

  /** While orders come from accounts the balance book knows, the balances in an asset add up to zero. */
  lemma BalancesSumToZero(cmds: seq<Command>, asset: AssetId)
    requires KnownAccounts(cmds) && Run(cmds).Running? && asset < Run(cmds).state.assets
    ensures var s := Run(cmds).state; TotalBalance(s.ledger.balances, asset, s.ledger.balances.accounts) == 0
  {
    RunReplayed(cmds);
    var s := Run(cmds).state;
    TotalsAgree(s.ledger.balances, s.ledger.log, asset, s.ledger.balances.accounts);
    HistoryConserves(s.ledger.log, asset, s.ledger.balances.accounts, s.assets);
  }

  // ---- open volume ----

  function FilledBy(id: OrderId): Settled -> int {
    (e: Settled) => if Touches(e.tx, id) then e.tx.volume else 0
  }

  /** The volume of order `id` that was ever settled. */
  function FilledVolume(log: seq<Settled>, id: OrderId): int {
    SumBy(log, FilledBy(id))
  }

  lemma {:induction false} RecordedVolume(session: seq<PlacedOrder>, pair: AssetIdPair, txs: seq<ObTransaction>,
                                          id: OrderId)
    requires forall tx :: tx in txs ==> tx.maker < |session| && tx.taker < |session|
    ensures FilledVolume(Recorded(session, pair, txs), id) == Amount(txs, id)
  {
    if txs != [] {
      RecordedVolume(session, pair, txs[..|txs| - 1], id);
      SumByHead(Recorded(session, pair, txs), FilledBy(id));
    }
  }

  /** Every record's open volume is the requested volume less what was settled. */
  predicate VolumesReplay(s: State) {
    && |s.requests| == |s.ledger.session|
    && forall id :: 0 <= id < |s.ledger.session| ==>
         s.ledger.session[id].remaining == s.requests[id].volume - FilledVolume(s.ledger.log, id)
  }

  predicate KnownOrders(log: seq<Settled>, n: nat) {
    forall i :: 0 <= i < |log| ==> log[i].tx.maker < n && log[i].tx.taker < n
  }

  /** The log mentions accepted orders only. */
  predicate LogKnown(s: State) {
    KnownOrders(s.ledger.log, |s.ledger.session|)
  }

  lemma KnownOrdersConcat(a: seq<Settled>, b: seq<Settled>, n: nat)
    requires KnownOrders(a, n) && KnownOrders(b, n)
    ensures KnownOrders(a + b, n)
  {}

  lemma {:induction false} RecordedKnown(session: seq<PlacedOrder>, pair: AssetIdPair, txs: seq<ObTransaction>)
    requires forall tx :: tx in txs ==> tx.maker < |session| && tx.taker < |session|
    ensures KnownOrders(Recorded(session, pair, txs), |session|)
  {
    if txs != [] {
      var k := |txs| - 1;
      RecordedKnown(session, pair, txs[..k]);
      KnownOrdersConcat([Record(session, pair, txs[k])], Recorded(session, pair, txs[..k]), |session|);
    }
  }

  lemma UnknownUnfilled(log: seq<Settled>, id: OrderId)
    requires KnownOrders(log, id)
    ensures FilledVolume(log, id) == 0
  {
    SumByZero(log, FilledBy(id));
  }

  lemma InsertVolumesReplay(s: State, req: InsertionRequest)
    requires VolumesReplay(s) && LogKnown(s) && InsertOrder(s, req).Done?
    ensures VolumesReplay(InsertOrder(s, req).state) && LogKnown(InsertOrder(s, req).state)
  {
    hide Insert, Drain, Recorded, FilledVolume;
    var m := FindMarket(s.markets, req.pair);
    if m.Some? && req.account < s.accounts {
      var o := req.IntoInsertion(|s.ledger.session|);
      var r := Insert(s.markets[m.value].book, o);
      if r.result.Ok? {
        var l, txs := Placed(s, o), s.buf + r.trades;
        var s' := InsertOrder(s, req).state;
        DrainKnown(l, txs, req.pair);
        DrainFrame(l, txs, req.pair);
        DrainLog(l, txs, req.pair);
        RecordedKnown(l.session, req.pair, txs);
        assert KnownOrders(l.log, |l.session|);
        KnownOrdersConcat(l.log, Recorded(l.session, req.pair, txs), |l.session|);
        UnknownUnfilled(s.ledger.log, o.id);
        forall id | 0 <= id < |l.session|
          ensures s'.ledger.session[id].remaining == s'.requests[id].volume - FilledVolume(s'.ledger.log, id)
        {
          DrainOrder(l, txs, req.pair, id);
          RecordedVolume(l.session, req.pair, txs, id);
          FilledConcat(l.log, Recorded(l.session, req.pair, txs), id);
        }
      }
    }
  }

  lemma FilledConcat(a: seq<Settled>, b: seq<Settled>, id: OrderId)
    ensures FilledVolume(a + b, id) == FilledVolume(a, id) + FilledVolume(b, id)
  {
    SumByConcat(a, b, FilledBy(id));
  }

  lemma StepVolumesReplay(s: State, c: Command)
    requires VolumesReplay(s) && LogKnown(s) && s.ledger.balances.Dense() && Step(s, c).Done?
    ensures VolumesReplay(Step(s, c).state) && LogKnown(Step(s, c).state)
  {
    hide InsertOrder, Cancel, Modify, FilledVolume;
    if c.InsertCmd? {
      InsertVolumesReplay(s, c.insertion);
    }
  }

  /** In every reachable state an order's open volume is what was requested less what was settled. */
  lemma {:induction false} OpenVolumeIsHistory(cmds: seq<Command>)
    requires Run(cmds).Running?
    ensures VolumesReplay(Run(cmds).state) && LogKnown(Run(cmds).state)
    decreases |cmds|
  {
    hide Step, VolumesReplay, LogKnown;
    if cmds == [] {
      NothingReplayed();
    } else {
      var n := |cmds| - 1;
      OpenVolumeIsHistory(cmds[..n]);
      StepVolumesReplay(Run(cmds[..n]).state, cmds[n]);
    }
  }

  lemma NothingReplayed()
    ensures VolumesReplay(EMPTY_EXCHANGE) && LogKnown(EMPTY_EXCHANGE)
  {}

  // ---- fixed-point amounts ----

  /** The secondary amount is exact: cutting off the low bits loses nothing. */
  lemma NotionalIsExact(tx: ObTransaction)
    ensures SecondaryAmount(tx) == tx.volume * tx.price
  {
    assert tx.volume * ONE * tx.price == (tx.volume * tx.price) * ONE;
    assert ((tx.volume * tx.price) * ONE) / ONE == tx.volume * tx.price;
  }

  function Abs(x: int): int {
    if x < 0 then -x else x
  }

  /** How much of an asset a trade moves, in either direction. */
  function TurnoverOf(asset: AssetId): Settled -> int {
    (e: Settled) => (if e.pair.primary == asset then Abs(PrimaryAmount(e.tx)) else 0)
                    + (if e.pair.secondary == asset then Abs(SecondaryAmount(e.tx)) else 0)
  }

  function Turnover(log: seq<Settled>, asset: AssetId): int {
    SumBy(log, TurnoverOf(asset))
  }

  lemma {:induction false} NetWithinTurnover(log: seq<Settled>, asset: AssetId, account: AccountId, accounts: nat,
                                             assets: nat)
    requires LogInRange(log, accounts, assets)
    ensures Abs(Net(log, asset, account)) <= Turnover(log, asset)
  {
    if log != [] {
      NetWithinTurnover(log[..|log| - 1], asset, account, accounts, assets);
    }
  }

  lemma {:induction false} TurnoverGrows(log: seq<Settled>, k: nat, asset: AssetId)
    requires k <= |log|
    ensures Turnover(log[..k], asset) <= Turnover(log, asset)
  {
    assert log == log[..k] + log[k..];
    SumByConcat(log[..k], log[k..], TurnoverOf(asset));
    SumByNonNegative(log[k..], TurnoverOf(asset));
  }

  /** While the turnover of an asset stays below 2^32 units, no balance in it overflows and no
      traded amount did. */
  lemma NoBalanceOverflows(cmds: seq<Command>, asset: AssetId, account: AccountId, k: nat)
    requires KnownAccounts(cmds) && Run(cmds).Running?
    requires asset < Run(cmds).state.assets && account < Run(cmds).state.ledger.balances.accounts
    requires var log := Run(cmds).state.ledger.log; Turnover(log, asset) < 0x8000_0000_0000_0000
    ensures var l := Run(cmds).state.ledger;
            && Abs(l.balances.Get(asset, account)) < 0x8000_0000_0000_0000
            && (k < |l.log| && l.log[k].pair.secondary == asset
               ==> Abs(l.log[k].tx.volume * l.log[k].tx.price) < 0x8000_0000_0000_0000)
  {
    RunReplayed(cmds);
    var s := Run(cmds).state;
    var log := s.ledger.log;
    NetWithinTurnover(log, asset, account, s.ledger.balances.accounts, s.assets);
    if k < |log| {
      SumByNonNegative(log, TurnoverOf(asset));
      assert TurnoverOf(asset)(log[k]) <= Turnover(log, asset);
      NotionalIsExact(log[k].tx);
    }
  }

  // ---- inside a drain ----

  lemma TakeLast<T>(a: seq<T>, b: seq<T>)
    requires b != []
    ensures (a + b)[|a + b| - 1] == b[|b| - 1]
    ensures (a + b)[..|a + b| - 1] == a + b[..|b| - 1]
  {}

  /** Draining the end of the buffer first and the rest then is draining the buffer. */
  lemma {:induction false} DrainInTwo(l: Ledger, a: seq<ObTransaction>, b: seq<ObTransaction>, pair: AssetIdPair)
    ensures Drain(l, a + b, pair)
         == match Drain(l, b, pair)
            case None => None
            case Some(l') => Drain(l', a, pair)
    decreases |b|
  {
    if b == [] {
      assert a + b == a;
    } else {
      var n := |b| - 1;
      TakeLast(a, b);
      if CanSettle(l, pair, b[n]) {
        DrainInTwo(SettleOne(l, pair, b[n]), a, b[..n], pair);
      }
    }
  }

  /** The ledger after the first `j` trades of a drain that gets through. */
  lemma HalfDrained(l: Ledger, txs: seq<ObTransaction>, pair: AssetIdPair, j: nat)
    requires Drain(l, txs, pair).Some? && j <= |txs|
    ensures var half := Drain(l, txs[|txs| - j..], pair);
            half.Some? && half.value.log <= Drain(l, txs, pair).value.log
  {
    hide Drain, Recorded;
    var a, b := txs[..|txs| - j], txs[|txs| - j..];
    assert txs == a + b;
    DrainInTwo(l, a, b, pair);
    var half := Drain(l, b, pair).value;
    DrainKnown(half, a, pair);
    DrainLog(half, a, pair);
  }

  lemma HalfDrainedFits(l: Ledger, txs: seq<ObTransaction>, pair: AssetIdPair, j: nat, asset: AssetId,
                        account: AccountId)
    requires l.balances.Dense() && LogInRange(l.log, l.balances.accounts, l.balances.assets)
             && BalancesReplay(l.balances, l.log)
    requires forall id :: 0 <= id < |l.session| ==> l.session[id].account < l.balances.accounts
    requires pair.primary < l.balances.assets && pair.secondary < l.balances.assets
    requires Drain(l, txs, pair).Some? && j <= |txs|
    requires asset < l.balances.assets && account < l.balances.accounts
    requires Turnover(Drain(l, txs, pair).value.log, asset) < 0x8000_0000_0000_0000
    ensures var half := Drain(l, txs[|txs| - j..], pair);
            half.Some? && Abs(half.value.balances.Get(asset, account)) < 0x8000_0000_0000_0000
  {
    hide Drain, Net, Turnover;
    HalfDrained(l, txs, pair, j);
    DrainReplayed(l, txs[|txs| - j..], pair);
    var half := Drain(l, txs[|txs| - j..], pair).value;
    var log := Drain(l, txs, pair).value.log;
    assert log[..|half.log|] == half.log;
    NetWithinTurnover(half.log, asset, account, half.balances.accounts, half.balances.assets);
    TurnoverGrows(log, |half.log|, asset);
  }

  /** Nor does any balance overflow after any of the trades while the buffer of an accepted order is drained. */
  lemma NoOverflowInsideDrain(cmds: seq<Command>, req: InsertionRequest, txs: seq<ObTransaction>, j: nat,
                              asset: AssetId, account: AccountId)
    requires KnownAccounts(cmds) && Run(cmds).Running? && ByKnownAccount(Run(cmds).state, InsertCmd(req))
    requires var s := Run(cmds).state;
             && FindMarket(s.markets, req.pair).Some? && req.account < s.accounts
             && asset < s.assets && account < s.ledger.balances.accounts
             && var o := req.IntoInsertion(|s.ledger.session|);
                var r := Insert(s.markets[FindMarket(s.markets, req.pair).value].book, o);
             && r.result.Ok? && txs == s.buf + r.trades && j <= |txs|
             && InsertOrder(s, req).Done?
             && Turnover(InsertOrder(s, req).state.ledger.log, asset) < 0x8000_0000_0000_0000
    ensures var s := Run(cmds).state; var o := req.IntoInsertion(|s.ledger.session|);
            var half := Drain(Placed(s, o), txs[|txs| - j..], req.pair);
            half.Some? && Abs(half.value.balances.Get(asset, account)) < 0x8000_0000_0000_0000
  {
    RunReplayed(cmds);
    RunSound(cmds);
    var s := Run(cmds).state;
    hide Run, KnownAccounts, Insert, Drain, Net, Turnover, UniqueMarkets, BooksOk;
    HalfDrainedFits(Placed(s, req.IntoInsertion(|s.ledger.session|)), txs, req.pair, j, asset, account);
  }
}
