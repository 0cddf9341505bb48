/**
 The exchange as it runs: one object that owns the markets, the balance book, the session
 table, the trade buffer and the ring of recent transactions. Each method is proved to do
 to its `Model()` what the state machine of `ExchangeSpec` does.
 */
module Exchanges {
  import opened Types
  import opened BookSpec
  import opened BalancesSpec
  import opened Settlement
  import opened ExchangeSpec
  import opened Orderbooks
  import opened BalanceBooks
  import opened Marketplaces
  import opened RecentTransactionsBuffer
  import opened Views

  lemma TrailAppend(log: seq<Settled>, e: Settled)
    ensures Trail(log + [e]) == Trail(log) + [TransactionOf(e)]
  {}

  lemma AddMarketCases(s: State, pair: AssetIdPair)
    ensures var r := ExchangeSpec.AddMarket(s, pair);
            if pair.primary >= s.assets || pair.secondary >= s.assets then
              r == Done(s, MarketReply(Err(AssetNotTraded)))
            else if FindMarket(s.markets, pair).Some? then r == Done(s, MarketReply(Err(MarketAlreadyExists)))
            else r == Done(s.(markets := s.markets + [MarketState(pair, 0, EMPTY_BOOK)]), MarketReply(Ok(())))
  {}

  /** An insertion that reaches the market and is accepted there, and one that is refused there. */
  lemma InsertOrderCases(s: State, req: InsertionRequest, m: nat)
    requires FindMarket(s.markets, req.pair) == Some(m) && req.account < s.accounts
    ensures var o := req.IntoInsertion(|s.ledger.session|);
            var r := Insert(s.markets[m].book, o);
            var markets := s.markets[m := MarketAfter(s.markets[m], r)];
            var l := s.ledger.(session := s.ledger.session + [PlacedOrder.FromInsertion(o)]);
            var drained := Drain(l, s.buf + r.trades, req.pair);
            && (r.result.Err? ==>
                  ExchangeSpec.InsertOrder(s, req)
                  == Done(s.(markets := markets, buf := s.buf + r.trades), InsertReply(Err(r.result.error))))
            && (r.result.Ok? && drained.None? ==> ExchangeSpec.InsertOrder(s, req) == Stopped)
            && (r.result.Ok? && drained.Some? ==>
                  ExchangeSpec.InsertOrder(s, req)
                  == Done(s.(markets := markets, ledger := drained.value, buf := [], requests := s.requests + [req]),
                          InsertReply(Ok((o.id, r.result.value.0)))))
  {
    hide Insert, Drain;
  }

  lemma InsertOrderRefused(s: State, req: InsertionRequest)
    ensures FindMarket(s.markets, req.pair).None? ==>
              ExchangeSpec.InsertOrder(s, req) == Done(s, InsertReply(Err(NoSuchMarket)))
    ensures FindMarket(s.markets, req.pair).Some? && req.account >= s.accounts ==>
              ExchangeSpec.InsertOrder(s, req) == Done(s, InsertReply(Err(NoSuchAccount)))
  {}

  lemma MoveFundsDense(b: Balances, e: Settled)
    requires b.Disjoint(e.pair, e.maker, e.taker)
    ensures MoveFunds(b, e).Dense() <==> b.Dense()
  {}

  class Exchange {
    var accounts: nat
    var tradedAssets: seq<AssetId>
    const balanceBook: BalanceBook
    const markets: Markets
    var sessionOrders: seq<PlacedOrder>
    const recent: RecentTransactions<Transaction>
    const buffer: TransactionBuffer
    ghost var log: seq<Settled>
    ghost var requests: seq<InsertionRequest>

    ghost function Owned(): set<object>
    {
      {this, balanceBook, markets, recent, buffer}
    }

    /** Ids are positions, both of assets and of orders; the ring has seen the whole log. */
    ghost predicate Valid()
      reads this, balanceBook, markets, recent
    {
      && markets.Valid() && Owned() !! markets.Parts()
      && recent.Valid() && recent.capacity == RECENT_CAPACITY && recent.log == Trail(log)
      && balanceBook.Model().Dense()
      && (forall i :: 0 <= i < |sessionOrders| ==> sessionOrders[i].id == i)
      && (forall i :: 0 <= i < |tradedAssets| ==> tradedAssets[i] == i)
    }

    ghost function TheLedger(): Ledger
      reads this, balanceBook
    {
      Ledger(sessionOrders, balanceBook.Model(), log)
    }

    ghost function Model(): State
      reads this, balanceBook, markets, markets.Parts(), buffer
    {
      State(accounts, |tradedAssets|, markets.Model(), TheLedger(), buffer.items, requests)
    }

    constructor ()
      ensures Valid() && Model() == EMPTY_EXCHANGE
      ensures fresh(Owned()) && markets.Parts() == {}
    {
      accounts, tradedAssets, sessionOrders := 0, [], [];
      balanceBook := new BalanceBook();
      markets := new Markets();
      recent := new RecentTransactions<Transaction>(RECENT_CAPACITY);
      buffer := new TransactionBuffer();
      log, requests := [], [];
    }

    // ---- assets, accounts, markets ----

    method AddAsset() returns (id: AssetId)
      requires Valid()
      modifies this`tradedAssets, balanceBook
      ensures Valid()
      ensures Done(Model(), NewId(id)) == Step(old(Model()), AddAssetCmd)
    {
      id := |tradedAssets|;
      tradedAssets := tradedAssets + [id];
      AddAssetDense(balanceBook.Model());
      balanceBook.AddAsset();
    }

    method IsTradedAsset(asset: AssetId) returns (r: bool)
      requires Valid()
      ensures r <==> asset < |tradedAssets|
    {
      for i := 0 to |tradedAssets|
        invariant asset >= i
      {
        if tradedAssets[i] == asset {
          return true;
        }
      }
      return false;
    }

    method CreateAccount() returns (id: AccountId)
      requires Valid()
      modifies this`accounts, balanceBook
      ensures Valid()
      ensures Done(Model(), NewId(id)) == Step(old(Model()), CreateAccountCmd)
    {
      id := accounts;
      accounts := accounts + 1;
      balanceBook.AddAccount();
    }

    /** Unlike `CreateAccount` this does not tell the balance book. */
    method CreateAccountWithName() returns (id: AccountId)
      requires Valid()
      modifies this`accounts
      ensures Valid()
      ensures Done(Model(), NewId(id)) == Step(old(Model()), CreateNamedAccountCmd)
    {
      id := accounts;
      accounts := accounts + 1;
    }

    method AddMarket(pair: AssetIdPair) returns (r: Result<(), MarketCreationError>)
      requires Valid()
      modifies markets
      ensures Valid() && fresh(markets.Parts() - old(markets.Parts()))
      ensures Done(Model(), MarketReply(r)) == ExchangeSpec.AddMarket(old(Model()), pair)
    {
      hide FindMarket, Trail, BalancesSpec.Balances.Dense, ExchangeSpec.AddMarket;
      AddMarketCases(Model(), pair);
      var primary := IsTradedAsset(pair.primary);
      var secondary := IsTradedAsset(pair.secondary);
      if !primary || !secondary {
        return Err(AssetNotTraded);
      }
      r := markets.AddMarket(pair);
    }

    // ---- settlement ----

    /** Move the funds of one trade between four balances; false when two are the same cell or one is missing. */
    method MoveFundsOf(pair: AssetIdPair, tx: ObTransaction, maker: AccountId, taker: AccountId) returns (ok: bool)
      modifies balanceBook
      ensures ok <==> old(balanceBook.Model()).Disjoint(pair, maker, taker)
      ensures ok ==> balanceBook.Model() == MoveFunds(old(balanceBook.Model()), Settled(pair, tx, maker, taker))
    {
      hide BalancesSpec.Balances.Disjoint;
      var volumePrimary := tx.volume * ONE;
      var volumeSecondary := FixedMul(volumePrimary, tx.price);
      var found, pm, pt, sm, st := FourCells(pair, maker, taker);
      if !found {
        return false;
      }
      // a taker that asks gives primary for secondary
      var gainPrimary, gainSecondary := volumePrimary, -volumeSecondary;
      if tx.takerSide.Ask? {
        gainPrimary, gainSecondary := -volumePrimary, volumeSecondary;
      }
      balanceBook.Add(pt, gainPrimary);
      balanceBook.Add(st, gainSecondary);
      balanceBook.Add(pm, -gainPrimary);
      balanceBook.Add(sm, -gainSecondary);
      return true;
    }

    /** The positions of the two primary and the two secondary balances of a trade. */
    method FourCells(pair: AssetIdPair, maker: AccountId, taker: AccountId)
      returns (found: bool, pm: nat, pt: nat, sm: nat, st: nat)
      ensures var b := balanceBook.Model();
              && (found <==> b.Disjoint(pair, maker, taker))
              && (found ==> pm == b.Index(pair.primary, maker) && pt == b.Index(pair.primary, taker)
                            && sm == b.Index(pair.secondary, maker) && st == b.Index(pair.secondary, taker)
                            && pm < |b.cells| && pt < |b.cells| && sm < |b.cells| && st < |b.cells|
                            && pm != pt && pm != sm && pm != st && pt != sm && pt != st && sm != st)
    {
      var cells := [(pair.primary, maker), (pair.primary, taker), (pair.secondary, maker), (pair.secondary, taker)];
      var indices := balanceBook.GetDisjoint(cells);
      if indices.None? {
        return false, 0, 0, 0, 0;
      }
      return true, indices.value[0], indices.value[1], indices.value[2], indices.value[3];
    }

    /** Settle one trade; false when the exchange would panic. */
    method SettleTransaction(pair: AssetIdPair, tx: ObTransaction) returns (ok: bool)
      requires Valid()
      modifies this`sessionOrders, this`log, balanceBook, recent
      ensures ok <==> CanSettle(old(TheLedger()), pair, tx)
      ensures ok ==> Valid() && TheLedger() == SettleOne(old(TheLedger()), pair, tx)
    {
      hide MoveFunds, BalancesSpec.Balances.Disjoint;
      // both orders exist and are different
      if tx.maker >= |sessionOrders| || tx.taker >= |sessionOrders| || tx.maker == tx.taker {
        return false;
      }
      var maker, taker := sessionOrders[tx.maker], sessionOrders[tx.taker];
      // neither subtraction underflows
      if tx.volume > maker.remaining || tx.volume > taker.remaining {
        return false;
      }
      maker, taker := maker.(remaining := maker.remaining - tx.volume),
                      taker.(remaining := taker.remaining - tx.volume);
      if maker.remaining == 0 {
        maker := maker.(status := Filled);
      }
      if taker.remaining == 0 {
        taker := taker.(status := Filled);
      }
      sessionOrders := sessionOrders[tx.maker := maker][tx.taker := taker];
      ok := MoveFundsOf(pair, tx, maker.account, taker.account);
      if ok {
        MoveFundsDense(old(balanceBook.Model()), Settled(pair, tx, maker.account, taker.account));
        recent.Push(Transaction(pair, tx.price, tx.volume, tx.takerSide, maker.account, taker.account));
        TrailAppend(log, Settled(pair, tx, maker.account, taker.account));
        log := log + [Settled(pair, tx, maker.account, taker.account)];
      }
    }

    /** Drain the buffer, last trade first; false when the exchange would panic. */
    method ProcessTransactions(pair: AssetIdPair) returns (ok: bool)
      requires Valid()
      modifies this`sessionOrders, this`log, balanceBook, recent, buffer
      ensures ok <==> Drain(old(TheLedger()), old(buffer.items), pair).Some?
      ensures ok ==> Valid() && buffer.items == []
                     && TheLedger() == Drain(old(TheLedger()), old(buffer.items), pair).value
    {
      hide SettleOne, CanSettle;
      while buffer.items != []
        invariant Valid()
        invariant Drain(old(TheLedger()), old(buffer.items), pair) == Drain(TheLedger(), buffer.items, pair)
        decreases |buffer.items|
      {
        DrainStep(TheLedger(), buffer.items, pair);
        var tx := buffer.Pop();
        ok := SettleTransaction(pair, tx.value);
        if !ok {
          return false;
        }
      }
      return true;
    }

    // ---- orders ----

    /** Find the order in the session table. */
    method FindOrder(id: OrderId) returns (r: Option<nat>)
      requires Valid()
      ensures r == if id < |sessionOrders| then Some(id) else None
    {
      for i := 0 to |sessionOrders|
        invariant id >= i
      {
        if sessionOrders[i].id == id {
          return Some(i);
        }
      }
      return None;
    }

    /** Insert an order and settle its trades; `ok` is false when the exchange would panic. */
    method InsertOrder(req: InsertionRequest) returns (ok: bool, r: Result<(OrderId, Status), InsertionError>)
      requires Valid()
      modifies Owned(), markets.Parts()
      ensures ok <==> ExchangeSpec.InsertOrder(old(Model()), req).Done?
      ensures ok ==> Valid() && markets.Parts() == old(markets.Parts())
                     && Done(Model(), InsertReply(r)) == ExchangeSpec.InsertOrder(old(Model()), req)
    {
      hide Insert, Drain, ExchangeSpec.InsertOrder, FindMarket, MarketAfter, Trail, BalancesSpec.Balances.Dense;
      InsertOrderRefused(Model(), req);
      var found := markets.Get(req.pair);
      if found.None? {
        return true, Err(NoSuchMarket);
      }
      if req.account >= accounts {
        return true, Err(NoSuchAccount);
      }
      InsertOrderCases(Model(), req, found.value);
      var newId := |sessionOrders|;
      var o := req.IntoInsertion(newId);
      var result := markets.InsertOrderAt(found.value, o, buffer);
      if result.Err? {
        return true, Err(result.error);
      }
      ok := Accept(req, o);
      r := Ok((newId, result.value.0));
    }

    /** Enter an accepted order in the session table and settle the trades in the buffer. */
    method Accept(req: InsertionRequest, o: OrderInsertion) returns (ok: bool)
      requires Valid() && o.id == |sessionOrders|
      modifies this`sessionOrders, this`requests, this`log, balanceBook, recent, buffer
      ensures var l := old(TheLedger()).(session := old(sessionOrders) + [PlacedOrder.FromInsertion(o)]);
              var drained := Drain(l, old(buffer.items), req.pair);
              && (ok <==> drained.Some?)
              && (ok ==> Valid() && Model() == old(Model()).(ledger := drained.value, buf := [],
                                                            requests := old(requests) + [req]))
    {
      hide Drain, Trail, BalancesSpec.Balances.Dense;
      sessionOrders := sessionOrders + [PlacedOrder.FromInsertion(o)];
      requests := requests + [req];
      ok := ProcessTransactions(req.pair);
    }

    /** The checks before a cancellation reaches the book: why it is refused, or which market it goes to. */
    method CheckCancellation(req: CancellationRequest) returns (refused: Option<CancellationError>, m: nat)
      requires Valid()
      ensures refused.Some? ==>
                ExchangeSpec.CancelOrder(Model(), req) == Done(Model(), CancelReply(Err(refused.value)))
      ensures refused.None? ==>
                && req.orderId < |sessionOrders| && sessionOrders[req.orderId].account == req.account
                && !sessionOrders[req.orderId].status.Cancelled? && !sessionOrders[req.orderId].status.Filled?
                && FindMarket(Model().markets, sessionOrders[req.orderId].pair) == Some(m)
    {
      hide Cancel;
      m := 0;
      var position := FindOrder(req.orderId);
      if position.None? {
        return Some(CancelUnknownOrder), m;
      }
      var order := sessionOrders[position.value];
      if order.account != req.account {
        return Some(CancelUnauthorized), m;
      }
      if order.status.Cancelled? {
        return Some(CancelAlreadyCancelled), m;
      } else if order.status.Filled? {
        return Some(CancelAlreadyFilled), m;
      }
      var found := markets.Get(order.pair);
      if found.None? {
        return Some(CancelNoSuchMarket), m;
      }
      return None, found.value;
    }

    method CancelOrder(req: CancellationRequest) returns (r: Result<(), CancellationError>)
      requires Valid()
      modifies this`sessionOrders, markets.Parts()
      ensures Valid() && markets.Parts() == old(markets.Parts())
      ensures Done(Model(), CancelReply(r)) == ExchangeSpec.CancelOrder(old(Model()), req)
    {
      hide Cancel, FindMarket, Trail, BalancesSpec.Balances.Dense;
      var refused, m := CheckCancellation(req);
      if refused.Some? {
        return Err(refused.value);
      }
      var order := sessionOrders[req.orderId];
      r := markets.CancelOrderAt(m, req.IntoCancellation(order.pair, order.side, order.price));
      if r.Ok? {
        sessionOrders := sessionOrders[req.orderId := order.(status := Cancelled)];
      }
    }

    /** The checks before a modification reaches the book: why it is refused, or which market it goes to. */
    method CheckModification(req: ModificationRequest) returns (refused: Option<ModificationError>, m: nat)
      requires Valid()
      ensures refused.Some? ==>
                ExchangeSpec.ModifyOrder(Model(), req) == Done(Model(), ModifyReply(Err(refused.value)))
      ensures refused.None? ==>
                && req.orderId < |sessionOrders| && sessionOrders[req.orderId].account == req.account
                && !sessionOrders[req.orderId].status.Filled? && req.newVolume <= sessionOrders[req.orderId].volume
                && FindMarket(Model().markets, sessionOrders[req.orderId].pair) == Some(m)
    {
      hide Modify;
      m := 0;
      var position := FindOrder(req.orderId);
      if position.None? {
        return Some(ModifyUnknownOrder), m;
      }
      var order := sessionOrders[position.value];
      if order.account != req.account {
        return Some(ModifyUnauthorized), m;
      }
      if order.status.Filled? {
        return Some(ModifyAlreadyFilled), m;
      }
      if req.newVolume > order.volume {
        return Some(VolumeNotLower), m;
      }
      var found := markets.Get(order.pair);
      if found.None? {
        return Some(ModifyNoSuchMarket), m;
      }
      return None, found.value;
    }

    /** Shrink an order; `ok` is false when the exchange would panic. */
    method ModifyOrder(req: ModificationRequest) returns (ok: bool, r: Result<(), ModificationError>)
      requires Valid()
      modifies this`sessionOrders, markets.Parts()
      ensures ok <==> ExchangeSpec.ModifyOrder(old(Model()), req).Done?
      ensures ok ==> Valid() && markets.Parts() == old(markets.Parts())
                     && Done(Model(), ModifyReply(r)) == ExchangeSpec.ModifyOrder(old(Model()), req)
    {
      hide Modify, FindMarket;
      var refused, m := CheckModification(req);
      if refused.Some? {
        return true, Err(refused.value);
      }
      var order := sessionOrders[req.orderId];
      r := markets.ModifyOrderAt(m, req.IntoModification(order.pair, order.side, order.price, order.volume));
      if r.Err? {
        return true, r;
      }
      // the filled volume must not underflow
      if order.volume < order.remaining {
        return false, r;
      }
      var volumeFilled := order.volume - order.remaining;
      if volumeFilled > req.newVolume {
        order := order.(volume := volumeFilled, status := Filled);
      } else {
        order := order.(volume := req.newVolume);
      }
      sessionOrders := sessionOrders[req.orderId := order];
      return true, r;
    }

    // ---- queries ----

    method GetBalance(account: AccountId, asset: AssetId) returns (r: Option<Balance>)
      requires Valid()
      ensures BalanceAnswer(r) == AnswerTo(Model(), Query.GetBalance(account, asset))
    {
      r := balanceBook.Get(account, asset);
    }

    method GetOrderbookL1(pair: AssetIdPair) returns (r: Option<L1>)
      requires Valid()
      ensures L1Answer(r) == AnswerTo(Model(), Query.GetOrderbookL1(pair))
    {
      var found := markets.Get(pair);
      if found.None? {
        return None;
      }
      var l1 := markets.inner[found.value].GetL1();
      return Some(l1);
    }

    method GetOrderbookL2(pair: AssetIdPair) returns (r: Option<L2>)
      requires Valid()
      ensures L2Answer(r) == AnswerTo(Model(), Query.GetOrderbookL2(pair))
    {
      var found := markets.Get(pair);
      if found.None? {
        return None;
      }
      var l2 := markets.inner[found.value].GetL2();
      return Some(l2);
    }

    method GetAllOrderbookL1() returns (all: seq<(AssetIdPair, L1)>)
      requires Valid()
      ensures AllL1Answer(all) == AnswerTo(Model(), Query.GetAllOrderbookL1)
    {
      all := [];
      for i := 0 to |markets.inner|
        invariant |all| == i
        invariant forall j :: 0 <= j < i ==> all[j] == (Model().markets[j].pair, L1Of(Model().markets[j].book))
      {
        var l1 := markets.inner[i].GetL1();
        all := all + [(markets.inner[i].pair, l1)];
      }
    }

    /** The last 100 settled trades, oldest first. */
    method GetLast100Transactions() returns (r: seq<Transaction>)
      requires Valid()
      ensures TransactionsAnswer(r) == AnswerTo(Model(), Query.GetLast100Transactions)
    {
      r := recent.Get();
    }

    method AnswerQuery(q: Query) returns (a: Answer)
      requires Valid()
      ensures a == AnswerTo(Model(), q)
    {
      hide AnswerTo;
      match q {
        case GetBalance(account, asset) =>
          var r := GetBalance(account, asset);
          a := BalanceAnswer(r);
        case GetOrderbookL1(pair) =>
          var r := GetOrderbookL1(pair);
          a := L1Answer(r);
        case GetOrderbookL2(pair) =>
          var r := GetOrderbookL2(pair);
          a := L2Answer(r);
        case GetAssets =>
          AssetsAre(Model(), tradedAssets);
          a := AssetsAnswer(tradedAssets);
        case GetAllOrderbookL1 =>
          var r := GetAllOrderbookL1();
          a := AllL1Answer(r);
        case GetLast100Transactions =>
          var r := GetLast100Transactions();
          a := TransactionsAnswer(r);
      }
    }

    // ---- commands ----

    /** Process one command; `ok` is false when the exchange would panic. */
    method HandleCommand(c: Command) returns (ok: bool, reply: Reply)
      requires Valid()
      modifies Owned(), markets.Parts()
      ensures ok <==> Step(old(Model()), c).Done?
      ensures ok ==> Valid() && fresh(markets.Parts() - old(markets.Parts()))
                     && Done(Model(), reply) == Step(old(Model()), c)
    {
      hide ExchangeSpec.InsertOrder, ExchangeSpec.CancelOrder, ExchangeSpec.ModifyOrder, ExchangeSpec.AddMarket;
      ok := true;
      match c {
        case AddAssetCmd =>
          var id := AddAsset();
          reply := NewId(id);
        case CreateAccountCmd =>
          var id := CreateAccount();
          reply := NewId(id);
        case CreateNamedAccountCmd =>
          var id := CreateAccountWithName();
          reply := NewId(id);
        case AddMarketCmd(pair) =>
          var r := AddMarket(pair);
          reply := MarketReply(r);
        case InsertCmd(req) =>
          var done, r := InsertOrder(req);
          ok, reply := done, InsertReply(r);
        case CancelCmd(req) =>
          var r := CancelOrder(req);
          reply := CancelReply(r);
        case ModifyCmd(req) =>
          var done, r := ModifyOrder(req);
          ok, reply := done, ModifyReply(r);
        case QueryCmd(q) =>
          var a := AnswerQuery(q);
          reply := AnswerReply(a);
      }
    }
  }

  lemma AssetsAre(s: State, ids: seq<AssetId>)
    requires |ids| == s.assets && forall i :: 0 <= i < |ids| ==> ids[i] == i
    ensures AssetsAnswer(ids) == AnswerTo(s, GetAssets)
  {}

  lemma DrainStep(l: Ledger, txs: seq<ObTransaction>, pair: AssetIdPair)
    requires txs != []
    ensures Drain(l, txs, pair)
         == if CanSettle(l, pair, txs[|txs| - 1]) then
              Drain(SettleOne(l, pair, txs[|txs| - 1]), txs[..|txs| - 1], pair)
            else None
  {}

  /** A new exchange processes the commands one by one, until they are done or it panics: every
      statement about `Run` is a statement about this object. */
  method RunCommands(cmds: seq<Command>) returns (exchange: Exchange, ok: bool, replies: seq<Reply>)
    ensures match Run(cmds)
            case Halted => !ok
            case Running(s, rs) => ok && replies == rs && exchange.Valid() && exchange.Model() == s
  {
    hide Step;
    exchange := new Exchange();
    ok, replies := true, [];
    for i := 0 to |cmds|
      invariant fresh(exchange.Owned()) && fresh(exchange.markets.Parts())
      invariant exchange.Valid()
      invariant Run(cmds[..i]) == Running(exchange.Model(), replies)
    {
      assert cmds[..i + 1][..i] == cmds[..i];
      var done, reply := exchange.HandleCommand(cmds[i]);
      if !done {
        HaltedForever(cmds, i + 1);
        return exchange, false, replies;
      }
      replies := replies + [reply];
    }
    assert cmds[..|cmds|] == cmds;
  }

  lemma {:induction false} HaltedForever(cmds: seq<Command>, i: nat)
    requires i <= |cmds| && Run(cmds[..i]).Halted?
    ensures Run(cmds).Halted?
    decreases |cmds| - i
  {
    if i < |cmds| {
      assert cmds[..i + 1][..i] == cmds[..i];
      HaltedForever(cmds, i + 1);
    } else {
      assert cmds[..i] == cmds;
    }
  }
}
