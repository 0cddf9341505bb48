/** Short runs, each from a new exchange: what the theorems say does not hold really happens. */
module Examples {
  import opened Types
  import opened Sums
  import opened BookSpec
  import opened Matching
  import opened BalancesSpec
  import opened Settlement
  import opened ExchangeSpec
  import opened Tracking
  import opened History
  import opened SelfTrades

  const PAIR := AssetIdPair(0, 1)
  const OTHER_PAIR := AssetIdPair(0, 2)

  // ---- running commands one by one ----

  /** The commands run without a panic and leave this state. */
  ghost predicate Reaches(cmds: seq<Command>, s: State) {
    Run(cmds).Running? && Run(cmds).state == s
  }

  ghost predicate Goes(s: State, c: Command, s': State) {
    s.ledger.balances.Dense() && Step(s, c).Done? && Step(s, c).state == s'
  }

  lemma Then(cmds: seq<Command>, s: State, c: Command, s': State)
    requires Reaches(cmds, s) && Goes(s, c, s')
    ensures Reaches(cmds + [c], s')
  {
    hide Step;
    assert (cmds + [c])[..|cmds|] == cmds;
  }

  lemma GoesInsert(s: State, req: InsertionRequest, s': State, reply: Reply)
    requires s.ledger.balances.Dense() && InsertOrder(s, req) == Done(s', reply)
    ensures Goes(s, InsertCmd(req), s')
  {
    hide InsertOrder;
  }

  lemma ThenStops(cmds: seq<Command>, s: State, c: Command)
    requires Reaches(cmds, s) && Step(s, c).Stopped?
    ensures Run(cmds + [c]) == Halted
  {
    hide Step;
    assert (cmds + [c])[..|cmds|] == cmds;
  }

  /** Create assets, then accounts. */
  function Opening(assets: nat, accounts: nat): seq<Command> {
    if accounts > 0 then Opening(assets, accounts - 1) + [CreateAccountCmd]
    else if assets > 0 then Opening(assets - 1, 0) + [AddAssetCmd]
    else []
  }

  function Opened(accounts: nat, assets: nat, b: Balances): State {
    State(accounts, assets, [], Ledger([], b, []), [], [])
  }

  ghost predicate Blank(b: Balances, accounts: nat, assets: nat) {
    && b.Dense() && b.accounts == accounts && b.assets == assets
    && forall asset: nat, account: nat :: asset < assets && account < accounts ==> b.Get(asset, account) == 0
  }

  lemma AddAccountBlank(b: Balances)
    requires Blank(b, b.accounts, b.assets)
    ensures Blank(AddAccount(b), b.accounts + 1, b.assets)
  {
    forall asset: nat, account: nat | asset < b.assets && account < b.accounts + 1
      ensures AddAccount(b).Get(asset, account) == 0
    {
      AddAccountGet(b, asset, account);
    }
  }

  lemma AddAssetBlank(b: Balances)
    requires Blank(b, b.accounts, b.assets)
    ensures Blank(AddAsset(b), b.accounts, b.assets + 1)
  {
    AddAssetDense(b);
    forall asset: nat, account: nat | asset < b.assets + 1 && account < b.accounts
      ensures AddAsset(b).Get(asset, account) == 0
    {
      AddAssetGet(b, asset, account);
    }
  }

  lemma {:induction false} OpeningRuns(assets: nat, accounts: nat) returns (b: Balances)
    ensures Blank(b, accounts, assets) && Reaches(Opening(assets, accounts), Opened(accounts, assets, b))
    decreases accounts, assets
  {
    if accounts > 0 {
      var b0 := OpeningRuns(assets, accounts - 1);
      b := AddAccount(b0);
      AddAccountBlank(b0);
      Then(Opening(assets, accounts - 1), Opened(accounts - 1, assets, b0), CreateAccountCmd,
           Opened(accounts, assets, b));
    } else if assets > 0 {
      var b0 := OpeningRuns(assets - 1, 0);
      b := AddAsset(b0);
      AddAssetBlank(b0);
      Then(Opening(assets - 1, 0), Opened(0, assets - 1, b0), AddAssetCmd, Opened(0, assets, b));
    } else {
      b := NO_BALANCES;
    }
  }

  function WithMarket(s: State, pair: AssetIdPair): State {
    s.(markets := s.markets + [MarketState(pair, 0, EMPTY_BOOK)])
  }

  lemma MarketAdded(s: State, pair: AssetIdPair)
    requires s.ledger.balances.Dense() && pair.primary < s.assets && pair.secondary < s.assets
    requires FindMarket(s.markets, pair).None?
    ensures Goes(s, AddMarketCmd(pair), WithMarket(s, pair))
  {}

  /** A new exchange with one market. */
  lemma FirstMarket(assets: nat, accounts: nat, pair: AssetIdPair) returns (b: Balances)
    requires pair.primary < assets && pair.secondary < assets
    ensures Blank(b, accounts, assets)
    ensures Reaches(Opening(assets, accounts) + [AddMarketCmd(pair)], WithMarket(Opened(accounts, assets, b), pair))
  {
    b := OpeningRuns(assets, accounts);
    MarketAdded(Opened(accounts, assets, b), pair);
    Then(Opening(assets, accounts), Opened(accounts, assets, b), AddMarketCmd(pair),
         WithMarket(Opened(accounts, assets, b), pair));
  }

  // ---- what one insertion does, given what it does to its book ----

  lemma DrainOne(l: Ledger, tx: ObTransaction, pair: AssetIdPair)
    ensures Drain(l, [tx], pair) == if CanSettle(l, pair, tx) then Some(SettleOne(l, pair, tx)) else None
  {
    if CanSettle(l, pair, tx) {
      assert Drain(SettleOne(l, pair, tx), [], pair) == Some(SettleOne(l, pair, tx));
    }
  }

  function InsertionOf(s: State, req: InsertionRequest): OrderInsertion {
    req.IntoInsertion(|s.ledger.session|)
  }

  /** The order enters the table and its market's book, and nothing else happens. */
  function Entered(s: State, req: InsertionRequest, m: nat, r: Inserted): State
    requires m < |s.markets|
  {
    s.(markets := s.markets[m := MarketAfter(s.markets[m], r)], ledger := Placed(s, InsertionOf(s, req)),
       requests := s.requests + [req])
  }

  lemma InsertWithoutTrade(s: State, req: InsertionRequest, m: nat, book: Book, effects: (Status, Option<Price>))
    requires FindMarket(s.markets, req.pair) == Some(m) && req.account < s.accounts && s.buf == []
    requires Insert(s.markets[m].book, InsertionOf(s, req)) == Inserted(Ok(effects), book, [])
    ensures InsertOrder(s, req) == Done(Entered(s, req, m, Inserted(Ok(effects), book, [])),
            InsertReply(Ok((|s.ledger.session|, effects.0))))
  {
    hide Insert;
  }

  /** One trade is drained, be it the order's own or one that waited. */
  lemma InsertWithOneTrade(s: State, req: InsertionRequest, m: nat, r: Inserted, tx: ObTransaction)
    requires FindMarket(s.markets, req.pair) == Some(m) && req.account < s.accounts && r.result.Ok?
    requires Insert(s.markets[m].book, InsertionOf(s, req)) == r && s.buf + r.trades == [tx]
    ensures var l := Placed(s, InsertionOf(s, req));
            InsertOrder(s, req)
            == if CanSettle(l, req.pair, tx)
               then Done(Entered(s, req, m, r).(ledger := SettleOne(l, req.pair, tx), buf := []),
                         InsertReply(Ok((|s.ledger.session|, r.result.value.0))))
               else Stopped
  {
    hide Insert, Drain;
    DrainOne(Placed(s, InsertionOf(s, req)), tx, req.pair);
  }

  /** An order that may not trade with the best offer rests alone at its price. */
  lemma RestsAlone(book: Book, o: OrderInsertion)
    requires o.orderType.Limit? && o.volume > 0 && book.Side(o.side) == []
    requires var offers := book.Side(o.side.Opposite());
             offers == [] || !Crosses(o, Best(o.side.Opposite(), offers).price)
    ensures Insert(book, o)
         == Inserted(Ok((AwaitingFill, None)), book.WithSide(o.side, [Level(o.price, [EntryOf(o, o.volume)])]), [])
  {
    var resting := o.side.Opposite();
    assert Sweep(resting, book.Side(resting), o, o.volume) == Swept(book.Side(resting), [], o.volume, false);
    assert RestEntry([], o.price, EntryOf(o, o.volume)) == [Level(o.price, [EntryOf(o, o.volume)])];
  }

  /** Trading with the only order of a side. */
  lemma SweepsOne(side: Side, o: OrderInsertion, maker: Entry)
    requires 0 < o.volume <= maker.volume && maker.account != o.account && Crosses(o, o.price)
    ensures Sweep(side, [Level(o.price, [maker])], o, o.volume)
         == Swept(if o.volume == maker.volume then []
                  else [Level(o.price, [maker.(volume := maker.volume - o.volume)])],
                  [ObTransaction(o.price, o.volume, o.side, maker.id, o.id)], 0, false)
  {
    hide Crosses;
    var levels := [Level(o.price, [maker])];
    assert Best(side, levels) == levels[0] && Worse(side, levels) == [];
    var front := maker.(volume := maker.volume - o.volume);
    assert [maker][1..] == [] && [front] + [] == [front];
    assert FillQueue([maker], o.price, o, o.volume)
        == QueueFill(if o.volume == maker.volume then [] else [front],
                     [ObTransaction(o.price, o.volume, o.side, maker.id, o.id)], 0, false);
    assert PutBest(side, Level(o.price, [front]), []) == [Level(o.price, [front])];
  }

  /** An order against the only order on the other side, of another account at the same price. */
  lemma MeetsOne(book: Book, o: OrderInsertion, maker: Entry)
    requires o.orderType.Limit? && 0 < o.volume <= maker.volume && maker.account != o.account
    requires book.Side(o.side.Opposite()) == [Level(o.price, [maker])]
    ensures Insert(book, o)
         == Inserted(Ok((Status.Filled, Some(o.price))),
                     book.WithSide(o.side.Opposite(),
                                   if o.volume == maker.volume then []
                                   else [Level(o.price, [maker.(volume := maker.volume - o.volume)])]),
                     [ObTransaction(o.price, o.volume, o.side, maker.id, o.id)])
  {
    SweepsOne(o.side.Opposite(), o, maker);
    hide Sweep;
  }

  function Ask5(account: AccountId, pair: AssetIdPair): InsertionRequest {
    InsertionRequest(account, Limit, pair, Ask, 5, 10)
  }

  function Bid5(account: AccountId, pair: AssetIdPair): InsertionRequest {
    InsertionRequest(account, Limit, pair, Bid, 5, 10)
  }

  /** The first order of a market rests. */
  lemma FirstOrder(cmds: seq<Command>, s: State, req: InsertionRequest, m: nat)
    requires Reaches(cmds, s) && s.buf == [] && FindMarket(s.markets, req.pair) == Some(m) && req.account < s.accounts
    requires s.markets[m].book == EMPTY_BOOK && req.orderType.Limit? && req.volume > 0
    ensures var o := InsertionOf(s, req);
            Reaches(cmds + [InsertCmd(req)],
                    Entered(s, req, m,
                            Inserted(Ok((AwaitingFill, None)),
                                     EMPTY_BOOK.WithSide(o.side, [Level(o.price, [EntryOf(o, o.volume)])]), [])))
  {
    hide Insert, Run;
    var o := InsertionOf(s, req);
    RestsAlone(EMPTY_BOOK, o);
    var book := EMPTY_BOOK.WithSide(o.side, [Level(o.price, [EntryOf(o, o.volume)])]);
    InsertWithoutTrade(s, req, m, book, (AwaitingFill, None));
    Then(cmds, s, InsertCmd(req), Entered(s, req, m, Inserted(Ok((AwaitingFill, None)), book, [])));
  }

  // ---- an order of volume zero ----

  /** A bid for nothing in an empty market: the client is told it was filled, the table says it awaits fill. */
  lemma ZeroVolumeMisreported()
    ensures var cmds := Opening(2, 1) + [AddMarketCmd(PAIR)]; var req := InsertionRequest(0, Limit, PAIR, Bid, 0, 10);
            && Run(cmds).Running?
            && var r := InsertOrder(Run(cmds).state, req);
            && r.Done? && r.reply == InsertReply(Ok((0, Filled)))
            && |r.state.ledger.session| == 1 && r.state.ledger.session[0].status == AwaitingFill
  {
    var b := FirstMarket(2, 1, PAIR);
    var s := WithMarket(Opened(1, 2, b), PAIR);
    var req := InsertionRequest(0, Limit, PAIR, Bid, 0, 10);
    assert Sweep(Ask, [], InsertionOf(s, req), 0) == Swept([], [], 0, false);
    InsertWithoutTrade(s, req, 0, EMPTY_BOOK, (Status.Filled, None));
  }

  // ---- a market of an asset against itself ----

  /** The market is accepted; an ask rests in it, and the bid that meets it stops the exchange. */
  lemma SameAssetMarketHaltsARun()
    ensures var pair := AssetIdPair(0, 0);
            Run(Opening(1, 2) + [AddMarketCmd(pair)] + [InsertCmd(Ask5(0, pair))] + [InsertCmd(Bid5(1, pair))])
                == Halted
  {
    var pair := AssetIdPair(0, 0);
    var b := FirstMarket(1, 2, pair);
    var cmds := Opening(1, 2) + [AddMarketCmd(pair)];
    var s := WithMarket(Opened(2, 1, b), pair);
    FirstOrder(cmds, s, Ask5(0, pair), 0);
    hide Run, Insert;
    var rested := Inserted(Ok((AwaitingFill, None)), Book([], [Level(10, [Entry(0, 0, 5)])]), []);
    var s' := Entered(s, Ask5(0, pair), 0, rested);
    MeetsOne(Book([], [Level(10, [Entry(0, 0, 5)])]), InsertionOf(s', Bid5(1, pair)), Entry(0, 0, 5));
    SameAssetMarketStopsIff(s', Bid5(1, pair), 0);
    ThenStops(cmds + [InsertCmd(Ask5(0, pair))], s', InsertCmd(Bid5(1, pair)));
  }

  // ---- two modifications ----

  /** One bid for five units rests in the only market. */
  function OneBid(balances: Balances, volume: Volume, open: Volume): State {
    State(1, 2, [MarketState(PAIR, 0, Book([Level(10, [Entry(0, 0, open)])], []))],
          Ledger([PlacedOrder(0, 0, PAIR, Bid, 10, volume, 5, AwaitingFill)], balances, []), [], [Bid5(0, PAIR)])
  }

  lemma OneBidModified(b: Balances)
    requires b.Dense()
    ensures Goes(OneBid(b, 5, 5), ModifyCmd(ModificationRequest(0, 0, 3)), OneBid(b, 3, 3))
    ensures Step(OneBid(b, 3, 3), ModifyCmd(ModificationRequest(0, 0, 2))) == Stopped
  {
    var levels5, levels3 := [Level(10, [Entry(0, 0, 5)])], [Level(10, [Entry(0, 0, 3)])];
    assert FirstEntry([Entry(0, 0, 5)], 0) == Some(0) && FirstEntry([Entry(0, 0, 3)], 0) == Some(0);
    assert LevelIndex(levels5, 10) == 0 && LevelIndex(levels3, 10) == 0;
    assert Shrink([Entry(0, 0, 5)], 0, 2) == [Entry(0, 0, 3)];
    assert levels5[0 := Level(10, [Entry(0, 0, 3)])] == levels3;
    assert ModifyIn(levels5, 10, 0, 2) == Some(levels3);
    assert ModifyIn(levels3, 10, 0, 1).Some?;
  }

  /** Reducing a resting order of five units to three and then to two stops the exchange:
      the table still has five units open, but only three in all. */
  lemma ModifyingTwiceHaltsARun()
    ensures Run(Opening(2, 1) + [AddMarketCmd(PAIR)] + [InsertCmd(Bid5(0, PAIR))]
                + [ModifyCmd(ModificationRequest(0, 0, 3))] + [ModifyCmd(ModificationRequest(0, 0, 2))]) == Halted
  {
    var b := FirstMarket(2, 1, PAIR);
    var cmds := Opening(2, 1) + [AddMarketCmd(PAIR)];
    FirstOrder(cmds, WithMarket(Opened(1, 2, b), PAIR), Bid5(0, PAIR), 0);
    OneBidModified(b);
    cmds := cmds + [InsertCmd(Bid5(0, PAIR))];
    assert Reaches(cmds, OneBid(b, 5, 5));
    hide Run, Step;
    Then(cmds, OneBid(b, 5, 5), ModifyCmd(ModificationRequest(0, 0, 3)), OneBid(b, 3, 3));
    ThenStops(cmds + [ModifyCmd(ModificationRequest(0, 0, 3))], OneBid(b, 3, 3),
              ModifyCmd(ModificationRequest(0, 0, 2)));
  }

  // ---- an order marked wrongly ----

  const BID_TEN := InsertionRequest(0, Limit, PAIR, Bid, 10, 10)
  const ASK_FOUR := InsertionRequest(1, Limit, PAIR, Ask, 4, 10)
  const FOUR_SOLD := ObTransaction(10, 4, Ask, 0, 1)

  /** Account 0 bid for ten units and account 1 sold it four of them. */
  function FourOfTen(b: Balances, volume: Volume, bids: seq<Level>): State {
    State(2, 2, [MarketState(PAIR, 10, Book(bids, []))],
          Ledger([PlacedOrder(0, 0, PAIR, Bid, 10, volume, 6, AwaitingFill),
                  PlacedOrder(1, 1, PAIR, Ask, 10, 4, 0, Filled)],
                 b, [Settled(PAIR, FOUR_SOLD, 0, 1)]), [], [BID_TEN, ASK_FOUR])
  }

  /** The bid for ten units alone. */
  function TenBid(b: Balances): State {
    State(2, 2, [MarketState(PAIR, 0, Book([Level(10, [Entry(0, 0, 10)])], []))],
          Ledger([PlacedOrder(0, 0, PAIR, Bid, 10, 10, 10, AwaitingFill)], b, []), [], [BID_TEN])
  }

  lemma FourSettled(b: Balances) returns (b': Balances)
    requires Blank(b, 2, 2)
    ensures b'.Dense()
    ensures var l := Placed(TenBid(b), InsertionOf(TenBid(b), ASK_FOUR));
            CanSettle(l, PAIR, FOUR_SOLD) && SettleOne(l, PAIR, FOUR_SOLD) == FourOfTen(b', 10, []).ledger
  {
    FourCellsDisjoint(b, PAIR, 0, 1);
    b' := MoveFunds(b, Settled(PAIR, FOUR_SOLD, 0, 1));
  }

  const SIX_LEFT := [Level(10, [Entry(0, 0, 6)])]
  const FOUR_MATCHED := Inserted(Ok((Status.Filled, Some(10))), Book(SIX_LEFT, []), [FOUR_SOLD])

  lemma AskMeetsTen(b: Balances)
    ensures Insert(TenBid(b).markets[0].book, InsertionOf(TenBid(b), ASK_FOUR)) == FOUR_MATCHED
  {
    MeetsOne(TenBid(b).markets[0].book, InsertionOf(TenBid(b), ASK_FOUR), Entry(0, 0, 10));
  }

  lemma FourEntered(b: Balances, b': Balances)
    ensures Entered(TenBid(b), ASK_FOUR, 0, FOUR_MATCHED).(ledger := FourOfTen(b', 10, []).ledger, buf := [])
         == FourOfTen(b', 10, SIX_LEFT)
  {
    var s := TenBid(b);
    assert s.markets[0 := MarketAfter(s.markets[0], FOUR_MATCHED)] == FourOfTen(b', 10, SIX_LEFT).markets;
    assert s.requests + [ASK_FOUR] == [BID_TEN, ASK_FOUR];
  }

  lemma FourInserted(b: Balances) returns (b': Balances)
    requires Blank(b, 2, 2)
    ensures b'.Dense() && InsertOrder(TenBid(b), ASK_FOUR)
            == Done(FourOfTen(b', 10, SIX_LEFT), InsertReply(Ok((1, Filled))))
  {
    b' := FourSettled(b);
    AskMeetsTen(b);
    FourEntered(b, b');
    hide Insert, InsertOrder, SettleOne, CanSettle, Drain, Blank, Entered, FourOfTen;
    assert TenBid(b).buf + FOUR_MATCHED.trades == [FOUR_SOLD];
    InsertWithOneTrade(TenBid(b), ASK_FOUR, 0, FOUR_MATCHED, FOUR_SOLD);
  }

  lemma FourSold(b: Balances) returns (b': Balances)
    requires Blank(b, 2, 2)
    ensures b'.Dense() && Goes(TenBid(b), InsertCmd(ASK_FOUR), FourOfTen(b', 10, SIX_LEFT))
  {
    b' := FourInserted(b);
    assert TenBid(b).ledger.balances == b;
    hide InsertOrder, FourOfTen, TenBid, Goes;
    GoesInsert(TenBid(b), ASK_FOUR, FourOfTen(b', 10, SIX_LEFT), InsertReply(Ok((1, Filled))));
  }

  lemma FourOfTenModified(b: Balances)
    requires b.Dense()
    ensures Goes(FourOfTen(b, 10, SIX_LEFT), ModifyCmd(ModificationRequest(0, 0, 7)),
                 FourOfTen(b, 7, [Level(10, [Entry(0, 0, 3)])]))
    ensures Goes(FourOfTen(b, 7, [Level(10, [Entry(0, 0, 3)])]), ModifyCmd(ModificationRequest(0, 0, 3)),
            FourOfTen(b, 3, []))
  {
    var levels6, levels3 := SIX_LEFT, [Level(10, [Entry(0, 0, 3)])];
    assert FirstEntry([Entry(0, 0, 6)], 0) == Some(0) && FirstEntry([Entry(0, 0, 3)], 0) == Some(0);
    assert LevelIndex(levels6, 10) == 0 && LevelIndex(levels3, 10) == 0;
    assert Shrink([Entry(0, 0, 6)], 0, 3) == [Entry(0, 0, 3)] && Shrink([Entry(0, 0, 3)], 0, 4) == [];
    assert levels6[0 := Level(10, [Entry(0, 0, 3)])] == levels3;
    assert ModifyIn(levels6, 10, 0, 3) == Some(levels3);
    assert ModifyIn(levels3, 10, 0, 4) == Some([]);
  }

  lemma TenBidRuns() returns (b: Balances)
    ensures Blank(b, 2, 2) && Reaches(Opening(2, 2) + [AddMarketCmd(PAIR)] + [InsertCmd(BID_TEN)], TenBid(b))
  {
    b := FirstMarket(2, 2, PAIR);
    FirstOrder(Opening(2, 2) + [AddMarketCmd(PAIR)], WithMarket(Opened(2, 2, b), PAIR), BID_TEN, 0);
  }

  lemma FourOfTenFacts(b: Balances)
    ensures var s := FourOfTen(b, 3, []);
            FilledVolume(s.ledger.log, 0) == 4 && !Rests(s.ledger.session, s.markets, 0)
  {
    var e := Settled(PAIR, FOUR_SOLD, 0, 1);
    assert [] + [e] == [e];
    SumByAppend([], e, FilledBy(0));
  }

  /** Ten units asked for, four settled, reduced to seven and then to three: the order is gone from the
      book, more was settled than it now asks for, and yet it is recorded as awaiting fill with six open. */
  lemma SettledOrderAwaitsFill()
    ensures var cmds := Opening(2, 2) + [AddMarketCmd(PAIR)] + [InsertCmd(BID_TEN)] + [InsertCmd(ASK_FOUR)]
                        + [ModifyCmd(ModificationRequest(0, 0, 7))] + [ModifyCmd(ModificationRequest(0, 0, 3))];
            && Run(cmds).Running?
            && var s := Run(cmds).state;
            && |s.ledger.session| == 2
            && s.ledger.session[0] == PlacedOrder(0, 0, PAIR, Bid, 10, 3, 6, AwaitingFill)
            && FilledVolume(s.ledger.log, 0) == 4 && !Rests(s.ledger.session, s.markets, 0)
  {
    hide Run, Step, Rests, FilledVolume;
    var b := TenBidRuns();
    var b' := FourSold(b);
    FourOfTenModified(b');
    FourOfTenFacts(b');
    var s1, s2 := FourOfTen(b', 10, SIX_LEFT), FourOfTen(b', 7, [Level(10, [Entry(0, 0, 3)])]);
    var cmds := Opening(2, 2) + [AddMarketCmd(PAIR)] + [InsertCmd(BID_TEN)];
    Then(cmds, TenBid(b), InsertCmd(ASK_FOUR), s1);
    cmds := cmds + [InsertCmd(ASK_FOUR)];
    Then(cmds, s1, ModifyCmd(ModificationRequest(0, 0, 7)), s2);
    cmds := cmds + [ModifyCmd(ModificationRequest(0, 0, 7))];
    Then(cmds, s2, ModifyCmd(ModificationRequest(0, 0, 3)), FourOfTen(b', 3, []));
  }

  // ---- an account created by name ----

  /** Account 2 was created by name and buys five units of asset 0 from account 1: they are booked as
      account 0's balance of asset 1. */
  lemma NamedAccountPaysBystander()
    ensures var cmds := Opening(3, 2) + [AddMarketCmd(PAIR)] + [CreateNamedAccountCmd] + [InsertCmd(Ask5(1, PAIR))];
            var after := cmds + [InsertCmd(Bid5(2, PAIR))];
            && Run(cmds).Running? && Run(cmds).replies[|cmds| - 2] == NewId(2)
            && Run(cmds).state.ledger.balances.Get(1, 0) == 0
            && Run(after).Running? && Run(after).state.ledger.balances.Get(1, 0) == 5 * 0x8000_0000
  {
    var b := FirstMarket(3, 2, PAIR);
    var cmds := Opening(3, 2) + [AddMarketCmd(PAIR)];
    var s := WithMarket(Opened(2, 3, b), PAIR);
    var named := s.(accounts := 3);
    Then(cmds, s, CreateNamedAccountCmd, named);
    cmds := cmds + [CreateNamedAccountCmd];
    FirstOrder(cmds, named, Ask5(1, PAIR), 0);
    var rested := Inserted(Ok((AwaitingFill, None)), Book([], [Level(10, [Entry(0, 1, 5)])]), []);
    var resting := Entered(named, Ask5(1, PAIR), 0, rested);
    var booked := NamedBidBooked(b, resting);
    cmds := cmds + [InsertCmd(Ask5(1, PAIR))];
    Then(cmds, resting, InsertCmd(Bid5(2, PAIR)), booked);
  }

  lemma NamedBidBooked(b: Balances, s: State) returns (s': State)
    requires Blank(b, 2, 3)
    requires s == State(3, 3, [MarketState(PAIR, 0, Book([], [Level(10, [Entry(0, 1, 5)])]))],
                        Ledger([PlacedOrder(0, 1, PAIR, Ask, 10, 5, 5, AwaitingFill)], b, []), [], [Ask5(1, PAIR)])
    ensures Goes(s, InsertCmd(Bid5(2, PAIR)), s') && s'.ledger.balances.Get(1, 0) == 5 * 0x8000_0000
  {
    hide Insert, Drain;
    var tx := ObTransaction(10, 5, Bid, 0, 1);
    var e := Settled(PAIR, tx, 1, 2);
    MeetsOne(s.markets[0].book, InsertionOf(s, Bid5(2, PAIR)), Entry(0, 1, 5));
    assert s.buf + [tx] == [tx];
    InsertWithOneTrade(s, Bid5(2, PAIR), 0, Inserted(Ok((Status.Filled, Some(10))), Book([], []), [tx]), tx);
    s' := InsertOrder(s, Bid5(2, PAIR)).state;
    UnknownTakerMovesBystander(b, e);
  }

  /** With one asset less there is no cell for what account 2 buys, and the trade stops the exchange. */
  lemma NamedAccountStopsExchange()
    ensures Run(Opening(2, 2) + [AddMarketCmd(PAIR)] + [CreateNamedAccountCmd] + [InsertCmd(Ask5(1, PAIR))]
                + [InsertCmd(Bid5(2, PAIR))]) == Halted
  {
    var b := FirstMarket(2, 2, PAIR);
    var cmds := Opening(2, 2) + [AddMarketCmd(PAIR)];
    var s := WithMarket(Opened(2, 2, b), PAIR);
    var named := s.(accounts := 3);
    Then(cmds, s, CreateNamedAccountCmd, named);
    cmds := cmds + [CreateNamedAccountCmd];
    FirstOrder(cmds, named, Ask5(1, PAIR), 0);
    hide Run, Insert, Drain;
    var rested := Inserted(Ok((AwaitingFill, None)), Book([], [Level(10, [Entry(0, 1, 5)])]), []);
    var resting := Entered(named, Ask5(1, PAIR), 0, rested);
    NamedBidUnbookable(b, resting);
    ThenStops(cmds + [InsertCmd(Ask5(1, PAIR))], resting, InsertCmd(Bid5(2, PAIR)));
  }

  lemma NamedBidUnbookable(b: Balances, s: State)
    requires Blank(b, 2, 2)
    requires s == State(3, 2, [MarketState(PAIR, 0, Book([], [Level(10, [Entry(0, 1, 5)])]))],
                        Ledger([PlacedOrder(0, 1, PAIR, Ask, 10, 5, 5, AwaitingFill)], b, []), [], [Ask5(1, PAIR)])
    ensures InsertOrder(s, Bid5(2, PAIR)).Stopped?
  {
    hide Insert, Drain;
    var tx := ObTransaction(10, 5, Bid, 0, 1);
    MeetsOne(s.markets[0].book, InsertionOf(s, Bid5(2, PAIR)), Entry(0, 1, 5));
    assert s.buf + [tx] == [tx];
    InsertWithOneTrade(s, Bid5(2, PAIR), 0, Inserted(Ok((Status.Filled, Some(10))), Book([], []), [tx]), tx);
    UnknownTakerSettlesIff(b, PAIR, 1);
  }

  // ---- orders after a self-trade ----

  const FIRST_ASK := InsertionRequest(0, Limit, PAIR, Ask, 5, 10)
  const SECOND_ASK := InsertionRequest(1, Limit, PAIR, Ask, 5, 11)
  const SELF_BID := InsertionRequest(1, Limit, PAIR, Bid, 8, 11)
  const LEFT_BEHIND := ObTransaction(10, 5, Bid, 0, 2)
  const ASKS_LEFT := [Level(10, []), Level(11, [Entry(1, 1, 2)])]

  /** Asks of accounts 0 and 1, five units each, at 10 and 11; a second market is empty. */
  function TwoAsks(b: Balances): State {
    State(3, 3, [MarketState(PAIR, 0, Book([], [Level(10, [Entry(0, 0, 5)]), Level(11, [Entry(1, 1, 5)])])),
                 MarketState(OTHER_PAIR, 0, EMPTY_BOOK)],
          Ledger([PlacedOrder(0, 0, PAIR, Ask, 10, 5, 5, AwaitingFill),
                  PlacedOrder(1, 1, PAIR, Ask, 11, 5, 5, AwaitingFill)], b, []), [],
          [FIRST_ASK, SECOND_ASK])
  }

  /** The same after account 1 bid for eight units up to 11 and was refused. */
  function AfterRefusal(b: Balances): State {
    TwoAsks(b).(markets := [MarketState(PAIR, 0, Book([], ASKS_LEFT)), MarketState(OTHER_PAIR, 0, EMPTY_BOOK)],
                buf := [LEFT_BEHIND])
  }

  function UpToRefusal(): seq<Command> {
    Opening(3, 3) + [AddMarketCmd(PAIR)] + [AddMarketCmd(OTHER_PAIR)]
    + [InsertCmd(FIRST_ASK)] + [InsertCmd(SECOND_ASK)] + [InsertCmd(SELF_BID)]
  }

  /** The first ask rests in the first of two markets. */
  function OneAsk(b: Balances): State {
    State(3, 3, [MarketState(PAIR, 0, Book([], [Level(10, [Entry(0, 0, 5)])])), MarketState(OTHER_PAIR, 0, EMPTY_BOOK)],
          Ledger([PlacedOrder(0, 0, PAIR, Ask, 10, 5, 5, AwaitingFill)], b, []), [], [FIRST_ASK])
  }

  lemma OneAskRuns() returns (b: Balances)
    ensures Blank(b, 3, 3)
    ensures Reaches(Opening(3, 3) + [AddMarketCmd(PAIR)] + [AddMarketCmd(OTHER_PAIR)] + [InsertCmd(FIRST_ASK)],
            OneAsk(b))
  {
    b := FirstMarket(3, 3, PAIR);
    var cmds := Opening(3, 3) + [AddMarketCmd(PAIR)];
    var s := WithMarket(Opened(3, 3, b), PAIR);
    MarketAdded(s, OTHER_PAIR);
    hide Run, Insert;
    Then(cmds, s, AddMarketCmd(OTHER_PAIR), WithMarket(s, OTHER_PAIR));
    FirstOrder(cmds + [AddMarketCmd(OTHER_PAIR)], WithMarket(s, OTHER_PAIR), FIRST_ASK, 0);
  }

  lemma SecondAskMatched()
    ensures Insert(Book([], [Level(10, [Entry(0, 0, 5)])]), SECOND_ASK.IntoInsertion(1))
         == Inserted(Ok((AwaitingFill, None)), Book([], [Level(10, [Entry(0, 0, 5)]), Level(11, [Entry(1, 1, 5)])]), [])
  {
    var o := SECOND_ASK.IntoInsertion(1);
    var asks := [Level(10, [Entry(0, 0, 5)])];
    assert Sweep(Bid, [], o, 5) == Swept([], [], 5, false);
    assert LevelIndex(asks, 11) == 1;
    assert RestEntry(asks, 11, EntryOf(o, 5)) == [Level(10, [Entry(0, 0, 5)]), Level(11, [Entry(1, 1, 5)])];
  }

  lemma SecondAskRests(b: Balances)
    ensures InsertOrder(OneAsk(b), SECOND_ASK).Done? && InsertOrder(OneAsk(b), SECOND_ASK).state == TwoAsks(b)
  {
    SecondAskMatched();
    hide Insert, InsertOrder;
    var s := OneAsk(b);
    InsertWithoutTrade(s, SECOND_ASK, 0, Book([], [Level(10, [Entry(0, 0, 5)]), Level(11, [Entry(1, 1, 5)])]),
                       (AwaitingFill, None));
    assert s.requests + [SECOND_ASK] == [FIRST_ASK, SECOND_ASK];
  }

  lemma RefusedBid(b: Balances)
    ensures InsertOrder(TwoAsks(b), SELF_BID) == Done(AfterRefusal(b), InsertReply(Err(SelfTrade)))
  {
    SelfTradeChangesBook();
    hide Insert;
    var s := TwoAsks(b);
    assert s.markets[0 := AfterRefusal(b).markets[0]] == AfterRefusal(b).markets;
    assert [] + [LEFT_BEHIND] == [LEFT_BEHIND];
  }

  lemma TwoStepsGo(b: Balances)
    requires b.Dense()
    ensures Goes(OneAsk(b), InsertCmd(SECOND_ASK), TwoAsks(b)) && Goes(TwoAsks(b), InsertCmd(SELF_BID), AfterRefusal(b))
  {
    SecondAskRests(b);
    RefusedBid(b);
    hide InsertOrder;
  }

  lemma RefusalRuns() returns (b: Balances)
    ensures Blank(b, 3, 3) && Reaches(UpToRefusal(), AfterRefusal(b))
  {
    b := OneAskRuns();
    TwoStepsGo(b);
    hide Reaches, Goes, Opening, OneAsk, TwoAsks, AfterRefusal;
    var cmds := Opening(3, 3) + [AddMarketCmd(PAIR)] + [AddMarketCmd(OTHER_PAIR)] + [InsertCmd(FIRST_ASK)];
    Then(cmds, OneAsk(b), InsertCmd(SECOND_ASK), TwoAsks(b));
    Then(cmds + [InsertCmd(SECOND_ASK)], TwoAsks(b), InsertCmd(SELF_BID), AfterRefusal(b));
  }

  /** A bid of account 2 at 5, below everything. */
  function LowBid(pair: AssetIdPair, volume: Volume): InsertionRequest {
    InsertionRequest(2, Limit, pair, Bid, volume, 5)
  }

  /** A bid refused as a self-trade, then a one-unit bid of a third account far below the market: the exchange stops. */
  lemma BystanderStopsExchange()
    ensures Run(UpToRefusal() + [InsertCmd(LowBid(PAIR, 1))]) == Halted
  {
    var b := RefusalRuns();
    hide Run, Insert, Drain;
    var s := AfterRefusal(b);
    var o := InsertionOf(s, LowBid(PAIR, 1));
    RestsAlone(s.markets[0].book, o);
    var r := Inserted(Ok((AwaitingFill, None)), Book([Level(5, [Entry(2, 2, 1)])], ASKS_LEFT), []);
    assert s.buf + r.trades == [LEFT_BEHIND];
    InsertWithOneTrade(s, LowBid(PAIR, 1), 0, r, LEFT_BEHIND);
    ThenStops(UpToRefusal(), s, InsertCmd(LowBid(PAIR, 1)));
  }

  // ---- orders that inherit the trade left behind ----

  /** What an order of account 2 that inherits the trade leaves in the ledger. */
  function HeirLedger(b: Balances, req: InsertionRequest): Ledger
    requires req.volume >= 5
  {
    Ledger([PlacedOrder(0, 0, PAIR, Ask, 10, 5, 0, Filled), PlacedOrder(1, 1, PAIR, Ask, 11, 5, 5, AwaitingFill),
            PlacedOrder(2, 2, req.pair, req.side, req.price, req.volume, req.volume - 5,
                        if req.volume == 5 then Filled else AwaitingFill)],
           b, [Settled(req.pair, LEFT_BEHIND, 0, 2)])
  }

  /** The state after an order that rests in market `m` and inherits the trade. */
  function Heir(b: Balances, req: InsertionRequest, m: nat, book: Book): State
    requires req.volume >= 5 && m < 2
  {
    var markets := AfterRefusal(b).markets;
    State(3, 3, markets[m := markets[m].(book := book)], HeirLedger(b, req), [], [FIRST_ASK, SECOND_ASK, req])
  }

  lemma HeirSettled(b: Balances, req: InsertionRequest) returns (b': Balances)
    requires Blank(b, 3, 3) && req.account == 2 && req.volume >= 5
    requires req.pair.primary < 3 && req.pair.secondary < 3 && req.pair.primary != req.pair.secondary
    ensures b'.Dense()
    ensures var l := Placed(AfterRefusal(b), InsertionOf(AfterRefusal(b), req));
            CanSettle(l, req.pair, LEFT_BEHIND) && SettleOne(l, req.pair, LEFT_BEHIND) == HeirLedger(b', req)
  {
    FourCellsDisjoint(b, req.pair, 0, 2);
    b' := MoveFunds(b, Settled(req.pair, LEFT_BEHIND, 0, 2));
  }

  lemma HeirEntered(b: Balances, b': Balances, req: InsertionRequest, m: nat, book: Book)
    requires req.volume >= 5 && m < 2
    ensures var r := Inserted(Ok((AwaitingFill, None)), book, []);
            Entered(AfterRefusal(b), req, m, r).(ledger := HeirLedger(b', req), buf := []) == Heir(b', req, m, book)
  {
    assert AfterRefusal(b).requests + [req] == [FIRST_ASK, SECOND_ASK, req];
  }

  lemma HeirInserted(b: Balances, req: InsertionRequest, m: nat, book: Book) returns (b': Balances)
    requires Blank(b, 3, 3) && req.account == 2 && req.volume >= 5
    requires req.pair.primary < 3 && req.pair.secondary < 3 && req.pair.primary != req.pair.secondary
    requires m < 2 && FindMarket(AfterRefusal(b).markets, req.pair) == Some(m)
    requires Insert(AfterRefusal(b).markets[m].book, InsertionOf(AfterRefusal(b), req))
          == Inserted(Ok((AwaitingFill, None)), book, [])
    ensures b'.Dense()
    ensures InsertOrder(AfterRefusal(b), req) == Done(Heir(b', req, m, book), InsertReply(Ok((2, AwaitingFill))))
  {
    b' := HeirSettled(b, req);
    HeirEntered(b, b', req, m, book);
    hide Insert, InsertOrder, SettleOne, CanSettle, Drain, Blank, Entered, Heir, HeirLedger;
    var r := Inserted(Ok((AwaitingFill, None)), book, []);
    assert AfterRefusal(b).buf + r.trades == [LEFT_BEHIND];
    InsertWithOneTrade(AfterRefusal(b), req, m, r, LEFT_BEHIND);
  }

  /** The heir's command after the refusal, as a run. */
  lemma HeirRuns(req: InsertionRequest, m: nat, book: Book) returns (b: Balances, b': Balances)
    requires req.account == 2 && req.volume >= 5 && (m, req.pair) in {(0, PAIR), (1, OTHER_PAIR)}
    requires var before := if m == 0 then Book([], ASKS_LEFT) else EMPTY_BOOK;
             Insert(before, req.IntoInsertion(2)) == Inserted(Ok((AwaitingFill, None)), book, [])
    ensures Reaches(UpToRefusal(), AfterRefusal(b)) && b'.Dense()
    ensures InsertOrder(AfterRefusal(b), req).Done?
    ensures InsertOrder(AfterRefusal(b), req).reply == InsertReply(Ok((2, AwaitingFill)))
    ensures Reaches(UpToRefusal() + [InsertCmd(req)], Heir(b', req, m, book))
  {
    b := RefusalRuns();
    hide Insert, Run, InsertOrder, Heir, UpToRefusal;
    b' := HeirInserted(b, req, m, book);
    Then(UpToRefusal(), AfterRefusal(b), InsertCmd(req), Heir(b', req, m, book));
  }

  /** After the refused bid an order in the other market is accepted: the trade left behind by the first
      market is settled in the assets of the second, although both orders of the trade belong to the first. */
  lemma TradeBookedInWrongMarket()
    ensures var cmds := UpToRefusal() + [InsertCmd(LowBid(OTHER_PAIR, 5))];
            && Run(cmds).Running?
            && var s := Run(cmds).state;
            && s.ledger.log == [Settled(OTHER_PAIR, LEFT_BEHIND, 0, 2)]
            && |s.ledger.session| == 3 && s.ledger.session[0].pair == PAIR
  {
    hide Run, Insert, UpToRefusal;
    RestsAlone(EMPTY_BOOK, LowBid(OTHER_PAIR, 5).IntoInsertion(2));
    var b, b' := HeirRuns(LowBid(OTHER_PAIR, 5), 1, Book([Level(5, [Entry(2, 2, 5)])], []));
  }

  const SELL_AT_20 := InsertionRequest(2, Limit, PAIR, Ask, 5, 20)

  lemma SellerRests()
    ensures Insert(Book([], ASKS_LEFT), SELL_AT_20.IntoInsertion(2))
         == Inserted(Ok((AwaitingFill, None)), Book([], ASKS_LEFT + [Level(20, [Entry(2, 2, 5)])]), [])
  {
    var o := SELL_AT_20.IntoInsertion(2);
    assert Sweep(Bid, [], o, 5) == Swept([], [], 5, false);
    assert ASKS_LEFT[1..][1..] == [];
    assert LevelIndex(ASKS_LEFT[1..], 20) == 1;
    assert LevelIndex(ASKS_LEFT, 20) == 2;
    assert RestEntry(ASKS_LEFT, 20, EntryOf(o, 5)) == ASKS_LEFT + [Level(20, [Entry(2, 2, 5)])];
  }

  /** An order to sell five units at 20 or more is settled as a purchase of five at 10, and all five still rest. */
  lemma SellerBuys()
    ensures var cmds := UpToRefusal() + [InsertCmd(SELL_AT_20)];
            && Run(cmds).Running?
            && var s := Run(cmds).state;
            && s.ledger.log == [Settled(PAIR, LEFT_BEHIND, 0, 2)] && LEFT_BEHIND == ObTransaction(10, 5, Bid, 0, 2)
            && |s.ledger.session| == 3 && s.ledger.session[2] == PlacedOrder(2, 2, PAIR, Ask, 20, 5, 0, Filled)
            && |s.markets| == 2 && s.markets[0].book == Book([], ASKS_LEFT + [Level(20, [Entry(2, 2, 5)])])
  {
    hide Run, Insert, UpToRefusal;
    SellerRests();
    var b, b' := HeirRuns(SELL_AT_20, 0, Book([], ASKS_LEFT + [Level(20, [Entry(2, 2, 5)])]));
  }

  lemma LowBidRests(volume: Volume)
    requires volume > 0
    ensures Insert(Book([], ASKS_LEFT), LowBid(PAIR, volume).IntoInsertion(2))
         == Inserted(Ok((AwaitingFill, None)), Book([Level(5, [Entry(2, 2, volume)])], ASKS_LEFT), [])
  {
    RestsAlone(Book([], ASKS_LEFT), LowBid(PAIR, volume).IntoInsertion(2));
  }

  lemma FiveRest(s: State)
    requires |s.ledger.session| == 3 && s.ledger.session[2].pair == PAIR && s.ledger.session[2].side == Bid
    requires s.markets != [] && s.markets[0].pair == PAIR && s.markets[0].book.bids == [Level(5, [Entry(2, 2, 5)])]
    ensures Rests(s.ledger.session, s.markets, 2)
  {
    var offers := SideOffers(s.markets[0], Bid);
    var levels := s.markets[0].book.bids;
    assert Best(Bid, levels) == levels[0] && Worse(Bid, levels) == [] && Offers(Bid, []) == [];
    assert offers == Tag(5, [Entry(2, 2, 5)]) + [];
    assert offers[0].entry.id == 2;
  }

  /** A bid for five units up to 5 is answered as awaiting fill and recorded as filled, having paid 10 for each;
      all five units rest, and their owner cannot cancel them. */
  lemma RestingOrderRecordedAsFilled()
    ensures var cmds := UpToRefusal(); var req := LowBid(PAIR, 5); var after := cmds + [InsertCmd(req)];
            && Run(cmds).Running? && Run(after).Running?
            && InsertOrder(Run(cmds).state, req).Done?
            && InsertOrder(Run(cmds).state, req).reply == InsertReply(Ok((2, AwaitingFill)))
            && var s := Run(after).state;
            && |s.ledger.session| == 3 && s.ledger.session[2] == PlacedOrder(2, 2, PAIR, Bid, 5, 5, 0, Filled)
            && s.ledger.log == [Settled(PAIR, LEFT_BEHIND, 0, 2)]
            && Rests(s.ledger.session, s.markets, 2)
            && CancelOrder(s, CancellationRequest(2, 2)).reply == CancelReply(Err(CancelAlreadyFilled))
  {
    hide Run, Insert, InsertOrder, UpToRefusal, Rests;
    LowBidRests(5);
    var b, b' := HeirRuns(LowBid(PAIR, 5), 0, Book([Level(5, [Entry(2, 2, 5)])], ASKS_LEFT));
    FiveRest(Heir(b', LowBid(PAIR, 5), 0, Book([Level(5, [Entry(2, 2, 5)])], ASKS_LEFT)));
  }

  const SIX_SOLD := ObTransaction(5, 6, Ask, 2, 3)
  const SIX_SHOWN := Book([Level(5, [Entry(2, 2, 6)])], ASKS_LEFT)

  lemma SixOverdraw(b: Balances)
    ensures InsertOrder(Heir(b, LowBid(PAIR, 6), 0, SIX_SHOWN), InsertionRequest(0, Limit, PAIR, Ask, 6, 5)).Stopped?
  {
    hide Insert, Drain;
    var s, req := Heir(b, LowBid(PAIR, 6), 0, SIX_SHOWN), InsertionRequest(0, Limit, PAIR, Ask, 6, 5);
    MeetsOne(s.markets[0].book, InsertionOf(s, req), Entry(2, 2, 6));
    assert s.buf + [SIX_SOLD] == [SIX_SOLD];
    InsertWithOneTrade(s, req, 0, Inserted(Ok((Status.Filled, Some(5))), Book([], ASKS_LEFT), [SIX_SOLD]), SIX_SOLD);
  }

  /** Account 2's bid for six units inherits a trade of five: one unit is recorded as open, six rest. An ask for the
      six units shown stops the exchange: here it is the resting order that is overdrawn. */
  lemma HeirStopsExchange()
    ensures Run(UpToRefusal() + [InsertCmd(LowBid(PAIR, 6))]
                + [InsertCmd(InsertionRequest(0, Limit, PAIR, Ask, 6, 5))]) == Halted
  {
    hide Run, Insert, InsertOrder, UpToRefusal, Heir;
    LowBidRests(6);
    var b, b' := HeirRuns(LowBid(PAIR, 6), 0, SIX_SHOWN);
    SixOverdraw(b');
    ThenStops(UpToRefusal() + [InsertCmd(LowBid(PAIR, 6))], Heir(b', LowBid(PAIR, 6), 0, SIX_SHOWN),
              InsertCmd(InsertionRequest(0, Limit, PAIR, Ask, 6, 5)));
  }
}
