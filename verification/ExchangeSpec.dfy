/**
 The exchange as a state machine: the state, what each command does to it, and runs of
 commands. Log and requests are history: they only grow and nothing depends on them.
 */
module ExchangeSpec {
  import opened Types
  import opened BookSpec
  import opened BalancesSpec
  import opened Settlement
  import opened Views
  import opened RecentTransactionsBuffer

  datatype MarketState = MarketState(pair: AssetIdPair, lastPrice: Price, book: Book)

  datatype State = State(
    accounts: nat, assets: nat, markets: seq<MarketState>, ledger: Ledger, buf: seq<ObTransaction>,
    requests: seq<InsertionRequest>)

  const EMPTY_LEDGER := Ledger([], NO_BALANCES, [])
  const EMPTY_EXCHANGE := State(0, 0, [], EMPTY_LEDGER, [], [])

  // ---- questions ----

  const RECENT_CAPACITY := 100

  /** A settled trade as clients see it. */
  datatype Transaction = Transaction(
    market: AssetIdPair, price: Price, volume: Volume, takerSide: Side, maker: AccountId, taker: AccountId)

  function TransactionOf(e: Settled): Transaction {
    Transaction(e.pair, e.tx.price, e.tx.volume, e.tx.takerSide, e.maker, e.taker)
  }

  function Trail(log: seq<Settled>): (r: seq<Transaction>)
    ensures |r| == |log| && forall i :: 0 <= i < |log| ==> r[i] == TransactionOf(log[i])
  {
    seq(|log|, i requires 0 <= i < |log| => TransactionOf(log[i]))
  }

  datatype Query =
    | GetBalance(account: AccountId, asset: AssetId)
    | GetOrderbookL1(pair: AssetIdPair)
    | GetOrderbookL2(pair: AssetIdPair)
    | GetAssets
    | GetAllOrderbookL1
    | GetLast100Transactions

  datatype Answer =
    | BalanceAnswer(balance: Option<Balance>)
    | L1Answer(l1: Option<L1>)
    | L2Answer(l2: Option<L2>)
    | AssetsAnswer(assets: seq<AssetId>)
    | AllL1Answer(all: seq<(AssetIdPair, L1)>)
    | TransactionsAnswer(transactions: seq<Transaction>)

  /** What the exchange answers in a state; asking changes nothing. */
  function AnswerTo(s: State, q: Query): Answer {
    match q
    case GetBalance(account, asset) => BalanceAnswer(s.ledger.balances.Lookup(asset, account))
    case GetOrderbookL1(pair) =>
      var m := FindMarket(s.markets, pair);
      L1Answer(if m.None? then None else Some(L1Of(s.markets[m.value].book)))
    case GetOrderbookL2(pair) =>
      var m := FindMarket(s.markets, pair);
      L2Answer(if m.None? then None else Some(L2Of(s.markets[m.value].book)))
    case GetAssets => AssetsAnswer(seq(s.assets, i => i))
    case GetAllOrderbookL1 =>
      AllL1Answer(seq(|s.markets|, i requires 0 <= i < |s.markets| => (s.markets[i].pair, L1Of(s.markets[i].book))))
    case GetLast100Transactions => TransactionsAnswer(Tail(Trail(s.ledger.log), RECENT_CAPACITY))
  }

  // ---- commands ----

  datatype Command =
    | AddAssetCmd
    | CreateAccountCmd
    | CreateNamedAccountCmd
    | AddMarketCmd(pair: AssetIdPair)
    | InsertCmd(insertion: InsertionRequest)
    | CancelCmd(cancellation: CancellationRequest)
    | ModifyCmd(modification: ModificationRequest)
    | QueryCmd(query: Query)

  datatype Reply =
    | NewId(id: nat)
    | MarketReply(market: Result<(), MarketCreationError>)
    | InsertReply(inserted: Result<(OrderId, Status), InsertionError>)
    | CancelReply(cancelled: Result<(), CancellationError>)
    | ModifyReply(modified: Result<(), ModificationError>)
    | AnswerReply(answer: Answer)

  /** A command either completes, or hits a panic that ends the exchange's thread. */
  datatype Outcome = Done(state: State, reply: Reply) | Stopped

  /** The first market for the pair. */
  function FindMarket(markets: seq<MarketState>, pair: AssetIdPair): (r: Option<nat>)
    ensures r.Some? ==> r.value < |markets| && markets[r.value].pair == pair
    ensures r.Some? ==> forall i :: 0 <= i < r.value ==> markets[i].pair != pair
    ensures r.None? ==> forall i :: 0 <= i < |markets| ==> markets[i].pair != pair
  {
    if markets == [] then None
    else if markets[0].pair == pair then Some(0)
    else
      var r := FindMarket(markets[1..], pair);
      if r.Some? then Some(r.value + 1) else None
  }

  function AddMarket(s: State, pair: AssetIdPair): (r: Outcome)
    ensures r.Done?
  {
    if pair.primary >= s.assets || pair.secondary >= s.assets then Done(s, MarketReply(Err(AssetNotTraded)))
    else if FindMarket(s.markets, pair).Some? then Done(s, MarketReply(Err(MarketAlreadyExists)))
    else Done(s.(markets := s.markets + [MarketState(pair, 0, EMPTY_BOOK)]), MarketReply(Ok(())))
  }

  /** The market after matching: an order filled by a trade sets the last traded price. */
  function MarketAfter(m: MarketState, r: Inserted): MarketState {
    var price := if r.result.Ok? && r.result.value.1.Some? then r.result.value.1.value else m.lastPrice;
    MarketState(m.pair, price, r.book)
  }

  function InsertOrder(s: State, req: InsertionRequest): Outcome {
    var m := FindMarket(s.markets, req.pair);
    if m.None? then Done(s, InsertReply(Err(NoSuchMarket)))
    else if req.account >= s.accounts then Done(s, InsertReply(Err(NoSuchAccount)))
    else
      var id := |s.ledger.session|;
      var o := req.IntoInsertion(id);
      var r := Insert(s.markets[m.value].book, o);
      var matched := s.(markets := s.markets[m.value := MarketAfter(s.markets[m.value], r)], buf := s.buf + r.trades);
      match r.result
      case Err(e) => Done(matched, InsertReply(Err(e)))
      case Ok(effects) =>
        var placed := s.ledger.(session := s.ledger.session + [PlacedOrder.FromInsertion(o)]);
        match Drain(placed, matched.buf, req.pair)
        case None => Stopped
        case Some(settled) =>
          Done(matched.(ledger := settled, buf := [], requests := s.requests + [req]),
               InsertReply(Ok((id, effects.0))))
  }

  function WithOrder(s: State, m: nat, book: Book, id: OrderId, order: PlacedOrder): State
    requires m < |s.markets| && id < |s.ledger.session|
  {
    s.(markets := s.markets[m := s.markets[m].(book := book)],
       ledger := s.ledger.(session := s.ledger.session[id := order]))
  }

  function CancelOrder(s: State, req: CancellationRequest): (r: Outcome)
    ensures r.Done? && r.reply.CancelReply?
  {
    if req.orderId >= |s.ledger.session| then Done(s, CancelReply(Err(CancelUnknownOrder)))
    else
      var order := s.ledger.session[req.orderId];
      if order.account != req.account then Done(s, CancelReply(Err(CancelUnauthorized)))
      else if order.status.Cancelled? then Done(s, CancelReply(Err(CancelAlreadyCancelled)))
      else if order.status.Filled? then Done(s, CancelReply(Err(CancelAlreadyFilled)))
      else
        var m := FindMarket(s.markets, order.pair);
        if m.None? then Done(s, CancelReply(Err(CancelNoSuchMarket)))
        else
          match Cancel(s.markets[m.value].book, req.IntoCancellation(order.pair, order.side, order.price))
          case Err(e) => Done(s, CancelReply(Err(e)))
          case Ok(book) =>
            Done(WithOrder(s, m.value, book, req.orderId, order.(status := Cancelled)), CancelReply(Ok(())))
  }

  /** The session record after the book was modified: the table's idea of the filled volume decides. */
  function Resized(order: PlacedOrder, newVolume: Volume): PlacedOrder
    requires order.remaining <= order.volume
  {
    var filled := order.volume - order.remaining;
    if filled > newVolume then order.(volume := filled, status := Filled) else order.(volume := newVolume)
  }

  function ModifyOrder(s: State, req: ModificationRequest): Outcome {
    if req.orderId >= |s.ledger.session| then Done(s, ModifyReply(Err(ModifyUnknownOrder)))
    else
      var order := s.ledger.session[req.orderId];
      if order.account != req.account then Done(s, ModifyReply(Err(ModifyUnauthorized)))
      else if order.status.Filled? then Done(s, ModifyReply(Err(ModifyAlreadyFilled)))
      else if req.newVolume > order.volume then Done(s, ModifyReply(Err(VolumeNotLower)))
      else
        var m := FindMarket(s.markets, order.pair);
        if m.None? then Done(s, ModifyReply(Err(ModifyNoSuchMarket)))
        else
          match Modify(s.markets[m.value].book, req.IntoModification(order.pair, order.side, order.price, order.volume))
          case Err(e) => Done(s, ModifyReply(Err(e)))
          case Ok(book) =>
            if order.volume < order.remaining then Stopped
            else Done(WithOrder(s, m.value, book, req.orderId, Resized(order, req.newVolume)), ModifyReply(Ok(())))
  }

  function Step(s: State, c: Command): Outcome
    requires s.ledger.balances.Dense()
  {
    match c
    case AddAssetCmd =>
      Done(s.(assets := s.assets + 1, ledger := s.ledger.(balances := AddAsset(s.ledger.balances))), NewId(s.assets))
    case CreateAccountCmd =>
      Done(s.(accounts := s.accounts + 1, ledger := s.ledger.(balances := AddAccount(s.ledger.balances))),
           NewId(s.accounts))
    case CreateNamedAccountCmd => Done(s.(accounts := s.accounts + 1), NewId(s.accounts))
    case AddMarketCmd(pair) => AddMarket(s, pair)
    case InsertCmd(req) => InsertOrder(s, req)
    case CancelCmd(req) => CancelOrder(s, req)
    case ModifyCmd(req) => ModifyOrder(s, req)
    case QueryCmd(q) => Done(s, AnswerReply(AnswerTo(s, q)))
  }

  lemma StepDense(s: State, c: Command)
    requires s.ledger.balances.Dense() && Step(s, c).Done?
    ensures Step(s, c).state.ledger.balances.Dense()
  {
    match c
    case AddAssetCmd => AddAssetDense(s.ledger.balances);
    case InsertCmd(req) =>
      var m := FindMarket(s.markets, req.pair);
      if m.Some? && req.account < s.accounts {
        var o := req.IntoInsertion(|s.ledger.session|);
        var r := Insert(s.markets[m.value].book, o);
        if r.result.Ok? {
          var placed := s.ledger.(session := s.ledger.session + [PlacedOrder.FromInsertion(o)]);
          DrainFrame(placed, s.buf + r.trades, req.pair);
        }
      }
    case _ =>
  }

  /** The state and replies after a run of commands from the empty exchange; Halted when one panicked. */
  datatype RunResult = Running(state: State, replies: seq<Reply>) | Halted

  function Run(cmds: seq<Command>): (r: RunResult)
    ensures r.Running? ==> r.state.ledger.balances.Dense() && |r.replies| == |cmds|
    decreases |cmds|
  {
    if cmds == [] then Running(EMPTY_EXCHANGE, [])
    else
      match Run(cmds[..|cmds| - 1])
      case Halted => Halted
      case Running(s, replies) =>
        match Step(s, cmds[|cmds| - 1])
        case Stopped => Halted
        case Done(s', reply) =>
          StepDense(s, cmds[|cmds| - 1]);
          Running(s', replies + [reply])
  }

  /** One more command after a run that did not halt: it halts there or gives one more reply. */
  lemma RunNext(cmds: seq<Command>, c: Command)
    requires Run(cmds).Running?
    ensures var r, next := Step(Run(cmds).state, c), Run(cmds + [c]);
            && (r.Stopped? <==> next.Halted?)
            && (r.Done? ==> next == Running(r.state, Run(cmds).replies + [r.reply]))
  {
    hide Step;
    assert (cmds + [c])[..|cmds|] == cmds;
  }

  /** After the run the command is answered with this reply. */
  ghost predicate Answered(cmds: seq<Command>, c: Command, reply: Reply) {
    var next := Run(cmds + [c]);
    next.Running? && next.replies[|cmds|] == reply
  }

  lemma AnsweredIff(cmds: seq<Command>, c: Command, reply: Reply)
    requires Run(cmds).Running?
    ensures Answered(cmds, c, reply) <==> Step(Run(cmds).state, c).Done? && Step(Run(cmds).state, c).reply == reply
  {
    hide Step;
    RunNext(cmds, c);
  }
}
