/** No command creates or destroys money, whoever it is booked on: all cells always add up to zero. */
module Conservation {
  import opened Types
  import opened Sums
  import opened BookSpec
  import opened BalancesSpec
  import opened Settlement
  import opened ExchangeSpec

  function Itself(): int -> int {
    (x: int) => x
  }

  function AllCells(b: Balances): int {
    SumBy(b.cells, Itself())
  }

  lemma AddAt(xs: seq<int>, i: nat, v: int)
    requires i < |xs|
    ensures SumBy(xs[i := xs[i] + v], Itself()) == SumBy(xs, Itself()) + v
  {
    SumByUpdate(xs, i, xs[i] + v, Itself());
  }

  /** Four different cells: what two of them gain the other two lose. */
  lemma FourUpdates(xs: seq<int>, a: nat, b: nat, c: nat, d: nat, v: int, w: int)
    requires a < |xs| && b < |xs| && c < |xs| && d < |xs|
    requires a != b && a != c && a != d && b != c && b != d && c != d
    ensures SumBy(xs[a := xs[a] + v][b := xs[b] + w][c := xs[c] - v][d := xs[d] - w], Itself()) == SumBy(xs, Itself())
  {
    hide SumBy;
    var x1 := xs[a := xs[a] + v];
    var x2 := x1[b := xs[b] + w];
    var x3 := x2[c := xs[c] - v];
    AddAt(xs, a, v);
    AddAt(x1, b, w);
    AddAt(x2, c, -v);
    AddAt(x3, d, -w);
  }

  lemma MoveFundsConserves(b: Balances, e: Settled)
    requires b.Disjoint(e.pair, e.maker, e.taker)
    ensures AllCells(MoveFunds(b, e)) == AllCells(b)
  {
    hide SumBy, PrimaryGain, SecondaryGain;
    FourUpdates(b.cells, b.Index(e.pair.primary, e.taker), b.Index(e.pair.secondary, e.taker),
                b.Index(e.pair.primary, e.maker), b.Index(e.pair.secondary, e.maker),
                PrimaryGain(e.tx), SecondaryGain(e.tx));
  }

  lemma {:induction false} DrainConserves(l: Ledger, txs: seq<ObTransaction>, pair: AssetIdPair)
    requires Drain(l, txs, pair).Some?
    ensures AllCells(Drain(l, txs, pair).value.balances) == AllCells(l.balances)
    decreases |txs|
  {
    hide MoveFunds, AllCells;
    if txs != [] {
      var n := |txs| - 1;
      MoveFundsConserves(l.balances, Record(l.session, pair, txs[n]));
      DrainConserves(SettleOne(l, pair, txs[n]), txs[..n], pair);
    }
  }

  lemma {:induction false} WidenedConserves(cells: seq<Balance>, n: nat, m: nat)
    requires |cells| == n * m
    ensures SumBy(Widened(cells, n, m), Itself()) == SumBy(cells, Itself())
    decreases m
  {
    if m > 0 {
      assert n * (m - 1) == n * m - n;
      var front, row := cells[..n * (m - 1)], cells[n * (m - 1)..];
      WidenedConserves(front, n, m - 1);
      SumByAppend(Widened(front, n, m - 1) + row, 0, Itself());
      SumByConcat(Widened(front, n, m - 1), row, Itself());
      SumByConcat(front, row, Itself());
      assert cells == front + row;
    } else {
      assert cells == [];
    }
  }

  lemma InsertConserves(s: State, req: InsertionRequest)
    requires InsertOrder(s, req).Done?
    ensures AllCells(InsertOrder(s, req).state.ledger.balances) == AllCells(s.ledger.balances)
  {
    hide Insert, Drain, AllCells;
    var m := FindMarket(s.markets, req.pair);
    if m.Some? && req.account < s.accounts {
      var o := req.IntoInsertion(|s.ledger.session|);
      var r := Insert(s.markets[m.value].book, o);
      if r.result.Ok? {
        var placed := s.ledger.(session := s.ledger.session + [PlacedOrder.FromInsertion(o)]);
        DrainConserves(placed, s.buf + r.trades, req.pair);
      }
    }
  }

  lemma StepConserves(s: State, c: Command)
    requires s.ledger.balances.Dense() && Step(s, c).Done?
    ensures AllCells(Step(s, c).state.ledger.balances) == AllCells(s.ledger.balances)
  {
    hide InsertOrder, Cancel, Modify;
    var b := s.ledger.balances;
    match c
    case AddAssetCmd =>
      SumByConcat(b.cells, Zeros(b.accounts), Itself());
      SumByZero(Zeros(b.accounts), Itself());
    case CreateAccountCmd => WidenedConserves(b.cells, b.accounts, b.assets);
    case InsertCmd(req) => InsertConserves(s, req);
    case _ =>
  }

  /** In every reachable state, whatever accounts were created and whatever failed, all cells of the
      balance book add up to zero. */
  lemma {:induction false} AllCellsSumToZero(cmds: seq<Command>)
    requires Run(cmds).Running?
    ensures AllCells(Run(cmds).state.ledger.balances) == 0
    decreases |cmds|
  {
    hide Step;
    if cmds != [] {
      var n := |cmds| - 1;
      AllCellsSumToZero(cmds[..n]);
      StepConserves(Run(cmds[..n]).state, cmds[n]);
    }
  }
}
