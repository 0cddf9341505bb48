/**
 The balance book as a value: one flat vector with `accounts` cells per asset.
 Adding an account changes the stride, so every later cell moves.
 */
module BalancesSpec {
  import opened Types

  datatype Balances = Balances(accounts: nat, assets: nat, cells: seq<Balance>) {
    function Index(asset: AssetId, account: AccountId): nat {
      accounts * asset + account
    }

    /** The vector holds exactly the cells of the known assets and accounts. */
    predicate Dense() {
      |cells| == accounts * assets
    }

    /** The four cells a trade touches exist and are different cells. */
    predicate Disjoint(pair: AssetIdPair, maker: AccountId, taker: AccountId) {
      var pm, pt := Index(pair.primary, maker), Index(pair.primary, taker);
      var sm, st := Index(pair.secondary, maker), Index(pair.secondary, taker);
      && pm < |cells| && pt < |cells| && sm < |cells| && st < |cells|
      && pm != pt && pm != sm && pm != st && pt != sm && pt != st && sm != st
    }

    /** The cell of an account and asset, if the vector has one at its position. */
    function Lookup(asset: AssetId, account: AccountId): Option<Balance> {
      if Index(asset, account) < |cells| then Some(cells[Index(asset, account)]) else None
    }

    /** The balance of an account in an asset, zero for cells outside the vector. */
    function Get(asset: AssetId, account: AccountId): Balance {
      if Index(asset, account) < |cells| then cells[Index(asset, account)] else 0
    }
  }

  const NO_BALANCES := Balances(0, 0, [])

  function Zeros(n: nat): (z: seq<Balance>)
    ensures |z| == n && forall i :: 0 <= i < n ==> z[i] == 0
  {
    seq(n, _ => 0)
  }

  /** A zero cell behind each of the first `m` runs of `n` cells. */
  function Widened(cells: seq<Balance>, n: nat, m: nat): (r: seq<Balance>)
    requires |cells| == n * m
    ensures |r| == (n + 1) * m
    decreases m
  {
    if m == 0 then []
    else
      assert n * (m - 1) == n * m - n;
      Widened(cells[..n * (m - 1)], n, m - 1) + cells[n * (m - 1)..] + [0]
  }

  function AddAsset(b: Balances): Balances {
    Balances(b.accounts, b.assets + 1, b.cells + Zeros(b.accounts))
  }

  function AddAccount(b: Balances): Balances
    requires b.Dense()
  {
    Balances(b.accounts + 1, b.assets, Widened(b.cells, b.accounts, b.assets))
  }

  // ---- cell arithmetic ----

  /** In-range cells lie inside the vector. */
  lemma CellInRange(n: nat, m: nat, asset: nat, account: nat)
    requires asset < m && account < n
    ensures n * asset + account < n * m
  {
    assert n * asset + n <= n * m by { assert n * (asset + 1) <= n * m; }
  }

  /** Different in-range cells have different positions. */
  lemma CellInjective(n: nat, asset: nat, account: nat, asset': nat, account': nat)
    requires account < n && account' < n
    ensures n * asset + account == n * asset' + account' <==> asset == asset' && account == account'
  {
    if asset < asset' {
      assert n * (asset + 1) <= n * asset';
    } else if asset' < asset {
      assert n * (asset' + 1) <= n * asset;
    }
  }

  /** Trading different assets between different known accounts never aliases a balance. */
  lemma FourCellsDisjoint(b: Balances, pair: AssetIdPair, maker: AccountId, taker: AccountId)
    requires b.Dense()
    requires pair.primary < b.assets && pair.secondary < b.assets
    requires maker < b.accounts && taker < b.accounts
    ensures b.Disjoint(pair, maker, taker) <==> maker != taker && pair.primary != pair.secondary
  {
    var n, m := b.accounts, b.assets;
    CellInRange(n, m, pair.primary, maker);
    CellInRange(n, m, pair.primary, taker);
    CellInRange(n, m, pair.secondary, maker);
    CellInRange(n, m, pair.secondary, taker);
    CellInjective(n, pair.primary, maker, pair.secondary, maker);
    CellInjective(n, pair.primary, maker, pair.secondary, taker);
    CellInjective(n, pair.primary, taker, pair.secondary, maker);
    CellInjective(n, pair.primary, taker, pair.secondary, taker);
  }

  /** The position belongs to a known account and asset. */
  predicate Holds(b: Balances, asset: AssetId, account: AccountId, position: nat) {
    asset < b.assets && account < b.accounts && position == b.Index(asset, account)
  }

  /** The cell of an account and asset exists and is no other known account's or asset's cell. */
  ghost predicate OwnCell(b: Balances, asset: AssetId, account: AccountId) {
    && b.Index(asset, account) < |b.cells|
    && forall asset': nat, account': nat ::
         Holds(b, asset', account', b.Index(asset, account)) ==> asset' == asset && account' == account
  }

  lemma TimesGrows(n: nat, a: nat, b: nat)
    ensures a <= b ==> n * a <= n * b
  {}

  lemma RowInRange(n: nat, m: nat, asset: nat, account: nat)
    requires n * asset + account < n * m
    ensures asset < m
  {
    TimesGrows(n, m, asset);
  }

  /** An account the balance book does not know reads and writes the cell of a known account in another asset. */
  lemma UnknownAccountAliases(b: Balances, asset: AssetId, account: AccountId) returns (asset': nat, account': nat)
    requires b.Dense() && b.accounts <= account && b.Index(asset, account) < |b.cells|
    ensures asset < asset' && Holds(b, asset', account', b.Index(asset, account))
    ensures account == b.accounts ==> asset' == asset + 1 && account' == 0
  {
    var n := b.accounts;
    assert n * b.assets > 0;
    asset', account' := asset + account / n, account % n;
    assert n * asset' == n * asset + n * (account / n);
    RowInRange(n, b.assets, asset', account');
    if account == n { assert account / n == 1; }
  }

  /** Every account has a balance of its own in an existing asset exactly when the balance book knows it. */
  lemma OwnCellIff(b: Balances, asset: AssetId, account: AccountId)
    requires b.Dense() && asset < b.assets
    ensures OwnCell(b, asset, account) <==> account < b.accounts
  {
    if account < b.accounts {
      CellInRange(b.accounts, b.assets, asset, account);
      forall asset': nat, account': nat | Holds(b, asset', account', b.Index(asset, account))
        ensures asset' == asset && account' == account
      {
        CellInjective(b.accounts, asset, account, asset', account');
      }
    } else if b.Index(asset, account) < |b.cells| {
      var asset', account' := UnknownAccountAliases(b, asset, account);
    }
  }

  /** The known account and the asset at whose cell the position of any account in any asset lies. */
  function Home(b: Balances, asset: AssetId, account: AccountId): (nat, nat)
    requires b.accounts > 0
  {
    (asset + account / b.accounts, account % b.accounts)
  }

  lemma HomeIndex(b: Balances, asset: AssetId, account: AccountId)
    requires b.accounts > 0
    ensures var (row, column) := Home(b, asset, account);
            column < b.accounts && b.Index(asset, account) == b.accounts * row + column
  {
    var n := b.accounts;
    assert n * (asset + account / n) == n * asset + n * (account / n);
  }

  lemma CellExistsIff(b: Balances, asset: AssetId, account: AccountId)
    requires b.Dense() && b.accounts > 0
    ensures b.Index(asset, account) < |b.cells| <==> Home(b, asset, account).0 < b.assets
  {
    HomeIndex(b, asset, account);
    var (row, column) := Home(b, asset, account);
    if row < b.assets {
      CellInRange(b.accounts, b.assets, row, column);
    } else {
      TimesGrows(b.accounts, b.assets, row);
    }
  }

  lemma SameCellIff(b: Balances, asset: AssetId, account: AccountId, asset': AssetId, account': AccountId)
    requires b.accounts > 0
    ensures b.Index(asset, account) == b.Index(asset', account')
            <==> Home(b, asset, account) == Home(b, asset', account')
  {
    HomeIndex(b, asset, account);
    HomeIndex(b, asset', account');
    var (row, column) := Home(b, asset, account);
    var (row', column') := Home(b, asset', account');
    CellInjective(b.accounts, row, column, row', column');
  }

  lemma HomeOf(b: Balances, asset: AssetId, account: AccountId)
    requires b.accounts > 0 && account <= b.accounts
    ensures Home(b, asset, account) == if account == b.accounts then (asset + 1, 0) else (asset, account)
  {
    var n := b.accounts;
    if account == n { assert n / n == 1 && n % n == 0; } else { assert account / n == 0 && account % n == account; }
  }

  /** A trade of the first unknown account with a known one can be booked exactly when the assets differ, neither
      is the last one, and the cells it gets in the next assets are not those of account 0 itself. */
  lemma UnknownTakerSettlesIff(b: Balances, pair: AssetIdPair, maker: AccountId)
    requires b.Dense() && maker < b.accounts
    ensures b.Disjoint(pair, maker, b.accounts)
       <==> && pair.primary != pair.secondary
            && pair.primary + 1 < b.assets && pair.secondary + 1 < b.assets
            && (maker == 0 ==> pair.secondary != pair.primary + 1 && pair.primary != pair.secondary + 1)
  {
    hide Home, Balances.Index;
    var n, p, q := b.accounts, pair.primary, pair.secondary;
    HomeOf(b, p, maker); HomeOf(b, q, maker); HomeOf(b, p, n); HomeOf(b, q, n);
    CellExistsIff(b, p, maker); CellExistsIff(b, q, maker); CellExistsIff(b, p, n); CellExistsIff(b, q, n);
    SameCellIff(b, p, maker, p, n);
    SameCellIff(b, p, maker, q, maker);
    SameCellIff(b, p, maker, q, n);
    SameCellIff(b, p, n, q, maker);
    SameCellIff(b, p, n, q, n);
    SameCellIff(b, q, maker, q, n);
  }

  // ---- growing the book ----

  lemma AddAssetDense(b: Balances)
    requires b.Dense()
    ensures AddAsset(b).Dense()
  {
    assert b.accounts * (b.assets + 1) == b.accounts * b.assets + b.accounts;
  }

  /** Adding an asset keeps every balance; every account has zero of the new asset. */
  lemma AddAssetGet(b: Balances, asset: AssetId, account: AccountId)
    requires b.Dense() && asset <= b.assets && account < b.accounts
    ensures AddAsset(b).Get(asset, account) == if asset == b.assets then 0 else b.Get(asset, account)
  {
    AddAssetDense(b);
    CellInRange(b.accounts, b.assets + 1, asset, account);
    if asset < b.assets {
      CellInRange(b.accounts, b.assets, asset, account);
    }
  }

  lemma OneRowLess(n: nat, m: nat)
    requires m > 0
    ensures n * (m - 1) == n * m - n && 0 <= n * (m - 1) <= n * m
  {}

  /** The last row of a widened vector, and the rows before it. */
  lemma WidenedRows(cells: seq<Balance>, n: nat, m: nat)
    requires |cells| == n * m && m > 0
    ensures 0 <= n * (m - 1) <= |cells| && |cells[..n * (m - 1)]| == n * (m - 1) && |cells[n * (m - 1)..]| == n
    ensures Widened(cells, n, m) == Widened(cells[..n * (m - 1)], n, m - 1) + (cells[n * (m - 1)..] + [0])
    ensures |Widened(cells[..n * (m - 1)], n, m - 1)| == (n + 1) * (m - 1)
  {
    OneRowLess(n, m);
  }

  lemma {:induction false} WidenedAt(cells: seq<Balance>, n: nat, m: nat, asset: nat, account: nat)
    requires |cells| == n * m && asset < m && account <= n
    ensures (n + 1) * asset + account < (n + 1) * m
    ensures account < n ==> n * asset + account < n * m
    ensures Widened(cells, n, m)[(n + 1) * asset + account]
         == if account == n then 0 else cells[n * asset + account]
  {
    CellInRange(n + 1, m, asset, account);
    if account < n { CellInRange(n, m, asset, account); }
    WidenedRows(cells, n, m);
    hide Widened;
    if asset < m - 1 {
      WidenedAt(cells[..n * (m - 1)], n, m - 1, asset, account);
    }
  }

  /** Re-striding keeps every balance and gives the new account zero in every asset. */
  lemma AddAccountGet(b: Balances, asset: AssetId, account: AccountId)
    requires b.Dense() && asset < b.assets && account <= b.accounts
    ensures AddAccount(b).Dense()
    ensures AddAccount(b).Get(asset, account) == if account == b.accounts then 0 else b.Get(asset, account)
  {
    WidenedAt(b.cells, b.accounts, b.assets, asset, account);
  }
}
