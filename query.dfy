/**
 * The query handlers of the blockchain reactor: paging glue around the
 * account and asset stores, the wallet's unspent outputs and their per-account
 * balances, and the transaction listing.
 *
 * A wallet iterator is given as the sequence of records it yields, each one
 * already decoded (or not) from JSON; the stores and the renderer of an
 * output are parameters.
 */
module Query {
  import opened Wrappers
  import opened StrConv
  import opened StringOrder

  const DefGenericPageSize: int := 100
  const AmountModulus: int := 0x1_0000_0000_0000_0000

  /** Go's uint64. */
  type Amount = x: int | 0 <= x < AmountModulus

  /** An account unspent output; assetID is the hexadecimal rendering of its asset id. */
  datatype Utxo = Utxo(accountID: string, assetID: string, amount: Amount)

  /** One asset's balance within an account. */
  datatype AssetAmount = AssetAmount(assetID: string, amount: Amount)

  /** One account's balances, one per asset it holds. */
  datatype AccountBalance = AccountBalance(accountID: string, balances: seq<AssetAmount>)

  /** A stored transaction: its raw JSON and whether it decodes as an annotated transaction. */
  datatype TxRecord = TxRecord(raw: string, decodes: bool)

  datatype Status = Success | Fail

  /** The transaction listing's response: its status and the raw transactions collected. */
  datatype TxResponse = TxResponse(status: Status, data: seq<string>)

  /** The fields of a list request; `others` stands for the ones the handlers pass through. */
  datatype RequestQuery = RequestQuery(after: string, pageSize: GoInt, others: seq<string>)

  /** What an account or asset store answers to a list call. */
  datatype Listed<T> = Listed(items: seq<T>, after: string, last: bool) | ListFailed(err: string)

  /** The page a list handler answers with, `next` being the query for the following page. */
  datatype Page<T> = Page(items: seq<T>, lastPage: bool, next: RequestQuery)

  datatype PageResult<T> = PageOk(page: Page<T>) | PageErr(err: string)

  // ---------------------------------------------------------------- paging glue

  /** The page size of a request: PageSize, or 100 when it is zero. */
  function PageLimit(pageSize: GoInt): (limit: GoInt)
    ensures pageSize != 0 ==> limit == pageSize
    ensures pageSize == 0 ==> limit == DefGenericPageSize
  {
    if pageSize == 0 then DefGenericPageSize else pageSize
  }

  /**
   * listAccounts: asks the account store for a page of PageLimit items (100
   * being the default limit too) and answers with its items and last flag and
   * the same query advanced to the store's cursor.
   */
  function ListAccounts<T>(query: RequestQuery, accounts: (string, GoInt, GoInt) -> Listed<T>): (r: PageResult<T>)
    ensures accounts(query.after, PageLimit(query.pageSize), DefGenericPageSize).ListFailed? <==> r.PageErr?
    ensures r.PageOk? ==>
      var ans := accounts(query.after, PageLimit(query.pageSize), DefGenericPageSize);
      && r.page.items == ans.items
      && r.page.lastPage == ans.last
      && r.page.next.after == ans.after
      && r.page.next.pageSize == query.pageSize
      && r.page.next.others == query.others
  {
    match accounts(query.after, PageLimit(query.pageSize), DefGenericPageSize)
    case ListFailed(e) => PageErr(e)
    case Listed(items, after, last) => PageOk(Page(items, last, query.(after := after)))
  }

  /**
   * listAssets: as listAccounts, except that a page the asset store does not
   * call last is still last when it holds fewer items than the limit.
   */
  function ListAssets<T>(query: RequestQuery, assets: (string, GoInt) -> Listed<T>): (r: PageResult<T>)
    ensures assets(query.after, PageLimit(query.pageSize)).ListFailed? <==> r.PageErr?
    ensures r.PageOk? ==>
      var ans := assets(query.after, PageLimit(query.pageSize));
      && r.page.items == ans.items
      && (r.page.lastPage <==> ans.last || |ans.items| < PageLimit(query.pageSize))
      && r.page.next.after == ans.after
      && r.page.next.pageSize == query.pageSize
      && r.page.next.others == query.others
  {
    var limit := PageLimit(query.pageSize);
    match assets(query.after, limit)
    case ListFailed(e) => PageErr(e)
    case Listed(items, after, last) =>
      var lastPage := if !last then |items| < limit else last;
      PageOk(Page(items, lastPage, query.(after := after)))
  }

  // ------------------------------------------------------- decoding the wallet

  /** The decodable records, in iteration order: GetAccountUTXOs' skip rule. */
  function Decoded(records: seq<Option<Utxo>>): seq<Utxo> {
    if records == [] then []
    else
      var last := records[|records| - 1];
      Decoded(records[..|records| - 1]) + (if last.Some? then [last.value] else [])
  }

  /** Skipping distributes over concatenation: nothing is reordered. */
  lemma {:induction false} DecodedConcat(a: seq<Option<Utxo>>, b: seq<Option<Utxo>>)
    ensures Decoded(a + b) == Decoded(a) + Decoded(b)
    decreases |b|
  {
    if b != [] {
      var b' := b[..|b| - 1];
      assert (a + b)[..|a + b| - 1] == a + b';
      DecodedConcat(a, b');
    } else {
      assert a + b == a;
    }
  }

  /** Every decodable record is kept and nothing else. */
  lemma {:induction false} DecodedMembers(records: seq<Option<Utxo>>)
    ensures forall u :: u in Decoded(records) <==> Some(u) in records
  {
    if records != [] {
      var n := |records| - 1;
      var init := records[..n];
      DecodedMembers(init);
      assert records == init + [records[n]];
    }
  }

  /** One output per decodable record. */
  lemma {:induction false} DecodedCount(records: seq<Option<Utxo>>)
    ensures |Decoded(records)| == |set i | 0 <= i < |records| && records[i].Some?|
  {
    if records != [] {
      var n := |records| - 1;
      var init := records[..n];
      DecodedCount(init);
      var before := set i | 0 <= i < n && init[i].Some?;
      var all := set i | 0 <= i < |records| && records[i].Some?;
      if records[n].Some? {
        assert all == before + {n};
      } else {
        assert all == before;
      }
    }
  }

  /** GetAccountUTXOs: every decodable unspent output, in iteration order; undecodable ones are skipped. */
  method GetAccountUTXOs(records: seq<Option<Utxo>>) returns (utxos: seq<Utxo>)
    ensures utxos == Decoded(records)
  {
    utxos := [];
    for i := 0 to |records|
      invariant utxos == Decoded(records[..i])
    {
      assert records[..i + 1][..i] == records[..i];
      if records[i].Some? {
        utxos := utxos + [records[i].value];
      }
    }
    assert records[..|records|] == records;
  }

  /** The index of the first record that does not decode, or the count if all do. */
  function FirstUndecodable(records: seq<TxRecord>): (k: nat)
    ensures k <= |records|
    ensures forall i :: 0 <= i < k ==> records[i].decodes
    ensures k < |records| ==> !records[k].decodes
  {
    if records == [] || !records[0].decodes then 0
    else 1 + FirstUndecodable(records[1..])
  }

  /** The raw text of each record. */
  function Raws(records: seq<TxRecord>): (r: seq<string>)
    ensures |r| == |records| && forall i :: 0 <= i < |records| ==> r[i] == records[i].raw
  {
    seq(|records|, i requires 0 <= i < |records| => records[i].raw)
  }

  /**
   * listTransactions: collects raw transactions until the first one that does
   * not decode, where it stops with status FAIL, keeping what came before.
   */
  method ListTransactions(records: seq<TxRecord>) returns (response: TxResponse)
    ensures response.data == Raws(records[..FirstUndecodable(records)])
    ensures response.status == Fail <==> exists i :: 0 <= i < |records| && !records[i].decodes
  {
    response := TxResponse(Success, []);
    var annotatedTxs: seq<string> := [];
    var i := 0;
    while i < |records|
      invariant 0 <= i <= FirstUndecodable(records)
      invariant annotatedTxs == Raws(records[..i])
      invariant response == TxResponse(Success, [])
    {
      if !records[i].decodes {
        response := response.(status := Fail);
        break;
      }
      annotatedTxs := annotatedTxs + [records[i].raw];
      i := i + 1;
    }
    response := response.(data := annotatedTxs);
  }

  /** The raw text of every record that decodes, in order: what a skipping loop would collect. */
  function DecodableRaws(records: seq<TxRecord>): seq<string> {
    if records == [] then []
    else (if records[0].decodes then [records[0].raw] else []) + DecodableRaws(records[1..])
  }

  /**
   * Stopping keeps a prefix of what skipping would keep: the transactions
   * listed are the first ones of the decodable records, and all of them when
   * every record decodes.
   */
  lemma {:induction false} StopIsPrefixOfSkip(records: seq<TxRecord>)
    ensures var listed := Raws(records[..FirstUndecodable(records)]);
      |listed| <= |DecodableRaws(records)| && listed == DecodableRaws(records)[..|listed|]
    ensures (forall i :: 0 <= i < |records| ==> records[i].decodes) ==>
      Raws(records[..FirstUndecodable(records)]) == DecodableRaws(records)
  {
    if records != [] && records[0].decodes {
      var rest := records[1..];
      StopIsPrefixOfSkip(rest);
      var k := FirstUndecodable(records);
      var listed := Raws(records[..k]);
      var tail := Raws(rest[..k - 1]);
      assert listed == [records[0].raw] + tail;
      if forall i :: 0 <= i < |records| ==> records[i].decodes {
        assert forall i :: 0 <= i < |rest| ==> rest[i].decodes by {
          forall i | 0 <= i < |rest| ensures rest[i].decodes {
            assert rest[i] == records[i + 1];
          }
        }
      }
    }
  }

  /** listUnspentOutputs: one rendered entry per decodable unspent output, in the same order. */
  method ListUnspentOutputs(records: seq<Option<Utxo>>, render: Utxo -> string) returns (response: seq<string>)
    ensures |response| == |Decoded(records)|
    ensures forall i :: 0 <= i < |response| ==> response[i] == render(Decoded(records)[i])
  {
    var accountUTXOs := GetAccountUTXOs(records);
    response := [];
    for i := 0 to |accountUTXOs|
      invariant |response| == i
      invariant forall j :: 0 <= j < i ==> response[j] == render(accountUTXOs[j])
    {
      response := response + [render(accountUTXOs[i])];
    }
  }

  // ------------------------------------------------------------------ balances

  /** The accounts that own at least one of the outputs. */
  ghost function Accounts(us: seq<Utxo>): set<string> {
    set u | u in us :: u.accountID
  }

  /** The assets an account owns among the outputs. */
  ghost function AssetsOf(us: seq<Utxo>, account: string): set<string> {
    set u | u in us && u.accountID == account :: u.assetID
  }

  /** The exact sum of an account's amounts of one asset. */
  function Sum(us: seq<Utxo>, account: string, asset: string): nat {
    if us == [] then 0
    else
      var u := us[|us| - 1];
      Sum(us[..|us| - 1], account, asset) + (if u.accountID == account && u.assetID == asset then u.amount else 0)
  }

  /** The balance as the handler accumulates it: uint64 additions, wrapping around. */
  function Balance(us: seq<Utxo>, account: string, asset: string): Amount {
    if us == [] then 0
    else
      var u := us[|us| - 1];
      var before := Balance(us[..|us| - 1], account, asset);
      if u.accountID == account && u.assetID == asset then (before + u.amount) % AmountModulus else before
  }

  /** Each balance is the sum of the matching amounts modulo 2^64. */
  lemma {:induction false} BalanceIsSumModulo(us: seq<Utxo>, account: string, asset: string)
    ensures Balance(us, account, asset) == Sum(us, account, asset) % AmountModulus
  {
    if us != [] {
      var init := us[..|us| - 1];
      var u := us[|us| - 1];
      BalanceIsSumModulo(init, account, asset);
      if u.accountID == account && u.assetID == asset {
        ModOfSum(Sum(init, account, asset), u.amount);
      }
    }
  }

  /** Reducing the running sum before adding does not change the sum modulo 2^64. */
  lemma ModOfSum(x: nat, a: nat)
    ensures (x % AmountModulus + a) % AmountModulus == (x + a) % AmountModulus
  {
    var q := x / AmountModulus;
    assert x == q * AmountModulus + x % AmountModulus;
    ModShift(x % AmountModulus + a, q);
  }

  /** Adding a multiple of 2^64 does not change a value modulo 2^64. */
  lemma {:induction false} ModShift(y: int, k: nat)
    ensures (y + k * AmountModulus) % AmountModulus == y % AmountModulus
  {
    if k > 0 {
      ModShift(y, k - 1);
      assert y + k * AmountModulus == (y + (k - 1) * AmountModulus) + AmountModulus;
    }
  }

  /** An asset an account does not hold has balance zero. */
  lemma {:induction false} BalanceOfAbsent(us: seq<Utxo>, account: string, asset: string)
    requires asset !in AssetsOf(us, account)
    ensures Balance(us, account, asset) == 0
  {
    if us != [] {
      var init := us[..|us| - 1];
      assert forall u :: u in init ==> u in us;
      BalanceOfAbsent(init, account, asset);
    }
  }

  /** The assets of one account, ascending, each with its balance. */
  ghost function AssetLine(us: seq<Utxo>, account: string): seq<AssetAmount> {
    var assets := KeyOrder(AssetsOf(us, account));
    seq(|assets|, j requires 0 <= j < |assets| => AssetAmount(assets[j], Balance(us, account, assets[j])))
  }

  /** listBalances' answer: the accounts ascending, each with its asset line. */
  ghost function Balances(us: seq<Utxo>): seq<AccountBalance> {
    var accounts := KeyOrder(Accounts(us));
    seq(|accounts|, i requires 0 <= i < |accounts| => AccountBalance(accounts[i], AssetLine(us, accounts[i])))
  }

  /**
   * listBalances emits exactly one entry per account that owns an output, in
   * strictly ascending order of account id, and none for other accounts.
   */
  lemma BalancesOnePerAccount(us: seq<Utxo>)
    ensures |Balances(us)| == |Accounts(us)|
    ensures forall i, j :: 0 <= i < j < |Balances(us)| ==>
      Below(Balances(us)[i].accountID, Balances(us)[j].accountID)
    ensures forall i :: 0 <= i < |Balances(us)| ==> Balances(us)[i].accountID in Accounts(us)
    ensures forall a :: a in Accounts(us) ==>
      exists i :: 0 <= i < |Balances(us)| && Balances(us)[i].accountID == a
  {
    var accounts := KeyOrder(Accounts(us));
    forall a | a in Accounts(us)
      ensures exists i :: 0 <= i < |Balances(us)| && Balances(us)[i].accountID == a
    {
      var i :| 0 <= i < |accounts| && accounts[i] == a;
      assert Balances(us)[i].accountID == a;
    }
  }

  /**
   * Within an account's entry each asset it holds appears exactly once, in
   * strictly ascending order, no other asset appears, and each amount is the
   * sum of that account's outputs of that asset modulo 2^64.
   */
  lemma BalancesPerAsset(us: seq<Utxo>, i: int)
    requires 0 <= i < |Balances(us)|
    ensures var e := Balances(us)[i];
      && |e.balances| == |AssetsOf(us, e.accountID)|
      && (forall p, q :: 0 <= p < q < |e.balances| ==> Below(e.balances[p].assetID, e.balances[q].assetID))
      && (forall p :: 0 <= p < |e.balances| ==> e.balances[p].assetID in AssetsOf(us, e.accountID))
      && (forall s :: s in AssetsOf(us, e.accountID) ==>
            exists p :: 0 <= p < |e.balances| && e.balances[p].assetID == s)
      && (forall p :: 0 <= p < |e.balances| ==>
            e.balances[p].amount == Sum(us, e.accountID, e.balances[p].assetID) % AmountModulus)
  {
    var e := Balances(us)[i];
    var assets := KeyOrder(AssetsOf(us, e.accountID));
    forall s | s in AssetsOf(us, e.accountID)
      ensures exists p :: 0 <= p < |e.balances| && e.balances[p].assetID == s
    {
      var p :| 0 <= p < |assets| && assets[p] == s;
      assert e.balances[p].assetID == s;
    }
    forall p | 0 <= p < |e.balances|
      ensures e.balances[p].amount == Sum(us, e.accountID, e.balances[p].assetID) % AmountModulus
    {
      BalanceIsSumModulo(us, e.accountID, e.balances[p].assetID);
    }
  }

  /** The nested map listBalances accumulates, agreeing with the outputs seen so far. */
  ghost predicate Grouped(acc: map<string, map<string, Amount>>, us: seq<Utxo>) {
    && acc.Keys == Accounts(us)
    && (forall a :: a in acc ==> acc[a].Keys == AssetsOf(us, a))
    && (forall a, s :: a in acc && s in acc[a] ==> acc[a][s] == Balance(us, a, s))
  }

  /** One more output adds its account to the accounts and its asset to its account's assets. */
  lemma GroupStep(us: seq<Utxo>, u: Utxo)
    ensures Accounts(us + [u]) == Accounts(us) + {u.accountID}
    ensures AssetsOf(us + [u], u.accountID) == AssetsOf(us, u.accountID) + {u.assetID}
    ensures forall a :: a != u.accountID ==> AssetsOf(us + [u], a) == AssetsOf(us, a)
  {
    assert forall v :: v in us + [u] <==> v in us || v == u;
  }

  /** One more output changes only the balance of its own account and asset. */
  lemma BalanceStep(us: seq<Utxo>, u: Utxo, a: string, s: string)
    ensures Balance(us + [u], a, s) ==
      if a == u.accountID && s == u.assetID then (Balance(us, a, s) + u.amount) % AmountModulus
      else Balance(us, a, s)
  {
    assert (us + [u])[..|us|] == us;
  }

  /** Replacing the map of the new output's account by its updated balances keeps the maps grouped. */
  lemma Regroup(acc: map<string, map<string, Amount>>, us: seq<Utxo>, u: Utxo, assets: map<string, Amount>)
    requires Grouped(acc, us)
    requires assets.Keys == AssetsOf(us + [u], u.accountID)
    requires forall s :: s in assets ==> assets[s] == Balance(us + [u], u.accountID, s)
    ensures Grouped(acc[u.accountID := assets], us + [u])
  {
    GroupStep(us, u);
    var acc' := acc[u.accountID := assets];
    forall b, s | b in acc' && s in acc'[b]
      ensures acc'[b][s] == Balance(us + [u], b, s)
    {
      BalanceStep(us, u, b, s);
    }
  }

  /**
   * The map of the output's account after the output: the account's assets so
   * far plus the output's asset, each with its balance so far plus the output.
   */
  lemma AccountStep(prev: map<string, Amount>, us: seq<Utxo>, u: Utxo, assets: map<string, Amount>)
    requires prev.Keys == AssetsOf(us, u.accountID)
    requires forall s :: s in prev ==> prev[s] == Balance(us, u.accountID, s)
    requires u.assetID in prev ==> assets == prev[u.assetID := (prev[u.assetID] + u.amount) % AmountModulus]
    requires u.assetID !in prev ==> assets == prev[u.assetID := u.amount]
    ensures assets.Keys == AssetsOf(us + [u], u.accountID)
    ensures forall s :: s in assets ==> assets[s] == Balance(us + [u], u.accountID, s)
  {
    GroupStep(us, u);
    assert assets.Keys == prev.Keys + {u.assetID};
    forall s | s in assets
      ensures assets[s] == Balance(us + [u], u.accountID, s)
    {
      AssetStep(prev, us, u, assets, s);
    }
  }

  /** One asset's entry in the output's account after the output is its balance. */
  lemma AssetStep(prev: map<string, Amount>, us: seq<Utxo>, u: Utxo, assets: map<string, Amount>, s: string)
    requires u.assetID !in prev ==> u.assetID !in AssetsOf(us, u.accountID)
    requires s in prev ==> prev[s] == Balance(us, u.accountID, s)
    requires u.assetID in prev ==> assets == prev[u.assetID := (prev[u.assetID] + u.amount) % AmountModulus]
    requires u.assetID !in prev ==> assets == prev[u.assetID := u.amount]
    requires s in assets
    ensures assets[s] == Balance(us + [u], u.accountID, s)
  {
    BalanceStep(us, u, u.accountID, s);
    if s == u.assetID && u.assetID !in prev {
      BalanceOfAbsent(us, u.accountID, u.assetID);
    }
  }

  /** Adding to an asset the account already holds keeps the maps grouped. */
  lemma CreditHeld(acc: map<string, map<string, Amount>>, us: seq<Utxo>, u: Utxo, assets: map<string, Amount>)
    requires Grouped(acc, us) && u.accountID in acc && u.assetID in acc[u.accountID]
    requires assets == acc[u.accountID][u.assetID := (acc[u.accountID][u.assetID] + u.amount) % AmountModulus]
    ensures Grouped(acc[u.accountID := assets], us + [u])
  {
    AccountStep(acc[u.accountID], us, u, assets);
    Regroup(acc, us, u, assets);
  }

  /** An asset new to a known account starts at the output's amount, and the maps stay grouped. */
  lemma CreditNewAsset(acc: map<string, map<string, Amount>>, us: seq<Utxo>, u: Utxo, assets: map<string, Amount>)
    requires Grouped(acc, us) && u.accountID in acc && u.assetID !in acc[u.accountID]
    requires assets == acc[u.accountID][u.assetID := u.amount]
    ensures Grouped(acc[u.accountID := assets], us + [u])
  {
    AccountStep(acc[u.accountID], us, u, assets);
    Regroup(acc, us, u, assets);
  }

  /** A new account gets a map holding the output's asset and amount alone, and the maps stay grouped. */
  lemma CreditNewAccount(acc: map<string, map<string, Amount>>, us: seq<Utxo>, u: Utxo)
    requires Grouped(acc, us) && u.accountID !in acc
    ensures Grouped(acc[u.accountID := map[u.assetID := u.amount]], us + [u])
  {
    var a := u.accountID;
    assert a !in Accounts(us);
    assert AssetsOf(us, a) == {};
    var prev: map<string, Amount> := map[];
    assert prev[u.assetID := u.amount] == map[u.assetID := u.amount];
    AccountStep(prev, us, u, map[u.assetID := u.amount]);
    Regroup(acc, us, u, map[u.assetID := u.amount]);
  }

  /** Under Grouped, the line built from an account's map is that account's AssetLine. */
  lemma LineMatches(acc: map<string, map<string, Amount>>, us: seq<Utxo>, a: string, line: seq<AssetAmount>)
    requires Grouped(acc, us) && a in acc
    requires |line| == |acc[a].Keys|
    requires forall j :: 0 <= j < |line| ==>
      line[j] == AssetAmount(KeyOrder(acc[a].Keys)[j], acc[a][KeyOrder(acc[a].Keys)[j]])
    ensures line == AssetLine(us, a)
  {
    var assets := KeyOrder(AssetsOf(us, a));
    assert KeyOrder(acc[a].Keys) == assets;
    assert |line| == |AssetLine(us, a)|;
    forall j | 0 <= j < |line|
      ensures line[j] == AssetLine(us, a)[j]
    {
      assert assets[j] in acc[a];
    }
  }

  /** Under Grouped, the n-th account in key order with the line built from its map is listBalances' n-th entry. */
  lemma EntryMatches(acc: map<string, map<string, Amount>>, us: seq<Utxo>, n: int, line: seq<AssetAmount>)
    requires Grouped(acc, us) && 0 <= n < |KeyOrder(acc.Keys)|
    requires var a := KeyOrder(acc.Keys)[n];
      && |line| == |acc[a].Keys|
      && forall j :: 0 <= j < |line| ==>
        line[j] == AssetAmount(KeyOrder(acc[a].Keys)[j], acc[a][KeyOrder(acc[a].Keys)[j]])
    ensures n < |Balances(us)| && Balances(us)[n] == AccountBalance(KeyOrder(acc.Keys)[n], line)
  {
    var a := KeyOrder(acc.Keys)[n];
    LineMatches(acc, us, a, line);
  }

  /** A prefix followed by the next element is the next prefix. */
  lemma PrefixGrows<T>(all: seq<T>, prefix: seq<T>, n: int, x: T)
    requires 0 <= n < |all| && prefix == all[..n] && x == all[n]
    ensures prefix + [x] == all[..n + 1]
  {
  }

  /** The asset line of one account, from its map of balances: sorted asset ids, then amounts. */
  method AssetLineOf(balances: map<string, Amount>) returns (line: seq<AssetAmount>)
    ensures |line| == |balances.Keys|
    ensures forall j :: 0 <= j < |line| ==>
      line[j] == AssetAmount(KeyOrder(balances.Keys)[j], balances[KeyOrder(balances.Keys)[j]])
  {
    var sortedAsset := SortedKeys(balances);
    line := AmountsOf(balances, sortedAsset);
  }

  /** The innermost loop of listBalances: each asset of the sorted list with its amount. */
  method AmountsOf(balances: map<string, Amount>, sortedAsset: seq<string>) returns (line: seq<AssetAmount>)
    requires forall k :: k in sortedAsset ==> k in balances
    ensures |line| == |sortedAsset|
    ensures forall j :: 0 <= j < |line| ==> line[j] == AssetAmount(sortedAsset[j], balances[sortedAsset[j]])
  {
    line := [];
    for m := 0 to |sortedAsset|
      invariant |line| == m
      invariant forall j :: 0 <= j < m ==> line[j] == AssetAmount(sortedAsset[j], balances[sortedAsset[j]])
    {
      var asset := sortedAsset[m];
      line := line + [AssetAmount(asset, balances[asset])];
    }
  }

  /** One pass of the first loop of listBalances: adds the output's amount under its account and asset. */
  method Accumulate(accBalance: map<string, map<string, Amount>>, ghost seen: seq<Utxo>, u: Utxo)
    returns (acc': map<string, map<string, Amount>>)
    requires Grouped(accBalance, seen)
    ensures Grouped(acc', seen + [u])
  {
    var a := u.accountID;
    if a in accBalance {
      var assets: map<string, Amount> := accBalance[a];
      if u.assetID in assets {
        var sum: Amount := (assets[u.assetID] + u.amount) % AmountModulus;
        assets := assets[u.assetID := sum];
        CreditHeld(accBalance, seen, u, assets);
      } else {
        assets := assets[u.assetID := u.amount];
        CreditNewAsset(accBalance, seen, u, assets);
      }
      acc' := accBalance[a := assets];
    } else {
      CreditNewAccount(accBalance, seen, u);
      acc' := accBalance[a := map[u.assetID := u.amount]];
    }
  }

  /** The first loop of listBalances: the nested map of balances by account, then asset. */
  method GroupBalances(us: seq<Utxo>) returns (accBalance: map<string, map<string, Amount>>)
    ensures Grouped(accBalance, us)
  {
    accBalance := map[];
    ghost var seen: seq<Utxo> := [];
    for i := 0 to |us|
      invariant seen == us[..i]
      invariant Grouped(accBalance, seen)
    {
      accBalance := Accumulate(accBalance, seen, us[i]);
      seen := seen + [us[i]];
    }
    assert us[..|us|] == us;
  }

  /** The second loop of listBalances: the accounts of the nested map ascending, each with its asset line. */
  method BalanceLines(accBalance: map<string, map<string, Amount>>, ghost us: seq<Utxo>) returns (response: seq<AccountBalance>)
    requires Grouped(accBalance, us)
    ensures response == Balances(us)
  {
    var sortedAccount := SortedKeys(accBalance);
    response := [];
    for n := 0 to |sortedAccount|
      invariant response == Balances(us)[..n]
    {
      var account := sortedAccount[n];
      var assetAmounts := AssetLineOf(accBalance[account]);
      EntryMatches(accBalance, us, n, assetAmounts);
      PrefixGrows(Balances(us), response, n, AccountBalance(account, assetAmounts));
      response := response + [AccountBalance(account, assetAmounts)];
    }
    assert |Balances(us)| == |sortedAccount|;
  }

  /**
   * listBalances: groups the decodable unspent outputs by account and asset,
   * summing amounts as uint64, then lists accounts and, within each, assets
   * in ascending order.
   */
  method ListBalances(records: seq<Option<Utxo>>) returns (response: seq<AccountBalance>)
    ensures response == Balances(Decoded(records))
  {
    var accountUTXOs := GetAccountUTXOs(records);
    var accBalance := GroupBalances(accountUTXOs);
    response := BalanceLines(accBalance, accountUTXOs);
  }
}
