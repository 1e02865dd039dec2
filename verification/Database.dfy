/** The operations of the shop database, each a function from the store to the
    store. Derived fields are written by the `Update*` recomputations; the
    remaining operations append events and then call the recomputations
    `database.py` calls, in the same order. */
module Database {
  import opened Seqs
  import opened Shop
  import opened Derive

  // ---------------------------------------------------------------------------
  // First-match queries

  /** `i` is the first catalog position holding its jan: the item a query by jan finds. */
  predicate IsFirstWithJan(catalog: seq<Item>, i: int) {
    0 <= i < |catalog| && forall j :: 0 <= j < i ==> catalog[j].jan != catalog[i].jan
  }

  /** `i` is the first account holding its uid. */
  predicate IsFirstWithUid(users: seq<User>, i: int) {
    0 <= i < |users| && forall j :: 0 <= j < i ==> users[j].uid != users[i].uid
  }

  /** `i` is the drawer row: the first bank row of `Labshop`. */
  predicate IsDrawerRow(bank: seq<BankRow>, i: int) {
    0 <= i < |bank| && bank[i].user == Labshop && forall j :: 0 <= j < i ==> bank[j].user != Labshop
  }

  /** `k` is the active record with `id` that `cancel_record` finds. */
  predicate IsFirstWithId(records: seq<Record>, k: int, id: nat) {
    0 <= k < |records| && records[k].id == id && forall j :: 0 <= j < k ==> records[j].id != id
  }

  predicate InCatalog(catalog: seq<Item>, jan: string) {
    exists i :: 0 <= i < |catalog| && catalog[i].jan == jan
  }

  predicate HasDrawer(bank: seq<BankRow>) {
    exists i :: 0 <= i < |bank| && bank[i].user == Labshop
  }

  function ItemIndex(catalog: seq<Item>, jan: string): nat {
    FirstIndex(catalog, ItemHasJan(jan))
  }

  function UserIndex(users: seq<User>, uid: string): nat {
    FirstIndex(users, UserHasUid(uid))
  }

  function DrawerIndex(bank: seq<BankRow>): nat {
    FirstIndex(bank, RowOfUser(Labshop))
  }

  /** `get_item`: the first catalog item with `jan`, if any. */
  function GetItem(s: State, jan: string): (r: Option<Item>)
    ensures r.Some? <==> InCatalog(s.catalog, jan)
    ensures r.Some? ==> r.value.jan == jan
    ensures forall i :: IsFirstWithJan(s.catalog, i) && s.catalog[i].jan == jan ==> r == Some(s.catalog[i])
  {
    var i := ItemIndex(s.catalog, jan);
    if i < |s.catalog| then Some(s.catalog[i]) else None
  }

  /** `get_user`: the first account with `uid`, if any. */
  function GetUser(s: State, uid: string): (r: Option<User>)
    ensures r.Some? <==> exists i :: 0 <= i < |s.users| && s.users[i].uid == uid
    ensures forall i :: IsFirstWithUid(s.users, i) && s.users[i].uid == uid ==> r == Some(s.users[i])
  {
    var i := UserIndex(s.users, uid);
    if i < |s.users| then Some(s.users[i]) else None
  }

  /** `get_catalog` and `get_category`: the collections as stored. */
  function GetCatalog(s: State): seq<Item> {
    s.catalog
  }

  function GetCategory(s: State): seq<Category> {
    s.categories
  }

  // ---------------------------------------------------------------------------
  // Recomputation of the derived fields

  /** `update_stock`: write the stock level of `jan` into the first item with
      that jan; a jan with no item changes nothing. */
  function UpdateStock(s: State, jan: string): (r: State)
    ensures r == s.(catalog := r.catalog)
    ensures |r.catalog| == |s.catalog|
    ensures forall i :: 0 <= i < |s.catalog| ==>
      r.catalog[i] == if s.catalog[i].jan == jan && IsFirstWithJan(s.catalog, i)
                      then s.catalog[i].(stocks := StockLevel(s.stock, s.records, jan))
                      else s.catalog[i]
  {
    var i := ItemIndex(s.catalog, jan);
    if i < |s.catalog| then
      s.(catalog := s.catalog[i := s.catalog[i].(stocks := StockLevel(s.stock, s.records, jan))])
    else s
  }

  /** `update_stock` for each of `jans` in turn. Each item that is the first
      with its jan and whose jan is listed gets its stock level; every other
      item is untouched. */
  function UpdateStocks(s: State, jans: seq<string>): (r: State)
    ensures r == s.(catalog := r.catalog)
    ensures |r.catalog| == |s.catalog|
    ensures forall i :: 0 <= i < |s.catalog| ==>
      r.catalog[i] == if s.catalog[i].jan in jans && IsFirstWithJan(s.catalog, i)
                      then s.catalog[i].(stocks := StockLevel(s.stock, s.records, s.catalog[i].jan))
                      else s.catalog[i]
    decreases |jans|
  {
    if |jans| == 0 then s
    else
      var s1 := UpdateStock(s, jans[0]);
      assert forall i :: 0 <= i < |s.catalog| ==> s1.catalog[i].jan == s.catalog[i].jan;
      assert forall i :: IsFirstWithJan(s1.catalog, i) <==> IsFirstWithJan(s.catalog, i);
      assert forall j :: j in jans <==> j == jans[0] || j in jans[1..];
      UpdateStocks(s1, jans[1..])
  }

  /** `update_all_stock`: `update_stock` for every catalog item's jan. */
  function UpdateAllStock(s: State): (r: State)
    ensures r == s.(catalog := r.catalog)
    ensures |r.catalog| == |s.catalog|
    ensures forall i :: 0 <= i < |s.catalog| ==>
      r.catalog[i] == if IsFirstWithJan(s.catalog, i)
                      then s.catalog[i].(stocks := StockLevel(s.stock, s.records, s.catalog[i].jan))
                      else s.catalog[i]
  {
    var js := Map(s.catalog, (it: Item) => it.jan);
    assert forall i :: 0 <= i < |s.catalog| ==> s.catalog[i].jan in js;
    UpdateStocks(s, js)
  }

  /** `update_user`: write the balance of `uid` into the first account with that
      uid; an unknown uid changes nothing. */
  function UpdateUser(s: State, uid: string): (r: State)
    ensures r == s.(users := r.users)
    ensures |r.users| == |s.users|
    ensures forall i :: 0 <= i < |s.users| ==>
      r.users[i] == if s.users[i].uid == uid && IsFirstWithUid(s.users, i)
                    then s.users[i].(point := Balance(s.records, uid))
                    else s.users[i]
  {
    var i := UserIndex(s.users, uid);
    if i < |s.users| then
      s.(users := s.users[i := s.users[i].(point := Balance(s.records, uid))])
    else s
  }

  /** `update_user` for each of `uids` in turn. */
  function UpdateUsers(s: State, uids: seq<string>): (r: State)
    ensures r == s.(users := r.users)
    ensures |r.users| == |s.users|
    ensures forall i :: 0 <= i < |s.users| ==>
      r.users[i] == if s.users[i].uid in uids && IsFirstWithUid(s.users, i)
                    then s.users[i].(point := Balance(s.records, s.users[i].uid))
                    else s.users[i]
    decreases |uids|
  {
    if |uids| == 0 then s
    else
      var s1 := UpdateUser(s, uids[0]);
      assert forall i :: 0 <= i < |s.users| ==> s1.users[i].uid == s.users[i].uid;
      assert forall i :: IsFirstWithUid(s1.users, i) <==> IsFirstWithUid(s.users, i);
      assert forall u :: u in uids <==> u == uids[0] || u in uids[1..];
      UpdateUsers(s1, uids[1..])
  }

  /** `update_all_users`: `update_user` for every account. */
  function UpdateAllUsers(s: State): (r: State)
    ensures r == s.(users := r.users)
    ensures |r.users| == |s.users|
    ensures forall i :: 0 <= i < |s.users| ==>
      r.users[i] == if IsFirstWithUid(s.users, i)
                    then s.users[i].(point := Balance(s.records, s.users[i].uid))
                    else s.users[i]
  {
    var ids := Map(s.users, (u: User) => u.uid);
    assert forall i :: 0 <= i < |s.users| ==> s.users[i].uid in ids;
    UpdateUsers(s, ids)
  }

  /** `update_bank`: upsert the drawer row with the drawer aggregate. The first
      `Labshop` row is overwritten in place; without one, a row is appended. */
  function UpdateBank(s: State, now: Timestamp): (r: State)
    ensures r == s.(bank := r.bank)
    ensures HasDrawer(s.bank) ==> |r.bank| == |s.bank|
    ensures !HasDrawer(s.bank) ==> |r.bank| == |s.bank| + 1
    ensures HasDrawer(s.bank) ==> DrawerIndex(r.bank) == DrawerIndex(s.bank)
    ensures !HasDrawer(s.bank) ==> DrawerIndex(r.bank) == |s.bank|
    ensures IsDrawerRow(r.bank, DrawerIndex(r.bank))
    ensures r.bank[DrawerIndex(r.bank)] == BankRow(Labshop, DrawerTotal(s.records), now)
    ensures forall i :: 0 <= i < |s.bank| && !IsDrawerRow(s.bank, i) ==> r.bank[i] == s.bank[i]
  {
    var i := DrawerIndex(s.bank);
    var row := BankRow(Labshop, DrawerTotal(s.records), now);
    if i < |s.bank| then
      var b := s.bank[i := row];
      FirstIndexUnique(b, RowOfUser(Labshop), i);
      s.(bank := b)
    else
      var b := s.bank + [row];
      FirstIndexUnique(b, RowOfUser(Labshop), |s.bank|);
      s.(bank := b)
  }

  // ---------------------------------------------------------------------------
  // Accounts

  /** `add_user`: refuse a uid that already exists; otherwise append the account
      with the given (already hashed) password and salt. */
  function AddUser(s: State, uid: string, password: string, salt: string, group: string,
                   name: string, point: int, now: Timestamp): (r: (bool, State))
    ensures r.0 <==> forall i :: 0 <= i < |s.users| ==> s.users[i].uid != uid
    ensures !r.0 ==> r.1 == s
    ensures r.0 ==> r.1 == s.(users := r.1.users)
    ensures r.0 ==> |r.1.users| == |s.users| + 1 && r.1.users[..|s.users|] == s.users
    ensures r.0 ==> r.1.users[|s.users|] == User(uid, password, salt, group, name, point, now)
  {
    if GetUser(s, uid).Some? then (false, s)
    else (true, s.(users := s.users + [User(uid, password, salt, group, name, point, now)]))
  }

  // ---------------------------------------------------------------------------
  // Events

  /** One restock line as submitted by a caller. */
  datatype StockEntry = StockEntry(jan: string, cost: int, quantity: int, divide: int)

  /** `put_stock`: append one receipt; nothing is recomputed. */
  function PutStock(s: State, user: string, e: StockEntry, now: Timestamp): (r: State)
    ensures r == s.(stock := r.stock)
    ensures |r.stock| == |s.stock| + 1 && r.stock[..|s.stock|] == s.stock
    ensures r.stock[|s.stock|] == Receipt(e.jan, e.cost, e.quantity, e.divide, user, now)
  {
    s.(stock := s.stock + [Receipt(e.jan, e.cost, e.quantity, e.divide, user, now)])
  }

  /** The outcome of `put_record`: either every record was written and the
      derived fields recomputed, or the first unknown jan aborted the batch,
      leaving the records written before it and recomputing nothing. */
  datatype Outcome = Done(state: State) | ItemNotFound(jan: string, state: State)

  /** The price a record for `jan` carries: that of the first item with `jan`. */
  function PriceOf(catalog: seq<Item>, jan: string): int {
    var i := ItemIndex(catalog, jan);
    if i < |catalog| then catalog[i].price else 0
  }

  /** The records a complete `put_record` batch appends, one per jan, with
      consecutive fresh ids from `s.nextId`. */
  function NewRecords(s: State, user: string, jans: seq<string>, now: Timestamp): (rs: seq<Record>)
    ensures |rs| == |jans|
    ensures forall k :: 0 <= k < |jans| ==>
      rs[k] == Record(s.nextId + k, user, jans[k], PriceOf(s.catalog, jans[k]), now)
  {
    seq(|jans|, k requires 0 <= k < |jans| => Record(s.nextId + k, user, jans[k], PriceOf(s.catalog, jans[k]), now))
  }

  /** The insertion loop of `put_record`. */
  function InsertRecords(s: State, user: string, jans: seq<string>, now: Timestamp): (r: Outcome)
    ensures s.nextId <= r.state.nextId <= s.nextId + |jans|
    ensures r.state == s.(records := r.state.records, nextId := r.state.nextId)
    ensures r.state.records == s.records + NewRecords(s, user, jans, now)[..r.state.nextId - s.nextId]
    ensures forall k :: 0 <= k < r.state.nextId - s.nextId ==> InCatalog(s.catalog, jans[k])
    ensures r.Done? ==> r.state.nextId == s.nextId + |jans|
    ensures r.ItemNotFound? ==>
      r.state.nextId - s.nextId < |jans| && r.jan == jans[r.state.nextId - s.nextId] && !InCatalog(s.catalog, r.jan)
    decreases |jans|
  {
    if |jans| == 0 then Done(s)
    else if !InCatalog(s.catalog, jans[0]) then ItemNotFound(jans[0], s)
    else
      var rec := Record(s.nextId, user, jans[0], PriceOf(s.catalog, jans[0]), now);
      var s1 := s.(records := s.records + [rec], nextId := s.nextId + 1);
      var r := InsertRecords(s1, user, jans[1..], now);
      NewRecordsShift(s, s1, user, jans, now, r.state.nextId - s1.nextId);
      r
  }

  /** The batch of a store with the next id taken is the tail of the batch. */
  lemma NewRecordsShift(s: State, s1: State, user: string, jans: seq<string>, now: Timestamp, m: nat)
    requires s1.catalog == s.catalog && s1.nextId == s.nextId + 1
    requires m < |jans|
    ensures NewRecords(s, user, jans, now)[..m + 1]
         == [Record(s.nextId, user, jans[0], PriceOf(s.catalog, jans[0]), now)]
            + NewRecords(s1, user, jans[1..], now)[..m]
  {
    var a := NewRecords(s, user, jans, now)[..m + 1];
    var b := [Record(s.nextId, user, jans[0], PriceOf(s.catalog, jans[0]), now)]
             + NewRecords(s1, user, jans[1..], now)[..m];
    assert |a| == |b|;
    forall k | 0 <= k < |a|
      ensures a[k] == b[k]
    {
      if k > 0 {
        assert b[k] == NewRecords(s1, user, jans[1..], now)[k - 1];
      }
    }
  }

  /** `put_record`: append one record per jan (duplicates included) at the
      catalog price, then recompute the stock of every listed jan, the user's
      balance and the drawer row. An unknown jan aborts with the records
      written so far and no recomputation. */
  function PutRecord(s: State, user: string, jans: seq<string>, now: Timestamp): (r: Outcome)
    ensures r.Done? <==> forall k :: 0 <= k < |jans| ==> InCatalog(s.catalog, jans[k])
    ensures r.Done? ==> r.state.records == s.records + NewRecords(s, user, jans, now)
    ensures r.Done? ==> r.state.nextId == s.nextId + |jans|
    ensures r.Done? ==> r.state.stock == s.stock && r.state.cancelled == s.cancelled && r.state.categories == s.categories
    ensures r.ItemNotFound? ==>
      var m := r.state.nextId - s.nextId;
      && 0 <= m < |jans| && r.jan == jans[m] && !InCatalog(s.catalog, r.jan)
      && (forall k :: 0 <= k < m ==> InCatalog(s.catalog, jans[k]))
      && r.state == s.(records := s.records + NewRecords(s, user, jans, now)[..m], nextId := s.nextId + m)
  {
    var inserted := InsertRecords(s, user, jans, now);
    if inserted.ItemNotFound? then inserted
    else
      assert NewRecords(s, user, jans, now)[..|jans|] == NewRecords(s, user, jans, now);
      Done(RecomputeAfterSale(inserted.state, user, jans, now))
  }

  /** The recomputations that close a complete `put_record`: the stock of every
      listed jan, the user's balance, then the drawer row. Only cached fields
      and the drawer row change. */
  function RecomputeAfterSale(s: State, user: string, jans: seq<string>, now: Timestamp): (r: State)
    ensures r == s.(catalog := r.catalog, users := r.users, bank := r.bank)
  {
    UpdateBank(UpdateUser(UpdateStocks(s, jans), user), now)
  }

  /** `charge_guest`: append one record for the guest account and the guest jan;
      nothing is recomputed. */
  function ChargeGuest(s: State, amount: int, now: Timestamp): (r: State)
    ensures r == s.(records := r.records, nextId := s.nextId + 1)
    ensures r.records == s.records + [Record(s.nextId, Guest, Guest, amount, now)]
  {
    s.(records := s.records + [Record(s.nextId, Guest, Guest, amount, now)], nextId := s.nextId + 1)
  }

  /** The store with the active record at `k` moved to the end of the archive. */
  function Archive(s: State, k: int): (r: State)
    requires 0 <= k < |s.records|
    ensures r == s.(records := r.records, cancelled := r.cancelled)
    ensures r.cancelled == s.cancelled + [s.records[k]]
    ensures |r.records| == |s.records| - 1
    ensures r.records[..k] == s.records[..k] && r.records[k..] == s.records[k + 1..]
    ensures multiset(r.records) + multiset{s.records[k]} == multiset(s.records)
  {
    assert s.records == s.records[..k] + [s.records[k]] + s.records[k + 1..];
    s.(records := s.records[..k] + s.records[k + 1..], cancelled := s.cancelled + [s.records[k]])
  }

  /** At most one position is the first active record with a given id. */
  lemma FirstWithIdIsUnique(records: seq<Record>, id: nat, k: nat)
    requires k == FirstIndex(records, RecordHasId(id))
    ensures forall j :: IsFirstWithId(records, j, id) ==> j == k
  {
    forall j | IsFirstWithId(records, j, id)
      ensures j == k
    {
      FirstIndexUnique(records, RecordHasId(id), j);
    }
  }

  /** `cancel_record`: move the record with `id` from the active records to the
      cancelled ones, then recompute the stock of its jan and the balance of
      the calling `user` (not of the record's owner). The drawer row is not
      recomputed. An unknown id changes nothing. */
  function CancelRecord(s: State, user: string, id: nat): (r: State)
    ensures (forall k :: 0 <= k < |s.records| ==> s.records[k].id != id) ==> r == s
    ensures forall k :: IsFirstWithId(s.records, k, id) ==>
      && r.records == s.records[..k] + s.records[k + 1..]
      && r.cancelled == s.cancelled + [s.records[k]]
      && r.stock == s.stock && r.bank == s.bank && r.nextId == s.nextId && r.categories == s.categories
      && |r.catalog| == |s.catalog| && |r.users| == |s.users|
      && (forall i :: 0 <= i < |s.catalog| ==>
            r.catalog[i] == if s.catalog[i].jan == s.records[k].jan && IsFirstWithJan(s.catalog, i)
                            then s.catalog[i].(stocks := StockLevel(r.stock, r.records, s.records[k].jan))
                            else s.catalog[i])
      && (forall i :: 0 <= i < |s.users| ==>
            r.users[i] == if s.users[i].uid == user && IsFirstWithUid(s.users, i)
                          then s.users[i].(point := Balance(r.records, user))
                          else s.users[i])
  {
    var k := FirstIndex(s.records, RecordHasId(id));
    if k == |s.records| then s
    else
      FirstWithIdIsUnique(s.records, id, k);
      UpdateUser(UpdateStock(Archive(s, k), s.records[k].jan), user)
  }

  /** `put_withdraw`: append one bank row; the drawer row is not recomputed. */
  function PutWithdraw(s: State, user: string, amount: int, now: Timestamp): (r: State)
    ensures r == s.(bank := r.bank)
    ensures |r.bank| == |s.bank| + 1 && r.bank[..|s.bank|] == s.bank
    ensures r.bank[|s.bank|] == BankRow(user, amount, now)
  {
    s.(bank := s.bank + [BankRow(user, amount, now)])
  }

  /** `get_bank`: the sum of the amounts of all bank rows, drawer and withdrawals. */
  function GetBank(s: State): int {
    Sum(s.bank, AmountOf())
  }

  // ---------------------------------------------------------------------------
  // Catalog import

  /** The typed shape of the import feed. `price` is the positive shelf price. */
  datatype FeedGood = FeedGood(jan: string, name: string, price: int, cost: int, divide: int)
  datatype FeedCategory = FeedCategory(id: string, title: string, goods: seq<FeedGood>)

  /** The catalog item for goods entry `g` at position `i` of category `cid`. */
  function ItemOfGood(g: FeedGood, cid: string, i: nat): Item {
    Item(g.jan, g.name, -g.price, g.cost, g.divide, 0, cid, i)
  }

  function GoodsItems(c: FeedCategory): seq<Item> {
    seq(|c.goods|, i requires 0 <= i < |c.goods| => ItemOfGood(c.goods[i], c.id, i))
  }

  /** The number of goods in the first `n` categories of the feed. */
  function GoodsBefore(feed: seq<FeedCategory>, n: nat): nat
    requires n <= |feed|
    decreases n
  {
    if n == 0 then 0 else |feed[0].goods| + GoodsBefore(feed[1..], n - 1)
  }

  /** The new catalog, category after category, goods in feed order; one item
      per goods entry, every stock level still 0. */
  function FeedItems(feed: seq<FeedCategory>): (items: seq<Item>)
    ensures |items| == GoodsBefore(feed, |feed|)
    ensures forall k :: 0 <= k < |items| ==> items[k].stocks == 0
    decreases |feed|
  {
    if |feed| == 0 then [] else GoodsItems(feed[0]) + FeedItems(feed[1..])
  }

  /** Goods entry `i` of category `c` becomes the item at position
      `GoodsBefore(feed, c) + i`, with the negated price, the category id and
      its index within the category as display order. */
  lemma {:induction false} FeedItemsPosition(feed: seq<FeedCategory>, c: nat, i: nat)
    requires c < |feed| && i < |feed[c].goods|
    ensures GoodsBefore(feed, c) + i < |FeedItems(feed)|
    ensures FeedItems(feed)[GoodsBefore(feed, c) + i]
         == Item(feed[c].goods[i].jan, feed[c].goods[i].name, -feed[c].goods[i].price,
                 feed[c].goods[i].cost, feed[c].goods[i].divide, 0, feed[c].id, i)
    decreases c
  {
    GoodsBeforeMonotone(feed, c + 1, |feed|);
    if c > 0 {
      FeedItemsPosition(feed[1..], c - 1, i);
      assert feed[1..][c - 1] == feed[c];
    }
  }

  lemma {:induction false} GoodsBeforeMonotone(feed: seq<FeedCategory>, m: nat, n: nat)
    requires m <= n <= |feed|
    ensures GoodsBefore(feed, m) <= GoodsBefore(feed, n)
    decreases m
  {
    if m > 0 {
      GoodsBeforeMonotone(feed[1..], m - 1, n - 1);
    }
  }

  function FeedCategories(feed: seq<FeedCategory>): (cs: seq<Category>)
    ensures |cs| == |feed|
    ensures forall i :: 0 <= i < |feed| ==> cs[i] == Category(feed[i].id, feed[i].title)
  {
    seq(|feed|, i requires 0 <= i < |feed| => Category(feed[i].id, feed[i].title))
  }

  /** `build_catelog`: replace the catalog and the categories wholesale from
      the feed, then recompute every item's stock. A feed with no goods at all
      inserts nothing into the new catalog, so renaming it fails and the
      import aborts (`None`) before anything is replaced. */
  function BuildCatalog(s: State, feed: seq<FeedCategory>): (r: Option<State>)
    ensures r.None? <==> GoodsBefore(feed, |feed|) == 0
    ensures r.Some? ==> r.value == s.(catalog := r.value.catalog, categories := r.value.categories)
    ensures r.Some? ==> |r.value.categories| == |feed|
    ensures r.Some? ==> forall i :: 0 <= i < |feed| ==> r.value.categories[i] == Category(feed[i].id, feed[i].title)
    ensures r.Some? ==> |r.value.catalog| == |FeedItems(feed)|
    ensures r.Some? ==> forall i :: 0 <= i < |r.value.catalog| ==>
      r.value.catalog[i] == FeedItems(feed)[i].(stocks := r.value.catalog[i].stocks)
    ensures r.Some? ==> forall i :: 0 <= i < |r.value.catalog| ==>
      r.value.catalog[i].stocks == if IsFirstWithJan(FeedItems(feed), i)
                                   then StockLevel(s.stock, s.records, FeedItems(feed)[i].jan)
                                   else 0
  {
    if GoodsBefore(feed, |feed|) == 0 then None
    else
      var s0 := s.(catalog := FeedItems(feed), categories := FeedCategories(feed));
      Some(UpdateAllStock(s0))
  }

  // ---------------------------------------------------------------------------
  // Reporting

  /** One row of the item statistics (the float cost per unit is left out). */
  datatype ItemStat = ItemStat(
    jan: string, name: string, price: int,
    buy: int, nbuy: int, sell: int, nsell: int, profit: int)

  /** The statistics row of one catalog item over the current collections. */
  function StatOf(s: State, it: Item): (r: ItemStat)
    ensures r.jan == it.jan && r.name == it.name && r.price == -it.price
    ensures r.nsell == multiset(JansOf(s.records))[it.jan] && 0 <= r.nsell <= |s.records|
    ensures r.profit == r.sell - r.buy
  {
    UnitsSoldIsMultiplicity(s.records, it.jan);
    UnitsSoldBounds(s.records, it.jan);
    var buy := AmountPaid(s.stock, it.jan);
    var sell := -PricesOfJan(s.records, it.jan);
    ItemStat(it.jan, it.name, -it.price, buy, UnitsReceived(s.stock, it.jan),
             sell, UnitsSold(s.records, it.jan), sell - buy)
  }

  /** The number of items outside the charge category. */
  function CountReported(items: seq<Item>): nat
    decreases |items|
  {
    if |items| == 0 then 0
    else (if items[0].category == ChargeCategory then 0 else 1) + CountReported(items[1..])
  }

  /** The rows of one item: its statistics, unless it is in the charge category. */
  function RowsOfItem(s: State, it: Item): seq<ItemStat> {
    if it.category == ChargeCategory then [] else [StatOf(s, it)]
  }

  /** The statistics rows of `items`, skipping the charge category, in order. */
  function StatsOf(s: State, items: seq<Item>): seq<ItemStat>
    decreases |items|
  {
    if |items| == 0 then [] else RowsOfItem(s, items[0]) + StatsOf(s, items[1..])
  }

  /** One row per item outside the charge category, and nothing else. */
  lemma {:induction false} StatsOfCover(s: State, items: seq<Item>)
    ensures |StatsOf(s, items)| == CountReported(items)
    ensures forall it :: it in items && it.category != ChargeCategory ==> StatOf(s, it) in StatsOf(s, items)
    ensures forall x :: x in StatsOf(s, items) ==>
      exists it :: it in items && it.category != ChargeCategory && x == StatOf(s, it)
    decreases |items|
  {
    if |items| > 0 {
      StatsOfCover(s, items[1..]);
      assert forall it :: it in items ==> it == items[0] || it in items[1..];
    }
  }

  /** The rows of one item. */
  lemma StatsOfSingle(s: State, it: Item)
    ensures StatsOf(s, [it]) == if it.category == ChargeCategory then [] else [StatOf(s, it)]
  {
    assert [it][1..] == [];
  }

  /** Rows follow item order: the rows of a concatenation are the rows of
      its first part followed by those of its second. */
  lemma {:induction false} StatsOfConcat(s: State, a: seq<Item>, b: seq<Item>)
    ensures StatsOf(s, a + b) == StatsOf(s, a) + StatsOf(s, b)
    decreases |a|
  {
    if |a| == 0 {
      assert a + b == b;
    } else {
      assert (a + b)[0] == a[0];
      assert (a + b)[1..] == a[1..] + b;
      StatsOfConcat(s, a[1..], b);
    }
  }

  /** `get_item_stat`: one statistics row per catalog item outside the charge category. */
  function GetItemStat(s: State): (rows: seq<ItemStat>)
    ensures |rows| == CountReported(s.catalog)
    ensures forall it :: it in s.catalog && it.category != ChargeCategory ==> StatOf(s, it) in rows
    ensures forall x :: x in rows ==> exists it :: it in s.catalog && it.category != ChargeCategory && x == StatOf(s, it)
  {
    StatsOfCover(s, s.catalog);
    StatsOf(s, s.catalog)
  }
}
