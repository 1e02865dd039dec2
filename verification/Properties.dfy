/** What the operations promise about the derived fields: the cache invariant
    (every cached aggregate equals its closed-form definition), which operations
    keep it and under which conditions, the exact effect of each event on the
    aggregates, and the well-formedness of record ids. */
module Properties {
  import opened Seqs
  import opened Shop
  import opened Derive
  import opened Database

  // ---------------------------------------------------------------------------
  // The cache invariant

  /** Every item a query by jan finds carries the stock level of its jan. */
  predicate StocksMatch(catalog: seq<Item>, stock: seq<Receipt>, records: seq<Record>) {
    forall i :: 0 <= i < |catalog| && IsFirstWithJan(catalog, i) ==>
      catalog[i].stocks == StockLevel(stock, records, catalog[i].jan)
  }

  /** Every account a query by uid finds carries the balance of its uid. */
  predicate PointsMatch(users: seq<User>, records: seq<Record>) {
    forall i :: 0 <= i < |users| && IsFirstWithUid(users, i) ==>
      users[i].point == Balance(records, users[i].uid)
  }

  predicate StocksConsistent(s: State) {
    StocksMatch(s.catalog, s.stock, s.records)
  }

  predicate PointsConsistent(s: State) {
    PointsMatch(s.users, s.records)
  }

  /** The drawer row carries the drawer aggregate; with no drawer row yet, the
      aggregate is still zero. */
  predicate DrawerConsistent(s: State) {
    if HasDrawer(s.bank) then s.bank[DrawerIndex(s.bank)].amount == DrawerTotal(s.records)
    else DrawerTotal(s.records) == 0
  }

  /** The cache invariant: every cached aggregate equals its definition. */
  predicate Consistent(s: State) {
    StocksConsistent(s) && PointsConsistent(s) && DrawerConsistent(s)
  }

  /** Recomputing the stock of the `touched` jans keeps the stocks matching new
      records, provided no untouched jan's stock level moved. */
  lemma StocksMatchAfter(catalog: seq<Item>, catalog2: seq<Item>, stock: seq<Receipt>,
                         records: seq<Record>, records2: seq<Record>, touched: seq<string>)
    requires StocksMatch(catalog, stock, records)
    requires |catalog2| == |catalog|
    requires forall i :: 0 <= i < |catalog| ==>
      catalog2[i] == if catalog[i].jan in touched && IsFirstWithJan(catalog, i)
                     then catalog[i].(stocks := StockLevel(stock, records2, catalog[i].jan))
                     else catalog[i]
    requires forall jan :: jan !in touched ==> StockLevel(stock, records, jan) == StockLevel(stock, records2, jan)
    ensures StocksMatch(catalog2, stock, records2)
  {
    SameJansSameFirsts(catalog, catalog2);
  }

  /** Recomputing the balance of `uid` keeps the balances matching new
      records, provided no other account's balance moved. */
  lemma PointsMatchAfter(users: seq<User>, users2: seq<User>, records: seq<Record>,
                         records2: seq<Record>, uid: string)
    requires PointsMatch(users, records)
    requires |users2| == |users|
    requires forall i :: 0 <= i < |users| ==>
      users2[i] == if users[i].uid == uid && IsFirstWithUid(users, i)
                   then users[i].(point := Balance(records2, uid))
                   else users[i]
    requires forall u :: u != uid ==> Balance(records, u) == Balance(records2, u)
    ensures PointsMatch(users2, records2)
  {
    SameUidsSameFirsts(users, users2);
  }

  /** Two catalogs with the same jans position by position agree on which
      positions are first with their jan. */
  lemma SameJansSameFirsts(a: seq<Item>, b: seq<Item>)
    requires |a| == |b|
    requires forall i :: 0 <= i < |a| ==> a[i].jan == b[i].jan
    ensures forall i :: IsFirstWithJan(a, i) <==> IsFirstWithJan(b, i)
  {
  }

  lemma SameUidsSameFirsts(a: seq<User>, b: seq<User>)
    requires |a| == |b|
    requires forall i :: 0 <= i < |a| ==> a[i].uid == b[i].uid
    ensures forall i :: IsFirstWithUid(a, i) <==> IsFirstWithUid(b, i)
  {
  }

  /** The drawer row is the first `Labshop` row. */
  lemma DrawerIndexIsDrawerRow(bank: seq<BankRow>)
    ensures HasDrawer(bank) <==> DrawerIndex(bank) < |bank|
    ensures HasDrawer(bank) ==> IsDrawerRow(bank, DrawerIndex(bank))
  {
  }

  /** The empty store is consistent. */
  lemma EmptyConsistent()
    ensures Consistent(Empty)
  {
  }

  /** Recomputing everything from scratch establishes the invariant, whatever
      the cached values were. */
  lemma {:induction false} RecomputeAllEstablishes(s: State, now: Timestamp)
    ensures Consistent(UpdateBank(UpdateAllUsers(UpdateAllStock(s)), now))
  {
    var s1 := UpdateAllStock(s);
    var s2 := UpdateAllUsers(s1);
    var s3 := UpdateBank(s2, now);
    SameJansSameFirsts(s.catalog, s1.catalog);
    SameUidsSameFirsts(s1.users, s2.users);
    DrawerIndexIsDrawerRow(s3.bank);
  }

  // ---------------------------------------------------------------------------
  // Idempotence of the recomputations

  /** Re-running `update_stock` with no intervening write changes nothing. */
  lemma UpdateStockIdempotent(s: State, jan: string)
    ensures UpdateStock(UpdateStock(s, jan), jan) == UpdateStock(s, jan)
  {
    var s1 := UpdateStock(s, jan);
    var s2 := UpdateStock(s1, jan);
    SameJansSameFirsts(s.catalog, s1.catalog);
    assert s2.catalog == s1.catalog;
  }

  /** Re-running `update_user` with no intervening write changes nothing. */
  lemma UpdateUserIdempotent(s: State, uid: string)
    ensures UpdateUser(UpdateUser(s, uid), uid) == UpdateUser(s, uid)
  {
    var s1 := UpdateUser(s, uid);
    var s2 := UpdateUser(s1, uid);
    SameUidsSameFirsts(s.users, s1.users);
    assert s2.users == s1.users;
  }

  /** Re-running `update_bank` at the same timestamp changes nothing. */
  lemma UpdateBankIdempotent(s: State, now: Timestamp)
    ensures UpdateBank(UpdateBank(s, now), now) == UpdateBank(s, now)
  {
    var s1 := UpdateBank(s, now);
    var s2 := UpdateBank(s1, now);
    DrawerIndexIsDrawerRow(s1.bank);
    assert HasDrawer(s1.bank);
    assert s2.bank == s1.bank;
  }

  // ---------------------------------------------------------------------------
  // put_record

  /** The records of one `put_record` batch all belong to `user` and carry only
      the listed jans, so they move no other account's balance and no other
      jan's count. */
  lemma NewRecordsScope(s: State, user: string, jans: seq<string>, now: Timestamp, m: nat)
    requires m <= |jans|
    ensures forall uid :: uid != user ==> Balance(NewRecords(s, user, jans, now)[..m], uid) == 0
    ensures forall jan :: jan !in jans ==> UnitsSold(NewRecords(s, user, jans, now)[..m], jan) == 0
    ensures Balance(NewRecords(s, user, jans, now)[..m], user) == TotalPrice(NewRecords(s, user, jans, now)[..m])
  {
    var added := NewRecords(s, user, jans, now)[..m];
    forall uid | uid != user
      ensures Balance(added, uid) == 0
    {
      SumZero(added, PriceOfUser(uid));
    }
    forall jan | jan !in jans
      ensures UnitsSold(added, jan) == 0
    {
      SumZero(added, SoldOf(jan));
    }
    BalanceOfOwnRecords(added, user);
  }

  /** A complete `put_record` is the insertion followed by the recomputations. */
  lemma PutRecordUnfold(s: State, user: string, jans: seq<string>, now: Timestamp)
    requires PutRecord(s, user, jans, now).Done?
    ensures InsertRecords(s, user, jans, now).Done?
    ensures PutRecord(s, user, jans, now).state
         == UpdateBank(UpdateUser(UpdateStocks(InsertRecords(s, user, jans, now).state, jans), user), now)
  {
  }

  /** `t` is `s` after appending the records `added` for `user` and
      recomputing the stock of the listed jans, the balance of `user` and the
      drawer row. */
  predicate RecomputedAfterBatch(s: State, t: State, user: string, jans: seq<string>, added: seq<Record>) {
    && t.stock == s.stock
    && t.records == s.records + added
    && |t.catalog| == |s.catalog| && |t.users| == |s.users|
    && (forall i :: 0 <= i < |s.catalog| ==>
          t.catalog[i] == if s.catalog[i].jan in jans && IsFirstWithJan(s.catalog, i)
                          then s.catalog[i].(stocks := StockLevel(t.stock, t.records, s.catalog[i].jan))
                          else s.catalog[i])
    && (forall i :: 0 <= i < |s.users| ==>
          t.users[i] == if s.users[i].uid == user && IsFirstWithUid(s.users, i)
                        then s.users[i].(point := Balance(t.records, user))
                        else s.users[i])
    && (HasDrawer(s.bank) ==> |t.bank| == |s.bank| && DrawerIndex(t.bank) == DrawerIndex(s.bank))
    && (!HasDrawer(s.bank) ==> |t.bank| == |s.bank| + 1 && DrawerIndex(t.bank) == |s.bank|)
    && (forall i :: 0 <= i < |s.bank| && !IsDrawerRow(s.bank, i) ==> t.bank[i] == s.bank[i])
    && IsDrawerRow(t.bank, DrawerIndex(t.bank))
    && t.bank[DrawerIndex(t.bank)].amount == DrawerTotal(t.records)
  }

  /** The store after a complete `put_record` is its records appended and
      the aggregates they touch recomputed. */
  lemma PutRecordShape(s: State, user: string, jans: seq<string>, now: Timestamp)
    requires PutRecord(s, user, jans, now).Done?
    ensures RecomputedAfterBatch(s, PutRecord(s, user, jans, now).state, user, jans, NewRecords(s, user, jans, now))
  {
    PutRecordUnfold(s, user, jans, now);
    var w := InsertRecords(s, user, jans, now).state;
    assert NewRecords(s, user, jans, now)[..|jans|] == NewRecords(s, user, jans, now);
    var t1 := UpdateStocks(w, jans);
    SameJansSameFirsts(w.catalog, t1.catalog);
  }

  /** Appending a batch of `user`'s records for the listed jans and
      recomputing what they touch keeps the cache invariant. */
  lemma {:induction false} BatchPreservesConsistent(s: State, t: State, user: string, jans: seq<string>, added: seq<Record>)
    requires Consistent(s)
    requires RecomputedAfterBatch(s, t, user, jans, added)
    requires forall uid :: uid != user ==> Balance(added, uid) == 0
    requires forall jan :: jan !in jans ==> UnitsSold(added, jan) == 0
    ensures Consistent(t)
  {
    forall jan | jan !in jans
      ensures StockLevel(s.stock, s.records, jan) == StockLevel(s.stock, t.records, jan)
    {
      StockAfterRecords(s.stock, s.records, added, jan);
    }
    StocksMatchAfter(s.catalog, t.catalog, s.stock, s.records, t.records, jans);
    forall u | u != user
      ensures Balance(s.records, u) == Balance(t.records, u)
    {
      BalanceAfterRecords(s.records, added, u);
    }
    PointsMatchAfter(s.users, t.users, s.records, t.records, user);
    DrawerIndexIsDrawerRow(t.bank);
  }

  /** A complete `put_record` keeps the cache invariant: it recomputes every
      aggregate its new records can move. */
  lemma {:induction false} PutRecordPreservesConsistent(s: State, user: string, jans: seq<string>, now: Timestamp)
    requires Consistent(s)
    requires PutRecord(s, user, jans, now).Done?
    ensures Consistent(PutRecord(s, user, jans, now).state)
  {
    var added := NewRecords(s, user, jans, now);
    PutRecordShape(s, user, jans, now);
    assert added[..|jans|] == added;
    NewRecordsScope(s, user, jans, now, |jans|);
    BatchPreservesConsistent(s, PutRecord(s, user, jans, now).state, user, jans, added);
  }

  /** The effect of appending a batch of `user`'s records for the listed jans
      and recomputing what they touch, on a consistent store. */
  lemma {:induction false} BatchEffects(s: State, t: State, user: string, jans: seq<string>, added: seq<Record>)
    requires Consistent(s)
    requires RecomputedAfterBatch(s, t, user, jans, added)
    requires Balance(added, user) == TotalPrice(added)
    requires JansOf(added) == jans
    ensures forall i :: 0 <= i < |s.users| && IsFirstWithUid(s.users, i) && s.users[i].uid == user ==>
      t.users[i].point == s.users[i].point + TotalPrice(added)
    ensures forall i :: 0 <= i < |s.catalog| && IsFirstWithJan(s.catalog, i)
                        && !IsLargeCoin(s.catalog[i].jan) && !IsSmallCoin(s.catalog[i].jan) ==>
      t.catalog[i].stocks == s.catalog[i].stocks - multiset(jans)[s.catalog[i].jan]
    ensures t.bank[DrawerIndex(t.bank)].amount
         == (if HasDrawer(s.bank) then s.bank[DrawerIndex(s.bank)].amount else 0) + DrawerTotal(added)
  {
    BalanceAfterRecords(s.records, added, user);
    forall i | 0 <= i < |s.catalog| && IsFirstWithJan(s.catalog, i)
               && !IsLargeCoin(s.catalog[i].jan) && !IsSmallCoin(s.catalog[i].jan)
      ensures t.catalog[i].stocks == s.catalog[i].stocks - multiset(jans)[s.catalog[i].jan]
    {
      StockAfterRecords(s.stock, s.records, added, s.catalog[i].jan);
      UnitsSoldIsMultiplicity(added, s.catalog[i].jan);
    }
    DrawerAfterRecords(s.records, added);
  }

  /** The effect of a complete `put_record` on a consistent store: the user's
      balance moves by the sum of the new prices, the stock of every listed
      non-denomination jan drops by the number of times it is listed, and the
      drawer moves by the prices of the currency records. */
  lemma {:induction false} PutRecordEffects(s: State, user: string, jans: seq<string>, now: Timestamp)
    requires Consistent(s)
    requires PutRecord(s, user, jans, now).Done?
    ensures var t := PutRecord(s, user, jans, now).state;
      forall i :: 0 <= i < |s.users| && IsFirstWithUid(s.users, i) && s.users[i].uid == user ==>
        t.users[i].point == s.users[i].point + TotalPrice(NewRecords(s, user, jans, now))
    ensures var t := PutRecord(s, user, jans, now).state;
      forall i :: 0 <= i < |s.catalog| && IsFirstWithJan(s.catalog, i)
                  && !IsLargeCoin(s.catalog[i].jan) && !IsSmallCoin(s.catalog[i].jan) ==>
        t.catalog[i].stocks == s.catalog[i].stocks - multiset(jans)[s.catalog[i].jan]
    ensures var t := PutRecord(s, user, jans, now).state;
      t.bank[DrawerIndex(t.bank)].amount
        == (if HasDrawer(s.bank) then s.bank[DrawerIndex(s.bank)].amount else 0)
           + DrawerTotal(NewRecords(s, user, jans, now))
  {
    var added := NewRecords(s, user, jans, now);
    PutRecordShape(s, user, jans, now);
    assert added[..|jans|] == added;
    NewRecordsScope(s, user, jans, now, |jans|);
    assert JansOf(added) == jans;
    BatchEffects(s, PutRecord(s, user, jans, now).state, user, jans, added);
  }

  // ---------------------------------------------------------------------------
  // cancel_record

  /** The effect of cancelling an active record on a consistent store: the
      stock of its (non-denomination) jan rises by one, the calling user's
      balance is recomputed (for the owner: it loses the record's price), and
      the bank rows are untouched. */
  lemma {:induction false} CancelRecordEffects(s: State, user: string, id: nat, k: int)
    requires Consistent(s)
    requires IsFirstWithId(s.records, k, id)
    ensures var t := CancelRecord(s, user, id);
      forall i :: 0 <= i < |s.catalog| && IsFirstWithJan(s.catalog, i) && s.catalog[i].jan == s.records[k].jan
                  && !IsLargeCoin(s.records[k].jan) && !IsSmallCoin(s.records[k].jan) ==>
        t.catalog[i].stocks == s.catalog[i].stocks + 1
    ensures var t := CancelRecord(s, user, id);
      forall i :: 0 <= i < |s.users| && IsFirstWithUid(s.users, i) && s.users[i].uid == user
                  && s.records[k].user == user ==>
        t.users[i].point == s.users[i].point - s.records[k].price
    ensures CancelRecord(s, user, id).bank == s.bank
  {
    var t := CancelRecord(s, user, id);
    StockAfterRemoval(s.stock, s.records, k, s.records[k].jan);
    BalanceAfterRemoval(s.records, k, user);
  }

  /** Cancelling keeps the cache invariant when the calling user owns the
      record and its jan is not a currency code. */
  lemma {:induction false} CancelRecordPreservesConsistent(s: State, user: string, id: nat, k: int)
    requires Consistent(s)
    requires IsFirstWithId(s.records, k, id)
    requires s.records[k].user == user && s.records[k].jan !in CurrencyCodes
    ensures Consistent(CancelRecord(s, user, id))
  {
    var t := CancelRecord(s, user, id);
    forall jan | jan !in [s.records[k].jan]
      ensures StockLevel(s.stock, s.records, jan) == StockLevel(s.stock, t.records, jan)
    {
      StockAfterRemoval(s.stock, s.records, k, jan);
    }
    StocksMatchAfter(s.catalog, t.catalog, s.stock, s.records, t.records, [s.records[k].jan]);
    forall u | u != user
      ensures Balance(s.records, u) == Balance(t.records, u)
    {
      BalanceAfterRemoval(s.records, k, u);
    }
    PointsMatchAfter(s.users, t.users, s.records, t.records, user);
    DrawerAfterRemoval(s.records, k);
  }

  /** An id with no active record leaves the store as it was. */
  lemma CancelUnknownIsNoop(s: State, user: string, id: nat)
    requires forall k :: 0 <= k < |s.records| ==> s.records[k].id != id
    ensures CancelRecord(s, user, id) == s
  {
  }

  // ---------------------------------------------------------------------------
  // put_withdraw and get_bank

  /** A withdrawal moves the bank total by exactly its amount and leaves the
      drawer row where and as it was, unless it is the first `Labshop` row. */
  lemma {:induction false} PutWithdrawEffects(s: State, user: string, amount: int, now: Timestamp)
    ensures GetBank(PutWithdraw(s, user, amount, now)) == GetBank(s) + amount
    ensures HasDrawer(PutWithdraw(s, user, amount, now).bank) <==> HasDrawer(s.bank) || user == Labshop
    ensures HasDrawer(s.bank) ==>
      && DrawerIndex(PutWithdraw(s, user, amount, now).bank) == DrawerIndex(s.bank)
      && PutWithdraw(s, user, amount, now).bank[DrawerIndex(s.bank)] == s.bank[DrawerIndex(s.bank)]
  {
    var t := PutWithdraw(s, user, amount, now);
    assert t.bank == s.bank + [BankRow(user, amount, now)];
    SumAppend(s.bank, BankRow(user, amount, now), AmountOf());
    FirstIndexAppend(s.bank, BankRow(user, amount, now), RowOfUser(Labshop));
    DrawerIndexIsDrawerRow(s.bank);
    DrawerIndexIsDrawerRow(t.bank);
  }

  /** A withdrawal by anyone but `Labshop` keeps the cache invariant. */
  lemma PutWithdrawPreservesConsistent(s: State, user: string, amount: int, now: Timestamp)
    requires Consistent(s)
    requires user != Labshop
    ensures Consistent(PutWithdraw(s, user, amount, now))
  {
    PutWithdrawEffects(s, user, amount, now);
    DrawerIndexIsDrawerRow(s.bank);
    DrawerIndexIsDrawerRow(PutWithdraw(s, user, amount, now).bank);
  }

  // ---------------------------------------------------------------------------
  // add_user

  /** Registering with the default point 0 keeps the cache invariant when the new
      uid has no sales on record, and only then: a uid with sales would be cached as 0
      while its balance is not. A refused registration changes nothing. */
  lemma {:induction false} AddUserKeepsConsistent(s: State, uid: string, password: string, salt: string,
                                                  group: string, name: string, now: Timestamp)
    requires Consistent(s)
    ensures Balance(s.records, uid) == 0 ==> Consistent(AddUser(s, uid, password, salt, group, name, 0, now).1)
    ensures var (added, t) := AddUser(s, uid, password, salt, group, name, 0, now);
      added && Consistent(t) ==> Balance(s.records, uid) == 0
  {
    var t := AddUser(s, uid, password, salt, group, name, 0, now).1;
    if t != s {
      assert IsFirstWithUid(t.users, |s.users|);
      if Balance(s.records, uid) == 0 {
        forall i | IsFirstWithUid(t.users, i)
          ensures t.users[i].point == Balance(t.records, t.users[i].uid)
        {
          if i < |s.users| {
            assert IsFirstWithUid(s.users, i);
          }
        }
      }
    }
  }

  // ---------------------------------------------------------------------------
  // Restocking: put_stock for each line, then update_all_stock

  /** Recomputing all stock establishes the stock part of the invariant and
      leaves balances and the drawer alone. */
  lemma UpdateAllStockConsistent(s: State)
    requires PointsConsistent(s) && DrawerConsistent(s)
    ensures Consistent(UpdateAllStock(s))
  {
    SameJansSameFirsts(s.catalog, UpdateAllStock(s).catalog);
  }

  /** A restock keeps the cache invariant and raises the stock of the first
      item with the receipt's (non-denomination) jan by quantity times divide. */
  lemma {:induction false} RestockEffects(s: State, user: string, e: StockEntry, now: Timestamp)
    requires Consistent(s)
    ensures Consistent(UpdateAllStock(PutStock(s, user, e, now)))
    ensures var t := UpdateAllStock(PutStock(s, user, e, now));
      forall i :: 0 <= i < |s.catalog| && IsFirstWithJan(s.catalog, i) && s.catalog[i].jan == e.jan
                  && !IsLargeCoin(e.jan) && !IsSmallCoin(e.jan) ==>
        t.catalog[i].stocks == s.catalog[i].stocks + e.quantity * e.divide
  {
    var p := PutStock(s, user, e, now);
    assert p.stock == s.stock + [Receipt(e.jan, e.cost, e.quantity, e.divide, user, now)];
    UpdateAllStockConsistent(p);
    StockAfterReceipt(s.stock, s.records, Receipt(e.jan, e.cost, e.quantity, e.divide, user, now), e.jan);
  }

  // ---------------------------------------------------------------------------
  // build_catelog

  /** After a completed catalog import every item a query by jan finds carries its stock
      level, and balances and the drawer are untouched. */
  lemma BuildCatalogPreservesConsistent(s: State, feed: seq<FeedCategory>)
    requires Consistent(s)
    ensures BuildCatalog(s, feed).Some? ==> Consistent(BuildCatalog(s, feed).value)
  {
    if BuildCatalog(s, feed).Some? {
      SameJansSameFirsts(FeedItems(feed), BuildCatalog(s, feed).value.catalog);
    }
  }

  // ---------------------------------------------------------------------------
  // charge_guest

  /** A guest charge moves the guest's balance by its amount but recomputes
      nothing, so a non-zero charge leaves a consistent guest account stale. */
  lemma {:induction false} ChargeGuestLeavesGuestStale(s: State, amount: int, now: Timestamp, i: int)
    requires Consistent(s)
    requires 0 <= i < |s.users| && IsFirstWithUid(s.users, i) && s.users[i].uid == Guest
    requires amount != 0
    ensures Balance(ChargeGuest(s, amount, now).records, Guest) == Balance(s.records, Guest) + amount
    ensures !PointsConsistent(ChargeGuest(s, amount, now))
  {
    var t := ChargeGuest(s, amount, now);
    SumAppend(s.records, Record(s.nextId, Guest, Guest, amount, now), PriceOfUser(Guest));
    assert t.users == s.users;
  }

  // ---------------------------------------------------------------------------
  // get_item_stat

  /** For a non-denomination item, units bought minus units sold in its
      statistics row is its stock level; in a consistent store, for the item a
      query by jan finds, that is its cached stock. */
  lemma StatMatchesStock(s: State, i: int)
    requires 0 <= i < |s.catalog| && !IsLargeCoin(s.catalog[i].jan) && !IsSmallCoin(s.catalog[i].jan)
    ensures StatOf(s, s.catalog[i]).nbuy - StatOf(s, s.catalog[i]).nsell
         == StockLevel(s.stock, s.records, s.catalog[i].jan)
    ensures StocksConsistent(s) && IsFirstWithJan(s.catalog, i) ==>
      StatOf(s, s.catalog[i]).nbuy - StatOf(s, s.catalog[i]).nsell == s.catalog[i].stocks
  {
  }

  /** When every active record of an item was sold at its current catalog
      price, its sales are its shelf price times the units sold. */
  lemma {:induction false} StatSellAtShelfPrice(s: State, it: Item)
    requires forall k :: 0 <= k < |s.records| && s.records[k].jan == it.jan ==> s.records[k].price == it.price
    ensures StatOf(s, it).sell == StatOf(s, it).price * StatOf(s, it).nsell
  {
    PricesOfUniformJan(s.records, it.jan, it.price);
  }

  /** With no receipts and no records every figure of an item's row is zero. */
  lemma StatOfEmptyLedger(s: State, it: Item)
    requires s.stock == [] && s.records == []
    ensures var a := StatOf(s, it);
      a.buy == 0 && a.nbuy == 0 && a.sell == 0 && a.nsell == 0 && a.profit == 0
  {
  }

  /** A receipt for the item's jan adds cost times quantity to its purchases and
      quantity times divide to its units bought; a receipt for another jan
      changes nothing. Sales are untouched either way. */
  lemma {:induction false} StatAfterReceipt(s: State, user: string, e: StockEntry, now: Timestamp, it: Item)
    ensures var a := StatOf(s, it);
      var b := StatOf(PutStock(s, user, e, now), it);
      && b.buy == a.buy + (if e.jan == it.jan then e.cost * e.quantity else 0)
      && b.nbuy == a.nbuy + (if e.jan == it.jan then e.quantity * e.divide else 0)
      && b.sell == a.sell && b.nsell == a.nsell
  {
    var r := Receipt(e.jan, e.cost, e.quantity, e.divide, user, now);
    assert PutStock(s, user, e, now).stock == s.stock + [r];
    SumAppend(s.stock, r, CostOf(it.jan));
    SumAppend(s.stock, r, UnitsOf(it.jan));
  }

  /** Appended records move an item's sales by minus their prices for its jan
      and its units sold by their number for its jan; purchases are untouched. */
  lemma {:induction false} StatAfterRecords(s: State, t: State, it: Item, added: seq<Record>)
    requires t.stock == s.stock && t.records == s.records + added
    ensures var a := StatOf(s, it);
      var b := StatOf(t, it);
      && b.buy == a.buy && b.nbuy == a.nbuy
      && b.sell == a.sell - PricesOfJan(added, it.jan)
      && b.nsell == a.nsell + UnitsSold(added, it.jan)
  {
    SumConcat(s.records, added, PriceOfJan(it.jan));
    SumConcat(s.records, added, SoldOf(it.jan));
  }

  /** Removing the record at `k` gives back its price to the sales of its jan's
      item and takes one off its units sold; other items' rows are unchanged. */
  lemma {:induction false} StatAfterRemoval(s: State, t: State, it: Item, k: int)
    requires 0 <= k < |s.records|
    requires t.stock == s.stock && t.records == s.records[..k] + s.records[k + 1..]
    ensures var a := StatOf(s, it);
      var b := StatOf(t, it);
      && b.buy == a.buy && b.nbuy == a.nbuy
      && b.sell == a.sell + (if s.records[k].jan == it.jan then s.records[k].price else 0)
      && b.nsell == a.nsell - (if s.records[k].jan == it.jan then 1 else 0)
  {
    SumRemoveAt(s.records, k, PriceOfJan(it.jan));
    SumRemoveAt(s.records, k, SoldOf(it.jan));
  }

  // ---------------------------------------------------------------------------
  // Record ids

  predicate IdsBelow(records: seq<Record>, n: nat) {
    forall i :: 0 <= i < |records| ==> records[i].id < n
  }

  predicate IdsDistinct(records: seq<Record>) {
    forall i, j :: 0 <= i < j < |records| ==> records[i].id != records[j].id
  }

  predicate IdsDisjoint(a: seq<Record>, b: seq<Record>) {
    forall i, j :: 0 <= i < |a| && 0 <= j < |b| ==> a[i].id != b[j].id
  }

  /** Every record id, active or cancelled, is unique and was drawn below `nextId`. */
  predicate WellFormed(s: State) {
    && IdsBelow(s.records, s.nextId) && IdsBelow(s.cancelled, s.nextId)
    && IdsDistinct(s.records) && IdsDistinct(s.cancelled)
    && IdsDisjoint(s.records, s.cancelled)
  }

  /** Appending records with consecutive fresh ids keeps ids unique. */
  lemma AppendFreshKeepsWellFormed(s: State, t: State, added: seq<Record>)
    requires WellFormed(s)
    requires t.records == s.records + added && t.cancelled == s.cancelled && t.nextId == s.nextId + |added|
    requires forall k :: 0 <= k < |added| ==> added[k].id == s.nextId + k
    ensures WellFormed(t)
  {
  }

  /** `put_record`, complete or aborted, keeps record ids unique. */
  lemma PutRecordKeepsWellFormed(s: State, user: string, jans: seq<string>, now: Timestamp)
    requires WellFormed(s)
    ensures WellFormed(PutRecord(s, user, jans, now).state)
  {
    var t := PutRecord(s, user, jans, now).state;
    var added := NewRecords(s, user, jans, now)[..t.nextId - s.nextId];
    AppendFreshKeepsWellFormed(s, t, added);
  }

  /** `charge_guest` keeps record ids unique. */
  lemma ChargeGuestKeepsWellFormed(s: State, amount: int, now: Timestamp)
    requires WellFormed(s)
    ensures WellFormed(ChargeGuest(s, amount, now))
  {
    AppendFreshKeepsWellFormed(s, ChargeGuest(s, amount, now), [Record(s.nextId, Guest, Guest, amount, now)]);
  }

  /** Removing the record at `k` keeps the remaining ids distinct and below the bound. */
  lemma RemoveAtKeepsIds(records: seq<Record>, k: int, n: nat)
    requires 0 <= k < |records|
    requires IdsDistinct(records) && IdsBelow(records, n)
    ensures var rest := records[..k] + records[k + 1..];
      && IdsDistinct(rest) && IdsBelow(rest, n)
      && forall i :: 0 <= i < |rest| ==> rest[i].id != records[k].id
  {
    var rest := records[..k] + records[k + 1..];
    assert forall i :: 0 <= i < |rest| ==> rest[i] == records[if i < k then i else i + 1];
  }

  /** Moving the record at `k` from the active records to the end of the
      archive keeps ids unique and below the bound. */
  lemma ArchiveKeepsIds(records: seq<Record>, cancelled: seq<Record>, k: int, n: nat)
    requires 0 <= k < |records|
    requires IdsBelow(records, n) && IdsBelow(cancelled, n)
    requires IdsDistinct(records) && IdsDistinct(cancelled) && IdsDisjoint(records, cancelled)
    ensures var rest := records[..k] + records[k + 1..];
      var archive := cancelled + [records[k]];
      && IdsBelow(rest, n) && IdsBelow(archive, n)
      && IdsDistinct(rest) && IdsDistinct(archive) && IdsDisjoint(rest, archive)
  {
    var rest := records[..k] + records[k + 1..];
    var archive := cancelled + [records[k]];
    RemoveAtKeepsIds(records, k, n);
    assert forall j :: 0 <= j < |cancelled| ==> cancelled[j].id != records[k].id;
    assert forall j :: 0 <= j < |archive| ==> archive[j] == if j < |cancelled| then cancelled[j] else records[k];
    assert forall i :: 0 <= i < |rest| ==> rest[i] == records[if i < k then i else i + 1];
  }

  /** Moving a record to the archive keeps ids unique, and the cancelled id is
      no longer active. */
  lemma {:induction false} CancelRecordKeepsWellFormed(s: State, user: string, id: nat)
    requires WellFormed(s)
    ensures WellFormed(CancelRecord(s, user, id))
    ensures forall k :: 0 <= k < |CancelRecord(s, user, id).records| ==> CancelRecord(s, user, id).records[k].id != id
  {
    var k := FirstIndex(s.records, RecordHasId(id));
    if k < |s.records| {
      assert IsFirstWithId(s.records, k, id);
      ArchiveKeepsWellFormed(s, CancelRecord(s, user, id), k);
    }
  }

  /** A store whose record at `k` was moved to the archive keeps ids unique,
      and no active record carries the moved record's id. */
  lemma ArchiveKeepsWellFormed(s: State, t: State, k: int)
    requires WellFormed(s) && 0 <= k < |s.records|
    requires t.records == s.records[..k] + s.records[k + 1..]
    requires t.cancelled == s.cancelled + [s.records[k]] && t.nextId == s.nextId
    ensures WellFormed(t)
    ensures forall i :: 0 <= i < |t.records| ==> t.records[i].id != s.records[k].id
  {
    RemoveAtKeepsIds(s.records, k, s.nextId);
    ArchiveKeepsIds(s.records, s.cancelled, k, s.nextId);
  }

  /** Cancelling the same id twice is the same as cancelling it once: the
      second call finds no active record and does nothing. */
  lemma CancelTwiceIsNoop(s: State, user: string, user2: string, id: nat)
    requires WellFormed(s)
    ensures CancelRecord(CancelRecord(s, user, id), user2, id) == CancelRecord(s, user, id)
  {
    CancelRecordKeepsWellFormed(s, user, id);
  }

  // ---------------------------------------------------------------------------
  // Where cancel_record breaks the cache invariant

  const Alice := User("alice", "", "", "user", "Alice", -100, "t0")
  const Bob := User("bob", "", "", "user", "Bob", 0, "t0")

  /** A store with Alice's one record for `jan` at `price` and every cache up to date. */
  function OneSale(jan: string, price: int): State {
    var rec := Record(0, "alice", jan, price, "t1");
    State([Alice.(point := price), Bob], [Item(jan, jan, price, 0, 1, StockLevel([], [rec], jan), "c", 0)], [], [],
          [rec], [], [BankRow(Labshop, if jan in CurrencyCodes then price else 0, "t1")], 1)
  }

  /** The sum over a single element is its weight. */
  lemma SumSingle<T>(x: T, f: T -> int)
    ensures Sum([x], f) == f(x)
  {
    assert [x][1..] == [];
  }

  /** Every cache of `OneSale` is up to date. */
  lemma OneSaleConsistent(jan: string, price: int)
    ensures Consistent(OneSale(jan, price))
  {
    var s := OneSale(jan, price);
    var rec := s.records[0];
    assert s.records == [rec];
    SumSingle(rec, PriceOfUser("alice"));
    SumSingle(rec, PriceOfUser("bob"));
    SumSingle(rec, PriceIfCurrency());
    assert IsFirstWithUid(s.users, 1);
    DrawerIndexIsDrawerRow(s.bank);
    assert DrawerIndex(s.bank) == 0;
  }

  /** When Bob cancels Alice's record, the balance recomputed is Bob's, so
      Alice's cached balance goes stale. */
  lemma CancelByOtherUserLeavesOwnerStale()
    ensures Consistent(OneSale("x", -100))
    ensures CancelRecord(OneSale("x", -100), "bob", 0).users[0].point == -100
    ensures Balance(CancelRecord(OneSale("x", -100), "bob", 0).records, "alice") == 0
    ensures !Consistent(CancelRecord(OneSale("x", -100), "bob", 0))
  {
    var s := OneSale("x", -100);
    OneSaleConsistent("x", -100);
    assert IsFirstWithId(s.records, 0, 0);
    var t := CancelRecord(s, "bob", 0);
    assert t.records == [];
    assert t.users[0] == s.users[0];
    assert IsFirstWithUid(t.users, 0);
    assert !PointsConsistent(t);
  }

  /** Cancelling a currency record does not recompute the drawer, so the drawer
      row keeps the cancelled amount. */
  lemma CancelCurrencyLeavesDrawerStale()
    ensures Consistent(OneSale("100yen", 100))
    ensures CancelRecord(OneSale("100yen", 100), "alice", 0).bank[0].amount == 100
    ensures DrawerTotal(CancelRecord(OneSale("100yen", 100), "alice", 0).records) == 0
    ensures !DrawerConsistent(CancelRecord(OneSale("100yen", 100), "alice", 0))
  {
    var s := OneSale("100yen", 100);
    OneSaleConsistent("100yen", 100);
    assert IsFirstWithId(s.records, 0, 0);
    var t := CancelRecord(s, "alice", 0);
    assert t.records == [];
    DrawerIndexIsDrawerRow(t.bank);
    assert DrawerIndex(t.bank) == 0;
  }

  // ---------------------------------------------------------------------------
  // A worked scenario

  const SodaFeed := [FeedCategory("drink", "Drinks", [FeedGood("SODA", "Soda", 150, 80, 1)])]
  const UserA := User("userA", "h", "salt", "user", "A", 0, "t0")
  const SodaRestock := StockEntry("SODA", 80, 24, 1)

  /** The stores of the scenario, step by step. */
  function Registered(): State {
    AddUser(Empty, "userA", "h", "salt", "user", "A", 0, "t0").1
  }

  function Imported(): Option<State> {
    BuildCatalog(Registered(), SodaFeed)
  }

  function Restocked(): State {
    assert GoodsBefore(SodaFeed, |SodaFeed|) == 1;
    UpdateAllStock(PutStock(Imported().value, "userA", SodaRestock, "t1"))
  }

  function Sold(): Outcome {
    PutRecord(Restocked(), "userA", ["SODA"], "t2")
  }

  function Cancelled(): State {
    CancelRecord(Sold().state, "userA", 0)
  }

  function Soda(stocks: int): Item {
    Item("SODA", "Soda", -150, 80, 1, stocks, "drink", 0)
  }

  /** The SODA feed lists one item, SODA, with no stock. */
  lemma SodaFeedItems()
    ensures FeedItems(SodaFeed) == [Soda(0)]
  {
    FeedItemsPosition(SodaFeed, 0, 0);
    assert GoodsBefore(SodaFeed, 1) == 1;
  }

  /** Importing the SODA feed into a store holding only `userA`. */
  lemma {:induction false} ImportSoda(s1: State)
    requires s1.users == [UserA] && s1.catalog == [] && s1.records == [] && s1.stock == [] && s1.bank == [] && s1.nextId == 0
    ensures BuildCatalog(s1, SodaFeed).Some?
    ensures var t := BuildCatalog(s1, SodaFeed).value;
      && Consistent(t)
      && t.users == [UserA] && t.records == [] && t.stock == [] && t.nextId == 0
      && t.catalog == [Soda(0)]
  {
    assert Consistent(s1) by {
      assert IsFirstWithUid(s1.users, 0);
    }
    SodaFeedItems();
    assert GoodsBefore(SodaFeed, |SodaFeed|) == 1;
    BuildCatalogPreservesConsistent(s1, SodaFeed);
    var t := BuildCatalog(s1, SodaFeed).value;
    assert IsFirstWithJan(FeedItems(SodaFeed), 0);
    assert t.catalog[0] == Soda(0);
  }

  /** Restocking 24 SODA into the imported store. */
  lemma {:induction false} RestockSoda(s2: State)
    requires Consistent(s2)
    requires s2.users == [UserA] && s2.records == [] && s2.stock == [] && s2.nextId == 0
    requires s2.catalog == [Soda(0)]
    ensures var t := UpdateAllStock(PutStock(s2, "userA", SodaRestock, "t1"));
      && Consistent(t)
      && t.users == [UserA] && t.records == [] && t.nextId == 0
      && t.stock == [Receipt("SODA", 80, 24, 1, "userA", "t1")]
      && t.catalog == [Soda(24)]
  {
    assert IsFirstWithJan(s2.catalog, 0);
    assert !IsLargeCoin("SODA") && !IsSmallCoin("SODA");
    RestockEffects(s2, "userA", SodaRestock, "t1");
  }

  /** The one SODA sale, once its batch is appended and recomputed. */
  lemma {:induction false} SodaSaleShape(s3: State, t: State, added: seq<Record>)
    requires s3.users == [UserA] && s3.records == []
    requires s3.stock == [Receipt("SODA", 80, 24, 1, "userA", "t1")]
    requires s3.catalog == [Soda(24)]
    requires added == [Record(0, "userA", "SODA", -150, "t2")]
    requires RecomputedAfterBatch(s3, t, "userA", ["SODA"], added)
    ensures t.records == [Record(0, "userA", "SODA", -150, "t2")]
    ensures t.catalog == [Soda(23)]
    ensures t.users == [UserA.(point := -150)]
  {
    var rec := added[0];
    assert t.records == [rec];
    assert IsFirstWithJan(s3.catalog, 0) && IsFirstWithUid(s3.users, 0);
    assert !IsLargeCoin("SODA") && !IsSmallCoin("SODA");
    SumSingle(s3.stock[0], UnitsOf("SODA"));
    SumSingle(rec, SoldOf("SODA"));
    SumSingle(rec, PriceOfUser("userA"));
  }

  /** Selling one SODA to `userA` from the restocked store. */
  lemma {:induction false} SellOneSoda(s3: State)
    requires Consistent(s3)
    requires s3.users == [UserA] && s3.records == [] && s3.nextId == 0
    requires s3.stock == [Receipt("SODA", 80, 24, 1, "userA", "t1")]
    requires s3.catalog == [Soda(24)]
    ensures PutRecord(s3, "userA", ["SODA"], "t2").Done?
    ensures var t := PutRecord(s3, "userA", ["SODA"], "t2").state;
      && Consistent(t)
      && t.records == [Record(0, "userA", "SODA", -150, "t2")]
      && t.catalog == [Soda(23)]
      && t.users == [UserA.(point := -150)]
  {
    assert s3.catalog[0].jan == "SODA";
    assert InCatalog(s3.catalog, "SODA");
    assert IsFirstWithJan(s3.catalog, 0);
    var added := NewRecords(s3, "userA", ["SODA"], "t2");
    assert added == [Record(0, "userA", "SODA", -150, "t2")];
    PutRecordPreservesConsistent(s3, "userA", ["SODA"], "t2");
    PutRecordShape(s3, "userA", ["SODA"], "t2");
    SodaSaleShape(s3, PutRecord(s3, "userA", ["SODA"], "t2").state, added);
  }

  /** Cancelling that sale. */
  lemma {:induction false} CancelTheSoda(s4: State)
    requires Consistent(s4)
    requires s4.records == [Record(0, "userA", "SODA", -150, "t2")]
    requires s4.catalog == [Soda(23)]
    requires s4.users == [UserA.(point := -150)]
    ensures CancelRecord(s4, "userA", 0).catalog == [Soda(24)]
    ensures CancelRecord(s4, "userA", 0).users == [UserA]
  {
    assert IsFirstWithId(s4.records, 0, 0);
    assert !IsLargeCoin("SODA") && !IsSmallCoin("SODA");
    assert IsFirstWithJan(s4.catalog, 0) && IsFirstWithUid(s4.users, 0);
    CancelRecordEffects(s4, "userA", 0, 0);
  }

  /** In a store with one item and one account, each is what its query finds. */
  lemma SoleEntries(s: State)
    requires |s.catalog| == 1 && |s.users| == 1
    ensures GetItem(s, s.catalog[0].jan) == Some(s.catalog[0])
    ensures GetUser(s, s.users[0].uid) == Some(s.users[0])
  {
    assert IsFirstWithJan(s.catalog, 0) && IsFirstWithUid(s.users, 0);
  }

  /** Import one item SODA sold at 150, restock 24 units, sell one to `userA`,
      then cancel that sale: the stock goes 24, 23, 24 and the balance of
      `userA` goes -150, then back to 0. */
  lemma {:induction false} SodaScenario()
    ensures Imported().Some?
    ensures GetItem(Restocked(), "SODA") == Some(Soda(24)) && GetUser(Restocked(), "userA") == Some(UserA)
    ensures Sold().Done?
    ensures GetItem(Sold().state, "SODA") == Some(Soda(23))
    ensures GetUser(Sold().state, "userA") == Some(UserA.(point := -150))
    ensures GetItem(Cancelled(), "SODA") == Some(Soda(24)) && GetUser(Cancelled(), "userA") == Some(UserA)
  {
    var s1 := Registered();
    assert s1.users == [UserA] && s1.catalog == [];
    ImportSoda(s1);
    RestockSoda(Imported().value);
    SellOneSoda(Restocked());
    CancelTheSoda(Sold().state);
    SoleEntries(Restocked());
    SoleEntries(Sold().state);
    SoleEntries(Cancelled());
  }
}
