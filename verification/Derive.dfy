/** The closed-form definitions of every cached aggregate, as sums and counts
    over the current (active) event collections, and how each one moves when
    an event is appended or removed. */
module Derive {
  import opened Seqs
  import opened Shop

  /** Per-event weights. */
  function UnitsOf(jan: string): Receipt -> int {
    (r: Receipt) => if r.jan == jan then r.quantity * r.divide else 0
  }

  function CostOf(jan: string): Receipt -> int {
    (r: Receipt) => if r.jan == jan then r.cost * r.quantity else 0
  }

  function SoldOf(jan: string): Record -> int {
    (r: Record) => if r.jan == jan then 1 else 0
  }

  function PriceOfJan(jan: string): Record -> int {
    (r: Record) => if r.jan == jan then r.price else 0
  }

  function PriceOfUser(uid: string): Record -> int {
    (r: Record) => if r.user == uid then r.price else 0
  }

  function PriceIfCurrency(): Record -> int {
    (r: Record) => if r.jan in CurrencyCodes then r.price else 0
  }

  function PriceAll(): Record -> int {
    (r: Record) => r.price
  }

  function AmountOf(): BankRow -> int {
    (b: BankRow) => b.amount
  }

  /** Units received for `jan`: the sum of quantity times divide over its receipts. */
  function UnitsReceived(stock: seq<Receipt>, jan: string): int {
    Sum(stock, UnitsOf(jan))
  }

  /** Money spent on `jan`: the sum of cost times quantity over its receipts. */
  function AmountPaid(stock: seq<Receipt>, jan: string): int {
    Sum(stock, CostOf(jan))
  }

  /** The number of active records for `jan`. */
  function UnitsSold(records: seq<Record>, jan: string): int {
    Sum(records, SoldOf(jan))
  }

  /** The sum of the (negative) prices of the active records for `jan`. */
  function PricesOfJan(records: seq<Record>, jan: string): int {
    Sum(records, PriceOfJan(jan))
  }

  /** The sum of the prices of all the given records. */
  function TotalPrice(records: seq<Record>): int {
    Sum(records, PriceAll())
  }

  /** An account's balance: the sum of the prices of its active records. */
  function Balance(records: seq<Record>, uid: string): int {
    Sum(records, PriceOfUser(uid))
  }

  /** The drawer aggregate: the sum of the prices of the active records whose
      jan is exactly one of the five currency codes. */
  function DrawerTotal(records: seq<Record>): int {
    Sum(records, PriceIfCurrency())
  }

  /** The stock level of `jan`: a fixed sentinel for jans that end in a
      denomination code (large ones checked first), otherwise the units received
      minus the units sold, with no lower bound. */
  function StockLevel(stock: seq<Receipt>, records: seq<Record>, jan: string): int {
    if IsLargeCoin(jan) then LargeCoinStock
    else if IsSmallCoin(jan) then SmallCoinStock
    else UnitsReceived(stock, jan) - UnitsSold(records, jan)
  }

  /** The jans of a sequence of records, in order. */
  function JansOf(records: seq<Record>): seq<string> {
    Map(records, (r: Record) => r.jan)
  }

  /** The count of active records for `jan` is the multiplicity of `jan`
      among the records' jans. */
  lemma {:induction false} UnitsSoldIsMultiplicity(records: seq<Record>, jan: string)
    ensures UnitsSold(records, jan) == multiset(JansOf(records))[jan]
    decreases |records|
  {
    if |records| > 0 {
      UnitsSoldIsMultiplicity(records[1..], jan);
      assert JansOf(records) == [records[0].jan] + JansOf(records[1..]);
    }
  }

  /** The count of records for a jan never exceeds the number of records. */
  lemma {:induction false} UnitsSoldBounds(records: seq<Record>, jan: string)
    ensures 0 <= UnitsSold(records, jan) <= |records|
    decreases |records|
  {
    if |records| > 0 {
      UnitsSoldBounds(records[1..], jan);
    }
  }

  /** Currency sentinel: a jan ending in a denomination code has a fixed stock
      level whatever the receipts and records are. */
  lemma CurrencySentinel(stock: seq<Receipt>, records: seq<Record>, jan: string)
    ensures IsLargeCoin(jan) ==> StockLevel(stock, records, jan) == 1
    ensures IsSmallCoin(jan) ==> StockLevel(stock, records, jan) == 4
  {
    if IsSmallCoin(jan) {
      LargeSmallDisjoint(jan);
    }
  }

  /** No jan ends in both a large and a small denomination code, so the order
      in which the two suffix tests are made never matters. */
  lemma LargeSmallDisjoint(jan: string)
    ensures !(IsLargeCoin(jan) && IsSmallCoin(jan))
  {
    if IsLargeCoin(jan) && IsSmallCoin(jan) {
      var n := |jan|;
      // The fifth and sixth characters from the end tell the five suffixes apart.
      var large5 := if EndsWith(jan, "50yen") then '5' else '0';
      var small5 := if EndsWith(jan, "10yen") then '1' else '0';
      if EndsWith(jan, "1000yen") { SuffixChar(jan, "1000yen", 2); }
      if EndsWith(jan, "500yen") { SuffixChar(jan, "500yen", 1); }
      if EndsWith(jan, "50yen") { SuffixChar(jan, "50yen", 0); }
      if EndsWith(jan, "100yen") { SuffixChar(jan, "100yen", 1); }
      if EndsWith(jan, "10yen") { SuffixChar(jan, "10yen", 0); }
      assert jan[n - 5] == large5 && jan[n - 5] == small5;
      if EndsWith(jan, "1000yen") { SuffixChar(jan, "1000yen", 1); }
      if EndsWith(jan, "500yen") { SuffixChar(jan, "500yen", 0); }
      if EndsWith(jan, "100yen") { SuffixChar(jan, "100yen", 0); }
      assert false;
    }
  }

  /** The `i`-th character of a suffix is found at the matching place in the string. */
  lemma SuffixChar(s: string, suffix: string, i: int)
    requires EndsWith(s, suffix) && 0 <= i < |suffix|
    ensures s[|s| - |suffix| + i] == suffix[i]
  {
    assert s[|s| - |suffix|..][i] == suffix[i];
  }

  /** Each of the five exact currency codes is also a suffix-classified
      denomination, so it has a sentinel stock level. */
  lemma CurrencyCodesAreCoins(jan: string)
    requires jan in CurrencyCodes
    ensures IsLargeCoin(jan) || IsSmallCoin(jan)
  {
  }

  /** The converse fails: a jan that merely ends in a denomination code gets a
      sentinel stock level but is not counted in the drawer. */
  lemma SuffixCoinNotInDrawer()
    ensures IsSmallCoin("x100yen") && "x100yen" !in CurrencyCodes
  {
    assert "x100yen"[1..] == "100yen";
  }

  /** Appending one receipt moves the stock level of its own jan by the units
      it brings, unless that jan is a denomination; other jans do not move. */
  lemma StockAfterReceipt(stock: seq<Receipt>, records: seq<Record>, r: Receipt, jan: string)
    ensures StockLevel(stock + [r], records, jan)
         == StockLevel(stock, records, jan)
            + (if r.jan == jan && !IsLargeCoin(jan) && !IsSmallCoin(jan) then r.quantity * r.divide else 0)
  {
    SumAppend(stock, r, UnitsOf(jan));
  }

  /** Appending records lowers the stock level of a non-denomination jan by
      the number of appended records for it. */
  lemma StockAfterRecords(stock: seq<Receipt>, records: seq<Record>, added: seq<Record>, jan: string)
    ensures StockLevel(stock, records + added, jan)
         == StockLevel(stock, records, jan)
            - (if !IsLargeCoin(jan) && !IsSmallCoin(jan) then UnitsSold(added, jan) else 0)
  {
    SumConcat(records, added, SoldOf(jan));
  }

  /** Removing the record at `k` raises the stock level of its jan by one,
      unless that jan is a denomination; other jans do not move. */
  lemma StockAfterRemoval(stock: seq<Receipt>, records: seq<Record>, k: int, jan: string)
    requires 0 <= k < |records|
    ensures StockLevel(stock, records[..k] + records[k + 1..], jan)
         == StockLevel(stock, records, jan)
            + (if records[k].jan == jan && !IsLargeCoin(jan) && !IsSmallCoin(jan) then 1 else 0)
  {
    SumRemoveAt(records, k, SoldOf(jan));
  }

  /** Balance additivity: appending records adds their prices for that account. */
  lemma BalanceAfterRecords(records: seq<Record>, added: seq<Record>, uid: string)
    ensures Balance(records + added, uid) == Balance(records, uid) + Balance(added, uid)
  {
    SumConcat(records, added, PriceOfUser(uid));
  }

  /** Removing the record at `k` takes its price off its owner's balance only. */
  lemma BalanceAfterRemoval(records: seq<Record>, k: int, uid: string)
    requires 0 <= k < |records|
    ensures Balance(records[..k] + records[k + 1..], uid)
         == Balance(records, uid) - (if records[k].user == uid then records[k].price else 0)
  {
    SumRemoveAt(records, k, PriceOfUser(uid));
  }

  /** When every record belongs to `uid`, its balance is the sum of all prices. */
  lemma {:induction false} BalanceOfOwnRecords(records: seq<Record>, uid: string)
    requires forall i :: 0 <= i < |records| ==> records[i].user == uid
    ensures Balance(records, uid) == TotalPrice(records)
    decreases |records|
  {
    if |records| > 0 {
      BalanceOfOwnRecords(records[1..], uid);
    }
  }

  /** The drawer aggregate moves by the prices of appended currency records. */
  lemma DrawerAfterRecords(records: seq<Record>, added: seq<Record>)
    ensures DrawerTotal(records + added) == DrawerTotal(records) + DrawerTotal(added)
  {
    SumConcat(records, added, PriceIfCurrency());
  }

  /** Removing the record at `k` changes the drawer aggregate exactly when its
      jan is a currency code. */
  lemma DrawerAfterRemoval(records: seq<Record>, k: int)
    requires 0 <= k < |records|
    ensures DrawerTotal(records[..k] + records[k + 1..])
         == DrawerTotal(records) - (if records[k].jan in CurrencyCodes then records[k].price else 0)
  {
    SumRemoveAt(records, k, PriceIfCurrency());
  }

  /** When every record of `jan` carries the same price, the prices of `jan`
      sum to that price times the number of records. */
  lemma {:induction false} PricesOfUniformJan(records: seq<Record>, jan: string, price: int)
    requires forall i :: 0 <= i < |records| && records[i].jan == jan ==> records[i].price == price
    ensures PricesOfJan(records, jan) == price * UnitsSold(records, jan)
    decreases |records|
  {
    if |records| > 0 {
      PricesOfUniformJan(records[1..], jan, price);
    }
  }
}
