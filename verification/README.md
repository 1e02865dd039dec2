# Shop ledger engine — a Dafny model

This project models the ledger engine of a small self-service shop, as implemented in
`database.py`. The shop keeps append-only event collections:

- stock receipts (`put_stock`);
- active purchase records (`put_record`, `charge_guest`);
- cancelled records (`cancel_record`);
- bank rows (`put_withdraw`, plus the upserted `labshop` drawer row).

From these collections it recomputes cached aggregates:

- the per-item `stocks` (`update_stock`, `update_all_stock`);
- the per-account `point` balance (`update_user`, `update_all_users`);
- the cash-drawer row (`update_bank`).

Two more operations complete the engine. `build_catelog` replaces the catalog and the
categories wholesale from an import feed. `get_item_stat` reports what was bought and
sold per item.

The whole store is one immutable `State` value, and every operation is a pure function
from state to state.

- **Collections.** Each collection is a `seq`, kept in insertion order. Queries and
  non-multi updates act on the first matching document (`FirstIndex`, `IsFirstWithJan`,
  `IsFirstWithUid`, `IsDrawerRow`). This is the natural-order behaviour of `find_one`
  and of a non-multi `update`.
- **Aggregates.** Every cached aggregate has a closed-form definition as a sum or a
  count over the current events, in module `Derive`. These are `StockLevel`, `Balance`
  and `DrawerTotal`.
- **Cache invariant.** `Properties.Consistent` says every cached value equals its
  definition. The model proves which operations keep that invariant, and exhibits the
  ones that break it.

Modules:

- `Seqs` — generic sums and first-match indexes over sequences.
- `Shop` — the documents of each collection and the currency-code classification.
- `Derive` — the closed-form aggregates and how each one moves when events are
  appended or removed.
- `Database` — the operations of `database.py`.
- `Properties` — the cache invariant, the record-id invariant, effects of the
  operations, counterexamples, and a worked scenario.

Behaviours modelled as the code has them:

- **Currency in stock levels.** `update_stock` classifies a jan by suffix. It tests
  `1000yen`/`500yen`/`50yen` first (stock 1), then `100yen`/`10yen` (stock 4).
- **Currency in the drawer.** `update_bank` counts only the five exact codes. A jan
  such as `x100yen` therefore gets the fixed stock 4 but never reaches the drawer
  (`Derive.SuffixCoinNotInDrawer`).
- **`cancel_record`.** It recomputes the balance of the calling user, not of the
  record's owner, and it never recomputes the drawer.
- **`put_record` with an unknown jan.** It fails at the price lookup after the earlier
  records have been inserted. `Database.PutRecord` returns `ItemNotFound` carrying
  that partial state, with nothing recomputed.
- **`charge_guest`.** It appends a record and recomputes nothing.

Not modelled: I/O, the document store's own mechanics, and clocks. Each call takes its
timestamp as an opaque parameter `now`. Record object ids are drawn as fresh naturals
from `State.nextId`.

## Model

| member | source | states |
|---|---|---|
| Database.GetItem | database.py:103-104 | the lookup succeeds exactly when some item has the jan, and then returns the first such item |
| Database.GetUser | database.py:68-70 | the lookup succeeds exactly when some account has the uid, and then returns the first such account |
| Database.AddUser | database.py:31-46 | a uid already present is refused with the store unchanged; otherwise exactly one account with the given fields is appended and nothing else changes |
| Properties.AddUserKeepsConsistent | database.py:31-46 | registering with the default point 0 keeps every cache consistent when the uid has no sales on record; if the account is added and the store stays consistent, the uid had no sales |
| Database.UpdateStock | database.py:124-140 | only the first item with the jan changes, and only its stocks, which becomes the stock level of the jan; every other item and every collection is unchanged |
| Derive.CurrencySentinel | database.py:125-128 | a jan ending in a large denomination has stock level 1 and one ending in a small denomination has 4, whatever the receipts and records |
| Derive.LargeSmallDisjoint | database.py:125-128 | no jan ends in both a large and a small denomination code, so the if/elif order never changes the result |
| Derive.StockAfterReceipt | database.py:131-133 | a new receipt raises the stock level of its own non-denomination jan by quantity times divide and leaves every other jan's level unchanged |
| Derive.StockAfterRecords | database.py:131-134 | appended records lower a non-denomination jan's stock level by the number of them carrying that jan, with no lower bound |
| Derive.StockAfterRemoval | database.py:131-134 | removing one record raises its non-denomination jan's stock level by exactly one and leaves other jans unchanged |
| Derive.UnitsSoldIsMultiplicity | database.py:134 | the count of active records for a jan is the multiplicity of that jan among the records' jans |
| Properties.UpdateStockIdempotent | database.py:124-140 | re-running update_stock with no intervening write changes nothing |
| Database.UpdateStocks | database.py:193-194 | updating the stock of a list of jans in turn recomputes exactly the first item of each listed jan; all other items are unchanged |
| Database.UpdateAllStock | database.py:120-122 | every item that is the first with its jan gets its stock level; later duplicates keep their value |
| Database.UpdateUser | database.py:146-155 | only the first account with the uid changes, and only its point, which becomes the sum of that uid's active record prices; an unknown uid changes nothing |
| Derive.BalanceAfterRecords | database.py:148-150 | a balance is additive over appended records |
| Derive.BalanceAfterRemoval | database.py:148-150 | removing a record lowers only its owner's balance, by its price |
| Properties.UpdateUserIdempotent | database.py:146-155 | re-running update_user with no intervening write changes nothing |
| Database.UpdateUsers | database.py:142-144 | recomputing a list of uids in turn sets the first account of each listed uid to its balance, and leaves every other account unchanged |
| Database.UpdateAllUsers | database.py:142-144 | every account that is the first with its uid gets its balance; nothing else changes |
| Database.UpdateBank | database.py:157-177 | the first labshop row, appended when absent, becomes the drawer row holding the sum of prices of records whose jan is exactly one of the five codes; an existing drawer row keeps its position, a new one goes at the end; every other bank row and every other collection is unchanged |
| Derive.CurrencyCodesAreCoins | database.py:159-165 | each of the five exact drawer codes is also classified as a denomination by suffix |
| Derive.SuffixCoinNotInDrawer | database.py:159-165 | a jan merely ending in a denomination code gets a fixed stock level yet is not counted in the drawer |
| Derive.DrawerAfterRecords | database.py:158-167 | the drawer aggregate is additive over appended records |
| Derive.DrawerAfterRemoval | database.py:158-167 | removing a record moves the drawer aggregate by its price exactly when its jan is one of the five codes |
| Properties.UpdateBankIdempotent | database.py:157-177 | re-running update_bank at the same timestamp changes nothing |
| Properties.RecomputeAllEstablishes | database.py:120-177 | recomputing all stocks, all balances and the drawer makes every cache consistent, whatever it held before |
| Database.PutStock | database.py:109-118 | exactly one receipt with the entry's fields, the user and the timestamp is appended; nothing else changes |
| Properties.RestockEffects | database.py:109-122 | a receipt followed by update_all_stock keeps the caches consistent and raises the first matching non-denomination item's stock by quantity times divide |
| Database.NewRecords | database.py:181-190 | one record per listed jan, duplicates included, in order, each with the next fresh id, the user, the jan and the first catalog item's price |
| Database.InsertRecords | database.py:180-190 | the insert loop appends a prefix of the batch; it stops at the first jan with no catalog item and reports it, and every jan inserted before it is in the catalog |
| Database.PutRecord | database.py:179-198 | the call completes exactly when every listed jan is in the catalog. On completion the whole batch is appended and the receipts, archive and categories are unchanged. On an unknown jan the error names the first unknown jan and carries the store with only the earlier records appended |
| Database.RecomputeAfterSale | database.py:192-198 | the recomputations closing put_record touch only the catalog, the accounts and the bank |
| Properties.NewRecordsScope | database.py:181-190 | a batch moves no other account's balance and no unlisted jan's count, and its owner's balance moves by the sum of its prices |
| Properties.PutRecordShape | database.py:179-198 | after a complete put_record, the first item of each listed jan, the user's first account and the drawer row hold values recomputed from the new records; an existing drawer row keeps its position and a missing one is appended; every other bank row, item and account is unchanged, and so are the receipts |
| Properties.BatchPreservesConsistent | database.py:192-198 | appending one user's batch and recomputing the touched stocks, that user's balance and the drawer keeps every cache consistent |
| Properties.PutRecordPreservesConsistent | database.py:179-198 | a complete put_record keeps every cache consistent |
| Properties.BatchEffects | database.py:192-198 | after a batch, the user's point moves by the sum of its prices, each listed non-denomination item's stock falls by the times its jan is listed, and the drawer moves by the batch's currency prices |
| Properties.PutRecordEffects | database.py:179-198 | a complete put_record moves the user's point by the sum of the new prices, each listed non-denomination jan's stock down by its multiplicity in the list, and the drawer by the new currency prices |
| Properties.PutRecordKeepsWellFormed | database.py:185-190 | put_record, complete or aborted, keeps record ids unique across active and cancelled records |
| Database.ChargeGuest | database.py:200-206 | exactly one guest record, with the guest jan and the amount, is appended; nothing is recomputed and nothing else changes |
| Properties.ChargeGuestLeavesGuestStale | database.py:200-206 | a non-zero guest charge moves the guest balance by the amount while the cached guest point stays, so the guest account goes stale |
| Properties.ChargeGuestKeepsWellFormed | database.py:200-206 | a guest charge keeps record ids unique |
| Database.Archive | database.py:230-232 | the chosen record is appended unchanged to the archive and removed from the active records, which otherwise keep their order, so the active multiset loses exactly that record; nothing else changes |
| Database.CancelRecord | database.py:227-236 | an id with no active record changes nothing. Otherwise the first record with the id moves unchanged from the active records to the end of the archive; only the first item of its jan gets its new stock level and only the caller's first account gets the caller's new balance; receipts, bank, categories and ids are unchanged |
| Properties.ArchiveKeepsWellFormed | database.py:230-232 | moving a record to the archive keeps record ids unique, and no active record keeps the moved id |
| Properties.CancelRecordEffects | database.py:227-236 | on a consistent store, cancelling raises the first non-denomination item of the record's jan by one; when the caller owns the record, the caller's point falls by its price; the bank is unchanged |
| Properties.CancelRecordPreservesConsistent | database.py:227-236 | cancelling keeps every cache consistent when the caller owns the record and its jan is not a drawer code |
| Properties.CancelUnknownIsNoop | database.py:228-229 | cancelling an id with no active record changes nothing |
| Properties.CancelRecordKeepsWellFormed | database.py:228-232 | cancelling keeps record ids unique, and the cancelled id is no longer active |
| Properties.CancelTwiceIsNoop | database.py:227-236 | cancelling the same id a second time, by any caller, changes nothing |
| Properties.CancelByOtherUserLeavesOwnerStale | database.py:236 | in a consistent store where another user cancels the owner's record, the owner's cached point keeps the old balance while the balance falls to 0 |
| Properties.CancelCurrencyLeavesDrawerStale | database.py:227-236 | cancelling a drawer-code record leaves the drawer row holding the cancelled amount while the drawer aggregate falls to 0 |
| Database.PutWithdraw | database.py:238-243 | exactly one bank row with the user, amount and timestamp is appended; nothing else changes |
| Properties.PutWithdrawEffects | database.py:238-250 | a withdrawal moves the bank total by exactly its amount. A drawer row exists afterwards exactly when one existed or the user is labshop, and an existing drawer row keeps its position and value |
| Properties.PutWithdrawPreservesConsistent | database.py:238-243 | a withdrawal by anyone but labshop keeps every cache consistent |
| Database.FeedItems | database.py:76-87 | the new catalog has exactly one item per goods entry of the feed, each with stock 0 |
| Database.FeedItemsPosition | database.py:76-87 | goods entry i of category c becomes the item after all earlier categories' goods, with the same jan, name, cost and divide, the negated price, the category id and order i |
| Database.FeedCategories | database.py:90-96 | one category row per feed category, in order, with its id and title |
| Database.BuildCatalog | database.py:72-98 | the import aborts exactly when the feed holds no goods, because renaming the never-created temporary catalog fails; otherwise the catalog and categories are replaced wholesale by the feed's, each first item of a jan gets its stock level, later duplicates keep 0, and receipts, records, archive, accounts and bank are unchanged |
| Properties.BuildCatalogPreservesConsistent | database.py:72-98 | after a completed catalog import every cache is consistent if it was before |
| Database.StatOf | database.py:258-285 | one item's row carries its jan, its name and its negated price; its units sold is the multiplicity of the jan among the active records, at most their number; its profit is sales minus purchases |
| Database.StatsOfCover | database.py:254-285 | the rows of a list of items number one per item outside the charge category; every such item has its row, and every row is the row of such an item |
| Database.StatsOfSingle | database.py:255-256 | a single item yields no row when it is in the charge category and exactly its own row otherwise |
| Database.StatsOfConcat | database.py:254-285 | rows follow item order: the rows of two lists joined are the rows of the first followed by the rows of the second |
| Database.GetItemStat | database.py:252-286 | one statistics row per catalog item outside the charge category, and every row is the statistics of such an item |
| Properties.StatMatchesStock | database.py:262-273 | for a non-denomination item, units bought minus units sold is its stock level, and equals its cached stocks when the catalog is consistent |
| Properties.StatSellAtShelfPrice | database.py:269-273 | when every record of an item was sold at its shelf price, sales equal that price times the units sold |
| Properties.StatOfEmptyLedger | database.py:262-284 | with no receipts and no records, an item's purchases, units bought, sales, units sold and profit are all zero |
| Properties.StatAfterReceipt | database.py:262-266 | a receipt for the item's jan adds cost times quantity to its purchases and quantity times divide to its units bought, a receipt for another jan adds nothing, and sales stay as they were |
| Properties.StatAfterRecords | database.py:262-273 | appended records leave purchases alone, move sales by minus their prices for the item's jan, and add their number for that jan to units sold |
| Properties.StatAfterRemoval | database.py:269-273 | removing an active record gives its price back to the sales of its own jan's item and takes one off its units sold, leaving purchases and every other item's sales alone |
| Derive.PricesOfUniformJan | database.py:271-273 | sales over records of a uniform price are that price times their count |
| Properties.SodaScenario | database.py:179-236 | importing SODA at 150, restocking 24, selling one and cancelling it takes the stock through 24, 23, 24 and the buyer's point through 0, -150, 0 |

## Left out

- **server.py.** The web routes, sessions, templates and argument parsing are not part of
  this model. Its caller conventions appear only as hypotheses or comments:
  - Withdrawals arrive already negated (server.py:208). `Database.PutWithdraw` takes any
    integer.
  - A restock is followed by `update_all_stock` (server.py:180-182).
    `Properties.RestockEffects` states that composition.
  - The uid `labshop` is refused at registration (server.py:61). This is why
    `Properties.PutWithdrawPreservesConsistent` assumes the withdrawing user is not
    `labshop`.
- **Document-store mechanics and `ObjectId`.** The client, collection renames and
  `_id` projections are not modelled. Collections are sequences in natural order, and
  object ids are fresh naturals. Parsing a malformed id string in `cancel_record`, which
  raises, is not modelled.
- **Password hashing and salting.** `pwhash`, `pwsalt`, `pwhash_with_salt`,
  `authenticate_user` and `update_password` are not modelled. `Database.AddUser`
  receives the already-hashed password and its salt.
- **YAML loading.** Loading and the `int()`/`str()` coercions of `build_catelog` are
  not modelled. `Database.BuildCatalog` takes an already-typed feed.
- **Untyped receipt fields.** `put_stock` coerces only `jan` with `str()` and stores
  `cost`, `quantity` and `divide` as the caller sent them (database.py:112-115).
  `Database.StockEntry` types them as integers.
- **`cost_per_divide`.** The float field of `get_item_stat` is omitted. Its inputs
  `buy` and `nbuy` are in every row.
- **Timestamps from `now()`.** These are an opaque parameter. All `now()` calls within
  one operation share one value, so the records of one `put_record` batch carry the
  same timestamp.
- **`get_records` and `get_withdraws`.** Both are read-only queries. The timestamp sort
  and limit of `get_records` are not modelled. `get_withdraws` returns the bank rows
  as stored.
- **`put_record` is not atomic.** It inserts records one by one and can abort half-way;
  the model follows the code.
- **`get_item_stat` filter.** It skips only items of category `charge`; currency items
  in other categories get a row.
- Database.GetItemStat: its own contract states the number of rows and which rows
  appear. Their catalog order is stated through `Database.StatsOfConcat` and
  `Database.StatsOfSingle`, which together fix the rows of any list of items.
- Database.AddUser: takes the starting point as an explicit argument. The code
  defaults it to 0 (database.py:31), and the registration route passes no point
  (server.py:64); `Properties.AddUserKeepsConsistent` covers that call.
- Database.GetCatalog and Database.GetCategory: carry no contract. Each returns its
  collection as stored.
- Database.GetBank: carries no contract of its own. Its meaning is stated through
  `Properties.PutWithdrawEffects`.
