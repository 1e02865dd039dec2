/** The documents of the shop's collections, as fixed-shape records, and the
    classification of item codes (jans) that stand for cash denominations. */
module Shop {

  /** Wall-clock timestamps are opaque: the model never inspects them. */
  type Timestamp = string

  /** A registered account; `point` is the cached balance. The password hash and
      its salt are carried as opaque strings computed outside the model. */
  datatype User = User(
    uid: string,
    password: string,
    passwordSalt: string,
    group: string,
    name: string,
    point: int,
    timestamp: Timestamp)

  /** A catalog entry. `price` is stored negated (a debit per unit consumed);
      `stocks` is the cached stock level; `order` is the position of the item
      within its category's goods. */
  datatype Item = Item(
    jan: string,
    name: string,
    price: int,
    cost: int,
    divide: int,
    stocks: int,
    category: string,
    order: nat)

  datatype Category = Category(cid: string, title: string)

  /** One restock batch: `quantity` packs of `divide` units each, bought at `cost` per pack. */
  datatype Receipt = Receipt(
    jan: string,
    cost: int,
    quantity: int,
    divide: int,
    user: string,
    timestamp: Timestamp)

  /** One unit consumed by one account; `id` stands for the store-generated object id. */
  datatype Record = Record(
    id: nat,
    user: string,
    jan: string,
    price: int,
    timestamp: Timestamp)

  /** A cash movement: either the upserted drawer row of `Labshop` or a withdrawal. */
  datatype BankRow = BankRow(user: string, amount: int, timestamp: Timestamp)

  /** The whole store. `nextId` is the source of fresh record ids. */
  datatype State = State(
    users: seq<User>,
    catalog: seq<Item>,
    categories: seq<Category>,
    stock: seq<Receipt>,
    records: seq<Record>,
    cancelled: seq<Record>,
    bank: seq<BankRow>,
    nextId: nat)

  /** The empty store a fresh database starts from. */
  const Empty := State([], [], [], [], [], [], [], 0)

  /** The account label that owns the drawer row. */
  const Labshop := "labshop"

  /** The account and jan of guest charges. */
  const Guest := "guest"

  /** The category whose items are left out of the item statistics. */
  const ChargeCategory := "charge"

  /** The five jans that are exactly cash denominations. */
  const CurrencyCodes: set<string> := {"1000yen", "500yen", "100yen", "50yen", "10yen"}

  predicate EndsWith(s: string, suffix: string) {
    |suffix| <= |s| && s[|s| - |suffix|..] == suffix
  }

  /** Jans whose stock is pinned to 1: those ending in a large-denomination code. */
  predicate IsLargeCoin(jan: string) {
    EndsWith(jan, "1000yen") || EndsWith(jan, "500yen") || EndsWith(jan, "50yen")
  }

  /** Jans whose stock is pinned to 4: those ending in a small-denomination code. */
  predicate IsSmallCoin(jan: string) {
    EndsWith(jan, "100yen") || EndsWith(jan, "10yen")
  }

  const LargeCoinStock := 1
  const SmallCoinStock := 4

  /** Predicates used as first-match queries on the collections. */
  function ItemHasJan(jan: string): Item -> bool {
    (it: Item) => it.jan == jan
  }

  function UserHasUid(uid: string): User -> bool {
    (u: User) => u.uid == uid
  }

  function RowOfUser(user: string): BankRow -> bool {
    (b: BankRow) => b.user == user
  }

  function RecordHasId(id: nat): Record -> bool {
    (r: Record) => r.id == id
  }
}
