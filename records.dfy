/**
 * The document shapes of the Item, Sale and Seller (and, by the same shape,
 * Category and Brand) models, what casting a new document does to its fields,
 * and what the schema validators check when a document is saved.
 */
module Records {
  import opened Wrappers
  import opened Text

  /** A document identifier (an ObjectId); the store draws fresh ones. */
  type Id = nat

  /** Milliseconds in a day: `$dateToString` with "%Y-%m-%d" keys a timestamp by its UTC day. */
  const MillisPerDay: int := 86400000

  /** An inventory item. `stock` and `price` are numbers of the smallest currency unit. */
  datatype Item = Item(
    id: Id,
    name: string,
    stock: int,
    price: int,
    category: Id,
    brand: Id,
    seller: Id,
    description: Option<string>)

  /** A sale record: an item reference and a snapshot of the item's name and price.
   *  `date` is a timestamp in milliseconds since the epoch. */
  datatype Sale = Sale(
    id: Id,
    item: Id,
    itemName: string,
    price: int,
    quantity: int,
    total: int,
    date: int)

  /** A seller, category or brand: a document with a unique name. */
  datatype CatalogEntry = CatalogEntry(id: Id, name: string)

  /** An item after `populate("category brand seller")`: a reference whose
   *  document no longer exists populates to null, here `None`. */
  datatype PopulatedItem = PopulatedItem(
    item: Item,
    category: Option<CatalogEntry>,
    brand: Option<CatalogEntry>,
    seller: Option<CatalogEntry>)

  /** Why an operation of the controller fails. */
  datatype Error =
    | MissingFields        // 400 "All fields are required"
    | CategoryNotFound     // 404 "Category not found"
    | BrandNotFound        // 404 "Brand not found"
    | SellerNotFound       // 404 "Seller not found"
    | ReferenceNotFound    // 404 "One or more references (category, seller, or brand) not found"
    | ItemNotFound         // 404 "Item not found"
    | InsufficientStock    // 400 "Insufficient stock"
    | SaleNotFound         // 404 "Sale record not found"
    | ValidationFailed     // 500: a schema validator refused the document on save
    | DuplicateName        // 500: the unique index on `name` refused the document
    | NegativeSkip         // 500: the database refuses a negative skip

  /** Builds a new Item document; the `trim: true` setters of name and description apply. */
  function CastItem(id: Id, name: string, stock: int, price: int, category: Id, brand: Id,
                    seller: Id, description: Option<string>): (it: Item)
    ensures it.name == Trim(name) && IsTrimmed(it.name)
    ensures it.id == id && it.stock == stock && it.price == price
    ensures it.category == category && it.brand == brand && it.seller == seller
    ensures it.description.Some? <==> description.Some?
    ensures description.Some? ==> it.description.value == Trim(description.value)
    ensures it.description.Some? ==> IsTrimmed(it.description.value)
  {
    Item(id, Trim(name), stock, price, category, brand, seller,
         if description.Some? then Some(Trim(description.value)) else None)
  }

  /** The validators of the Item schema: `name` is required, so the empty string
   *  is refused, and `stock` has minimum 0. `price` has no bound and the
   *  references are always present in a built document. */
  predicate ItemSchemaValid(it: Item) {
    it.name != "" && it.stock >= 0
  }

  /** The validators of the Sale schema: `itemName` is a required string. The
   *  numbers are required but carry no range, and `date` always has its default. */
  predicate SaleSchemaValid(s: Sale) {
    s.itemName != ""
  }

  /** A built item passes its validators exactly when its name is not blank
   *  after trimming and its stock is at least 0. */
  lemma CastItemSchema(id: Id, name: string, stock: int, price: int, category: Id, brand: Id,
                       seller: Id, description: Option<string>)
    ensures ItemSchemaValid(CastItem(id, name, stock, price, category, brand, seller, description))
        <==> Trim(name) != "" && stock >= 0
  {
  }

  /** The validators of the Seller schema: `name` is required. */
  predicate CatalogSchemaValid(e: CatalogEntry) {
    e.name != ""
  }

  /** The Sale document that selling `quantity` of `item` at time `now` builds:
   *  a snapshot of the item's name and price, `total = price * quantity`, and
   *  the default date, the time of creation. */
  function NewSale(id: Id, item: Item, quantity: int, now: int): (s: Sale)
    ensures s.id == id && s.item == item.id && s.itemName == item.name && s.price == item.price
    ensures s.quantity == quantity && s.total == s.price * s.quantity && s.date == now
  {
    Sale(id, item.id, item.name, item.price, quantity, item.price * quantity, now)
  }

  /** A sale snapshot passes its validators exactly when the item's name is
   *  not empty; the quantity is not checked. */
  lemma NewSaleSchema(id: Id, item: Item, quantity: int, now: int)
    ensures SaleSchemaValid(NewSale(id, item, quantity, now)) <==> item.name != ""
  {
  }

  /** The UTC day a timestamp falls on, counted from the epoch. */
  function DayOf(ts: int): (d: int)
    ensures d * MillisPerDay <= ts < (d + 1) * MillisPerDay
  {
    ts / MillisPerDay
  }
}
