/**
 * The state-changing half of the inventory controller: the Item and Sale
 * collections and the three catalog collections, and the operations that
 * save, replace, increment and delete their documents.
 */
module Inventory {
  import opened Wrappers
  import opened Text
  import opened Seqs
  import opened Records
  import opened Catalog

  /** The body of a create request; a field the client left out is `None`. */
  datatype NewItemRequest = NewItemRequest(
    name: Option<string>,
    stock: Option<int>,
    price: Option<int>,
    category: Option<string>,
    brand: Option<string>,
    seller: Option<string>,
    description: Option<string>)

  /** The body of an update request: the edit form always sends all six fields. */
  datatype ItemUpdate = ItemUpdate(
    name: string,
    price: int,
    stock: int,
    category: string,
    seller: string,
    brand: string)

  /** What a successful sell answers: the item after the decrement and the new sale. */
  datatype SaleReceipt = SaleReceipt(item: Item, sale: Sale)

  /** JavaScript truthiness of a string field: present and not "". */
  predicate Truthy(v: Option<string>) {
    v.Some? && v.value != ""
  }

  /** JavaScript truthiness of a number field: present and not 0. */
  predicate TruthyNumber(v: Option<int>) {
    v.Some? && v.value != 0
  }

  /** The guard of createItem. */
  predicate HasRequiredFields(req: NewItemRequest) {
    && Truthy(req.name) && TruthyNumber(req.stock) && TruthyNumber(req.price)
    && Truthy(req.category) && Truthy(req.brand) && Truthy(req.seller)
  }

  /** `name` resolves, by `findOne({ name })`, to the entry whose id is `id`.
   *  Callers pass the trimmed request string: Mongoose casts a query filter
   *  through the schema's `trim` setter before the query runs. */
  predicate Resolves(entries: seq<CatalogEntry>, name: string, id: Id) {
    FindByName(entries, name) == Some(CatalogEntry(id, name))
  }

  /** `findById` on the Item collection: the position of the item with that id. */
  function FindItem(items: seq<Item>, id: Id): (r: Option<nat>)
    ensures r.Some? ==> r.value < |items| && items[r.value].id == id
    ensures r.None? ==> forall k :: 0 <= k < |items| ==> items[k].id != id
  {
    if items == [] then None
    else if items[0].id == id then Some(0)
    else match FindItem(items[1..], id)
      case None => None
      case Some(k) => Some(k + 1)
  }

  /** `findById` on the Sale collection. */
  function FindSale(sales: seq<Sale>, id: Id): (r: Option<nat>)
    ensures r.Some? ==> r.value < |sales| && sales[r.value].id == id
    ensures r.None? ==> forall k :: 0 <= k < |sales| ==> sales[k].id != id
  {
    if sales == [] then None
    else if sales[0].id == id then Some(0)
    else match FindSale(sales[1..], id)
      case None => None
      case Some(k) => Some(k + 1)
  }

  ghost predicate UniqueItemIds(items: seq<Item>) {
    forall i, j :: 0 <= i < j < |items| ==> items[i].id != items[j].id
  }

  ghost predicate UniqueSaleIds(sales: seq<Sale>) {
    forall i, j :: 0 <= i < j < |sales| ==> sales[i].id != sales[j].id
  }

  /** What holds of the Item collection between operations: ids are unique,
   *  were drawn before `nextId` and belong to items that were created, and the
   *  trimmed fields are stored trimmed. (A stock of at least 0 is NOT kept:
   *  updates and stock additions run no validators.) */
  ghost predicate ItemsWellFormed(items: seq<Item>, nextId: nat, created: set<Id>) {
    && UniqueItemIds(items)
    && forall i :: 0 <= i < |items| ==>
         && items[i].id < nextId && items[i].id in created
         && IsTrimmed(items[i].name)
         && (items[i].description.Some? ==> IsTrimmed(items[i].description.value))
  }

  /** What holds of the sale log: ids are unique and fresh, every sale refers
   *  to an item that was created, passed the Sale validators, and has
   *  `total = price * quantity`. */
  ghost predicate SalesWellFormed(sales: seq<Sale>, nextId: nat, created: set<Id>) {
    && UniqueSaleIds(sales)
    && forall i :: 0 <= i < |sales| ==>
         && sales[i].id < nextId && sales[i].item in created
         && SaleSchemaValid(sales[i])
         && sales[i].total == sales[i].price * sales[i].quantity
  }

  /** Both collections are well formed. */
  ghost predicate StoreWellFormed(items: seq<Item>, sales: seq<Sale>, nextId: nat, created: set<Id>) {
    ItemsWellFormed(items, nextId, created) && SalesWellFormed(sales, nextId, created)
  }

  /** With unique ids, the lookup finds the one item carrying the id. */
  lemma {:induction false} FindItemUnique(items: seq<Item>, k: nat)
    requires UniqueItemIds(items)
    requires k < |items|
    ensures FindItem(items, items[k].id) == Some(k)
  {
    if k > 0 {
      assert items[0].id != items[k].id;
      assert items[1..][k - 1] == items[k];
      FindItemUnique(items[1..], k - 1);
    }
  }

  /** createItem: every required field must be truthy (so a stock or price of 0
   *  is refused) before any lookup; then category, brand and seller resolve in
   *  that order, by their trimmed names, failing at the first that does not;
   *  then the schema checks the built document. */
  function NewItemOutcome(req: NewItemRequest, categories: seq<CatalogEntry>, brands: seq<CatalogEntry>,
                          sellers: seq<CatalogEntry>, id: Id): (r: Result<Item, Error>)
    ensures !HasRequiredFields(req) <==> r == Failure(MissingFields)
    ensures r == Failure(CategoryNotFound)
        <==> HasRequiredFields(req) && FindByName(categories, Trim(req.category.value)).None?
    ensures r == Failure(BrandNotFound)
        <==> && HasRequiredFields(req) && FindByName(categories, Trim(req.category.value)).Some?
             && FindByName(brands, Trim(req.brand.value)).None?
    ensures r == Failure(SellerNotFound)
        <==> && HasRequiredFields(req) && FindByName(categories, Trim(req.category.value)).Some?
             && FindByName(brands, Trim(req.brand.value)).Some? && FindByName(sellers, Trim(req.seller.value)).None?
    ensures r.Failure? ==> r.error in {MissingFields, CategoryNotFound, BrandNotFound, SellerNotFound, ValidationFailed}
    ensures r == Failure(ValidationFailed) ==> Trim(req.name.value) == "" || req.stock.value < 0
    ensures r.Success? ==>
      && HasRequiredFields(req) && ItemSchemaValid(r.value) && IsTrimmed(r.value.name)
      && r.value.id == id && r.value.name == Trim(req.name.value)
      && r.value.stock == req.stock.value && r.value.price == req.price.value
      && Resolves(categories, Trim(req.category.value), r.value.category)
      && Resolves(brands, Trim(req.brand.value), r.value.brand)
      && Resolves(sellers, Trim(req.seller.value), r.value.seller)
      && (r.value.description.Some? <==> req.description.Some?)
      && (req.description.Some? ==> r.value.description.value == Trim(req.description.value))
  {
    if !HasRequiredFields(req) then Failure(MissingFields)
    else match FindByName(categories, Trim(req.category.value))
      case None => Failure(CategoryNotFound)
      case Some(c) => match FindByName(brands, Trim(req.brand.value))
        case None => Failure(BrandNotFound)
        case Some(b) => match FindByName(sellers, Trim(req.seller.value))
          case None => Failure(SellerNotFound)
          case Some(s) =>
            var item := CastItem(id, req.name.value, req.stock.value, req.price.value,
                                 c.id, b.id, s.id, req.description);
            if ItemSchemaValid(item) then Success(item) else Failure(ValidationFailed)
  }

  /** updateItem: all three names are looked up first, trimmed like every
   *  `findOne({ name })` filter, and any miss is reported as one error, before
   *  the item's existence is checked; then name, price, stock and the three
   *  references are replaced (the name through its trim setter) and nothing
   *  else. No validator runs on this update. */
  function UpdateOutcome(items: seq<Item>, categories: seq<CatalogEntry>, sellers: seq<CatalogEntry>,
                         brands: seq<CatalogEntry>, id: Id, upd: ItemUpdate): (r: Result<Item, Error>)
    ensures r == Failure(ReferenceNotFound)
        <==> || FindByName(categories, Trim(upd.category)).None? || FindByName(sellers, Trim(upd.seller)).None?
             || FindByName(brands, Trim(upd.brand)).None?
    ensures r == Failure(ItemNotFound)
        <==> && FindByName(categories, Trim(upd.category)).Some? && FindByName(sellers, Trim(upd.seller)).Some?
             && FindByName(brands, Trim(upd.brand)).Some? && FindItem(items, id).None?
    ensures r.Failure? ==> r.error in {ReferenceNotFound, ItemNotFound}
    ensures r.Success? ==>
      && FindItem(items, id).Some?
      && var before := items[FindItem(items, id).value];
      && r.value.id == id && r.value.description == before.description
      && r.value.name == Trim(upd.name) && r.value.price == upd.price && r.value.stock == upd.stock
      && Resolves(categories, Trim(upd.category), r.value.category)
      && Resolves(sellers, Trim(upd.seller), r.value.seller)
      && Resolves(brands, Trim(upd.brand), r.value.brand)
  {
    var category := FindByName(categories, Trim(upd.category));
    var seller := FindByName(sellers, Trim(upd.seller));
    var brand := FindByName(brands, Trim(upd.brand));
    if category.None? || seller.None? || brand.None? then Failure(ReferenceNotFound)
    else match FindItem(items, id)
      case None => Failure(ItemNotFound)
      case Some(i) =>
        Success(items[i].(name := Trim(upd.name), price := upd.price, stock := upd.stock,
                          category := category.value.id, seller := seller.value.id,
                          brand := brand.value.id))
  }

  /** An update is accepted with a negative stock and a blank name, which
   *  saving a new item would refuse. */
  lemma UpdateRunsNoValidators()
    ensures
      var cat := CatalogEntry(0, "Food");
      var item := Item(1, "Rice", 5, 10, 0, 0, 0, None);
      var r := UpdateOutcome([item], [cat], [cat], [cat], 1, ItemUpdate(" ", 10, -3, "Food", "Food", "Food"));
      r.Success? && r.value.stock == -3 && r.value.name == "" && !ItemSchemaValid(r.value)
  {
    var cat := CatalogEntry(0, "Food");
    assert Trim("Food") == "Food" by { TrimmedIsFixed("Food"); }
    assert FindByName([cat], "Food") == Some(cat);
    assert Trim(" ") == "" by { TrimAllWhitespace(" "); }
  }

  /** Whitespace before, `pre`, and after, `post`, the category, brand and
   *  seller names of a request changes nothing: the lookups see the trimmed
   *  names. */
  lemma PaddedNamesCreateAlike(req: NewItemRequest, categories: seq<CatalogEntry>, brands: seq<CatalogEntry>,
                               sellers: seq<CatalogEntry>, id: Id, pre: string, post: string)
    requires HasRequiredFields(req)
    requires IsTrimmed(req.category.value) && IsTrimmed(req.brand.value) && IsTrimmed(req.seller.value)
    requires forall i :: 0 <= i < |pre| ==> IsWhitespace(pre[i])
    requires forall i :: 0 <= i < |post| ==> IsWhitespace(post[i])
    ensures var padded := req.(category := Some(pre + req.category.value + post),
                               brand := Some(pre + req.brand.value + post),
                               seller := Some(pre + req.seller.value + post));
      NewItemOutcome(padded, categories, brands, sellers, id) == NewItemOutcome(req, categories, brands, sellers, id)
  {
    var c, b, s := req.category.value, req.brand.value, req.seller.value;
    TrimIgnoresPadding(pre, c, post);
    TrimIgnoresPadding(pre, b, post);
    TrimIgnoresPadding(pre, s, post);
    TrimmedIsFixed(c);
    TrimmedIsFixed(b);
    TrimmedIsFixed(s);
  }

  /** The same for an update: padded reference names resolve as the bare ones. */
  lemma PaddedNamesUpdateAlike(items: seq<Item>, categories: seq<CatalogEntry>, sellers: seq<CatalogEntry>,
                               brands: seq<CatalogEntry>, id: Id, upd: ItemUpdate, pre: string, post: string)
    requires IsTrimmed(upd.category) && IsTrimmed(upd.seller) && IsTrimmed(upd.brand)
    requires forall i :: 0 <= i < |pre| ==> IsWhitespace(pre[i])
    requires forall i :: 0 <= i < |post| ==> IsWhitespace(post[i])
    ensures var padded := upd.(category := pre + upd.category + post, seller := pre + upd.seller + post,
                               brand := pre + upd.brand + post);
      UpdateOutcome(items, categories, sellers, brands, id, padded)
        == UpdateOutcome(items, categories, sellers, brands, id, upd)
  {
    TrimIgnoresPadding(pre, upd.category, post);
    TrimIgnoresPadding(pre, upd.seller, post);
    TrimIgnoresPadding(pre, upd.brand, post);
    TrimmedIsFixed(upd.category);
    TrimmedIsFixed(upd.seller);
    TrimmedIsFixed(upd.brand);
  }

  /** Saving a new item under the next fresh id keeps both collections well formed. */
  lemma CreateKeepsWellFormed(items: seq<Item>, sales: seq<Sale>, nextId: nat, created: set<Id>, it: Item)
    requires StoreWellFormed(items, sales, nextId, created)
    requires it.id == nextId && IsTrimmed(it.name)
    requires it.description.Some? ==> IsTrimmed(it.description.value)
    ensures StoreWellFormed(items + [it], sales, nextId + 1, created + {it.id})
  {
    var s := items + [it];
    forall i, j | 0 <= i < j < |s| ensures s[i].id != s[j].id {
      if j == |items| {
        assert s[i] == items[i];
      } else {
        assert s[i] == items[i] && s[j] == items[j];
      }
    }
  }

  /** Replacing an item by one with the same id and description and a trimmed
   *  name keeps the collection well formed. */
  lemma ReplaceKeepsWellFormed(items: seq<Item>, sales: seq<Sale>, nextId: nat, created: set<Id>, i: nat, x: Item)
    requires StoreWellFormed(items, sales, nextId, created) && i < |items|
    requires x.id == items[i].id && x.description == items[i].description && IsTrimmed(x.name)
    ensures StoreWellFormed(items[i := x], sales, nextId, created)
  {
    var s := items[i := x];
    forall a, b | 0 <= a < b < |s| ensures s[a].id != s[b].id {
      assert s[a].id == items[a].id && s[b].id == items[b].id;
    }
  }

  /** Appending a sale under the next fresh id keeps both collections well formed. */
  lemma SaleKeepsWellFormed(items: seq<Item>, sales: seq<Sale>, nextId: nat, created: set<Id>, sale: Sale)
    requires StoreWellFormed(items, sales, nextId, created)
    requires sale.id == nextId && sale.item in created && SaleSchemaValid(sale)
    requires sale.total == sale.price * sale.quantity
    ensures StoreWellFormed(items, sales + [sale], nextId + 1, created)
  {
    var s := sales + [sale];
    forall i, j | 0 <= i < j < |s| ensures s[i].id != s[j].id {
      if j == |sales| {
        assert s[i] == sales[i];
      } else {
        assert s[i] == sales[i] && s[j] == sales[j];
      }
    }
  }

  /** Removing one document keeps a collection well formed. */
  lemma RemoveKeepsWellFormed(items: seq<Item>, sales: seq<Sale>, nextId: nat, created: set<Id>, i: nat, j: nat)
    requires StoreWellFormed(items, sales, nextId, created)
    ensures i < |items| ==> StoreWellFormed(RemoveAt(items, i), sales, nextId, created)
    ensures j < |sales| ==> StoreWellFormed(items, RemoveAt(sales, j), nextId, created)
  {
    if i < |items| {
      var s := RemoveAt(items, i);
      forall a, b | 0 <= a < b < |s| ensures s[a].id != s[b].id {
        var a', b' := if a < i then a else a + 1, if b < i then b else b + 1;
        assert s[a] == items[a'] && s[b] == items[b'];
      }
      forall a | 0 <= a < |s| ensures s[a] in items {
        var a' := if a < i then a else a + 1;
        assert s[a] == items[a'];
      }
    }
    if j < |sales| {
      var s := RemoveAt(sales, j);
      forall a, b | 0 <= a < b < |s| ensures s[a].id != s[b].id {
        var a', b' := if a < j then a else a + 1, if b < j then b else b + 1;
        assert s[a] == sales[a'] && s[b] == sales[b'];
      }
      forall a | 0 <= a < |s| ensures s[a] in sales {
        var a' := if a < j then a else a + 1;
        assert s[a] == sales[a'];
      }
    }
  }

  /** The stores of the inventory engine. */
  class Store {
    var items: seq<Item>
    var sales: seq<Sale>
    var nextId: nat
    /** Every item id ever saved; sales keep their reference after the item is deleted. */
    ghost var created: set<Id>
    const categories: Registry
    const brands: Registry
    const sellers: Registry

    ghost predicate Valid()
      reads this, categories, brands, sellers
    {
      CatalogsValid() && StoreWellFormed(items, sales, nextId, created)
    }

    /** The three catalogs are distinct collections, each well formed. */
    ghost predicate CatalogsValid()
      reads categories, brands, sellers
    {
      && categories != brands && categories != sellers && brands != sellers
      && categories.Valid() && brands.Valid() && sellers.Valid()
    }

    constructor (categories: Registry, brands: Registry, sellers: Registry)
      requires categories != brands && categories != sellers && brands != sellers
      requires categories.Valid() && brands.Valid() && sellers.Valid()
      ensures Valid()
      ensures items == [] && sales == []
      ensures this.categories == categories && this.brands == brands && this.sellers == sellers
    {
      items := [];
      sales := [];
      nextId := 0;
      created := {};
      this.categories := categories;
      this.brands := brands;
      this.sellers := sellers;
    }

    /** createItem (inventoryController.js, exports.createItem). */
    method CreateItem(req: NewItemRequest) returns (r: Result<Item, Error>)
      requires Valid()
      modifies this
      ensures Valid()
      ensures r == NewItemOutcome(req, categories.entries, brands.entries, sellers.entries, old(nextId))
      ensures items == if r.Success? then old(items) + [r.value] else old(items)
      ensures sales == old(sales)
    {
      if !HasRequiredFields(req) {
        return Failure(MissingFields);
      }
      var category := FindByName(categories.entries, Trim(req.category.value));
      if category.None? {
        return Failure(CategoryNotFound);
      }
      var brand := FindByName(brands.entries, Trim(req.brand.value));
      if brand.None? {
        return Failure(BrandNotFound);
      }
      var seller := FindByName(sellers.entries, Trim(req.seller.value));
      if seller.None? {
        return Failure(SellerNotFound);
      }
      var item := CastItem(nextId, req.name.value, req.stock.value, req.price.value,
                           category.value.id, brand.value.id, seller.value.id, req.description);
      if !ItemSchemaValid(item) {
        return Failure(ValidationFailed);
      }
      CreateKeepsWellFormed(items, sales, nextId, created, item);
      items := items + [item];
      created := created + {item.id};
      nextId := nextId + 1;
      r := Success(item);
    }

    /** updateItem: `findByIdAndUpdate` with the resolved references. */
    method UpdateItem(id: Id, upd: ItemUpdate) returns (r: Result<Item, Error>)
      requires Valid()
      modifies this
      ensures Valid()
      ensures r == UpdateOutcome(old(items), categories.entries, sellers.entries, brands.entries, id, upd)
      ensures r.Failure? ==> items == old(items)
      ensures r.Success? ==> items == old(items)[FindItem(old(items), id).value := r.value]
      ensures sales == old(sales)
    {
      r := UpdateOutcome(items, categories.entries, sellers.entries, brands.entries, id, upd);
      if r.Success? {
        var i := FindItem(items, id).value;
        ReplaceKeepsWellFormed(items, sales, nextId, created, i, r.value);
        items := items[i := r.value];
      }
    }

    /** deleteItem: `findByIdAndDelete`; the sale log is not touched. */
    method DeleteItem(id: Id) returns (r: Result<Item, Error>)
      requires Valid()
      modifies this
      ensures Valid()
      ensures FindItem(old(items), id).None? ==> r == Failure(ItemNotFound) && items == old(items)
      ensures FindItem(old(items), id).Some? ==>
        var i := FindItem(old(items), id).value;
        r == Success(old(items)[i]) && items == RemoveAt(old(items), i)
      ensures forall k :: 0 <= k < |items| ==> items[k].id != id
      ensures sales == old(sales)
    {
      var found := FindItem(items, id);
      if found.None? {
        return Failure(ItemNotFound);
      }
      var i := found.value;
      r := Success(items[i]);
      RemoveKeepsWellFormed(items, sales, nextId, created, i, |sales|);
      items := RemoveAt(items, i);
    }

    /** sellItem: the stock check, the decrement, then the Sale snapshot is saved. */
    method SellItem(id: Id, quantity: int, now: int) returns (r: Result<SaleReceipt, Error>)
      requires Valid()
      modifies this
      ensures Valid()
      ensures FindItem(old(items), id).None? ==>
        r == Failure(ItemNotFound) && items == old(items) && sales == old(sales)
      ensures FindItem(old(items), id).Some? ==>
        var i := FindItem(old(items), id).value;
        var before := old(items)[i];
        var after := before.(stock := before.stock - quantity);
        var sale := NewSale(old(nextId), before, quantity, now);
        && (before.stock < quantity ==>
              r == Failure(InsufficientStock) && items == old(items) && sales == old(sales))
        && (before.stock >= quantity ==> items == old(items)[i := after] && after.stock >= 0)
        && (before.stock >= quantity && SaleSchemaValid(sale) ==>
              r == Success(SaleReceipt(after, sale)) && sales == old(sales) + [sale])
        && (before.stock >= quantity && !SaleSchemaValid(sale) ==>
              r == Failure(ValidationFailed) && sales == old(sales))
    {
      var found := FindItem(items, id);
      if found.None? {
        return Failure(ItemNotFound);
      }
      var i := found.value;
      var before := items[i];
      if before.stock < quantity {
        return Failure(InsufficientStock);
      }
      var after := before.(stock := before.stock - quantity);
      ReplaceKeepsWellFormed(items, sales, nextId, created, i, after);
      items := items[i := after];
      var sale := NewSale(nextId, before, quantity, now);
      if !SaleSchemaValid(sale) {
        return Failure(ValidationFailed);
      }
      SaleKeepsWellFormed(items, sales, nextId, created, sale);
      sales := sales + [sale];
      nextId := nextId + 1;
      r := Success(SaleReceipt(after, sale));
    }

    /** addStock, the definition that is in effect: an `$inc` of the stock with
     *  no history entry; an unknown id answers a null item, not an error. */
    method AddStock(id: Id, quantity: int) returns (r: Option<Item>)
      requires Valid()
      modifies this
      ensures Valid()
      ensures FindItem(old(items), id).None? ==> r == None && items == old(items)
      ensures FindItem(old(items), id).Some? ==>
        var i := FindItem(old(items), id).value;
        var after := old(items)[i].(stock := old(items)[i].stock + quantity);
        r == Some(after) && items == old(items)[i := after]
      ensures sales == old(sales)
    {
      var found := FindItem(items, id);
      if found.None? {
        return None;
      }
      var i := found.value;
      var after := items[i].(stock := items[i].stock + quantity);
      ReplaceKeepsWellFormed(items, sales, nextId, created, i, after);
      items := items[i := after];
      r := Some(after);
    }

    /** deleteSale: removes the sale record only; no stock is given back. */
    method DeleteSale(id: Id) returns (r: Result<Sale, Error>)
      requires Valid()
      modifies this
      ensures Valid()
      ensures FindSale(old(sales), id).None? ==> r == Failure(SaleNotFound) && sales == old(sales)
      ensures FindSale(old(sales), id).Some? ==>
        var i := FindSale(old(sales), id).value;
        r == Success(old(sales)[i]) && sales == RemoveAt(old(sales), i)
      ensures forall k :: 0 <= k < |sales| ==> sales[k].id != id
      ensures items == old(items)
    {
      var found := FindSale(sales, id);
      if found.None? {
        return Failure(SaleNotFound);
      }
      var i := found.value;
      r := Success(sales[i]);
      RemoveKeepsWellFormed(items, sales, nextId, created, |items|, i);
      sales := RemoveAt(sales, i);
    }

    method CreateSeller(name: Option<string>) returns (r: Result<CatalogEntry, Error>)
      requires Valid()
      modifies sellers
      ensures Valid()
      ensures r == NewEntryOutcome(old(sellers.entries), name, old(sellers.nextId))
      ensures sellers.entries == if r.Success? then old(sellers.entries) + [r.value] else old(sellers.entries)
    {
      r := sellers.Create(name);
    }

    method CreateCategory(name: Option<string>) returns (r: Result<CatalogEntry, Error>)
      requires Valid()
      modifies categories
      ensures Valid()
      ensures r == NewEntryOutcome(old(categories.entries), name, old(categories.nextId))
      ensures categories.entries == if r.Success? then old(categories.entries) + [r.value] else old(categories.entries)
    {
      r := categories.Create(name);
    }

    method CreateBrand(name: Option<string>) returns (r: Result<CatalogEntry, Error>)
      requires Valid()
      modifies brands
      ensures Valid()
      ensures r == NewEntryOutcome(old(brands.entries), name, old(brands.nextId))
      ensures brands.entries == if r.Success? then old(brands.entries) + [r.value] else old(brands.entries)
    {
      r := brands.Create(name);
    }
  }
}
