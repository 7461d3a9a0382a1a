/**
 * The inventory table component of the frontend: the filter bar over the
 * page of items it is given, the sell and add-stock dialogs with their
 * submit guards, and the edit dialog's prefill. The callbacks the parent
 * passes in (`onSell`, `onAddStock`, `onEdit`) are recorded as the sequence
 * of calls made to them.
 */
module InventoryList {
  import opened Wrappers
  import opened Text
  import opened Seqs
  import opened Records
  import opened Catalog
  import opened Inventory
  import opened Queries

  // ---------------------------------------------------------------- filter bar

  /** The search box and the two selects; "" is the placeholder (no filter). */
  datatype ListFilter = ListFilter(search: string, category: string, brand: string)

  /** `!selected || ref?.name === selected`. */
  predicate RefMatches(selected: string, ref: Option<CatalogEntry>) {
    selected == "" || (ref.Some? && ref.value.name == selected)
  }

  /** The predicate of `filteredItems`. */
  predicate ItemMatches(f: ListFilter, p: PopulatedItem) {
    && ContainsIgnoringCase(p.item.name, f.search)
    && RefMatches(f.category, p.category)
    && RefMatches(f.brand, p.brand)
  }

  /** `filteredItems`. */
  function FilterItems(items: seq<PopulatedItem>, f: ListFilter): (r: seq<PopulatedItem>)
    ensures forall k :: 0 <= k < |r| ==> r[k] in items && ItemMatches(f, r[k])
    ensures forall k :: 0 <= k < |items| && ItemMatches(f, items[k]) ==> items[k] in r
  {
    Filter(items, (p: PopulatedItem) => ItemMatches(f, p))
  }

  /** An item is listed exactly when its lower-cased name contains the
   *  lower-cased search term and each select is empty or names the item's
   *  category (brand). */
  lemma FilterItemsIff(items: seq<PopulatedItem>, f: ListFilter, p: PopulatedItem)
    ensures p in FilterItems(items, f)
        <==> && p in items
             && Contains(Lower(p.item.name), Lower(f.search))
             && (f.category == "" || (p.category.Some? && p.category.value.name == f.category))
             && (f.brand == "" || (p.brand.Some? && p.brand.value.name == f.brand))
  {
    var r := FilterItems(items, f);
    if p in r {
      var k :| 0 <= k < |r| && r[k] == p;
    }
  }

  /** The listed items appear in the order of the page. */
  lemma FilterItemsIsSubsequence(items: seq<PopulatedItem>, f: ListFilter)
    ensures IsSubsequence(FilterItems(items, f), items)
  {
    FilterIsSubsequence(items, (p: PopulatedItem) => ItemMatches(f, p));
  }

  /** With all three filters empty the whole page is listed. */
  lemma EmptyFilterKeepsAll(items: seq<PopulatedItem>)
    ensures FilterItems(items, ListFilter("", "", "")) == items
  {
    var f := ListFilter("", "", "");
    forall k | 0 <= k < |items|
      ensures ItemMatches(f, items[k])
    {
      ContainsEmpty(Lower(items[k].item.name));
    }
    FilterKeepsAll(items, (p: PopulatedItem) => ItemMatches(f, p));
  }

  // -------------------------------------------------------------- form numbers

  /** The quantity held in a dialog's state: the initial `''`, a number, or
   *  the NaN that `parseInt` yields for an input without digits. */
  datatype FormNumber = Blank | Num(n: int) | NaN

  /** What the input's `onChange` stores: `parseInt(e.target.value)`. */
  function Parsed(value: Option<int>): (v: FormNumber)
    ensures v != Blank
    ensures value.Some? ==> v == Num(value.value)
    ensures value.None? ==> v == NaN
  {
    if value.Some? then Num(value.value) else NaN
  }

  /** `v > n` in JavaScript: `''` converts to 0 and NaN compares false. */
  predicate Exceeds(v: FormNumber, n: int) {
    match v
    case Blank => 0 > n
    case Num(x) => x > n
    case NaN => false
  }

  /** `v <= 0` in JavaScript. */
  predicate AtMostZero(v: FormNumber) {
    match v
    case Blank => true
    case Num(x) => x <= 0
    case NaN => false
  }

  // ------------------------------------------------------------ submit guards

  /** The error toast a submit shows instead of calling back. */
  datatype Rejection = InsufficientStockToast | InvalidQuantityToast

  /** handleSellSubmit's guards: more than the stock first, then at most zero. */
  function SellCheck(quantity: FormNumber, stock: int): (r: Option<Rejection>)
    ensures r == Some(InsufficientStockToast) <==> Exceeds(quantity, stock)
    ensures r == Some(InvalidQuantityToast) <==> !Exceeds(quantity, stock) && AtMostZero(quantity)
  {
    if Exceeds(quantity, stock) then Some(InsufficientStockToast)
    else if AtMostZero(quantity) then Some(InvalidQuantityToast)
    else None
  }

  /** handleAddStockSubmit's guard. */
  function AddStockCheck(quantity: FormNumber): (r: Option<Rejection>)
    ensures r.Some? <==> AtMostZero(quantity)
    ensures r.Some? ==> r.value == InvalidQuantityToast
  {
    if AtMostZero(quantity) then Some(InvalidQuantityToast) else None
  }

  /** `isDisabled` of the Confirm Sale button. */
  predicate ConfirmSaleDisabled(quantity: FormNumber, stock: int) {
    Exceeds(quantity, stock) || AtMostZero(quantity)
  }

  /** `isDisabled` of the Confirm Add Stock button. */
  predicate ConfirmAddStockDisabled(quantity: FormNumber) {
    AtMostZero(quantity)
  }

  /** The Confirm Sale button is disabled exactly when a submit would be refused. */
  lemma ConfirmSaleMatchesGuards(quantity: FormNumber, stock: int)
    ensures ConfirmSaleDisabled(quantity, stock) <==> SellCheck(quantity, stock).Some?
  {
  }

  /** The Confirm Add Stock button is disabled exactly when a submit would be refused. */
  lemma ConfirmAddStockMatchesGuard(quantity: FormNumber)
    ensures ConfirmAddStockDisabled(quantity) <==> AddStockCheck(quantity).Some?
  {
  }

  /** A numeric quantity is sold exactly when it is between 1 and the stock,
   *  so selling the whole stock is allowed. */
  lemma SellAcceptsExactly(n: int, stock: int)
    ensures SellCheck(Num(n), stock).None? <==> 0 < n <= stock
  {
  }

  /** A numeric quantity is added exactly when positive. */
  lemma AddStockAcceptsExactly(n: int)
    ensures AddStockCheck(Num(n)).None? <==> 0 < n
  {
  }

  /** The untouched `''` quantity is always refused, with the stock message
   *  only for a negative stock. */
  lemma BlankIsRefused(stock: int)
    ensures SellCheck(Blank, stock) == Some(if stock < 0 then InsufficientStockToast else InvalidQuantityToast)
    ensures AddStockCheck(Blank) == Some(InvalidQuantityToast)
  {
  }

  /** A cleared input holds NaN, which every comparison answers false: both
   *  guards let it through and both buttons stay enabled. */
  lemma NaNPassesGuards(stock: int)
    ensures SellCheck(Parsed(None), stock).None? && !ConfirmSaleDisabled(Parsed(None), stock)
    ensures AddStockCheck(Parsed(None)).None? && !ConfirmAddStockDisabled(Parsed(None))
  {
  }

  // -------------------------------------------------------------- edit prefill

  /** `ref?.name || ''`. */
  function NameOrEmpty(ref: Option<CatalogEntry>): (s: string)
    ensures s == if ref.Some? then ref.value.name else ""
  {
    if ref.Some? && ref.value.name != "" then ref.value.name else ""
  }

  /** handleEditClick's `editData`, which Save Changes sends as the update body. */
  function Prefill(p: PopulatedItem): (u: ItemUpdate)
    ensures u.name == p.item.name && u.price == p.item.price && u.stock == p.item.stock
    ensures u.category == NameOrEmpty(p.category)
    ensures u.seller == NameOrEmpty(p.seller)
    ensures u.brand == NameOrEmpty(p.brand)
  {
    ItemUpdate(p.item.name, p.item.price, p.item.stock,
               NameOrEmpty(p.category), NameOrEmpty(p.seller), NameOrEmpty(p.brand))
  }

  /** With unique names, an entry's own (stored, hence trimmed) name, used as
   *  a trimmed filter, resolves to it. */
  lemma ResolvesOwnName(entries: seq<CatalogEntry>, e: CatalogEntry)
    requires UniqueNames(entries) && e in entries && IsTrimmed(e.name)
    ensures FindByName(entries, Trim(e.name)) == Some(e)
  {
    var i :| 0 <= i < |entries| && entries[i] == e;
    FindByNameUnique(entries, i);
    TrimmedIsFixed(e.name);
  }

  /** Saving the edit dialog untouched is a no-op: the prefilled names, stored
   *  trimmed, resolve back to the item's own references and its stored name
   *  is already trimmed. */
  lemma UnchangedEditIsNoOp(items: seq<Item>, categories: seq<CatalogEntry>, brands: seq<CatalogEntry>,
                            sellers: seq<CatalogEntry>, it: Item)
    requires it in items && UniqueItemIds(items) && IsTrimmed(it.name)
    requires UniqueNames(categories) && UniqueNames(brands) && UniqueNames(sellers)
    requires forall i :: 0 <= i < |categories| ==> IsTrimmed(categories[i].name)
    requires forall i :: 0 <= i < |brands| ==> IsTrimmed(brands[i].name)
    requires forall i :: 0 <= i < |sellers| ==> IsTrimmed(sellers[i].name)
    requires var p := Populate(categories, brands, sellers, it);
      p.category.Some? && p.brand.Some? && p.seller.Some?
    ensures UpdateOutcome(items, categories, sellers, brands, it.id,
                          Prefill(Populate(categories, brands, sellers, it))) == Success(it)
  {
    var p := Populate(categories, brands, sellers, it);
    ResolvesOwnName(categories, p.category.value);
    ResolvesOwnName(sellers, p.seller.value);
    ResolvesOwnName(brands, p.brand.value);
    var k :| 0 <= k < |items| && items[k] == it;
    FindItemUnique(items, k);
    TrimmedIsFixed(it.name);
  }

  /** An item whose category, seller or brand no longer exists prefills that
   *  select with "", which names no entry: saving it untouched is refused. */
  lemma MissingReferenceBlocksEdit(items: seq<Item>, categories: seq<CatalogEntry>, brands: seq<CatalogEntry>,
                                   sellers: seq<CatalogEntry>, it: Item)
    requires forall i :: 0 <= i < |categories| ==> CatalogSchemaValid(categories[i])
    requires forall i :: 0 <= i < |brands| ==> CatalogSchemaValid(brands[i])
    requires forall i :: 0 <= i < |sellers| ==> CatalogSchemaValid(sellers[i])
    requires var p := Populate(categories, brands, sellers, it);
      p.category.None? || p.brand.None? || p.seller.None?
    ensures UpdateOutcome(items, categories, sellers, brands, it.id,
                          Prefill(Populate(categories, brands, sellers, it))) == Failure(ReferenceNotFound)
  {
  }

  // ------------------------------------------------------------ dialog state

  /** `saleData`. */
  datatype SaleForm = SaleForm(quantity: FormNumber, buyer: string, date: string)

  /** `stockData`. */
  datatype StockForm = StockForm(quantity: FormNumber, date: string)

  /** One call of `onSell`, `onAddStock` or `onEdit`. */
  datatype SellCall = SellCall(id: Id, form: SaleForm)
  datatype StockCall = StockCall(id: Id, form: StockForm)
  datatype EditCall = EditCall(id: Id, form: ItemUpdate)

  /** The component's state hooks and the calls made to its callbacks.
   *  `today` stands for `new Date().toISOString().split('T')[0]`. */
  class ListState {
    var selectedItem: Option<PopulatedItem>
    var sellOpen: bool
    var saleData: SaleForm
    var sellCalls: seq<SellCall>
    var selectedStockItem: Option<PopulatedItem>
    var addStockOpen: bool
    var stockData: StockForm
    var stockCalls: seq<StockCall>
    var editOpen: bool
    var editData: ItemUpdate
    var editCalls: seq<EditCall>

    /** The initial state hooks. The edit form starts with price and stock
     *  `''` in the component; `ItemUpdate` holds numbers, so they start at 0
     *  here. No behaviour depends on it: the edit dialog opens only through
     *  EditClick, which overwrites the whole form first. */
    constructor (today: string)
      ensures selectedItem.None? && !sellOpen && saleData == SaleForm(Blank, "", today) && sellCalls == []
      ensures selectedStockItem.None? && !addStockOpen && stockData == StockForm(Blank, today) && stockCalls == []
      ensures !editOpen && editData == ItemUpdate("", 0, 0, "", "", "") && editCalls == []
    {
      selectedItem := None;
      sellOpen := false;
      saleData := SaleForm(Blank, "", today);
      sellCalls := [];
      selectedStockItem := None;
      addStockOpen := false;
      stockData := StockForm(Blank, today);
      stockCalls := [];
      editOpen := false;
      editData := ItemUpdate("", 0, 0, "", "", "");
      editCalls := [];
    }

    /** handleSellClick: select the row's item and open the sell dialog. */
    method SellClick(p: PopulatedItem)
      modifies this
      ensures selectedItem == Some(p) && sellOpen
      ensures saleData == old(saleData) && sellCalls == old(sellCalls)
      ensures selectedStockItem == old(selectedStockItem) && addStockOpen == old(addStockOpen)
      ensures stockData == old(stockData) && stockCalls == old(stockCalls)
      ensures editOpen == old(editOpen) && editData == old(editData) && editCalls == old(editCalls)
    {
      selectedItem := Some(p);
      sellOpen := true;
    }

    /** The sale quantity input's onChange: the parsed number is stored even
     *  when it exceeds the stock (that only warns). */
    method SaleQuantityChange(value: Option<int>)
      modifies this
      ensures saleData == old(saleData).(quantity := Parsed(value))
      ensures selectedItem == old(selectedItem) && sellOpen == old(sellOpen) && sellCalls == old(sellCalls)
      ensures selectedStockItem == old(selectedStockItem) && addStockOpen == old(addStockOpen)
      ensures stockData == old(stockData) && stockCalls == old(stockCalls)
      ensures editOpen == old(editOpen) && editData == old(editData) && editCalls == old(editCalls)
    {
      saleData := saleData.(quantity := Parsed(value));
    }

    /** handleSellSubmit: a refused submit changes nothing; an accepted one
     *  calls `onSell` once with the item id and the form, closes the dialog
     *  and resets the form to quantity 1, no buyer and today. */
    method SellSubmit(today: string) returns (r: Option<Rejection>)
      requires selectedItem.Some?
      modifies this
      ensures r == SellCheck(old(saleData.quantity), old(selectedItem.value.item.stock))
      ensures r.Some? ==> sellOpen == old(sellOpen) && saleData == old(saleData) && sellCalls == old(sellCalls)
      ensures r.None? ==>
        && sellCalls == old(sellCalls) + [SellCall(old(selectedItem.value.item.id), old(saleData))]
        && !sellOpen && saleData == SaleForm(Num(1), "", today)
      ensures selectedItem == old(selectedItem)
      ensures selectedStockItem == old(selectedStockItem) && addStockOpen == old(addStockOpen)
      ensures stockData == old(stockData) && stockCalls == old(stockCalls)
      ensures editOpen == old(editOpen) && editData == old(editData) && editCalls == old(editCalls)
    {
      var stock := selectedItem.value.item.stock;
      if Exceeds(saleData.quantity, stock) {
        return Some(InsufficientStockToast);
      }
      if AtMostZero(saleData.quantity) {
        return Some(InvalidQuantityToast);
      }
      sellCalls := sellCalls + [SellCall(selectedItem.value.item.id, saleData)];
      sellOpen := false;
      saleData := SaleForm(Num(1), "", today);
      return None;
    }

    /** handleAddStockClick: select the row's item and open the add-stock dialog. */
    method AddStockClick(p: PopulatedItem)
      modifies this
      ensures selectedStockItem == Some(p) && addStockOpen
      ensures stockData == old(stockData) && stockCalls == old(stockCalls)
      ensures selectedItem == old(selectedItem) && sellOpen == old(sellOpen)
      ensures saleData == old(saleData) && sellCalls == old(sellCalls)
      ensures editOpen == old(editOpen) && editData == old(editData) && editCalls == old(editCalls)
    {
      selectedStockItem := Some(p);
      addStockOpen := true;
    }

    /** The stock quantity input's onChange: the parsed number is stored even
     *  when it is not positive (that only warns). */
    method StockQuantityChange(value: Option<int>)
      modifies this
      ensures stockData == old(stockData).(quantity := Parsed(value))
      ensures selectedStockItem == old(selectedStockItem) && addStockOpen == old(addStockOpen)
      ensures stockCalls == old(stockCalls)
      ensures selectedItem == old(selectedItem) && sellOpen == old(sellOpen)
      ensures saleData == old(saleData) && sellCalls == old(sellCalls)
      ensures editOpen == old(editOpen) && editData == old(editData) && editCalls == old(editCalls)
    {
      stockData := stockData.(quantity := Parsed(value));
    }

    /** handleAddStockSubmit: a refused submit changes nothing; an accepted
     *  one calls `onAddStock` once, closes the dialog and resets the form to
     *  quantity 1 and today. */
    method AddStockSubmit(today: string) returns (r: Option<Rejection>)
      requires selectedStockItem.Some?
      modifies this
      ensures r == AddStockCheck(old(stockData.quantity))
      ensures r.Some? ==> addStockOpen == old(addStockOpen) && stockData == old(stockData) && stockCalls == old(stockCalls)
      ensures r.None? ==>
        && stockCalls == old(stockCalls) + [StockCall(old(selectedStockItem.value.item.id), old(stockData))]
        && !addStockOpen && stockData == StockForm(Num(1), today)
      ensures selectedStockItem == old(selectedStockItem)
      ensures selectedItem == old(selectedItem) && sellOpen == old(sellOpen)
      ensures saleData == old(saleData) && sellCalls == old(sellCalls)
      ensures editOpen == old(editOpen) && editData == old(editData) && editCalls == old(editCalls)
    {
      if AtMostZero(stockData.quantity) {
        return Some(InvalidQuantityToast);
      }
      stockCalls := stockCalls + [StockCall(selectedStockItem.value.item.id, stockData)];
      addStockOpen := false;
      stockData := StockForm(Num(1), today);
      return None;
    }

    /** handleEditClick: select the row's item (the same state the sell dialog
     *  reads), prefill the form from it and open the edit dialog. */
    method EditClick(p: PopulatedItem)
      modifies this
      ensures selectedItem == Some(p) && editData == Prefill(p) && editOpen
      ensures editCalls == old(editCalls)
      ensures sellOpen == old(sellOpen) && saleData == old(saleData) && sellCalls == old(sellCalls)
      ensures selectedStockItem == old(selectedStockItem) && addStockOpen == old(addStockOpen)
      ensures stockData == old(stockData) && stockCalls == old(stockCalls)
    {
      selectedItem := Some(p);
      editData := Prefill(p);
      editOpen := true;
    }

    /** Save Changes: call `onEdit` with the selected item's id and the form,
     *  and close the dialog. No guard runs. */
    method EditSubmit()
      requires selectedItem.Some?
      modifies this
      ensures editCalls == old(editCalls) + [EditCall(old(selectedItem.value.item.id), old(editData))]
      ensures !editOpen && editData == old(editData) && selectedItem == old(selectedItem)
      ensures sellOpen == old(sellOpen) && saleData == old(saleData) && sellCalls == old(sellCalls)
      ensures selectedStockItem == old(selectedStockItem) && addStockOpen == old(addStockOpen)
      ensures stockData == old(stockData) && stockCalls == old(stockCalls)
    {
      editCalls := editCalls + [EditCall(selectedItem.value.item.id, editData)];
      editOpen := false;
    }
  }
}
