/**
 * The read-only half of the inventory controller: getItem (filter, sort by
 * name, offset pagination), getSales (newest first, populated), getStats
 * (sums over items and sales) and getDailySales (sums per UTC day).
 */
module Queries {
  import opened Wrappers
  import opened Text
  import opened Seqs
  import opened Records
  import opened Catalog
  import opened Inventory

  // ---------------------------------------------------------------- getItem

  /** The filter part of getItem's query string. A parameter that is absent,
   *  or "" (falsy), is `None`; an absent search is the empty string, which
   *  every name contains. */
  datatype ItemFilter = ItemFilter(
    category: Option<Id>,
    brand: Option<Id>,
    minPrice: Option<int>,
    maxPrice: Option<int>,
    search: string)

  /** The query string of getItem: the page, the page size and the filter. */
  datatype ItemQuery = ItemQuery(page: Option<int>, limit: Option<int>, filter: ItemFilter)

  /** The answer of getItem. `totalPages` is `None` where `Math.ceil(count / 0)`
   *  is not a finite number (Infinity or NaN, which JSON sends as null). */
  datatype ItemPage = ItemPage(items: seq<PopulatedItem>, totalPages: Option<int>, currentPage: int)

  function PageOf(q: ItemQuery): int {
    if q.page.Some? then q.page.value else 1
  }

  function LimitOf(q: ItemQuery): int {
    if q.limit.Some? then q.limit.value else 10
  }

  /** The number of documents before page `page`. */
  function PageStart(page: int, limit: int): int {
    (page - 1) * limit
  }

  /** `skip = (page - 1) * limit`. */
  function Skip(q: ItemQuery): int {
    PageStart(PageOf(q), LimitOf(q))
  }

  /** The MongoDB filter built from the query: category and brand compared by
   *  id, both price bounds inclusive, the name searched case-insensitively. */
  predicate Matches(f: ItemFilter, it: Item) {
    && (f.category.Some? ==> it.category == f.category.value)
    && (f.brand.Some? ==> it.brand == f.brand.value)
    && (f.minPrice.Some? ==> it.price >= f.minPrice.value)
    && (f.maxPrice.Some? ==> it.price <= f.maxPrice.value)
    && ContainsIgnoringCase(it.name, f.search)
  }

  /** `sort({ name: 1 })`. */
  predicate ByName(a: Item, b: Item) {
    LexLe(a.name, b.name)
  }

  lemma ByNameIsTotalPreorder()
    ensures IsTotalPreorder(ByName)
  {
    forall a: Item, b: Item
      ensures ByName(a, b) || ByName(b, a)
    {
      LexLeTotal(a.name, b.name);
    }
    forall a: Item, b: Item, c: Item | ByName(a, b) && ByName(b, c)
      ensures ByName(a, c)
    {
      LexLeTransitive(a.name, b.name, c.name);
    }
  }

  /** The documents the filter matches, in name order. Which of two items with
   *  equal names comes first the database leaves open; the model keeps the
   *  collection's order. */
  function MatchingByName(items: seq<Item>, f: ItemFilter): (r: seq<Item>)
    ensures multiset(r) == multiset(Filter(items, (it: Item) => Matches(f, it)))
    ensures SortedBy(r, ByName)
  {
    var matched := Filter(items, (it: Item) => Matches(f, it));
    ByNameIsTotalPreorder();
    SortBySorted(matched, ByName);
    SortBy(matched, ByName)
  }

  /** An item is in the name order exactly when it is in the collection and
   *  matches the filter. */
  lemma MatchingMembers(items: seq<Item>, f: ItemFilter, x: Item)
    ensures x in MatchingByName(items, f) <==> x in items && Matches(f, x)
  {
    var matched := Filter(items, (it: Item) => Matches(f, it));
    var r := MatchingByName(items, f);
    assert x in r <==> x in multiset(r);
    assert x in matched <==> x in multiset(matched);
    if x in items && Matches(f, x) {
      var k :| 0 <= k < |items| && items[k] == x;
    }
    if x in matched {
      var k :| 0 <= k < |matched| && matched[k] == x;
    }
  }

  function Abs(x: int): nat {
    if x < 0 then -x else x
  }

  function Min(a: int, b: int): int {
    if a <= b then a else b
  }

  /** `.skip(skip).limit(limit)`: a limit of 0 means no limit, a negative limit
   *  returns at most its absolute value. */
  function Window<T>(s: seq<T>, skip: nat, limit: int): (r: seq<T>)
    ensures |r| == if skip >= |s| then 0 else if limit == 0 then |s| - skip else Min(|s| - skip, Abs(limit))
    ensures forall k :: 0 <= k < |r| ==> skip + k < |s| && r[k] == s[skip + k]
  {
    if skip >= |s| then []
    else if limit == 0 || skip + Abs(limit) > |s| then s[skip..]
    else s[skip..skip + Abs(limit)]
  }

  /** `Math.ceil(a / b)`. */
  function CeilDiv(a: int, b: int): (q: int)
    requires b != 0
    ensures b > 0 ==> (q - 1) * b < a <= q * b
    ensures b < 0 ==> q * b <= a < (q - 1) * b
  {
    if b > 0 then -((-a) / b) else -(a / (-b))
  }

  /** `populate("category brand seller")`. */
  function Populate(categories: seq<CatalogEntry>, brands: seq<CatalogEntry>, sellers: seq<CatalogEntry>,
                    it: Item): (p: PopulatedItem)
    ensures p.item == it
    ensures p.category.Some? ==> p.category.value in categories && p.category.value.id == it.category
    ensures p.category.None? ==> forall j :: 0 <= j < |categories| ==> categories[j].id != it.category
    ensures p.brand.Some? ==> p.brand.value in brands && p.brand.value.id == it.brand
    ensures p.brand.None? ==> forall j :: 0 <= j < |brands| ==> brands[j].id != it.brand
    ensures p.seller.Some? ==> p.seller.value in sellers && p.seller.value.id == it.seller
    ensures p.seller.None? ==> forall j :: 0 <= j < |sellers| ==> sellers[j].id != it.seller
  {
    PopulatedItem(it, FindById(categories, it.category), FindById(brands, it.brand), FindById(sellers, it.seller))
  }

  /** One page of a result in name order: the window at `skip`, populated,
   *  with the page count for `limit`. */
  function PageOfOrder(sorted: seq<Item>, categories: seq<CatalogEntry>, brands: seq<CatalogEntry>,
                       sellers: seq<CatalogEntry>, page: int, limit: int, skip: nat): (r: ItemPage)
    ensures r.currentPage == page
    ensures r.totalPages == (if limit == 0 then None else Some(CeilDiv(|sorted|, limit)))
    ensures |r.items| == |Window(sorted, skip, limit)|
    ensures forall k :: 0 <= k < |r.items| ==> r.items[k] == Populate(categories, brands, sellers, Window(sorted, skip, limit)[k])
  {
    var window := Window(sorted, skip, limit);
    ItemPage(seq(|window|, k requires 0 <= k < |window| => Populate(categories, brands, sellers, window[k])),
             if limit == 0 then None else Some(CeilDiv(|sorted|, limit)),
             page)
  }

  /** getItem: one page of the matching items in name order, with the page
   *  count; a negative skip is refused by the database. */
  function GetItem(items: seq<Item>, categories: seq<CatalogEntry>, brands: seq<CatalogEntry>,
                   sellers: seq<CatalogEntry>, q: ItemQuery): (r: Result<ItemPage, Error>)
    ensures r.Failure? <==> Skip(q) < 0
    ensures r.Failure? ==> r.error == NegativeSkip
    ensures r.Success? ==>
      var sorted := MatchingByName(items, q.filter);
      && r.value.currentPage == PageOf(q)
      && r.value.totalPages == (if LimitOf(q) == 0 then None else Some(CeilDiv(|sorted|, LimitOf(q))))
      && var window := Window(sorted, Skip(q), LimitOf(q));
      && |r.value.items| == |window|
      && forall k :: 0 <= k < |window| ==> r.value.items[k] == Populate(categories, brands, sellers, window[k])
  {
    if Skip(q) < 0 then Failure(NegativeSkip)
    else Success(PageOfOrder(MatchingByName(items, q.filter), categories, brands, sellers, PageOf(q), LimitOf(q), Skip(q)))
  }

  /** Every item on a page matches the filter, and the page is in name order. */
  lemma GetItemPageMatchesInOrder(items: seq<Item>, categories: seq<CatalogEntry>, brands: seq<CatalogEntry>,
                                  sellers: seq<CatalogEntry>, q: ItemQuery)
    requires GetItem(items, categories, brands, sellers, q).Success?
    ensures var page := GetItem(items, categories, brands, sellers, q).value.items;
      && (forall k :: 0 <= k < |page| ==> page[k].item in items && Matches(q.filter, page[k].item))
      && (forall j, k :: 0 <= j < k < |page| ==> LexLe(page[j].item.name, page[k].item.name))
  {
    var sorted := MatchingByName(items, q.filter);
    var page := GetItem(items, categories, brands, sellers, q).value.items;
    forall k | 0 <= k < |page| ensures page[k].item in items && Matches(q.filter, page[k].item) {
      MatchingMembers(items, q.filter, sorted[Skip(q) + k]);
    }
    forall j, k | 0 <= j < k < |page|
      ensures LexLe(page[j].item.name, page[k].item.name)
    {
      assert page[j].item == sorted[Skip(q) + j] && page[k].item == sorted[Skip(q) + k];
    }
  }

  /** Position `j` of the name order is at offset `j % limit` of page `j / limit + 1`. */
  lemma PagePosition(j: nat, limit: int) returns (page: int, offset: nat)
    requires limit > 0
    ensures page >= 1 && offset < limit
    ensures PageStart(page, limit) + offset == j && offset <= j
    ensures page == j / limit + 1 && offset == j % limit
  {
    page := j / limit + 1;
    offset := j % limit;
  }

  /** Every matching item is listed: with a positive limit, the item at
   *  position `j` of the name order is at offset `j % limit` of page
   *  `j / limit + 1`. */
  lemma MatchIsOnItsPage(items: seq<Item>, categories: seq<CatalogEntry>, brands: seq<CatalogEntry>,
                         sellers: seq<CatalogEntry>, q: ItemQuery, it: Item) returns (page: int, offset: nat)
    requires it in items && Matches(q.filter, it)
    requires LimitOf(q) > 0
    ensures page >= 1 && offset < LimitOf(q)
    ensures var r := GetItem(items, categories, brands, sellers, q.(page := Some(page)));
      r.Success? && offset < |r.value.items| && r.value.items[offset].item == it
  {
    var sorted := MatchingByName(items, q.filter);
    var j := IndexInOrder(items, q.filter, it);
    var limit := LimitOf(q);
    page, offset := PagePosition(j, limit);
    var q' := q.(page := Some(page));
    assert PageOf(q') == page && LimitOf(q') == limit;
    GetItemEntry(items, categories, brands, sellers, q', offset, j);
  }

  /** Offset `k` of a page holds position `skip + k` of the name order when
   *  both are in range. */
  lemma GetItemEntry(items: seq<Item>, categories: seq<CatalogEntry>, brands: seq<CatalogEntry>,
                     sellers: seq<CatalogEntry>, q: ItemQuery, k: nat, j: nat)
    requires Skip(q) >= 0 && k < LimitOf(q)
    requires Skip(q) + k == j && j < |MatchingByName(items, q.filter)|
    ensures var r := GetItem(items, categories, brands, sellers, q);
      r.Success? && k < |r.value.items| && r.value.items[k].item == MatchingByName(items, q.filter)[j]
  {
    var sorted := MatchingByName(items, q.filter);
    assert |Window(sorted, Skip(q), LimitOf(q))| > k;
  }

  /** A matching item has a position in the name order. */
  lemma IndexInOrder(items: seq<Item>, f: ItemFilter, it: Item) returns (j: nat)
    requires it in items && Matches(f, it)
    ensures j < |MatchingByName(items, f)| && MatchingByName(items, f)[j] == it
  {
    var sorted := MatchingByName(items, f);
    MatchingMembers(items, f, it);
    j :| 0 <= j < |sorted| && sorted[j] == it;
  }

  // --------------------------------------------------------------- getSales

  /** What `populate` leaves of a sale's item: its name, category and brand. */
  datatype SaleItemView = SaleItemView(name: string, category: Option<CatalogEntry>, brand: Option<CatalogEntry>)

  datatype PopulatedSale = PopulatedSale(sale: Sale, item: Option<SaleItemView>)

  /** `sort({ date: -1 })`. */
  predicate NewestFirst(a: Sale, b: Sale) {
    a.date >= b.date
  }

  function SaleItem(items: seq<Item>, categories: seq<CatalogEntry>, brands: seq<CatalogEntry>,
                    id: Id): (v: Option<SaleItemView>)
    ensures v.None? <==> FindItem(items, id).None?
    ensures v.Some? ==>
      var it := items[FindItem(items, id).value];
      && it.id == id && v.value.name == it.name
      && (v.value.category.Some? ==> v.value.category.value in categories && v.value.category.value.id == it.category)
      && (v.value.category.None? ==> forall j :: 0 <= j < |categories| ==> categories[j].id != it.category)
      && (v.value.brand.Some? ==> v.value.brand.value in brands && v.value.brand.value.id == it.brand)
      && (v.value.brand.None? ==> forall j :: 0 <= j < |brands| ==> brands[j].id != it.brand)
  {
    match FindItem(items, id)
    case None => None
    case Some(i) =>
      Some(SaleItemView(items[i].name, FindById(categories, items[i].category), FindById(brands, items[i].brand)))
  }

  function SalesOf(ps: seq<PopulatedSale>): (s: seq<Sale>)
    ensures |s| == |ps|
    ensures forall k :: 0 <= k < |ps| ==> s[k] == ps[k].sale
  {
    seq(|ps|, k requires 0 <= k < |ps| => ps[k].sale)
  }

  /** getSales: every sale once, newest first, with its item's current name,
   *  category and brand, or null when the item has been deleted. */
  function GetSales(sales: seq<Sale>, items: seq<Item>, categories: seq<CatalogEntry>,
                    brands: seq<CatalogEntry>): (r: seq<PopulatedSale>)
    ensures multiset(SalesOf(r)) == multiset(sales)
    ensures forall j, k :: 0 <= j < k < |r| ==> r[j].sale.date >= r[k].sale.date
    ensures forall k :: 0 <= k < |r| ==> r[k].item == SaleItem(items, categories, brands, r[k].sale.item)
  {
    SortBySorted(sales, NewestFirst);
    var sorted := SortBy(sales, NewestFirst);
    var r := seq(|sorted|, k requires 0 <= k < |sorted| =>
                 PopulatedSale(sorted[k], SaleItem(items, categories, brands, sorted[k].item)));
    assert SalesOf(r) == sorted;
    r
  }

  // --------------------------------------------------------------- getStats

  /** `$sum` of the stock over the Item collection. */
  function TotalStock(items: seq<Item>): int {
    if items == [] then 0 else TotalStock(items[..|items| - 1]) + items[|items| - 1].stock
  }

  /** `$sum` of the quantity over the sale log. */
  function TotalSold(sales: seq<Sale>): int {
    if sales == [] then 0 else TotalSold(sales[..|sales| - 1]) + sales[|sales| - 1].quantity
  }

  /** `$sum` of the total over the sale log. */
  function TotalRevenue(sales: seq<Sale>): int {
    if sales == [] then 0 else TotalRevenue(sales[..|sales| - 1]) + sales[|sales| - 1].total
  }

  datatype Stats = Stats(totalStock: int, totalItemSold: int, totalRevenue: int)

  /** getStats. An empty collection groups to no document at all, and
   *  `?.total || 0` then answers 0, which is the empty sum. */
  function GetStats(items: seq<Item>, sales: seq<Sale>): (r: Stats)
    ensures items == [] ==> r.totalStock == 0
    ensures sales == [] ==> r.totalItemSold == 0 && r.totalRevenue == 0
  {
    Stats(TotalStock(items), TotalSold(sales), TotalRevenue(sales))
  }

  /** Changing one item changes the stock sum by the difference of its stock. */
  lemma {:induction false} TotalStockUpdate(items: seq<Item>, i: nat, x: Item)
    requires i < |items|
    ensures TotalStock(items[i := x]) == TotalStock(items) - items[i].stock + x.stock
  {
    var n := |items| - 1;
    assert items[i := x][..n] == if i == n then items[..n] else items[..n][i := x];
    if i < n {
      TotalStockUpdate(items[..n], i, x);
    }
  }

  /** Deleting an item takes its stock out of the sum. */
  lemma {:induction false} TotalStockRemove(items: seq<Item>, i: nat)
    requires i < |items|
    ensures TotalStock(RemoveAt(items, i)) == TotalStock(items) - items[i].stock
  {
    var n := |items| - 1;
    if i < n {
      assert RemoveAt(items, i)[..n - 1] == RemoveAt(items[..n], i);
      TotalStockRemove(items[..n], i);
    } else {
      assert RemoveAt(items, i) == items[..n];
    }
  }

  /** Deleting a sale takes its quantity and total out of the sums. */
  lemma {:induction false} TotalsRemove(sales: seq<Sale>, i: nat)
    requires i < |sales|
    ensures TotalSold(RemoveAt(sales, i)) == TotalSold(sales) - sales[i].quantity
    ensures TotalRevenue(RemoveAt(sales, i)) == TotalRevenue(sales) - sales[i].total
  {
    var n := |sales| - 1;
    if i < n {
      assert RemoveAt(sales, i)[..n - 1] == RemoveAt(sales[..n], i);
      TotalsRemove(sales[..n], i);
    } else {
      assert RemoveAt(sales, i) == sales[..n];
    }
  }

  /** A successful sale moves `quantity` from the stock sum to the sold sum and
   *  adds `price * quantity` to the revenue. */
  lemma SaleMovesStats(items: seq<Item>, sales: seq<Sale>, i: nat, quantity: int, id: Id, now: int)
    requires i < |items|
    ensures
      var after := items[i].(stock := items[i].stock - quantity);
      var sale := NewSale(id, items[i], quantity, now);
      GetStats(items[i := after], sales + [sale])
        == Stats(TotalStock(items) - quantity, TotalSold(sales) + quantity,
                 TotalRevenue(sales) + items[i].price * quantity)
  {
    var after := items[i].(stock := items[i].stock - quantity);
    var sale := NewSale(id, items[i], quantity, now);
    TotalStockUpdate(items, i, after);
    assert (sales + [sale])[..|sales|] == sales;
  }

  /** Deleting a sale lowers the sold and revenue sums and leaves the stock sum
   *  as it was: no stock is given back. */
  lemma DeleteSaleMovesStats(items: seq<Item>, sales: seq<Sale>, i: nat)
    requires i < |sales|
    ensures GetStats(items, RemoveAt(sales, i))
         == Stats(TotalStock(items), TotalSold(sales) - sales[i].quantity, TotalRevenue(sales) - sales[i].total)
  {
    TotalsRemove(sales, i);
  }

  // ---------------------------------------------------------- getDailySales

  /** One document of getDailySales: a day with its summed revenue and quantity. */
  datatype DayBucket = DayBucket(day: int, revenue: int, quantity: int)

  ghost predicate StrictlyAscending(bs: seq<DayBucket>) {
    forall i, j :: 0 <= i < j < |bs| ==> bs[i].day < bs[j].day
  }

  function Days(bs: seq<DayBucket>): set<int> {
    set k | 0 <= k < |bs| :: bs[k].day
  }

  /** The days on which there is at least one sale. */
  function SaleDays(sales: seq<Sale>): set<int> {
    set k | 0 <= k < |sales| :: DayOf(sales[k].date)
  }

  /** The revenue the buckets hold for `day`. */
  function BucketRevenue(bs: seq<DayBucket>, day: int): int {
    if bs == [] then 0 else (if bs[0].day == day then bs[0].revenue else 0) + BucketRevenue(bs[1..], day)
  }

  function BucketQuantity(bs: seq<DayBucket>, day: int): int {
    if bs == [] then 0 else (if bs[0].day == day then bs[0].quantity else 0) + BucketQuantity(bs[1..], day)
  }

  /** The sum of the totals of the sales made on `day`. */
  function RevenueOn(sales: seq<Sale>, day: int): int {
    if sales == [] then 0
    else RevenueOn(sales[..|sales| - 1], day)
         + (if DayOf(sales[|sales| - 1].date) == day then sales[|sales| - 1].total else 0)
  }

  /** The sum of the quantities of the sales made on `day`. */
  function QuantityOn(sales: seq<Sale>, day: int): int {
    if sales == [] then 0
    else QuantityOn(sales[..|sales| - 1], day)
         + (if DayOf(sales[|sales| - 1].date) == day then sales[|sales| - 1].quantity else 0)
  }

  /** Days of a bucket followed by more buckets. */
  lemma DaysCons(b: DayBucket, bs: seq<DayBucket>)
    ensures Days([b] + bs) == {b.day} + Days(bs)
  {
    var r := [b] + bs;
    forall d | d in Days(r) ensures d in {b.day} + Days(bs) {
      var k :| 0 <= k < |r| && r[k].day == d;
      if k > 0 { assert bs[k - 1].day == d; }
    }
    forall d | d in Days(bs) ensures d in Days(r) {
      var k :| 0 <= k < |bs| && bs[k].day == d;
      assert r[k + 1].day == d;
    }
    assert r[0].day == b.day;
  }

  /** Adds one sale's total and quantity to the bucket of its day, creating the
   *  bucket in day order when the day has none yet. */
  function AddToDay(bs: seq<DayBucket>, day: int, total: int, quantity: int): seq<DayBucket> {
    if bs == [] then [DayBucket(day, total, quantity)]
    else if day < bs[0].day then [DayBucket(day, total, quantity)] + bs
    else if day == bs[0].day then
      [bs[0].(revenue := bs[0].revenue + total, quantity := bs[0].quantity + quantity)] + bs[1..]
    else [bs[0]] + AddToDay(bs[1..], day, total, quantity)
  }

  /** Adding a sale adds its day to the series. */
  lemma {:induction false} AddToDayDays(bs: seq<DayBucket>, day: int, total: int, quantity: int)
    ensures Days(AddToDay(bs, day, total, quantity)) == Days(bs) + {day}
  {
    var r := AddToDay(bs, day, total, quantity);
    if bs == [] {
      assert r == [r[0]] + [];
      DaysCons(r[0], []);
    } else if day < bs[0].day {
      DaysCons(DayBucket(day, total, quantity), bs);
    } else if day == bs[0].day {
      DaysCons(r[0], bs[1..]);
      DaysCons(bs[0], bs[1..]);
      assert bs == [bs[0]] + bs[1..];
    } else {
      AddToDayDays(bs[1..], day, total, quantity);
      DaysCons(bs[0], AddToDay(bs[1..], day, total, quantity));
      DaysCons(bs[0], bs[1..]);
      assert bs == [bs[0]] + bs[1..];
    }
  }

  /** Adding a sale keeps the series in strictly ascending day order. */
  lemma {:induction false} AddToDayAscending(bs: seq<DayBucket>, day: int, total: int, quantity: int)
    requires StrictlyAscending(bs)
    ensures StrictlyAscending(AddToDay(bs, day, total, quantity))
  {
    if bs != [] && day > bs[0].day {
      var rest := AddToDay(bs[1..], day, total, quantity);
      AddToDayAscending(bs[1..], day, total, quantity);
      AddToDayDays(bs[1..], day, total, quantity);
      forall d | d in Days(rest) ensures bs[0].day < d {
        if d != day {
          var m :| 0 <= m < |bs[1..]| && bs[1..][m].day == d;
          assert bs[m + 1].day == d;
        }
      }
      ConsAscending(bs[0], rest);
    }
  }

  /** A bucket before a strictly ascending series of later days. */
  lemma ConsAscending(b: DayBucket, rest: seq<DayBucket>)
    requires StrictlyAscending(rest)
    requires forall d :: d in Days(rest) ==> b.day < d
    ensures StrictlyAscending([b] + rest)
  {
    var r := [b] + rest;
    forall i, j | 0 <= i < j < |r| ensures r[i].day < r[j].day {
      assert r[j] == rest[j - 1];
      assert rest[j - 1].day in Days(rest);
      if i > 0 {
        assert r[i] == rest[i - 1];
      }
    }
  }

  /** Adding a sale adds its total and quantity to its day's sums and to no other day's. */
  lemma {:induction false} AddToDaySums(bs: seq<DayBucket>, day: int, total: int, quantity: int, d: int)
    ensures BucketRevenue(AddToDay(bs, day, total, quantity), d) == BucketRevenue(bs, d) + (if d == day then total else 0)
    ensures BucketQuantity(AddToDay(bs, day, total, quantity), d) == BucketQuantity(bs, d) + (if d == day then quantity else 0)
  {
    var r := AddToDay(bs, day, total, quantity);
    if bs == [] {
      assert r[1..] == [];
    } else if day < bs[0].day {
      assert r[1..] == bs;
    } else if day == bs[0].day {
      assert r[1..] == bs[1..];
    } else {
      AddToDaySums(bs[1..], day, total, quantity, d);
      assert r[1..] == AddToDay(bs[1..], day, total, quantity);
    }
  }

  lemma AddToDayFacts(bs: seq<DayBucket>, day: int, total: int, quantity: int)
    requires StrictlyAscending(bs)
    ensures Days(AddToDay(bs, day, total, quantity)) == Days(bs) + {day}
    ensures StrictlyAscending(AddToDay(bs, day, total, quantity))
    ensures forall d :: BucketRevenue(AddToDay(bs, day, total, quantity), d)
                        == BucketRevenue(bs, d) + (if d == day then total else 0)
    ensures forall d :: BucketQuantity(AddToDay(bs, day, total, quantity), d)
                        == BucketQuantity(bs, d) + (if d == day then quantity else 0)
  {
    AddToDayDays(bs, day, total, quantity);
    AddToDayAscending(bs, day, total, quantity);
    forall d
      ensures BucketRevenue(AddToDay(bs, day, total, quantity), d) == BucketRevenue(bs, d) + (if d == day then total else 0)
      ensures BucketQuantity(AddToDay(bs, day, total, quantity), d) == BucketQuantity(bs, d) + (if d == day then quantity else 0)
    {
      AddToDaySums(bs, day, total, quantity, d);
    }
  }

  /** getDailySales: the sales grouped by UTC day, one bucket per day that has
   *  a sale, in ascending day order, each holding that day's sums. */
  function DailySales(sales: seq<Sale>): (r: seq<DayBucket>)
    ensures StrictlyAscending(r)
    ensures Days(r) == SaleDays(sales)
    ensures forall d :: BucketRevenue(r, d) == RevenueOn(sales, d)
    ensures forall d :: BucketQuantity(r, d) == QuantityOn(sales, d)
  {
    if sales == [] then []
    else
      var n := |sales| - 1;
      var prev := DailySales(sales[..n]);
      assert SaleDays(sales) == SaleDays(sales[..n]) + {DayOf(sales[n].date)} by {
        forall d | d in SaleDays(sales) ensures d in SaleDays(sales[..n]) + {DayOf(sales[n].date)} {
          var k :| 0 <= k < |sales| && DayOf(sales[k].date) == d;
          if k < n { assert sales[..n][k] == sales[k]; }
        }
        forall d | d in SaleDays(sales[..n]) ensures d in SaleDays(sales) {
          var k :| 0 <= k < n && DayOf(sales[..n][k].date) == d;
          assert sales[k] == sales[..n][k];
        }
      }
      AddToDayFacts(prev, DayOf(sales[n].date), sales[n].total, sales[n].quantity);
      AddToDay(prev, DayOf(sales[n].date), sales[n].total, sales[n].quantity)
  }

  lemma {:induction false} BucketRevenueAbsent(bs: seq<DayBucket>, day: int)
    requires day !in Days(bs)
    ensures BucketRevenue(bs, day) == 0 && BucketQuantity(bs, day) == 0
  {
    if bs != [] {
      assert bs[0].day in Days(bs);
      assert Days(bs[1..]) <= Days(bs) by {
        forall d | d in Days(bs[1..]) ensures d in Days(bs) {
          var k :| 0 <= k < |bs[1..]| && bs[1..][k].day == d;
          assert bs[k + 1].day == d;
        }
      }
      BucketRevenueAbsent(bs[1..], day);
    }
  }

  /** In an ascending series a day's sums are those of its one bucket. */
  lemma {:induction false} BucketOfAscending(bs: seq<DayBucket>, k: nat)
    requires StrictlyAscending(bs)
    requires k < |bs|
    ensures BucketRevenue(bs, bs[k].day) == bs[k].revenue
    ensures BucketQuantity(bs, bs[k].day) == bs[k].quantity
  {
    if k == 0 {
      forall m | 0 <= m < |bs[1..]|
        ensures bs[1..][m].day != bs[0].day
      {
        assert bs[1..][m] == bs[m + 1];
      }
      BucketRevenueAbsent(bs[1..], bs[0].day);
    } else {
      assert bs[1..][k - 1] == bs[k];
      BucketOfAscending(bs[1..], k - 1);
    }
  }

  /** Each bucket of getDailySales holds exactly the sums of its day's sales,
   *  and every bucket's day has at least one sale. */
  lemma DailyBucketsAreDaySums(sales: seq<Sale>)
    ensures var r := DailySales(sales);
      forall k :: 0 <= k < |r| ==>
        && r[k].revenue == RevenueOn(sales, r[k].day)
        && r[k].quantity == QuantityOn(sales, r[k].day)
        && r[k].day in SaleDays(sales)
  {
    var r := DailySales(sales);
    forall k | 0 <= k < |r|
      ensures r[k].revenue == RevenueOn(sales, r[k].day) && r[k].quantity == QuantityOn(sales, r[k].day)
      ensures r[k].day in SaleDays(sales)
    {
      BucketOfAscending(r, k);
      assert r[k].day in Days(r);
    }
  }

  /** The revenue of all buckets. */
  function SeriesRevenue(bs: seq<DayBucket>): int {
    if bs == [] then 0 else bs[0].revenue + SeriesRevenue(bs[1..])
  }

  function SeriesQuantity(bs: seq<DayBucket>): int {
    if bs == [] then 0 else bs[0].quantity + SeriesQuantity(bs[1..])
  }

  lemma {:induction false} AddToDaySeries(bs: seq<DayBucket>, day: int, total: int, quantity: int)
    ensures SeriesRevenue(AddToDay(bs, day, total, quantity)) == SeriesRevenue(bs) + total
    ensures SeriesQuantity(AddToDay(bs, day, total, quantity)) == SeriesQuantity(bs) + quantity
  {
    if bs != [] && day > bs[0].day {
      AddToDaySeries(bs[1..], day, total, quantity);
      var rest := AddToDay(bs[1..], day, total, quantity);
      assert AddToDay(bs, day, total, quantity) == [bs[0]] + rest;
      assert ([bs[0]] + rest)[1..] == rest;
    } else if bs != [] && day == bs[0].day {
      var r := AddToDay(bs, day, total, quantity);
      assert r[1..] == bs[1..];
    } else if bs != [] {
      var r := AddToDay(bs, day, total, quantity);
      assert r[1..] == bs;
    }
  }

  /** The daily series adds up to the totals getStats reports. */
  lemma {:induction false} DailySalesAddUpToStats(sales: seq<Sale>)
    ensures SeriesRevenue(DailySales(sales)) == TotalRevenue(sales)
    ensures SeriesQuantity(DailySales(sales)) == TotalSold(sales)
  {
    if sales != [] {
      var n := |sales| - 1;
      DailySalesAddUpToStats(sales[..n]);
      AddToDaySeries(DailySales(sales[..n]), DayOf(sales[n].date), sales[n].total, sales[n].quantity);
    }
  }
}
