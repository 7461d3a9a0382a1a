/**
 * The sales management page of the frontend: the search and date filter
 * over the sales list, and the deletion of one sale record from the list
 * after the server has deleted it.
 */
module ManageSales {
  import opened Wrappers
  import opened Text
  import opened Seqs
  import opened Records

  /** A sale as the page receives it: `date` is the JSON (ISO 8601) string
   *  of the sale's timestamp. */
  datatype SaleRow = SaleRow(id: Id, itemName: string, date: string, price: int, quantity: int, total: int)

  /** The search box and the date input; "" is an empty input (no filter). */
  datatype SalesFilter = SalesFilter(search: string, date: string)

  /** The predicate of `filteredSales`: the date is matched as a substring of
   *  the date string, so "2024-05" selects a whole month. */
  predicate SaleMatches(f: SalesFilter, s: SaleRow) {
    ContainsIgnoringCase(s.itemName, f.search) && (f.date == "" || Contains(s.date, f.date))
  }

  /** `filteredSales`. */
  function FilterSales(sales: seq<SaleRow>, f: SalesFilter): (r: seq<SaleRow>)
    ensures forall k :: 0 <= k < |r| ==> r[k] in sales && SaleMatches(f, r[k])
    ensures forall k :: 0 <= k < |sales| && SaleMatches(f, sales[k]) ==> sales[k] in r
  {
    Filter(sales, (s: SaleRow) => SaleMatches(f, s))
  }

  /** A sale is listed exactly when its lower-cased item name contains the
   *  lower-cased search term and the date input is empty or occurs in the
   *  sale's date string. */
  lemma FilterSalesIff(sales: seq<SaleRow>, f: SalesFilter, s: SaleRow)
    ensures s in FilterSales(sales, f)
        <==> && s in sales
             && Contains(Lower(s.itemName), Lower(f.search))
             && (f.date == "" || Contains(s.date, f.date))
  {
    var r := FilterSales(sales, f);
    if s in r {
      var k :| 0 <= k < |r| && r[k] == s;
    }
  }

  /** The listed sales appear in the order of the list. */
  lemma FilterSalesIsSubsequence(sales: seq<SaleRow>, f: SalesFilter)
    ensures IsSubsequence(FilterSales(sales, f), sales)
  {
    FilterIsSubsequence(sales, (s: SaleRow) => SaleMatches(f, s));
  }

  /** With both inputs empty every sale is listed. */
  lemma EmptyFilterKeepsAll(sales: seq<SaleRow>)
    ensures FilterSales(sales, SalesFilter("", "")) == sales
  {
    var f := SalesFilter("", "");
    forall k | 0 <= k < |sales|
      ensures SaleMatches(f, sales[k])
    {
      ContainsEmpty(Lower(sales[k].itemName));
    }
    FilterKeepsAll(sales, (s: SaleRow) => SaleMatches(f, s));
  }

  /** `sales.filter(sale => sale._id !== id)`. */
  function WithoutId(sales: seq<SaleRow>, id: Id): (r: seq<SaleRow>)
    ensures forall k :: 0 <= k < |r| ==> r[k].id != id && r[k] in sales
    ensures forall k :: 0 <= k < |sales| && sales[k].id != id ==> sales[k] in r
  {
    Filter(sales, (s: SaleRow) => s.id != id)
  }

  /** What is left keeps the order of the list. */
  lemma WithoutIdIsSubsequence(sales: seq<SaleRow>, id: Id)
    ensures IsSubsequence(WithoutId(sales, id), sales)
  {
    FilterIsSubsequence(sales, (s: SaleRow) => s.id != id);
  }

  /** Removing an id that is not listed leaves the list as it was. */
  lemma WithoutAbsentId(sales: seq<SaleRow>, id: Id)
    requires forall k :: 0 <= k < |sales| ==> sales[k].id != id
    ensures WithoutId(sales, id) == sales
  {
    FilterKeepsAll(sales, (s: SaleRow) => s.id != id);
  }

  ghost predicate UniqueRowIds(sales: seq<SaleRow>) {
    forall i, j :: 0 <= i < j < |sales| ==> sales[i].id != sales[j].id
  }

  /** With unique ids, removing the id of row `k` takes out that row and no
   *  other, as deleting the sale did on the server. */
  lemma WithoutIdRemovesOneRow(sales: seq<SaleRow>, k: nat)
    requires UniqueRowIds(sales) && k < |sales|
    ensures WithoutId(sales, sales[k].id) == RemoveAt(sales, k)
  {
    var id := sales[k].id;
    FilterRemovesOne(sales, k, (s: SaleRow) => s.id != id);
  }

  /** What the page shows after a delete click. */
  datatype DeleteOutcome = Cancelled | Deleted | DeleteFailed

  /** The `sales` state of the page. */
  class SalesPage {
    var sales: seq<SaleRow>

    /** `setSales(response.data)` after the list has loaded. */
    constructor (loaded: seq<SaleRow>)
      ensures sales == loaded
    {
      sales := loaded;
    }

    /** handleDelete: nothing happens unless the user confirms; then the
     *  server is asked to delete the record (`serverDeleted` is whether that
     *  request succeeded) and only on success are the rows with that id
     *  dropped from the list. */
    method HandleDelete(id: Id, confirmed: bool, serverDeleted: bool) returns (r: DeleteOutcome)
      modifies this
      ensures r == (if !confirmed then Cancelled else if serverDeleted then Deleted else DeleteFailed)
      ensures sales == if r == Deleted then WithoutId(old(sales), id) else old(sales)
    {
      if !confirmed {
        return Cancelled;
      }
      if !serverDeleted {
        return DeleteFailed;
      }
      sales := WithoutId(sales, id);
      return Deleted;
    }
  }
}
