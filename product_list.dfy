/**
 * product-list.component.ts: the catalogue priced above 20, a category
 * selector, and a table sorted by clicking its headers. `allProductList`
 * holds what was fetched, `productList` what is shown.
 */
module ProductList {
  import opened Common
  import opened Collation
  import opened Sorting
  import opened SortToggle
  import opened ProductService

  /** `'id' | 'name' | 'price' | 'category'` */
  datatype Column = Id | Name | Price | Category

  function ColumnName(c: Column): string {
    match c
    case Id => "id"
    case Name => "name"
    case Price => "price"
    case Category => "category"
  }

  const AllCategories := "Tout"
  const FetchFailed := "An error has occurend in the catchError of pipe"

  /** The comparator: numbers by difference, text by collation, then the direction. */
  function Compare(c: Column, d: Direction, a: Product, b: Product): int {
    match c
    case Id => Directed(d, a.id - b.id)
    case Name => Directed(d, Collate(a.name, b.name))
    case Category => Directed(d, Collate(a.category, b.category))
    case Price => Directed(d, a.price - b.price)
  }

  function ByColumn(c: Column, d: Direction): (Product, Product) -> int {
    (a, b) => Compare(c, d, a, b)
  }

  /** Every column and direction gives a comparator the sort can rely on. */
  lemma ByColumnConsistent(c: Column, d: Direction)
    ensures Consistent(ByColumn(c, d))
  {
    var cmp := ByColumn(c, d);
    forall a: Product, b: Product ensures cmp(a, b) <= 0 || cmp(b, a) <= 0 {
      DirectedCollate(d, a.name, b.name, b.name);
      DirectedCollate(d, a.category, b.category, b.category);
    }
    forall a: Product, b: Product, e: Product | cmp(a, b) <= 0 && cmp(b, e) <= 0 ensures cmp(a, e) <= 0 {
      DirectedCollate(d, a.name, b.name, e.name);
      DirectedCollate(d, a.category, b.category, e.category);
    }
  }

  /** After sorting by price, prices never decrease (ascending) or never increase (descending). */
  lemma SortedByPrice(rows: seq<Product>, d: Direction)
    ensures var r := StableSort(rows, ByColumn(Price, d));
            forall i, j :: 0 <= i < j < |r| ==> (if d == Asc then r[i].price <= r[j].price else r[i].price >= r[j].price)
  {
    ByColumnConsistent(Price, d);
    SortOrdered(rows, ByColumn(Price, d));
    var r := StableSort(rows, ByColumn(Price, d));
    forall i, j | 0 <= i < j < |r| ensures if d == Asc then r[i].price <= r[j].price else r[i].price >= r[j].price {
      assert ByColumn(Price, d)(r[i], r[j]) <= 0;
    }
  }

  /**
   * The category list after the fetch's loop over `items`: each item's
   * category is appended unless the list already holds it.
   */
  function WithCategories(list: seq<string>, items: seq<Product>): (r: seq<string>)
    decreases |items|
  {
    if |items| == 0 then list
    else
      var before := WithCategories(list, items[..|items| - 1]);
      var c := items[|items| - 1].category;
      if c in before then before else before + [c]
  }

  predicate Distinct(s: seq<string>) {
    forall i, j :: 0 <= i < j < |s| ==> s[i] != s[j]
  }

  /**
   * The loop only appends: the list it starts from is kept as a prefix, every
   * category of the items ends up in the list, and nothing else is added.
   */
  lemma {:induction false} WithCategoriesContents(list: seq<string>, items: seq<Product>)
    ensures list <= WithCategories(list, items)
    ensures forall p :: p in items ==> p.category in WithCategories(list, items)
    ensures forall c :: c in WithCategories(list, items) ==> c in list || exists p :: p in items && p.category == c
    decreases |items|
  {
    if |items| > 0 {
      var init := items[..|items| - 1];
      WithCategoriesContents(list, init);
      assert items == init + [items[|items| - 1]];
      forall c | c in WithCategories(list, items) ensures c in list || exists p :: p in items && p.category == c {
        if c in WithCategories(list, init) && c !in list {
          var p :| p in init && p.category == c;
          assert p in items;
        }
      }
    }
  }

  /** Each category is appended at most once: a list without repeats stays without repeats. */
  lemma {:induction false} WithCategoriesDistinct(list: seq<string>, items: seq<Product>)
    requires Distinct(list)
    ensures Distinct(WithCategories(list, items))
    decreases |items|
  {
    if |items| > 0 {
      WithCategoriesDistinct(list, items[..|items| - 1]);
    }
  }

  class ProductListComponent {
    var productList: seq<Product>
    var allProductList: seq<Product>
    var errorMessage: string
    var currentSortColumn: Column
    var currentSortDirection: Direction
    var loading: bool
    var categoryList: seq<string>

    constructor ()
      ensures productList == [] && allProductList == [] && errorMessage == ""
      ensures currentSortColumn == Id && currentSortDirection == Asc
      ensures !loading && categoryList == []
    {
      productList := [];
      allProductList := [];
      errorMessage := "";
      currentSortColumn := Id;
      currentSortDirection := Asc;
      loading := false;
      categoryList := [];
    }

    /** The fetch's loop: 'Tout', then every category not yet listed. */
    method CollectCategories(data: seq<Product>)
      modifies this
      ensures categoryList == WithCategories(old(categoryList) + [AllCategories], data)
      ensures productList == old(productList) && allProductList == old(allProductList)
      ensures errorMessage == old(errorMessage) && loading == old(loading)
      ensures currentSortColumn == old(currentSortColumn) && currentSortDirection == old(currentSortDirection)
    {
      categoryList := categoryList + [AllCategories];
      ghost var start := categoryList;
      var i := 0;
      while i < |data|
        invariant 0 <= i <= |data|
        invariant categoryList == WithCategories(start, data[..i])
        invariant productList == old(productList) && allProductList == old(allProductList)
        invariant errorMessage == old(errorMessage) && loading == old(loading)
        invariant currentSortColumn == old(currentSortColumn) && currentSortDirection == old(currentSortDirection)
      {
        assert data[..i + 1][..i] == data[..i];
        if data[i].category !in categoryList {
          categoryList := categoryList + [data[i].category];
        }
        i := i + 1;
      }
      assert data[..i] == data;
    }

    /**
     * `fetchProductData` once the catalogue has arrived: the products priced
     * above 20 become both lists and their categories are collected; a
     * failure records the error's message (or a default) and empties both
     * lists. Loading has ended either way.
     */
    method FetchProductData(response: Outcome<seq<Product>>)
      modifies this
      ensures !loading
      ensures response.Done? ==>
                && productList == Filter(response.value, (p: Product) => p.price > 20)
                && allProductList == productList
                && categoryList == WithCategories(old(categoryList) + [AllCategories], productList)
                && errorMessage == old(errorMessage)
      ensures response.Threw? ==>
                && productList == [] && allProductList == []
                && categoryList == old(categoryList)
                && errorMessage == response.error.message.GetOr(FetchFailed)
      ensures currentSortColumn == old(currentSortColumn) && currentSortDirection == old(currentSortDirection)
    {
      loading := true;
      var data: seq<Product>;
      match response {
        case Done(products) =>
          data := Filter(products, (p: Product) => p.price > 20);
          CollectCategories(data);
        case Threw(e) =>
          errorMessage := e.message.GetOr(FetchFailed);
          data := [];
      }
      loading := false;
      productList := data;
      allProductList := data;
    }

    /**
     * `applyFiltersAndSort`: a copy of the shown list, sorted in place by the
     * current column and direction, becomes the shown list.
     */
    method ApplyFiltersAndSort()
      modifies this
      ensures productList == StableSort(old(productList), ByColumn(currentSortColumn, currentSortDirection))
      ensures multiset(productList) == multiset(old(productList))
      ensures Ordered(productList, ByColumn(currentSortColumn, currentSortDirection))
      ensures allProductList == old(allProductList) && categoryList == old(categoryList)
      ensures currentSortColumn == old(currentSortColumn) && currentSortDirection == old(currentSortDirection)
      ensures errorMessage == old(errorMessage) && loading == old(loading)
    {
      var temp := ToArray(productList);
      SortInPlace(temp, ByColumn(currentSortColumn, currentSortDirection));
      SortPermutes(old(productList), ByColumn(currentSortColumn, currentSortDirection));
      ByColumnConsistent(currentSortColumn, currentSortDirection);
      SortOrdered(old(productList), ByColumn(currentSortColumn, currentSortDirection));
      productList := temp[..];
    }

    /** `sortProducts`: the header click updates the sort state, then the list is re-sorted. */
    method SortProducts(c: Column)
      modifies this
      ensures SortState(currentSortColumn, currentSortDirection)
           == Click(old(SortState(currentSortColumn, currentSortDirection)), c)
      ensures productList == StableSort(old(productList), ByColumn(c, currentSortDirection))
      ensures multiset(productList) == multiset(old(productList))
      ensures allProductList == old(allProductList) && categoryList == old(categoryList)
      ensures errorMessage == old(errorMessage) && loading == old(loading)
    {
      if currentSortColumn == c {
        currentSortDirection := Flip(currentSortDirection);
      } else {
        currentSortColumn := c;
        currentSortDirection := Asc;
      }
      ApplyFiltersAndSort();
    }

    /** `getSortIcon`: the arrow on the current column, '▼' on the others. */
    function GetSortIcon(column: string): (r: string)
      reads this
      ensures column == ColumnName(currentSortColumn) && currentSortDirection == Asc ==> r == " ▲"
      ensures column == ColumnName(currentSortColumn) && currentSortDirection == Desc ==> r == " ▼"
      ensures column != ColumnName(currentSortColumn) ==> r == "▼"
    {
      SortIcon(ColumnName(currentSortColumn) == column, currentSortDirection, "▼")
    }

    /**
     * `filterCategory`: 'Tout' shows the whole fetched list again, a listed
     * category shows exactly its products in fetched order, anything else
     * changes nothing.
     */
    method FilterCategory(selected: string)
      modifies this
      ensures selected == AllCategories ==> productList == allProductList
      ensures selected != AllCategories && selected in categoryList ==>
                && productList == Filter(allProductList, (p: Product) => p.category == selected)
                && (forall p :: p in productList <==> p in allProductList && p.category == selected)
      ensures selected != AllCategories && selected !in categoryList ==> productList == old(productList)
      ensures allProductList == old(allProductList) && categoryList == old(categoryList)
      ensures currentSortColumn == old(currentSortColumn) && currentSortDirection == old(currentSortDirection)
      ensures errorMessage == old(errorMessage) && loading == old(loading)
    {
      if selected == AllCategories {
        productList := allProductList;
      } else if selected in categoryList {
        productList := Filter(allProductList, (p: Product) => p.category == selected);
      }
    }
  }
}
