/** The displayed product list of the catalogue page (app/page.tsx:30-58): a filter on the
    debounced search text followed by a stable sort on a copy, chosen by the sort option. */
module ProductView {
  import opened Types
  import opened Text
  import opened Arrays

  /** The products whose name contains the search text, case-sensitively, in their original
      order; an empty search text filters nothing. */
  function Matching(products: seq<Product>, search: string): seq<Product>
  {
    if search == "" then products
    else Filter(products, (p: Product) => Includes(p.name, search))
  }

  /** The comparator of each option as an ascending key: `(a, b) => a.price - b.price` puts `a`
      first when its key is smaller, `(a, b) => b.price - a.price` does so for the negated price,
      and likewise for stock. `Default` never sorts, so its key is never consulted. */
  function SortKey(option: SortOption, p: Product): real
  {
    match option
    case Default => 0.0
    case PriceAsc => p.price
    case PriceDesc => -p.price
    case StockAsc => p.stock as real
    case StockDesc => -(p.stock as real)
  }

  /** Inserts `x` before the first element whose key is not smaller than its own. */
  function Insert(option: SortOption, x: Product, s: seq<Product>): (r: seq<Product>)
    ensures multiset(r) == multiset(s) + multiset{x}
  {
    if s == [] then [x]
    else if SortKey(option, x) <= SortKey(option, s[0]) then [x] + s
    else
      assert s == [s[0]] + s[1..];
      [s[0]] + Insert(option, x, s[1..])
  }

  /** Insertion sort by key; `Array.prototype.sort` is stable, and so is this. */
  function SortBy(option: SortOption, s: seq<Product>): (r: seq<Product>)
    ensures multiset(r) == multiset(s)
  {
    if s == [] then []
    else
      assert s == [s[0]] + s[1..];
      Insert(option, s[0], SortBy(option, s[1..]))
  }

  /** `s` is non-decreasing in the option's key. */
  ghost predicate Ascending(option: SortOption, s: seq<Product>)
  {
    forall i, j :: 0 <= i < j < |s| ==> SortKey(option, s[i]) <= SortKey(option, s[j])
  }

  /** The elements whose key is `k`, in order: a sort is stable when it leaves this unchanged for every `k`. */
  function WithKey(option: SortOption, s: seq<Product>, k: real): seq<Product>
  {
    Filter(s, (p: Product) => SortKey(option, p) == k)
  }

  /** `filteredAndSortedProducts` */
  function FilteredAndSorted(products: seq<Product>, search: string, option: SortOption): seq<Product>
  {
    var filtered := Matching(products, search);
    if option == Default then filtered else SortBy(option, filtered)
  }

  /** A lower bound on the keys of `s` and of `x` bounds the keys after the insertion. */
  lemma {:induction false} InsertKeysAbove(option: SortOption, x: Product, s: seq<Product>, bound: real)
    requires bound <= SortKey(option, x)
    requires forall i :: 0 <= i < |s| ==> bound <= SortKey(option, s[i])
    ensures forall j :: 0 <= j < |Insert(option, x, s)| ==> bound <= SortKey(option, Insert(option, x, s)[j])
  {
    if s != [] && SortKey(option, s[0]) < SortKey(option, x) {
      InsertKeysAbove(option, x, s[1..], bound);
      var r := Insert(option, x, s);
      assert r == [s[0]] + Insert(option, x, s[1..]);
    }
  }

  lemma {:induction false} InsertAscending(option: SortOption, x: Product, s: seq<Product>)
    requires Ascending(option, s)
    ensures Ascending(option, Insert(option, x, s))
  {
    if s != [] && SortKey(option, s[0]) < SortKey(option, x) {
      var rest := Insert(option, x, s[1..]);
      InsertAscending(option, x, s[1..]);
      InsertKeysAbove(option, x, s[1..], SortKey(option, s[0]));
      assert Insert(option, x, s) == [s[0]] + rest;
    }
  }

  lemma {:induction false} SortByAscending(option: SortOption, s: seq<Product>)
    ensures Ascending(option, SortBy(option, s))
  {
    if s != [] {
      SortByAscending(option, s[1..]);
      InsertAscending(option, s[0], SortBy(option, s[1..]));
    }
  }

  /** Inserting `x` adds it in front of the elements with its key and touches no other key's order. */
  lemma {:induction false} InsertStable(option: SortOption, x: Product, s: seq<Product>, k: real)
    ensures WithKey(option, Insert(option, x, s), k)
         == if SortKey(option, x) == k then [x] + WithKey(option, s, k) else WithKey(option, s, k)
  {
    if s != [] && SortKey(option, s[0]) < SortKey(option, x) {
      InsertStable(option, x, s[1..], k);
      assert ([s[0]] + Insert(option, x, s[1..]))[1..] == Insert(option, x, s[1..]);
    }
  }

  lemma {:induction false} SortByStable(option: SortOption, s: seq<Product>, k: real)
    ensures WithKey(option, SortBy(option, s), k) == WithKey(option, s, k)
  {
    if s != [] {
      SortByStable(option, s[1..], k);
      InsertStable(option, s[0], SortBy(option, s[1..]), k);
    }
  }

  /** The filter: with an empty search text every product passes, in order; otherwise the result
      is an order-preserving subsequence holding every copy of each product whose name contains
      the search text and nothing else. */
  lemma MatchingSpec(products: seq<Product>, search: string)
    ensures search == "" ==> Matching(products, search) == products
    ensures IsSubsequence(Matching(products, search), products)
    ensures forall p :: multiset(Matching(products, search))[p]
                     == if search == "" || Includes(p.name, search) then multiset(products)[p] else 0
    ensures forall p :: p in Matching(products, search) <==> p in products && (search == "" || Includes(p.name, search))
  {
    var keep := (p: Product) => Includes(p.name, search);
    if search == "" {
      SubsequenceOfItself(products);
    } else {
      FilterIsSubsequence(products, keep);
      forall p ensures multiset(Matching(products, search))[p] == if Includes(p.name, search) then multiset(products)[p] else 0 {
        FilterCount(products, keep, p);
      }
      forall p ensures p in Matching(products, search) <==> p in products && Includes(p.name, search) {
        FilterMembers(products, keep, p);
      }
    }
  }

  /** The displayed list is a permutation of the filtered list; 'default' keeps the filtered order;
      the four numeric options order it by their field and keep the filtered order among equal keys. */
  lemma FilteredAndSortedSpec(products: seq<Product>, search: string, option: SortOption)
    ensures var r := FilteredAndSorted(products, search, option);
      && multiset(r) == multiset(Matching(products, search))
      && (option == Default ==> r == Matching(products, search))
      && (option == PriceAsc ==> forall i, j :: 0 <= i < j < |r| ==> r[i].price <= r[j].price)
      && (option == PriceDesc ==> forall i, j :: 0 <= i < j < |r| ==> r[i].price >= r[j].price)
      && (option == StockAsc ==> forall i, j :: 0 <= i < j < |r| ==> r[i].stock <= r[j].stock)
      && (option == StockDesc ==> forall i, j :: 0 <= i < j < |r| ==> r[i].stock >= r[j].stock)
      && forall k :: WithKey(option, r, k) == WithKey(option, Matching(products, search), k)
  {
    var filtered := Matching(products, search);
    if option != Default {
      SortByAscending(option, filtered);
      forall k ensures WithKey(option, SortBy(option, filtered), k) == WithKey(option, filtered, k) {
        SortByStable(option, filtered, k);
      }
    }
  }

  /** The products with price `v`, in order. */
  function WithPrice(s: seq<Product>, v: real): seq<Product>
  {
    Filter(s, (p: Product) => p.price == v)
  }

  /** The products with stock `v`, in order. */
  function WithStock(s: seq<Product>, v: int): seq<Product>
  {
    Filter(s, (p: Product) => p.stock == v)
  }

  /** Under a price option the products with one key are those with one price. */
  lemma {:induction false} WithKeyPrice(option: SortOption, s: seq<Product>, v: real)
    requires option == PriceAsc || option == PriceDesc
    ensures WithKey(option, s, if option == PriceAsc then v else -v) == WithPrice(s, v)
  {
    if s != [] {
      WithKeyPrice(option, s[1..], v);
    }
  }

  /** Under a stock option the products with one key are those with one stock. */
  lemma {:induction false} WithKeyStock(option: SortOption, s: seq<Product>, v: int)
    requires option == StockAsc || option == StockDesc
    ensures WithKey(option, s, if option == StockAsc then v as real else -(v as real)) == WithStock(s, v)
  {
    if s != [] {
      WithKeyStock(option, s[1..], v);
    }
  }

  /** Stability in the page's own terms: sorting by price keeps the filtered order among products of
      equal price, sorting by stock among products of equal stock, and 'default' keeps both. */
  lemma SortedFieldStable(products: seq<Product>, search: string, option: SortOption)
    ensures var r := FilteredAndSorted(products, search, option);
      var m := Matching(products, search);
      && (option == Default || option == PriceAsc || option == PriceDesc ==> forall v :: WithPrice(r, v) == WithPrice(m, v))
      && (option == Default || option == StockAsc || option == StockDesc ==> forall v :: WithStock(r, v) == WithStock(m, v))
  {
    var r := FilteredAndSorted(products, search, option);
    var m := Matching(products, search);
    FilteredAndSortedSpec(products, search, option);
    if option == PriceAsc || option == PriceDesc {
      forall v ensures WithPrice(r, v) == WithPrice(m, v) {
        var k := if option == PriceAsc then v else -v;
        assert WithKey(option, r, k) == WithKey(option, m, k);
        WithKeyPrice(option, r, v);
        WithKeyPrice(option, m, v);
      }
    } else if option == StockAsc || option == StockDesc {
      forall v ensures WithStock(r, v) == WithStock(m, v) {
        var k := if option == StockAsc then v as real else -(v as real);
        assert WithKey(option, r, k) == WithKey(option, m, k);
        WithKeyStock(option, r, v);
        WithKeyStock(option, m, v);
      }
    }
  }

  /** Equal keys are equal values of the sorted field, so stability is stated per price or per stock. */
  lemma SortKeyEqual(option: SortOption, a: Product, b: Product)
    ensures (option == PriceAsc || option == PriceDesc) ==> (SortKey(option, a) == SortKey(option, b) <==> a.price == b.price)
    ensures (option == StockAsc || option == StockDesc) ==> (SortKey(option, a) == SortKey(option, b) <==> a.stock == b.stock)
  {
  }
}
