/** The product list page (frontend/src/pages/Products.js): the URL
    low-stock filter, the search / category / stock filters composed on the
    fetched list, the category options and the low-stock row highlight. */
module ProductsPage {
  import opened Base
  import opened ProductSchema
  import opened SeqFacts
  import Dashboard

  /** `minStockLevel || 0`: a null (or zero) level reads as 0. */
  function LevelOrZero(p: Product): int
  {
    p.minStockLevel.GetOr(0)
  }

  /** The page's low-stock test, shared by the URL filter, the "low" stock
      filter and the row highlight. */
  predicate IsLowOnPage(p: Product)
  {
    p.quantity <= LevelOrZero(p)
  }

  /** The page agrees with the dashboard's low-stock test except on a
      product whose level is null: the dashboard never lists it, the page
      treats its level as 0. */
  lemma LowStockTestsDiffer(p: Product)
    ensures Dashboard.IsLowStock(p) != IsLowOnPage(p) <==> p.minStockLevel.None? && p.quantity <= 0
  {
  }

  /** The `lowStock` URL parameter as read from the query string, if any. */
  type QueryParam = Option<string>

  /** Keeps only low-stock products when the URL says `lowStock=true`;
      any other value, or none, leaves the list as fetched. */
  function ApplyLowStockFilter(data: seq<Product>, lowStock: QueryParam): (r: seq<Product>)
    ensures lowStock == Some("true") ==> forall p :: p in r <==> p in data && IsLowOnPage(p)
    ensures lowStock != Some("true") ==> r == data
    ensures lowStock == Some("true") ==> KeepsCounts(IsLowOnPage, data, r)
    ensures IsSubsequence(r, data)
  {
    if lowStock == Some("true") then
      FilterIsSubsequence(IsLowOnPage, data);
      FilterKeepsCounts(IsLowOnPage, data);
      Filter(IsLowOnPage, data)
    else
      SubsequenceRefl(data);
      data
  }

  /** ASCII lower-casing of one character. */
  function LowerChar(c: char): char
  {
    if 'A' <= c <= 'Z' then (c as int + 32) as char else c
  }

  function Lower(s: string): (r: string)
    ensures |r| == |s|
  {
    if |s| == 0 then "" else [LowerChar(s[0])] + Lower(s[1..])
  }

  /** `s.includes(needle)`: `needle` occurs in `s` starting at some offset. */
  predicate Includes(s: string, needle: string)
  {
    (|needle| <= |s| && s[..|needle|] == needle) || (|s| > 0 && Includes(s[1..], needle))
  }

  /** `needle` occurs in `s` at offset `i`. */
  predicate OccursAt(s: string, needle: string, i: int)
  {
    0 <= i && i + |needle| <= |s| && s[i..i + |needle|] == needle
  }

  /** `Includes` finds exactly the occurrences at some offset. */
  lemma {:induction false} IncludesAtOffset(s: string, needle: string)
    ensures Includes(s, needle) <==> exists i :: OccursAt(s, needle, i)
  {
    if |s| > 0 {
      IncludesAtOffset(s[1..], needle);
      if Includes(s[1..], needle) {
        var i :| OccursAt(s[1..], needle, i);
        assert s[1..][i..i + |needle|] == s[i + 1..i + 1 + |needle|];
        assert OccursAt(s, needle, i + 1);
      }
      if exists i :: OccursAt(s, needle, i) {
        var i :| OccursAt(s, needle, i);
        if i > 0 {
          assert s[1..][i - 1..i - 1 + |needle|] == s[i..i + |needle|];
          assert OccursAt(s[1..], needle, i - 1);
        }
      }
    }
    if |needle| <= |s| && s[..|needle|] == needle {
      assert OccursAt(s, needle, 0);
    }
  }

  /** The empty search text occurs in every string. */
  lemma IncludesEmpty(s: string)
    ensures Includes(s, "")
  {
  }

  /** The filter bar's state plus the URL parameter. The select boxes offer
      "all" and the categories, and "all", "low" and "ok". */
  datatype Query = Query(lowStock: QueryParam, search: string, categoryFilter: string, stockFilter: string)

  predicate MatchesSearch(p: Product, search: string)
  {
    Includes(Lower(p.name), Lower(search)) || Includes(Lower(p.category), Lower(search))
  }

  predicate MatchesCategory(p: Product, categoryFilter: string)
  {
    categoryFilter == "all" || p.category == categoryFilter
  }

  predicate MatchesStock(p: Product, stockFilter: string)
  {
    || stockFilter == "all"
    || (stockFilter == "low" && p.quantity <= LevelOrZero(p))
    || (stockFilter == "ok" && p.quantity > LevelOrZero(p))
  }

  /** The predicate the page filters with. */
  predicate Matches(q: Query, p: Product)
  {
    MatchesSearch(p, q.search) && MatchesCategory(p, q.categoryFilter) && MatchesStock(p, q.stockFilter)
  }

  /** The list the page renders: the URL filter, then the filter bar. */
  function FinalProducts(products: seq<Product>, q: Query): (r: seq<Product>)
    ensures IsSubsequence(r, products)
    ensures forall p :: p in r <==>
      p in products && Matches(q, p) && (q.lowStock == Some("true") ==> IsLowOnPage(p))
    ensures KeepsCounts(p => Matches(q, p) && (q.lowStock == Some("true") ==> IsLowOnPage(p)), products, r)
  {
    var afterUrl := ApplyLowStockFilter(products, q.lowStock);
    var r := Filter(p => Matches(q, p), afterUrl);
    FilterIsSubsequence(p => Matches(q, p), afterUrl);
    SubsequenceTrans(r, afterUrl, products);
    FilterKeepsCounts(p => Matches(q, p), afterUrl);
    r
  }

  /** With an empty search, both selects on "all" and no `lowStock=true`,
      the page shows every product in fetched order. */
  lemma {:induction false} DefaultQueryShowsAll(products: seq<Product>, q: Query)
    requires q.search == "" && q.categoryFilter == "all" && q.stockFilter == "all"
    requires q.lowStock != Some("true")
    ensures FinalProducts(products, q) == products
  {
    forall i | 0 <= i < |products|
      ensures Matches(q, products[i])
    {
      IncludesEmpty(Lower(products[i].name));
    }
    FilterAllPass(p => Matches(q, p), products);
  }

  /** A specific category keeps only products with exactly that label. */
  lemma CategoryFilterIsExact(products: seq<Product>, q: Query)
    requires q.categoryFilter != "all"
    ensures forall p :: p in FinalProducts(products, q) ==> p.category == q.categoryFilter
  {
  }

  /** Every product is "low" or "ok", never both; the two stock filters
      split any list between them. */
  lemma StockFiltersPartition(products: seq<Product>)
    ensures forall p :: MatchesStock(p, "low") != MatchesStock(p, "ok")
    ensures |Filter(p => MatchesStock(p, "low"), products)| + |Filter(p => MatchesStock(p, "ok"), products)| == |products|
    ensures multiset(Filter(p => MatchesStock(p, "low"), products)) +
            multiset(Filter(p => MatchesStock(p, "ok"), products)) == multiset(products)
  {
    FilterPartition(p => MatchesStock(p, "low"), p => MatchesStock(p, "ok"), products);
  }

  /** Following the dashboard link (`lowStock=true`) and choosing "ok"
      leaves nothing to show. */
  lemma LowStockLinkWithOkIsEmpty(products: seq<Product>, q: Query)
    requires q.lowStock == Some("true") && q.stockFilter == "ok"
    ensures FinalProducts(products, q) == []
  {
    var both := p => IsLowOnPage(p) && Matches(q, p);
    FilterFilter(IsLowOnPage, p => Matches(q, p), both, products);
    FilterNonePass(both, products);
  }

  /** A stock filter value outside "all", "low" and "ok" shows nothing. */
  lemma UnknownStockFilterIsEmpty(products: seq<Product>, q: Query)
    requires q.stockFilter != "all" && q.stockFilter != "low" && q.stockFilter != "ok"
    ensures FinalProducts(products, q) == []
  {
    FilterNonePass(p => Matches(q, p), ApplyLowStockFilter(products, q.lowStock));
  }

  /** Filtering the rendered list again with the same query changes nothing. */
  lemma FinalProductsIdempotent(products: seq<Product>, q: Query)
    ensures FinalProducts(FinalProducts(products, q), q) == FinalProducts(products, q)
  {
    var m := p => Matches(q, p);
    var r := FinalProducts(products, q);
    if q.lowStock == Some("true") {
      var both := p => IsLowOnPage(p) && Matches(q, p);
      FilterFilter(IsLowOnPage, m, both, products);
      FilterFilter(IsLowOnPage, m, both, r);
      FilterIdempotent(both, products);
    } else {
      FilterIdempotent(m, products);
    }
  }

  /** The CSS class of a table row: highlighted when stock is low. */
  function RowClass(p: Product): string
  {
    if p.quantity <= LevelOrZero(p) then "danger-row" else ""
  }

  /** A row is highlighted exactly when the "low" stock filter keeps it, so
      everything the `lowStock=true` link shows is highlighted. */
  lemma DangerRowIsLowFilter(products: seq<Product>, q: Query)
    ensures forall p :: RowClass(p) == "danger-row" <==> MatchesStock(p, "low")
    ensures q.lowStock == Some("true") ==>
      forall p :: p in FinalProducts(products, q) ==> RowClass(p) == "danger-row"
  {
  }

  /** The position of the first occurrence of `x` in `xs`. */
  function FirstIndex(xs: seq<string>, x: string): (r: nat)
    requires x in xs
    ensures r < |xs| && xs[r] == x
    ensures forall k :: 0 <= k < r ==> xs[k] != x
  {
    if xs[0] == x then 0 else 1 + FirstIndex(xs[1..], x)
  }

  /** Appending to a list does not move the first occurrence of a value
      already in it. */
  lemma {:induction false} FirstIndexAppend(xs: seq<string>, z: string, y: string)
    requires y in xs
    ensures FirstIndex(xs + [z], y) == FirstIndex(xs, y)
  {
    if xs[0] != y {
      assert (xs + [z])[1..] == xs[1..] + [z];
      FirstIndexAppend(xs[1..], z, y);
    }
  }

  /** The values of `r` come from `xs`, listed in the order of their first
      occurrences there. */
  ghost predicate FirstOccurrenceOrder(r: seq<string>, xs: seq<string>)
  {
    forall i, j :: 0 <= i < j < |r| ==> r[i] in xs && r[j] in xs && FirstIndex(xs, r[i]) < FirstIndex(xs, r[j])
  }

  /** `[...new Set(xs)]`: the distinct values in first-occurrence order. */
  function Distinct(xs: seq<string>): (r: seq<string>)
    ensures forall x :: x in r <==> x in xs
    ensures forall i, j :: 0 <= i < j < |r| ==> r[i] != r[j]
    ensures FirstOccurrenceOrder(r, xs)
    ensures IsSubsequence(r, xs)
  {
    if |xs| == 0 then []
    else
      var init := xs[..|xs| - 1];
      var z := xs[|xs| - 1];
      var r := Distinct(init);
      assert xs == init + [z];
      SubsequenceAppend(r, init, z);
      DistinctOrderStep(init, z, r);
      if z in r then r else r + [z]
  }

  /** The inductive step of `Distinct`'s order: the values already listed
      keep their first positions, and a new value comes after all of them. */
  lemma DistinctOrderStep(init: seq<string>, z: string, r: seq<string>)
    requires forall i :: 0 <= i < |r| ==> r[i] in init
    requires z in r <==> z in init
    requires FirstOccurrenceOrder(r, init)
    ensures FirstOccurrenceOrder(if z in r then r else r + [z], init + [z])
  {
    var xs := init + [z];
    var r' := if z in r then r else r + [z];
    forall i, j | 0 <= i < j < |r'|
      ensures r'[i] in xs && r'[j] in xs && FirstIndex(xs, r'[i]) < FirstIndex(xs, r'[j])
    {
      assert r'[i] == r[i] && r[i] in init;
      FirstIndexAppend(init, z, r[i]);
      if j < |r| {
        assert r'[j] == r[j] && r[j] in init;
        FirstIndexAppend(init, z, r[j]);
      } else {
        assert r'[j] == z && z !in init;
        assert FirstIndex(xs, z) == |init|;
      }
    }
  }

  /** Appending to a list keeps its subsequences, with or without the new
      element appended to them too. */
  lemma {:induction false} SubsequenceAppend(sub: seq<string>, xs: seq<string>, x: string)
    requires IsSubsequence(sub, xs)
    ensures IsSubsequence(sub, xs + [x])
    ensures IsSubsequence(sub + [x], xs + [x])
  {
    if |sub| == 0 {
      assert IsSubsequence([x], [x]);
      if |xs| > 0 {
        SubsequenceAppend(sub, xs[1..], x);
        assert (xs + [x])[1..] == xs[1..] + [x];
        SubsequenceOfTail(sub + [x], xs + [x]);
      }
    } else {
      assert (sub + [x])[1..] == sub[1..] + [x];
      assert (xs + [x])[1..] == xs[1..] + [x];
      if sub[0] == xs[0] {
        SubsequenceAppend(sub[1..], xs[1..], x);
      } else {
        SubsequenceAppend(sub, xs[1..], x);
      }
    }
  }

  /** The categories of the listed products, in list order. */
  function CategoriesOf(products: seq<Product>): (r: seq<string>)
    ensures |r| == |products|
    ensures forall i :: 0 <= i < |products| ==> r[i] == products[i].category
  {
    if |products| == 0 then [] else [products[0].category] + CategoriesOf(products[1..])
  }

  /** The category select's options after "all": each category of a listed
      product once, in first-occurrence order. */
  function CategoryOptions(products: seq<Product>): (r: seq<string>)
    ensures forall c :: c in r <==> exists i :: 0 <= i < |products| && products[i].category == c
    ensures forall i, j :: 0 <= i < j < |r| ==> r[i] != r[j]
    ensures FirstOccurrenceOrder(r, CategoriesOf(products))
  {
    var cats := CategoriesOf(products);
    assert forall c :: c in cats <==> exists i :: 0 <= i < |products| && cats[i] == c;
    Distinct(cats)
  }
}
