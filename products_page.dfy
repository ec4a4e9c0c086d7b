/** The shop page of app/products/page.tsx: the category options with
    their labels, and the list shown for a search, a category and a sort
    choice. The list is filtered, then sorted in place by the chosen
    comparator; the name comparator (`localeCompare`) is supplied as a rank
    function whose order it follows. */
module ProductsPage {
  import Seqs
  import Sorting
  import Catalog

  type Product = Catalog.Product

  // ------------------------------------------------------------ categories

  /** `word.charAt(0).toUpperCase() + word.slice(1)`. */
  function Capitalized(word: string): string {
    if word == [] then [] else [Seqs.UpperChar(word[0])] + word[1..]
  }

  /** The words with every word but possibly the first capitalised. */
  function Words(parts: seq<string>, capFirst: bool): seq<string> {
    if parts == [] then []
    else [if capFirst then Capitalized(parts[0]) else parts[0]] + Words(parts[1..], true)
  }

  /** The label of a category: hyphen-separated words, capitalised, joined
      with spaces. */
  function CategoryLabel(category: string): string {
    Seqs.Join(Words(Seqs.Split(category, '-'), true), ' ')
  }

  /** Reference definition of the label, one character at a time: a hyphen
      becomes a space and a letter that starts a word is upper-cased. */
  function LabelFrom(s: string, atStart: bool): string {
    if s == [] then []
    else if s[0] == '-' then [' '] + LabelFrom(s[1..], true)
    else [if atStart then Seqs.UpperChar(s[0]) else s[0]] + LabelFrom(s[1..], false)
  }

  lemma JoinHead(x: string, y: string, rest: seq<string>)
    ensures Seqs.Join([x + y] + rest, ' ') == x + Seqs.Join([y] + rest, ' ')
  {
    if rest != [] {
      assert ([x + y] + rest)[1..] == rest;
      assert ([y] + rest)[1..] == rest;
    }
  }

  /** The split-capitalise-join label equals the character-wise one. */
  lemma {:induction false} LabelIsCharwise(s: string, atStart: bool)
    ensures Seqs.Join(Words(Seqs.Split(s, '-'), atStart), ' ') == LabelFrom(s, atStart)
  {
    if s != [] {
      var t := Seqs.Split(s[1..], '-');
      LabelIsCharwise(s[1..], atStart);
      LabelIsCharwise(s[1..], true);
      LabelIsCharwise(s[1..], false);
      if s[0] == '-' {
        assert Seqs.Split(s, '-') == [""] + t;
        assert ([""] + t)[1..] == t;
        assert Words([""] + t, atStart) == [""] + Words(t, true);
        assert ([""] + Words(t, true))[1..] == Words(t, true);
      } else {
        var c := if atStart then Seqs.UpperChar(s[0]) else s[0];
        assert Seqs.Split(s, '-') == [[s[0]] + t[0]] + t[1..];
        assert ([[s[0]] + t[0]] + t[1..])[1..] == t[1..];
        assert Words(Seqs.Split(s, '-'), atStart) == [[c] + t[0]] + Words(t[1..], true);
        assert t == [t[0]] + t[1..];
        assert Words(t, false) == [t[0]] + Words(t[1..], true);
        JoinHead([c], t[0], Words(t[1..], true));
      }
    }
  }

  /** Position by position: the label has the category's length, a hyphen
      becomes a space, a character that starts a word is upper-cased, and
      every other character is kept. */
  lemma {:induction false} LabelFromAt(s: string, atStart: bool, i: nat)
    requires i < |s|
    ensures |LabelFrom(s, atStart)| == |s|
    ensures LabelFrom(s, atStart)[i] ==
      if s[i] == '-' then ' '
      else if (i == 0 && atStart) || (i > 0 && s[i - 1] == '-') then Seqs.UpperChar(s[i])
      else s[i]
  {
    if i > 0 {
      LabelFromAt(s[1..], s[0] == '-', i - 1);
    } else if |s| > 1 {
      LabelFromAt(s[1..], s[0] == '-', 0);
    }
  }

  lemma CategoryLabelSpec(category: string, i: nat)
    requires i < |category|
    ensures |CategoryLabel(category)| == |category|
    ensures CategoryLabel(category)[i] ==
      if category[i] == '-' then ' '
      else if i == 0 || category[i - 1] == '-' then Seqs.UpperChar(category[i])
      else category[i]
  {
    LabelIsCharwise(category, true);
    LabelFromAt(category, true, i);
  }

  datatype CategoryOption = CategoryOption(value: string, labelText: string)

  function ProductCategories(catalog: seq<Product>): (r: seq<string>)
    ensures |r| == |catalog| && forall i :: 0 <= i < |r| ==> r[i] == catalog[i].category
  {
    seq(|catalog|, i requires 0 <= i < |catalog| => catalog[i].category)
  }

  /** `categories`: each category of the catalog once, in order of first
      appearance, with its label. */
  function CategoryOptions(catalog: seq<Product>): (r: seq<CategoryOption>)
    ensures var cats := Seqs.Distinct(ProductCategories(catalog));
      |r| == |cats| &&
      forall i :: 0 <= i < |r| ==> r[i] == CategoryOption(cats[i], CategoryLabel(cats[i]))
  {
    var cats := Seqs.Distinct(ProductCategories(catalog));
    seq(|cats|, i requires 0 <= i < |cats| => CategoryOption(cats[i], CategoryLabel(cats[i])))
  }

  /** Every option is a category of some product, every product's category
      has an option, and no category appears twice. */
  lemma CategoryOptionsSpec(catalog: seq<Product>)
    ensures var r := CategoryOptions(catalog);
      (forall i, j :: 0 <= i < j < |r| ==> r[i].value != r[j].value) &&
      (forall i :: 0 <= i < |r| ==> exists k :: 0 <= k < |catalog| && catalog[k].category == r[i].value) &&
      (forall k :: 0 <= k < |catalog| ==> exists i :: 0 <= i < |r| && r[i].value == catalog[k].category)
  {
    var cats := Seqs.Distinct(ProductCategories(catalog));
    var r := CategoryOptions(catalog);
    OptionValues(catalog);
    forall i | 0 <= i < |r|
      ensures exists k :: 0 <= k < |catalog| && catalog[k].category == r[i].value
    {
      CategoryHasProduct(catalog, cats[i]);
    }
    forall k | 0 <= k < |catalog|
      ensures exists i :: 0 <= i < |r| && r[i].value == catalog[k].category
    {
      ProductHasCategory(catalog, k);
    }
  }

  /** The option values are the distinct categories. */
  lemma OptionValues(catalog: seq<Product>)
    ensures var cats := Seqs.Distinct(ProductCategories(catalog));
      var r := CategoryOptions(catalog);
      |r| == |cats| && forall i :: 0 <= i < |r| ==> r[i].value == cats[i]
  {
  }

  lemma CategoryHasProduct(catalog: seq<Product>, c: string)
    requires c in Seqs.Distinct(ProductCategories(catalog))
    ensures exists k :: 0 <= k < |catalog| && catalog[k].category == c
  {
    var cats := ProductCategories(catalog);
    var k :| 0 <= k < |cats| && cats[k] == c;
  }

  lemma ProductHasCategory(catalog: seq<Product>, k: nat)
    requires k < |catalog|
    ensures var cats := Seqs.Distinct(ProductCategories(catalog));
      exists i :: 0 <= i < |cats| && cats[i] == catalog[k].category
  {
    assert ProductCategories(catalog)[k] in ProductCategories(catalog);
    assert catalog[k].category in Seqs.Distinct(ProductCategories(catalog));
  }

  // --------------------------------------------------------------- filter

  predicate MatchesSearch(p: Product, query: string) {
    Seqs.Contains(Seqs.Lower(p.name), Seqs.Lower(query)) ||
    Seqs.Contains(Seqs.Lower(p.description), Seqs.Lower(query))
  }

  predicate MatchesCategory(p: Product, category: string) {
    category == "all" || p.category == category
  }

  function Passes(query: string, category: string): Product -> bool {
    (p: Product) => MatchesSearch(p, query) && MatchesCategory(p, category)
  }

  function Filtered(catalog: seq<Product>, query: string, category: string): seq<Product> {
    Seqs.Filter(catalog, Passes(query, category))
  }

  /** A product is kept iff the lower-cased query occurs in its lower-cased
      name or description and the category is "all" or its own; what is
      kept is part of the catalog, so "Showing n of m" has n <= m. */
  lemma FilteredExact(catalog: seq<Product>, query: string, category: string, p: Product)
    ensures p in Filtered(catalog, query, category) <==>
      p in catalog &&
      ((exists k :: Seqs.OccursAt(Seqs.Lower(p.name), Seqs.Lower(query), k)) ||
       (exists k :: Seqs.OccursAt(Seqs.Lower(p.description), Seqs.Lower(query), k))) &&
      (category == "all" || p.category == category)
    ensures multiset(Filtered(catalog, query, category)) <= multiset(catalog)
    ensures |Filtered(catalog, query, category)| <= |catalog|
  {
    Seqs.ContainsAt(Seqs.Lower(p.name), Seqs.Lower(query));
    Seqs.ContainsAt(Seqs.Lower(p.description), Seqs.Lower(query));
    Seqs.FilterSubMultiset(catalog, Passes(query, category));
  }

  // ----------------------------------------------------------------- sort

  function PriceLow(p: Product): int { -(p.price as int) }
  function PriceHigh(p: Product): int { p.price }
  function Rating(p: Product): int { p.rating }
  function FeaturedFirst(p: Product): int { if p.featured then 1 else 0 }

  /** The comparator chosen by `sortBy`, as the key it sorts down by. */
  function SortKey(sortBy: string, rank: Product -> int): Product -> int {
    match sortBy
    case "price-low" => PriceLow
    case "price-high" => PriceHigh
    case "rating" => Rating
    case "name" => (p: Product) => -rank(p)
    case _ => FeaturedFirst
  }

  /** `filteredProducts`: filter, then sort the filtered array in place. */
  method FilteredProducts(catalog: seq<Product>, query: string, category: string, sortBy: string,
                          rank: Product -> int) returns (r: seq<Product>)
    ensures r == Sorting.SortDesc(Filtered(catalog, query, category), SortKey(sortBy, rank))
    ensures multiset(r) == multiset(Filtered(catalog, query, category))
  {
    var filtered := Filtered(catalog, query, category);
    var a := new Product[|filtered|](i requires 0 <= i < |filtered| => filtered[i]);
    assert a[..] == filtered;
    Sorting.SortInPlace(a, SortKey(sortBy, rank));
    r := a[..];
  }

  /** "price-low" gives non-decreasing prices, "price-high" non-increasing
      prices, "rating" non-increasing ratings, "name" non-decreasing rank. */
  lemma SortOrders(s: seq<Product>, sortBy: string, rank: Product -> int)
    ensures var r := Sorting.SortDesc(s, SortKey(sortBy, rank));
      forall i, j :: 0 <= i < j < |r| ==>
        (sortBy == "price-low" ==> r[i].price <= r[j].price) &&
        (sortBy == "price-high" ==> r[i].price >= r[j].price) &&
        (sortBy == "rating" ==> r[i].rating >= r[j].rating) &&
        (sortBy == "name" ==> rank(r[i]) <= rank(r[j]))
  {
    Sorting.SortDescSorted(s, SortKey(sortBy, rank));
  }

  /** The default sort puts every featured product before every other one
      and keeps the catalog order within each group. */
  lemma FeaturedSort(s: seq<Product>)
    ensures var r := Sorting.SortDesc(s, SortKey("featured", (p: Product) => 0));
      (forall i, j :: 0 <= i < j < |r| && r[j].featured ==> r[i].featured) &&
      Seqs.Filter(r, Sorting.HasKey(FeaturedFirst, 1)) == Seqs.Filter(s, Sorting.HasKey(FeaturedFirst, 1)) &&
      Seqs.Filter(r, Sorting.HasKey(FeaturedFirst, 0)) == Seqs.Filter(s, Sorting.HasKey(FeaturedFirst, 0))
  {
    assert SortKey("featured", (p: Product) => 0) == FeaturedFirst;
    Sorting.SortDescSorted(s, FeaturedFirst);
    Sorting.SortDescStable(s, FeaturedFirst, 1);
    Sorting.SortDescStable(s, FeaturedFirst, 0);
  }
}
