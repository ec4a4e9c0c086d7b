/** The category overview of app/categories/page.tsx: the catalog folded
    into one entry per category (label, product count, products, cover
    image), listed in order of first appearance, with the lowest price of
    each. The fold's accumulator is a dictionary mutated in place, modelled
    as a map with its keys in insertion order. */
module CategoriesPage {
  import Seqs
  import Catalog
  import ProductsPage

  type Product = Catalog.Product

  datatype Group = Group(name: string, count: nat, products: seq<Product>, image: string)

  /** The `reduce` accumulator, with its keys in the order they were set. */
  datatype Acc = Acc(keys: seq<string>, groups: map<string, Group>)

  /** One step of the `reduce`: start the product's category on first
      sight with the product's image, then count and append the product. */
  function Add(a: Acc, p: Product): Acc {
    var c := p.category;
    var g := if c in a.groups then a.groups[c] else Group(ProductsPage.CategoryLabel(c), 0, [], p.image);
    Acc(if c in a.groups then a.keys else a.keys + [c],
        a.groups[c := g.(count := g.count + 1, products := g.products + [p])])
  }

  /** The accumulator after the whole catalog. Its keys are exactly its
      categories; each group is labelled, counts its products, holds at
      least one, and shows the image of its first. */
  function Grouping(catalog: seq<Product>): (r: Acc)
    ensures forall c :: c in r.keys <==> c in r.groups
    ensures forall c :: c in r.groups ==>
      var g := r.groups[c];
      g.count == |g.products| && |g.products| > 0 && g.name == ProductsPage.CategoryLabel(c) &&
      g.image == g.products[0].image
  {
    if catalog == [] then Acc([], map[])
    else Add(Grouping(catalog[..|catalog| - 1]), catalog[|catalog| - 1])
  }

  /** The categories are listed in order of first appearance, each once. */
  lemma {:induction false} GroupingKeys(catalog: seq<Product>)
    ensures Grouping(catalog).keys == Seqs.Distinct(ProductsPage.ProductCategories(catalog))
  {
    if catalog != [] {
      var prefix := catalog[..|catalog| - 1];
      GroupingKeys(prefix);
      assert ProductsPage.ProductCategories(catalog)[..|catalog| - 1] == ProductsPage.ProductCategories(prefix);
    }
  }

  /** A category's products are exactly the catalog's products of that
      category, in catalog order; a category with none has no entry. */
  lemma {:induction false} GroupingProducts(catalog: seq<Product>, c: string)
    ensures c in Grouping(catalog).groups ==>
      Grouping(catalog).groups[c].products == Catalog.ProductsByCategory(catalog, c)
    ensures c !in Grouping(catalog).groups ==> Catalog.ProductsByCategory(catalog, c) == []
  {
    if catalog == [] {
      Seqs.FilterNone(catalog, Catalog.InCategory(c));
    } else {
      var prefix, p := catalog[..|catalog| - 1], catalog[|catalog| - 1];
      CategorySnoc(catalog, c);
      GroupingProducts(prefix, c);
      if p.category != c {
        AddOther(Grouping(prefix), p, c);
      } else {
        AddSame(Grouping(prefix), p);
      }
    }
  }

  /** The products of category `c` in a catalog are those of all but its
      last product, followed by the last product if it belongs to `c`. */
  lemma CategorySnoc(catalog: seq<Product>, c: string)
    requires catalog != []
    ensures var p := catalog[|catalog| - 1];
      Catalog.ProductsByCategory(catalog, c) ==
      Catalog.ProductsByCategory(catalog[..|catalog| - 1], c) + (if p.category == c then [p] else [])
  {
    var f := Catalog.InCategory(c);
    var prefix, p := catalog[..|catalog| - 1], catalog[|catalog| - 1];
    assert catalog == prefix + [p];
    Seqs.FilterAppend(prefix, [p], f);
    if p.category == c {
      Seqs.FilterAll([p], f);
    } else {
      Seqs.FilterNone([p], f);
    }
  }

  /** A product of another category leaves group `c` as it was. */
  lemma AddOther(a: Acc, p: Product, c: string)
    requires p.category != c
    ensures c in Add(a, p).groups <==> c in a.groups
    ensures c in a.groups ==> Add(a, p).groups[c] == a.groups[c]
  {
  }

  /** A product is appended to the products of its own category. */
  lemma AddSame(a: Acc, p: Product)
    ensures p.category in Add(a, p).groups
    ensures Add(a, p).groups[p.category].products ==
      (if p.category in a.groups then a.groups[p.category].products else []) + [p]
  {
  }

  /** The sum of the counts of the listed categories. */
  function SumCounts(keys: seq<string>, groups: map<string, Group>): nat
    requires forall c :: c in keys ==> c in groups
  {
    if keys == [] then 0
    else SumCounts(keys[..|keys| - 1], groups) + groups[keys[|keys| - 1]].count
  }

  /** Raising one listed count by one raises the sum by one. */
  lemma {:induction false} SumCountsBump(keys: seq<string>, groups: map<string, Group>, c: string, g: Group)
    requires forall k :: k in keys ==> k in groups
    requires Seqs.NoDuplicates(keys) && c in keys && g.count == groups[c].count + 1
    ensures SumCounts(keys, groups[c := g]) == SumCounts(keys, groups) + 1
  {
    var prefix, last := keys[..|keys| - 1], keys[|keys| - 1];
    if last == c {
      assert c !in prefix;
      SumCountsOther(prefix, groups, c, g);
    } else {
      assert c in prefix;
      SumCountsBump(prefix, groups, c, g);
    }
  }

  /** Changing a category that is not listed leaves the sum alone. */
  lemma {:induction false} SumCountsOther(keys: seq<string>, groups: map<string, Group>, c: string, g: Group)
    requires forall k :: k in keys ==> k in groups
    requires c !in keys
    ensures SumCounts(keys, groups[c := g]) == SumCounts(keys, groups)
  {
    if keys != [] {
      SumCountsOther(keys[..|keys| - 1], groups, c, g);
    }
  }

  /** The counts over all categories add up to the catalog size. */
  lemma {:induction false} CountsSumToCatalog(catalog: seq<Product>)
    ensures var a := Grouping(catalog); SumCounts(a.keys, a.groups) == |catalog|
  {
    if catalog != [] {
      var prefix, p := catalog[..|catalog| - 1], catalog[|catalog| - 1];
      var a := Grouping(prefix);
      CountsSumToCatalog(prefix);
      GroupingKeys(prefix);
      var c := p.category;
      if c in a.groups {
        SumCountsBump(a.keys, a.groups, c, Grouping(catalog).groups[c]);
      } else {
        SumCountsOther(a.keys, a.groups, c, Grouping(catalog).groups[c]);
        assert (a.keys + [c])[..|a.keys|] == a.keys;
      }
    }
  }

  /** The fold step on the dictionary itself: `acc[category]` is created if
      missing, its count incremented and the product pushed. */
  method AddProduct(keys: seq<string>, groups: map<string, Group>, p: Product)
    returns (keys': seq<string>, groups': map<string, Group>)
    ensures Acc(keys', groups') == Add(Acc(keys, groups), p)
  {
    var c := p.category;
    keys', groups' := keys, groups;
    if c !in groups' {
      groups' := groups'[c := Group(ProductsPage.CategoryLabel(c), 0, [], p.image)];
      keys' := keys' + [c];
    }
    groups' := groups'[c := groups'[c].(count := groups'[c].count + 1)];
    groups' := groups'[c := groups'[c].(products := groups'[c].products + [p])];
  }

  /** The `reduce` over the catalog. */
  method Categories(catalog: seq<Product>) returns (a: Acc)
    ensures a == Grouping(catalog)
  {
    var keys: seq<string> := [];
    var groups: map<string, Group> := map[];
    var i := 0;
    while i < |catalog|
      invariant 0 <= i <= |catalog|
      invariant Acc(keys, groups) == Grouping(catalog[..i])
    {
      keys, groups := AddProduct(keys, groups, catalog[i]);
      assert catalog[..i + 1][..i] == catalog[..i];
      i := i + 1;
    }
    assert catalog[..i] == catalog;
    a := Acc(keys, groups);
  }

  /** One card of `categoryList`. */
  datatype Entry = Entry(slug: string, name: string, count: nat, products: seq<Product>, image: string)

  /** `Object.entries(categories)` in key order. */
  function CategoryList(a: Acc): (r: seq<Entry>)
    requires forall c :: c in a.keys ==> c in a.groups
    ensures |r| == |a.keys|
    ensures forall i :: 0 <= i < |r| ==>
      var g := a.groups[a.keys[i]];
      r[i] == Entry(a.keys[i], g.name, g.count, g.products, g.image)
  {
    seq(|a.keys|, i requires 0 <= i < |a.keys| =>
      var g := a.groups[a.keys[i]];
      Entry(a.keys[i], g.name, g.count, g.products, g.image))
  }

  /** "Starting from": the lowest price among the products. */
  function MinPrice(products: seq<Product>): (m: nat)
    requires |products| > 0
    ensures exists i :: 0 <= i < |products| && products[i].price == m
    ensures forall i :: 0 <= i < |products| ==> m <= products[i].price
  {
    if |products| == 1 then products[0].price
    else
      var rest := MinPrice(products[1..]);
      assert forall i :: 1 <= i < |products| ==> products[i] == products[1..][i - 1];
      if products[0].price <= rest then products[0].price else rest
  }

  /** Every card: its slug is a catalog category, its count is the number of
      catalog products of that category, its products are those products in
      catalog order, and its price is the lowest of theirs. */
  lemma CategoryListSpec(catalog: seq<Product>, i: nat)
    requires i < |Grouping(catalog).keys|
    ensures var e := CategoryList(Grouping(catalog))[i];
      e.count == |Catalog.ProductsByCategory(catalog, e.slug)| &&
      e.products == Catalog.ProductsByCategory(catalog, e.slug) &&
      |e.products| > 0 && e.image == e.products[0].image &&
      e.name == ProductsPage.CategoryLabel(e.slug) &&
      (forall p :: p in e.products ==> MinPrice(e.products) <= p.price)
  {
    var a := Grouping(catalog);
    GroupingProducts(catalog, a.keys[i]);
  }
}
