/** The product catalog of lib/mock-data.ts: a constant seed list and the
    three lookups over it. Prices are whole shillings; a rating such as 4.9
    is kept in tenths (49). */
module Catalog {
  import opened Wrappers
  import Seqs

  datatype Product = Product(
    id: string,
    name: string,
    description: string,
    price: nat,
    image: string,
    category: string,
    rating: nat,
    reviewCount: nat,
    inStock: bool,
    featured: bool)

  /** `mockProducts`. Each product is its own constant, and each long text
      is written as a concatenation of short pieces, which spells the same
      text. */
  function SeedProducts(): seq<Product> {
    [Seed1(), Seed2(), Seed3(), Seed4(), Seed5(), Seed6()]
  }

  function Seed1(): Product {
    Product("1", "Modern " + "Minimalist " + "Chair",
      "Clean lines meet " + "exceptional comfort " + "in this contemporary " +
      "dining chair. Crafted " + "from sustainable " + "materials with " +
      "ergonomic design " + "principles.",
      44850, "/modern-" + "minimalist-" + "furniture.jpg", "furniture", 49, 127, true, true)
  }

  function Seed2(): Product {
    Product("2", "Handcrafted " + "Ceramic Vase",
      "Artisan-made pottery " + "with unique glazing " + "techniques. Each " +
      "piece is " + "one-of-a-kind, " + "featuring subtle " +
      "variations that " + "celebrate the " + "handmade process.",
      22350, "/handcrafted-" + "artisan-" + "pottery.jpg", "home-decor", 48, 89, true, true)
  }

  function Seed3(): Product {
    Product("3", "Sustainable " + "Bamboo " + "Storage Set",
      "Eco-friendly storage " + "solutions for modern " + "living. Made from " +
      "rapidly renewable " + "bamboo with natural " + "antimicrobial " +
      "properties.",
      13350, "/sustainable-" + "eco-friendly-" + "home-products." + "jpg", "storage", 49, 203, true, true)
  }

  function Seed4(): Product {
    Product("4", "Premium Wool " + "Throw Blanket",
      "Luxuriously soft " + "merino wool blanket " + "in neutral tones. " +
      "Perfect for adding " + "warmth and texture to " + "any living space.",
      28350, "/premium-wool-" + "throw-blanket." + "jpg", "textiles", 47, 156, true, false)
  }

  function Seed5(): Product {
    Product("5", "Artisan " + "Coffee Table",
      "Solid wood coffee " + "table with live edge " + "design. Each piece " +
      "showcases the natural " + "beauty of the wood " + "grain.",
      89850, "/artisan-wood-" + "coffee-table." + "jpg", "furniture", 49, 78, true, false)
  }

  function Seed6(): Product {
    Product("6", "Organic " + "Cotton " + "Bedding Set",
      "Breathable organic " + "cotton sheets in " + "calming colors. " +
      "Hypoallergenic and " + "sustainably sourced " + "for better sleep.",
      34350, "/organic-" + "cotton-" + "bedding-set." + "jpg", "textiles", 48, 234, false, false)
  }

  /** `getProductById` over a catalog: `find` by id. */
  function FindProduct(catalog: seq<Product>, id: string): (r: Option<Product>)
    ensures r.None? <==> forall i :: 0 <= i < |catalog| ==> catalog[i].id != id
    ensures r.Some? ==> exists i :: 0 <= i < |catalog| && catalog[i] == r.value &&
                          r.value.id == id && forall k :: 0 <= k < i ==> catalog[k].id != id
  {
    if catalog == [] then None
    else if catalog[0].id == id then Some(catalog[0])
    else
      var r := FindProduct(catalog[1..], id);
      if r.Some? then
        ghost var i :| 0 <= i < |catalog[1..]| && catalog[1..][i] == r.value &&
                       forall k :: 0 <= k < i ==> catalog[1..][k].id != id;
        assert catalog[i + 1] == r.value;
        r
      else r
  }

  function GetProductById(id: string): Option<Product> {
    FindProduct(SeedProducts(), id)
  }

  function IsFeatured(p: Product): bool { p.featured }

  function InCategory(c: string): Product -> bool {
    (p: Product) => p.category == c
  }

  /** `getFeaturedProducts` over a catalog. */
  function FeaturedProducts(catalog: seq<Product>): seq<Product> {
    Seqs.Filter(catalog, IsFeatured)
  }

  /** `getProductsByCategory` over a catalog. */
  function ProductsByCategory(catalog: seq<Product>, c: string): seq<Product> {
    Seqs.Filter(catalog, InCategory(c))
  }

  /** Exactly the featured products, each as often as in the catalog, in catalog order. */
  lemma FeaturedProductsExact(catalog: seq<Product>, more: seq<Product>, p: Product)
    ensures p in FeaturedProducts(catalog) <==> p in catalog && p.featured
    ensures multiset(FeaturedProducts(catalog))[p] == if p.featured then multiset(catalog)[p] else 0
    ensures FeaturedProducts(catalog + more) == FeaturedProducts(catalog) + FeaturedProducts(more)
  {
    Seqs.FilterCount(catalog, IsFeatured, p);
    Seqs.FilterAppend(catalog, more, IsFeatured);
  }

  /** Exactly the products of category `c`, each as often as in the catalog, in catalog order. */
  lemma ProductsByCategoryExact(catalog: seq<Product>, more: seq<Product>, c: string, p: Product)
    ensures p in ProductsByCategory(catalog, c) <==> p in catalog && p.category == c
    ensures multiset(ProductsByCategory(catalog, c))[p] == if p.category == c then multiset(catalog)[p] else 0
    ensures ProductsByCategory(catalog + more, c) == ProductsByCategory(catalog, c) + ProductsByCategory(more, c)
  {
    Seqs.FilterCount(catalog, InCategory(c), p);
    Seqs.FilterAppend(catalog, more, InCategory(c));
  }

  predicate DistinctIds(catalog: seq<Product>) {
    forall i, j :: 0 <= i < j < |catalog| ==> catalog[i].id != catalog[j].id
  }

  /** With distinct ids, the lookup finds a catalog product exactly by its id. */
  lemma FindProductDistinct(catalog: seq<Product>, i: nat)
    requires DistinctIds(catalog) && i < |catalog|
    ensures FindProduct(catalog, catalog[i].id) == Some(catalog[i])
  {
  }

  /** The seed catalog: ids are distinct and every price is positive. */
  lemma SeedWellFormed()
    ensures |SeedProducts()| == 6
    ensures DistinctIds(SeedProducts())
    ensures forall p :: p in SeedProducts() ==> p.price > 0
  {
    SeedFacts();
  }

  /** The fields of the seed products that the lemmas below rely on. */
  lemma SeedFacts()
    ensures var s := SeedProducts();
      |s| == 6 &&
      s[0].id == "1" && s[1].id == "2" && s[2].id == "3" &&
      s[3].id == "4" && s[4].id == "5" && s[5].id == "6" && s[0] == Seed1() &&
      (forall i :: 0 <= i < 6 ==> s[i].price > 0) &&
      (forall i :: 0 <= i < 3 ==> s[i].featured) &&
      (forall i :: 3 <= i < 6 ==> !s[i].featured) &&
      (forall i :: 0 <= i < 5 ==> s[i].inStock) && !s[5].inStock
  {
    Seed1Facts(); Seed2Facts(); Seed3Facts();
    Seed4Facts(); Seed5Facts(); Seed6Facts();
  }

  lemma Seed1Facts() ensures Seed1().id == "1" && Seed1().price == 44850 && Seed1().featured && Seed1().inStock { }
  lemma Seed2Facts() ensures Seed2().id == "2" && Seed2().price > 0 && Seed2().featured && Seed2().inStock { }
  lemma Seed3Facts() ensures Seed3().id == "3" && Seed3().price > 0 && Seed3().featured && Seed3().inStock { }
  lemma Seed4Facts() ensures Seed4().id == "4" && Seed4().price > 0 && !Seed4().featured && Seed4().inStock { }
  lemma Seed5Facts() ensures Seed5().id == "5" && Seed5().price > 0 && !Seed5().featured && Seed5().inStock { }
  lemma Seed6Facts() ensures Seed6().id == "6" && Seed6().price > 0 && !Seed6().featured && !Seed6().inStock { }

  /** A catalog whose featured products are exactly its first `n`. */
  lemma {:induction false} FeaturedPrefix(s: seq<Product>, n: nat)
    requires n <= |s|
    requires forall i :: 0 <= i < n ==> s[i].featured
    requires forall i :: n <= i < |s| ==> !s[i].featured
    ensures FeaturedProducts(s) == s[..n]
  {
    if n == 0 {
      Seqs.FilterNone(s, IsFeatured);
    } else {
      FeaturedPrefix(s[1..], n - 1);
      assert s[1..][..n - 1] == s[1..n];
      assert s[..n] == [s[0]] + s[1..n];
    }
  }

  /** The seed catalog has three featured products: ids 1, 2 and 3. */
  lemma SeedFeatured()
    ensures FeaturedProducts(SeedProducts()) == SeedProducts()[..3]
    ensures SeedProducts()[0].id == "1" && SeedProducts()[1].id == "2" && SeedProducts()[2].id == "3"
  {
    SeedFacts();
    FeaturedPrefix(SeedProducts(), 3);
  }

  /** Only product 6 of the seed catalog is out of stock. */
  lemma SeedStock()
    ensures forall p :: p in SeedProducts() && !p.inStock ==> p.id == "6"
    ensures exists p :: p in SeedProducts() && !p.inStock
  {
    SeedFacts();
    assert SeedProducts()[5] in SeedProducts();
  }
}
