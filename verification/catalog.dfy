/** Catalog records: products, the search query, the paginated answer, and
    the two-product mock catalog the server searches and prices against. */
module Catalog {
  import opened Common

  /** A product; prices are whole XAF amounts. */
  datatype Product = Product(
    id: string,
    name: string,
    price: int,
    category: string,
    region: string,
    certified: bool)

  /** The optional search parameters; an absent field imposes no filter. */
  datatype ProductQuery = ProductQuery(
    query: Option<string>,
    category: Option<string>,
    minPrice: Option<int>,
    maxPrice: Option<int>,
    region: Option<string>,
    certified: Option<bool>,
    page: Option<Usize>,
    limit: Option<Usize>)

  /** One page of results, with the size of the whole filtered list. */
  datatype PaginatedResponse = PaginatedResponse(
    page: Usize,
    limit: Usize,
    total: nat,
    products: seq<Product>)

  /** Product lookup errors; the variants are the ones the error conversions match on. */
  datatype ProductError = LockError | ProductNotFound

  /** A query with every field absent. */
  function NoFilters(): ProductQuery {
    ProductQuery(None, None, None, None, None, None, None, None)
  }

  /** The mock catalog: two products with distinct ids. */
  function MockProducts(): (r: seq<Product>)
    ensures |r| == 2
    ensures forall i, j :: 0 <= i < j < |r| ==> r[i].id != r[j].id
    ensures forall i :: 0 <= i < |r| ==> r[i].price > 0
  {
    [ Product("2", "Bamileke Stool", 15000, "Furniture", "Ouest", true),
      Product("3", "Cameroon T-shirt", 5000, "Clothing", "Centre", false) ]
  }

  /** The first product of `catalog` with id `id`. */
  function FindProduct(catalog: seq<Product>, id: string): (r: Option<Product>)
    ensures r.Some? ==> r.value in catalog && r.value.id == id
    ensures r.None? <==> forall p :: p in catalog ==> p.id != id
  {
    if catalog == [] then None
    else if catalog[0].id == id then Some(catalog[0])
    else
      assert forall p :: p in catalog <==> p == catalog[0] || p in catalog[1..];
      FindProduct(catalog[1..], id)
  }

  /** The mock catalog used as a price lookup. */
  function MockPrice(id: string): (r: Option<int>)
    ensures r.Some? <==> id == "2" || id == "3"
    ensures id == "2" ==> r == Some(15000)
    ensures id == "3" ==> r == Some(5000)
  {
    match FindProduct(MockProducts(), id)
    case Some(p) => Some(p.price)
    case None => None
  }

  /** The two mock products, field by field. */
  lemma MockCatalogContents()
    ensures MockProducts()[0] == Product("2", "Bamileke Stool", 15000, "Furniture", "Ouest", true)
    ensures MockProducts()[1] == Product("3", "Cameroon T-shirt", 5000, "Clothing", "Centre", false)
  {
  }
}
