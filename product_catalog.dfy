/**
 The product catalog container (app/context/ProductContext.tsx): a list of
 products held in one state cell that add, update and delete replace by a
 spread, map or filter of the previous list, plus two read-only queries.
 */
module ProductCatalog {
  import opened Collections
  import JsStrings

  datatype Product = Product(
    id: string,
    name: string,
    price: real,
    category: string,
    image: string,
    description: string)

  /** What `addProduct` receives: a product without its id. */
  datatype ProductFields = ProductFields(
    name: string,
    price: real,
    category: string,
    image: string,
    description: string)

  /** A `Partial<Product>`: every field, the id included, may be absent. */
  datatype Patch = Patch(
    id: Option<string>,
    name: Option<string>,
    price: Option<real>,
    category: Option<string>,
    image: Option<string>,
    description: Option<string>)

  /** The fixed category list the container exposes. */
  const Categories: seq<string> := ["mens", "womens", "children", "accessories"]

  /** `{ ...fields, id }`: the record `addProduct` appends. */
  function WithId(fields: ProductFields, id: string): (p: Product)
    ensures p.id == id
    ensures p.name == fields.name && p.price == fields.price && p.category == fields.category
    ensures p.image == fields.image && p.description == fields.description
  {
    Product(id, fields.name, fields.price, fields.category, fields.image, fields.description)
  }

  function Override<T>(current: T, patched: Option<T>): T
  {
    match patched
    case Some(v) => v
    case None => current
  }

  /** `{ ...p, ...patch }`: the fields present in `patch` win. */
  function Merge(p: Product, patch: Patch): (r: Product)
    ensures r.id == (if patch.id.Some? then patch.id.value else p.id)
    ensures r.name == (if patch.name.Some? then patch.name.value else p.name)
    ensures r.price == (if patch.price.Some? then patch.price.value else p.price)
    ensures r.category == (if patch.category.Some? then patch.category.value else p.category)
    ensures r.image == (if patch.image.Some? then patch.image.value else p.image)
    ensures r.description == (if patch.description.Some? then patch.description.value else p.description)
  {
    Product(
      Override(p.id, patch.id),
      Override(p.name, patch.name),
      Override(p.price, patch.price),
      Override(p.category, patch.category),
      Override(p.image, patch.image),
      Override(p.description, patch.description))
  }

  /** `{ ...a, ...b }` on two partial records. */
  function Combine(a: Patch, b: Patch): Patch
  {
    Patch(
      if b.id.Some? then b.id else a.id,
      if b.name.Some? then b.name else a.name,
      if b.price.Some? then b.price else a.price,
      if b.category.Some? then b.category else a.category,
      if b.image.Some? then b.image else a.image,
      if b.description.Some? then b.description else a.description)
  }

  const EmptyPatch := Patch(None, None, None, None, None, None)

  /** Merging an empty patch leaves a product as it is. */
  lemma MergeEmpty(p: Product)
    ensures Merge(p, EmptyPatch) == p
  {
  }

  /** Merging the same patch a second time changes nothing more. */
  lemma MergeIdempotent(p: Product, patch: Patch)
    ensures Merge(Merge(p, patch), patch) == Merge(p, patch)
  {
  }

  /** Two successive merges are one merge of the combined patch. */
  lemma MergeCombine(p: Product, a: Patch, b: Patch)
    ensures Merge(Merge(p, a), b) == Merge(p, Combine(a, b))
  {
  }

  /** A patch naming every field replaces the whole product. */
  lemma MergeFull(p: Product, q: Product)
    ensures Merge(p, Patch(Some(q.id), Some(q.name), Some(q.price), Some(q.category),
                           Some(q.image), Some(q.description))) == q
  {
  }

  function HasId(id: string): Product -> bool
  {
    (p: Product) => p.id == id
  }

  function OtherId(id: string): Product -> bool
  {
    (p: Product) => p.id != id
  }

  function SameCategory(category: string): Product -> bool
  {
    (p: Product) => JsStrings.Lower(p.category) == JsStrings.Lower(category)
  }

  function PatchIfId(id: string, patch: Patch): Product -> Product
  {
    (p: Product) => if p.id == id then Merge(p, patch) else p
  }

  /** `[...prev, newProduct]`. */
  function Appended(ps: seq<Product>, fields: ProductFields, id: string): (r: seq<Product>)
    ensures |r| == |ps| + 1
    ensures r[..|ps|] == ps
    ensures r[|ps|] == WithId(fields, id)
  {
    ps + [WithId(fields, id)]
  }

  /** `prev.map(p => p.id === id ? { ...p, ...patch } : p)`. */
  function Updated(ps: seq<Product>, id: string, patch: Patch): (r: seq<Product>)
    ensures |r| == |ps|
    ensures forall i :: 0 <= i < |ps| && ps[i].id == id ==> r[i] == Merge(ps[i], patch)
    ensures forall i :: 0 <= i < |ps| && ps[i].id != id ==> r[i] == ps[i]
  {
    Map(ps, PatchIfId(id, patch))
  }

  /** `prev.filter(p => p.id !== id)`. */
  function Removed(ps: seq<Product>, id: string): (r: seq<Product>)
    ensures IsSubsequence(r, ps)
    ensures forall p :: p in r ==> p.id != id
    ensures forall p :: p in ps && p.id != id ==> p in r
    ensures |r| == Count(ps, OtherId(id))
  {
    Filter(ps, OtherId(id))
  }

  /** `products.find(p => p.id === id)`. */
  function FindById(ps: seq<Product>, id: string): (r: Option<Product>)
    ensures r.None? <==> forall j :: 0 <= j < |ps| ==> ps[j].id != id
    ensures r.Some? ==> r.value.id == id &&
                        exists i :: 0 <= i < |ps| && ps[i] == r.value &&
                                    forall j :: 0 <= j < i ==> ps[j].id != id
  {
    assert forall j :: 0 <= j < |ps| ==> (HasId(id)(ps[j]) <==> ps[j].id == id);
    Find(ps, HasId(id))
  }

  /** `products.filter(p => p.category.toLowerCase() === category.toLowerCase())`. */
  function InCategory(ps: seq<Product>, category: string): (r: seq<Product>)
    ensures IsSubsequence(r, ps)
    ensures |r| <= |ps|
    ensures forall p :: p in r ==> JsStrings.Lower(p.category) == JsStrings.Lower(category)
    ensures forall p :: p in ps && JsStrings.Lower(p.category) == JsStrings.Lower(category) ==> p in r
    ensures |r| == Count(ps, SameCategory(category))
  {
    var r := Filter(ps, SameCategory(category));
    CountBound(ps, SameCategory(category));
    r
  }

  /** An update naming an id no product has leaves the list identical. */
  lemma UpdateAbsent(ps: seq<Product>, id: string, patch: Patch)
    requires forall j :: 0 <= j < |ps| ==> ps[j].id != id
    ensures Updated(ps, id, patch) == ps
  {
  }

  /** An update that does not touch ids keeps every product's id where it was. */
  lemma UpdateKeepsIds(ps: seq<Product>, id: string, patch: Patch)
    requires patch.id.None? || patch.id == Some(id)
    ensures forall i :: 0 <= i < |ps| ==> Updated(ps, id, patch)[i].id == ps[i].id
  {
  }

  /** Deleting an id no product has is a no-op. */
  lemma RemoveAbsent(ps: seq<Product>, id: string)
    requires forall j :: 0 <= j < |ps| ==> ps[j].id != id
    ensures Removed(ps, id) == ps
  {
    forall x | x in ps ensures OtherId(id)(x) {
      var j :| 0 <= j < |ps| && ps[j] == x;
    }
    FilterAllKept(ps, OtherId(id));
  }

  /** After a deletion the id can no longer be found. */
  lemma RemoveThenFind(ps: seq<Product>, id: string)
    ensures FindById(Removed(ps, id), id).None?
  {
  }

  /** Deletion removes exactly the products with that id and keeps the rest in order. */
  lemma RemoveExact(ps: seq<Product>, id: string, r: seq<Product>)
    requires IsSubsequence(r, ps)
    requires forall p :: p in r ==> p.id != id
    requires |r| == Count(ps, OtherId(id))
    ensures r == Removed(ps, id)
  {
    FilterUnique(ps, OtherId(id), r);
  }

  /**
   A product added under an id no other product has is what a lookup of that
   id then returns: every field as given, plus the id.
   */
  lemma AddThenFind(ps: seq<Product>, fields: ProductFields, id: string)
    requires forall j :: 0 <= j < |ps| ==> ps[j].id != id
    ensures FindById(Appended(ps, fields, id), id) == Some(WithId(fields, id))
  {
  }

  /**
   Ids come from the clock and are not checked: adding under an id that is
   already present leaves lookups of that id on the older product.
   */
  lemma AddDuplicateIdShadowed(ps: seq<Product>, fields: ProductFields, id: string)
    requires exists j :: 0 <= j < |ps| && ps[j].id == id
    ensures FindById(Appended(ps, fields, id), id) == FindById(ps, id)
  {
  }

  /** Filtering by the same category a second time changes nothing. */
  lemma InCategoryIdempotent(ps: seq<Product>, category: string)
    ensures InCategory(InCategory(ps, category), category) == InCategory(ps, category)
  {
    FilterIdempotent(ps, SameCategory(category));
  }

  /** The category list names are already lower case, so filtering by them is exact. */
  lemma CategoriesLowerCase()
    ensures forall c :: c in Categories ==> JsStrings.Lower(c) == c
  {
    assert Categories == ["mens", "womens", "children", "accessories"];
    forall c | c in Categories ensures JsStrings.Lower(c) == c {
      JsStrings.LowerOfLowerAscii(c);
    }
  }

  /**
   The container: the `products` state cell and the constant category list.
   Ids come from the caller (the source reads the clock for them).
   */
  class ProductStore {
    var products: seq<Product>
    const categories: seq<string>

    constructor (initial: seq<Product>)
      ensures products == initial
      ensures categories == Categories
    {
      products := initial;
      categories := Categories;
    }

    method AddProduct(fields: ProductFields, id: string)
      modifies this
      ensures products == Appended(old(products), fields, id)
      ensures (forall j :: 0 <= j < |old(products)| ==> old(products)[j].id != id) ==>
                GetProductById(id) == Some(WithId(fields, id))
    {
      var before := products;
      products := products + [WithId(fields, id)];
      if forall j :: 0 <= j < |before| ==> before[j].id != id {
        AddThenFind(before, fields, id);
      }
    }

    method UpdateProduct(id: string, patch: Patch)
      modifies this
      ensures products == Updated(old(products), id, patch)
      ensures (forall j :: 0 <= j < |old(products)| ==> old(products)[j].id != id) ==>
                products == old(products)
    {
      products := Map(products, PatchIfId(id, patch));
    }

    method DeleteProduct(id: string)
      modifies this
      ensures products == Removed(old(products), id)
      ensures GetProductById(id).None?
      ensures (forall j :: 0 <= j < |old(products)| ==> old(products)[j].id != id) ==>
                products == old(products)
    {
      var before := products;
      products := Filter(products, OtherId(id));
      RemoveThenFind(before, id);
      if forall j :: 0 <= j < |before| ==> before[j].id != id {
        RemoveAbsent(before, id);
      }
    }

    /** `getProductById`: the first product with the id, or nothing. */
    function GetProductById(id: string): (r: Option<Product>)
      reads this
      ensures r.None? <==> forall j :: 0 <= j < |products| ==> products[j].id != id
      ensures r.Some? ==> r.value.id == id &&
                          exists i :: 0 <= i < |products| && products[i] == r.value &&
                                      forall j :: 0 <= j < i ==> products[j].id != id
    {
      FindById(products, id)
    }

    /** `getProductsByCategory`: the products of a category, ignoring ASCII case, in list order. */
    function GetProductsByCategory(category: string): (r: seq<Product>)
      reads this
      ensures IsSubsequence(r, products)
      ensures forall p :: p in r ==> JsStrings.Lower(p.category) == JsStrings.Lower(category)
      ensures forall p :: p in products && JsStrings.Lower(p.category) == JsStrings.Lower(category) ==> p in r
      ensures |r| == Count(products, SameCategory(category))
    {
      InCategory(products, category)
    }
  }
}
