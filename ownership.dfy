/** The ownership chain of the in-memory repositories: a store may act on a
    product whose `id_store` is its own id, on an entrance or exit through
    the product the movement names, and on a devolution or defective-product
    report through its entrance and then that entrance's product. A link
    that is missing anywhere in the chain reads as "not authorised" (the
    optional chaining `product?.id_store !== id_store_token`). */
module Ownership {
  import opened Wrappers
  import opened Tables
  import opened Records

  /** The store that owns the first product with id `idProduct`. */
  function ProductOwner(products: seq<Product>, idProduct: int): (r: Option<int>)
    ensures r.None? <==> Absent(products, ProductId, idProduct)
    ensures r.Some? ==>
      exists i :: 0 <= i < |products| &&
        FirstMatch(products, ProductId, idProduct, i) && products[i].idStore == r.value
  {
    match Lookup(products, ProductId, idProduct)
    case None => None
    case Some(p) => Some(p.idStore)
  }

  /** The stored `quantity_product_stock` of the first product with id
      `idProduct`. */
  function StockOf(products: seq<Product>, idProduct: int): (r: Option<int>)
    ensures r.None? <==> Absent(products, ProductId, idProduct)
    ensures r.Some? ==>
      exists i :: 0 <= i < |products| &&
        FirstMatch(products, ProductId, idProduct, i) && products[i].quantityProductStock == r.value
  {
    match Lookup(products, ProductId, idProduct)
    case None => None
    case Some(p) => Some(p.quantityProductStock)
  }

  /** The store that owns the entrance with id `idEntrance`, through the
      product the entrance names. */
  function EntranceOwner(entrances: seq<Entrance>, products: seq<Product>, idEntrance: int): (r: Option<int>)
    ensures Absent(entrances, EntranceId, idEntrance) ==> r.None?
    ensures forall i :: FirstMatch(entrances, EntranceId, idEntrance, i) ==>
      r == ProductOwner(products, entrances[i].idProduct)
    ensures r.Some? ==>
      exists i :: 0 <= i < |entrances| &&
        FirstMatch(entrances, EntranceId, idEntrance, i) &&
        ProductOwner(products, entrances[i].idProduct) == r
  {
    match Lookup(entrances, EntranceId, idEntrance)
    case None => None
    case Some(e) => ProductOwner(products, e.idProduct)
  }

  /** A store reaching a report through its entrance reaches a product
      row it owns: the chain ends in a real row with that `id_store`. */
  lemma {:induction false} EntranceOwnerReachesProduct(
    entrances: seq<Entrance>, products: seq<Product>, idEntrance: int, token: int)
    requires EntranceOwner(entrances, products, idEntrance) == Some(token)
    ensures
      exists i, j :: 0 <= i < |entrances| && 0 <= j < |products| &&
        entrances[i].id == idEntrance &&
        products[j].id == entrances[i].idProduct && products[j].idStore == token
  {
    var e := Lookup(entrances, EntranceId, idEntrance).value;
    var i :| 0 <= i < |entrances| && FirstMatch(entrances, EntranceId, idEntrance, i) && entrances[i] == e;
    var j :| 0 <= j < |products| && FirstMatch(products, ProductId, e.idProduct, j)
      && products[j].idStore == token;
    assert entrances[i].id == idEntrance && products[j].id == entrances[i].idProduct;
  }
}
