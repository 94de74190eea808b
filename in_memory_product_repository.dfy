/** The in-memory product repository: a list of products and a list of
    stores (seeded with store 1). Product names are meant to be unique
    across all stores: create refuses a name already present, and update
    refuses a name held by a product with another id, reporting it as
    ProductNotFound. Every product gets id 1 and stock 100. Delete only
    checks and reads: it removes nothing. */
module InMemoryProduct {
  import opened Wrappers
  import opened Tables
  import opened Records
  import opened Responses
  import opened Ownership

  type ProductReply = Reply<Product, EProductResponse>

  function GetByIdOutcome(products: seq<Product>, id: int): (r: ProductReply)
    ensures r.Sentinel? <==> Absent(products, ProductId, id)
    ensures r.Sentinel? ==> r.code == EProductResponse.ProductNotFound
    ensures r.Row? ==> IsFirst(products, ProductId, id, r.row)
  {
    match Lookup(products, ProductId, id)
    case None => Sentinel(EProductResponse.ProductNotFound)
    case Some(p) => Row(p)
  }

  function NewProduct(nameProduct: string, priceProduct: real, idStore: int): Product
  {
    Product(1, idStore, nameProduct, priceProduct, 100)
  }

  /** What create answers: NotAuthorized when the store named is not the
      caller's, before any lookup; then ProductExists when any product has
      the name; then StoreNotFound; otherwise the new product. */
  function CreateOutcome(
    products: seq<Product>, stores: seq<Store>, nameProduct: string, priceProduct: real,
    idStore: int, token: int): (r: ProductReply)
    ensures r == Sentinel(EProductResponse.NotAuthorized) <==> idStore != token
    ensures r == Sentinel(EProductResponse.ProductExists) <==>
      idStore == token && !Absent(products, ProductName, nameProduct)
    ensures r == Sentinel(EProductResponse.StoreNotFound) <==>
      idStore == token && Absent(products, ProductName, nameProduct) && Absent(stores, StoreId, idStore)
    ensures r.Row? ==> r.row == NewProduct(nameProduct, priceProduct, idStore)
    ensures r != Sentinel(EProductResponse.ProductNotFound)
  {
    if idStore != token then Sentinel(EProductResponse.NotAuthorized)
    else if Lookup(products, ProductName, nameProduct).Some? then Sentinel(EProductResponse.ProductExists)
    else if Lookup(stores, StoreId, idStore).None? then Sentinel(EProductResponse.StoreNotFound)
    else Row(NewProduct(nameProduct, priceProduct, idStore))
  }

  /** Some product other than id `id` already has the name. */
  predicate NameTakenByOther(products: seq<Product>, nameProduct: string, id: int)
  {
    match Lookup(products, ProductName, nameProduct)
    case None => false
    case Some(holder) => holder.id != id
  }

  /** What update answers: ProductNotFound, then NotAuthorized, then (for
      a name another product holds) ProductNotFound again; otherwise the
      product with its name and price replaced. */
  function UpdateOutcome(
    products: seq<Product>, id: int, nameProduct: string, priceProduct: real, token: int): (r: ProductReply)
    ensures r == Sentinel(EProductResponse.NotAuthorized) <==>
      ProductOwner(products, id).Some? && ProductOwner(products, id) != Some(token)
    ensures r == Sentinel(EProductResponse.ProductNotFound) <==>
      Absent(products, ProductId, id) ||
      (ProductOwner(products, id) == Some(token) && NameTakenByOther(products, nameProduct, id))
    ensures r.Row? ==>
      r.row == Lookup(products, ProductId, id).value.(nameProduct := nameProduct, priceProduct := priceProduct)
    ensures r != Sentinel(EProductResponse.ProductExists) && r != Sentinel(EProductResponse.StoreNotFound)
  {
    match Lookup(products, ProductId, id)
    case None => Sentinel(EProductResponse.ProductNotFound)
    case Some(p) =>
      if p.idStore != token then Sentinel(EProductResponse.NotAuthorized)
      else if NameTakenByOther(products, nameProduct, id) then Sentinel(EProductResponse.ProductNotFound)
      else Row(p.(nameProduct := nameProduct, priceProduct := priceProduct))
  }

  /** What delete answers; it never writes. */
  function DeleteOutcome(products: seq<Product>, id: int, token: int): (r: ProductReply)
    ensures r == Sentinel(EProductResponse.ProductNotFound) <==> Absent(products, ProductId, id)
    ensures r == Sentinel(EProductResponse.NotAuthorized) <==>
      ProductOwner(products, id).Some? && ProductOwner(products, id) != Some(token)
    ensures r.Row? ==> IsFirst(products, ProductId, id, r.row) && r.row.idStore == token
    ensures r != Sentinel(EProductResponse.ProductExists) && r != Sentinel(EProductResponse.StoreNotFound)
  {
    match Lookup(products, ProductId, id)
    case None => Sentinel(EProductResponse.ProductNotFound)
    case Some(p) =>
      if p.idStore != token then Sentinel(EProductResponse.NotAuthorized)
      else Row(p)
  }

  /** A successful create keeps product names unique. */
  lemma CreateKeepsNamesUnique(
    products: seq<Product>, stores: seq<Store>, nameProduct: string, priceProduct: real, idStore: int, token: int)
    requires Unique(products, ProductName)
    requires CreateOutcome(products, stores, nameProduct, priceProduct, idStore, token).Row?
    ensures Unique(products + RowsOf(CreateOutcome(products, stores, nameProduct, priceProduct, idStore, token)), ProductName)
  {
    UniqueAfterAppend(products, ProductName, NewProduct(nameProduct, priceProduct, idStore));
  }

  /** A successful update keeps product names unique as long as product
      ids are unique. (Every in-memory create uses id 1, so after two
      creates the ids repeat, and renaming the first product to the name
      of the second then succeeds and duplicates that name.) */
  lemma {:induction false} UpdateKeepsNamesUnique(
    products: seq<Product>, id: int, nameProduct: string, priceProduct: real, token: int)
    requires Unique(products, ProductId) && Unique(products, ProductName)
    requires UpdateOutcome(products, id, nameProduct, priceProduct, token).Row?
    ensures Unique(
      products[Find(products, ProductId, id).value := UpdateOutcome(products, id, nameProduct, priceProduct, token).row],
      ProductName)
  {
    var i := Find(products, ProductId, id).value;
    var x := UpdateOutcome(products, id, nameProduct, priceProduct, token).row;
    forall j | 0 <= j < |products| && j != i
      ensures ProductName(products[j]) != ProductName(x)
    {
      if ProductName(products[j]) == nameProduct {
        var f := Find(products, ProductName, nameProduct).value;
        SameKeySameIndex(products, ProductId, f, i);
        SameKeySameIndex(products, ProductName, i, j);
        assert false;
      }
    }
    UniqueAfterReplace(products, ProductName, i, x);
  }

  /** Two products sharing id 1 let update duplicate a name. */
  lemma UpdateWithRepeatedIdsDuplicatesName()
    ensures
      var products := [Product(1, 1, "a", 1.0, 100), Product(1, 1, "b", 1.0, 100)];
      var r := UpdateOutcome(products, 1, "b", 2.0, 1);
      r.Row? && !Unique(products[0 := r.row], ProductName)
  {
    var products := [Product(1, 1, "a", 1.0, 100), Product(1, 1, "b", 1.0, 100)];
    assert Find(products, ProductId, 1) == Some(0);
    assert Find(products, ProductName, "b") == Some(1);
    var r := UpdateOutcome(products, 1, "b", 2.0, 1);
    assert products[0 := r.row][0].nameProduct == products[0 := r.row][1].nameProduct;
  }

  class InMemoryProductRepository {
    var products: seq<Product>
    const stores: seq<Store>

    constructor ()
      ensures products == [] && stores == [SeedStore]
    {
      products := [];
      stores := [SeedStore];
    }

    method GetById(id: int) returns (reply: ProductReply)
      ensures reply == GetByIdOutcome(products, id)
    {
      var found := Find(products, ProductId, id);
      if found.None? {
        return Sentinel(EProductResponse.ProductNotFound);
      }
      reply := Row(products[found.value]);
    }

    method Create(nameProduct: string, priceProduct: real, idStore: int, token: int)
      returns (reply: ProductReply)
      modifies this
      ensures reply == CreateOutcome(old(products), stores, nameProduct, priceProduct, idStore, token)
      ensures products == old(products) + RowsOf(reply)
    {
      if idStore != token {
        return Sentinel(EProductResponse.NotAuthorized);
      }
      var sameName := Find(products, ProductName, nameProduct);
      if sameName.Some? {
        return Sentinel(EProductResponse.ProductExists);
      }
      var store := Find(stores, StoreId, idStore);
      if store.None? {
        return Sentinel(EProductResponse.StoreNotFound);
      }
      var product := NewProduct(nameProduct, priceProduct, idStore);
      products := products + [product];
      reply := Row(product);
    }

    method Update(id: int, nameProduct: string, priceProduct: real, token: int)
      returns (reply: ProductReply)
      modifies this
      ensures reply == UpdateOutcome(old(products), id, nameProduct, priceProduct, token)
      ensures reply.Sentinel? ==> products == old(products)
      ensures reply.Row? ==> products == old(products)[Find(old(products), ProductId, id).value := reply.row]
    {
      var found := Find(products, ProductId, id);
      if found.None? {
        return Sentinel(EProductResponse.ProductNotFound);
      }
      var i := found.value;
      var product := products[i];
      if product.idStore != token {
        return Sentinel(EProductResponse.NotAuthorized);
      }
      var sameName := Find(products, ProductName, nameProduct);
      if sameName.Some? && products[sameName.value].id != id {
        return Sentinel(EProductResponse.ProductNotFound);
      }
      product := product.(nameProduct := nameProduct, priceProduct := priceProduct);
      products := products[i := product];
      reply := Row(product);
    }

    method Delete(id: int, token: int) returns (reply: ProductReply)
      ensures reply == DeleteOutcome(products, id, token)
    {
      var found := Find(products, ProductId, id);
      if found.None? {
        return Sentinel(EProductResponse.ProductNotFound);
      }
      var product := products[found.value];
      if product.idStore != token {
        return Sentinel(EProductResponse.NotAuthorized);
      }
      reply := Row(product);
    }
  }
}
