/** The in-memory entrance repository: a list of entrances and a list of
    products (seeded with one product of store 1). An entrance is a batch
    received for a product. Create is the one write to a product's stock
    in the whole code base, and it adds the old stock a second time:
    `stock += stock + quantity` leaves 2·stock + quantity. Every entrance
    gets id 1; delete removes the last entrance of the list. */
module InMemoryEntrance {
  import opened Wrappers
  import opened Tables
  import opened Records
  import opened Responses
  import opened Ownership

  type EntranceReply = Reply<Entrance, EEntranceResponse>

  function GetByIdOutcome(entrances: seq<Entrance>, id: int): (r: EntranceReply)
    ensures r.Sentinel? <==> Absent(entrances, EntranceId, id)
    ensures r.Sentinel? ==> r.code == EEntranceResponse.EntranceNotFound
    ensures r.Row? ==> IsFirst(entrances, EntranceId, id, r.row)
  {
    match Lookup(entrances, EntranceId, id)
    case None => Sentinel(EEntranceResponse.EntranceNotFound)
    case Some(e) => Row(e)
  }

  function NewEntrance(supplier: string, quantityProducts: int, priceTotal: real, idProduct: int): Entrance
  {
    Entrance(1, supplier, priceTotal, quantityProducts, FixedDate, idProduct)
  }

  /** The stock create writes: the old stock added to itself plus the
      quantity received. */
  function RestockedQuantity(stock: int, quantityProducts: int): int
  {
    stock + (stock + quantityProducts)
  }

  /** What create answers: ProductNotFound, then NotAuthorized; otherwise
      the new entrance. */
  function CreateOutcome(
    products: seq<Product>, supplier: string, quantityProducts: int, priceTotal: real,
    idProduct: int, token: int): (r: EntranceReply)
    ensures r == Sentinel(EEntranceResponse.ProductNotFound) <==> Absent(products, ProductId, idProduct)
    ensures r == Sentinel(EEntranceResponse.NotAuthorized) <==>
      ProductOwner(products, idProduct).Some? && ProductOwner(products, idProduct) != Some(token)
    ensures r.Row? <==> ProductOwner(products, idProduct) == Some(token)
    ensures r.Row? ==> r.row == NewEntrance(supplier, quantityProducts, priceTotal, idProduct)
    ensures r != Sentinel(EEntranceResponse.EntranceNotFound)
  {
    match Lookup(products, ProductId, idProduct)
    case None => Sentinel(EEntranceResponse.ProductNotFound)
    case Some(p) =>
      if p.idStore != token then Sentinel(EEntranceResponse.NotAuthorized)
      else Row(NewEntrance(supplier, quantityProducts, priceTotal, idProduct))
  }

  /** What update answers: EntranceNotFound, then ProductNotFound for the
      requested product, then NotAuthorized against that requested
      product; otherwise the entrance with its four fields replaced. */
  function UpdateOutcome(
    entrances: seq<Entrance>, products: seq<Product>, id: int, supplier: string,
    quantityProducts: int, priceTotal: real, idProduct: int, token: int): (r: EntranceReply)
    ensures r == Sentinel(EEntranceResponse.EntranceNotFound) <==> Absent(entrances, EntranceId, id)
    ensures r == Sentinel(EEntranceResponse.ProductNotFound) <==>
      !Absent(entrances, EntranceId, id) && Absent(products, ProductId, idProduct)
    ensures r == Sentinel(EEntranceResponse.NotAuthorized) <==>
      !Absent(entrances, EntranceId, id) &&
      ProductOwner(products, idProduct).Some? && ProductOwner(products, idProduct) != Some(token)
    ensures r.Row? ==>
      ProductOwner(products, idProduct) == Some(token) &&
      r.row == Lookup(entrances, EntranceId, id).value.(
        supplier := supplier, quantityProducts := quantityProducts,
        priceTotal := priceTotal, idProduct := idProduct)
  {
    match Lookup(entrances, EntranceId, id)
    case None => Sentinel(EEntranceResponse.EntranceNotFound)
    case Some(e) =>
      match Lookup(products, ProductId, idProduct)
      case None => Sentinel(EEntranceResponse.ProductNotFound)
      case Some(p) =>
        if p.idStore != token then Sentinel(EEntranceResponse.NotAuthorized)
        else Row(e.(supplier := supplier, quantityProducts := quantityProducts,
                    priceTotal := priceTotal, idProduct := idProduct))
  }

  /** What delete answers: the entrance it found, when the caller owns the
      product that entrance names (a missing product counts as not owned). */
  function DeleteOutcome(entrances: seq<Entrance>, products: seq<Product>, id: int, token: int): (r: EntranceReply)
    ensures r == Sentinel(EEntranceResponse.EntranceNotFound) <==> Absent(entrances, EntranceId, id)
    ensures r == Sentinel(EEntranceResponse.NotAuthorized) <==>
      !Absent(entrances, EntranceId, id) &&
      ProductOwner(products, Lookup(entrances, EntranceId, id).value.idProduct) != Some(token)
    ensures r.Row? ==>
      IsFirst(entrances, EntranceId, id, r.row) && ProductOwner(products, r.row.idProduct) == Some(token)
    ensures r != Sentinel(EEntranceResponse.ProductNotFound)
  {
    match Lookup(entrances, EntranceId, id)
    case None => Sentinel(EEntranceResponse.EntranceNotFound)
    case Some(e) =>
      if ProductOwner(products, e.idProduct) != Some(token) then Sentinel(EEntranceResponse.NotAuthorized)
      else Row(e)
  }

  class InMemoryEntranceRepository {
    var entrances: seq<Entrance>
    var products: seq<Product>

    constructor ()
      ensures entrances == [] && products == [SeedProduct]
    {
      entrances := [];
      products := [SeedProduct];
    }

    method GetById(id: int) returns (reply: EntranceReply)
      ensures reply == GetByIdOutcome(entrances, id)
    {
      var found := Find(entrances, EntranceId, id);
      if found.None? {
        return Sentinel(EEntranceResponse.EntranceNotFound);
      }
      reply := Row(entrances[found.value]);
    }

    /** On success the product's stock becomes 2·stock + quantity and one
        entrance is appended; on a sentinel nothing changes. */
    method Create(supplier: string, quantityProducts: int, priceTotal: real, idProduct: int, token: int)
      returns (reply: EntranceReply)
      modifies this
      ensures reply == CreateOutcome(old(products), supplier, quantityProducts, priceTotal, idProduct, token)
      ensures entrances == old(entrances) + RowsOf(reply)
      ensures reply.Sentinel? ==> products == old(products)
      ensures reply.Row? ==>
        var i := Find(old(products), ProductId, idProduct).value;
        var p := old(products)[i];
        products == old(products)[i := p.(quantityProductStock := RestockedQuantity(p.quantityProductStock, quantityProducts))]
    {
      var found := Find(products, ProductId, idProduct);
      if found.None? {
        return Sentinel(EEntranceResponse.ProductNotFound);
      }
      var i := found.value;
      var product := products[i];
      if product.idStore != token {
        return Sentinel(EEntranceResponse.NotAuthorized);
      }
      product := product.(quantityProductStock := product.quantityProductStock + (product.quantityProductStock + quantityProducts));
      products := products[i := product];
      var entrance := NewEntrance(supplier, quantityProducts, priceTotal, idProduct);
      entrances := entrances + [entrance];
      reply := Row(entrance);
    }

    method Update(
      id: int, supplier: string, quantityProducts: int, priceTotal: real, idProduct: int, token: int)
      returns (reply: EntranceReply)
      modifies this
      ensures reply == UpdateOutcome(
        old(entrances), products, id, supplier, quantityProducts, priceTotal, idProduct, token)
      ensures products == old(products)
      ensures reply.Sentinel? ==> entrances == old(entrances)
      ensures reply.Row? ==>
        entrances == old(entrances)[Find(old(entrances), EntranceId, id).value := reply.row]
    {
      var found := Find(entrances, EntranceId, id);
      if found.None? {
        return Sentinel(EEntranceResponse.EntranceNotFound);
      }
      var i := found.value;
      var product := Find(products, ProductId, idProduct);
      if product.None? {
        return Sentinel(EEntranceResponse.ProductNotFound);
      }
      if products[product.value].idStore != token {
        return Sentinel(EEntranceResponse.NotAuthorized);
      }
      var entrance := entrances[i].(
        supplier := supplier, quantityProducts := quantityProducts,
        priceTotal := priceTotal, idProduct := idProduct);
      entrances := entrances[i := entrance];
      reply := Row(entrance);
    }

    method Delete(id: int, token: int) returns (reply: EntranceReply)
      modifies this
      ensures reply == DeleteOutcome(old(entrances), products, id, token)
      ensures products == old(products)
      ensures reply.Sentinel? ==> entrances == old(entrances)
      ensures reply.Row? ==> entrances == old(entrances)[..|old(entrances)| - 1]
    {
      var found := Find(entrances, EntranceId, id);
      if found.None? {
        return Sentinel(EEntranceResponse.EntranceNotFound);
      }
      var entrance := entrances[found.value];
      var owner := Find(products, ProductId, entrance.idProduct);
      if owner.None? || products[owner.value].idStore != token {
        return Sentinel(EEntranceResponse.NotAuthorized);
      }
      entrances := entrances[..|entrances| - 1];
      reply := Row(entrance);
    }
  }
}
