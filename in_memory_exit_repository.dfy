/** The in-memory exit repository: a list of exits and a list of products
    (seeded with one product of store 1). An exit is a sale: create checks
    that the product exists, that the caller's store owns it and that the
    stored stock covers the quantity, and then appends the exit. Nothing
    here writes the product's stock. Every exit gets id 1; delete removes
    the last exit of the list, whichever exit it found. */
module InMemoryExit {
  import opened Wrappers
  import opened Tables
  import opened Records
  import opened Responses
  import opened Ownership

  type ExitReply = Reply<Exit, EExitResponse>

  /** The exit `getById` returns: the first with that id. */
  function GetByIdOutcome(exits: seq<Exit>, id: int): (r: ExitReply)
    ensures r.Sentinel? <==> Absent(exits, ExitId, id)
    ensures r.Sentinel? ==> r.code == EExitResponse.ExitNotFound
    ensures r.Row? ==> IsFirst(exits, ExitId, id, r.row)
  {
    match Lookup(exits, ExitId, id)
    case None => Sentinel(EExitResponse.ExitNotFound)
    case Some(e) => Row(e)
  }

  /** The exit a successful create appends. */
  function NewExit(description: string, quantityProducts: int, priceTotal: real, idProduct: int): Exit
  {
    Exit(1, description, priceTotal, quantityProducts, FixedDate, idProduct)
  }

  /** What create answers: ProductNotFound, then NotAuthorized, then
      NoStock, each exactly when the earlier checks passed and its own
      condition holds; otherwise the new exit. */
  function CreateOutcome(
    products: seq<Product>, description: string, quantityProducts: int, priceTotal: real,
    idProduct: int, token: int): (r: ExitReply)
    ensures r == Sentinel(EExitResponse.ProductNotFound) <==> Absent(products, ProductId, idProduct)
    ensures r == Sentinel(EExitResponse.NotAuthorized) <==>
      ProductOwner(products, idProduct).Some? && ProductOwner(products, idProduct) != Some(token)
    ensures r == Sentinel(EExitResponse.NoStock) <==>
      ProductOwner(products, idProduct) == Some(token) &&
      StockOf(products, idProduct).value - quantityProducts < 0
    ensures r.Row? <==>
      ProductOwner(products, idProduct) == Some(token) &&
      StockOf(products, idProduct).value - quantityProducts >= 0
    ensures r.Row? ==> r.row == NewExit(description, quantityProducts, priceTotal, idProduct)
    ensures r != Sentinel(EExitResponse.ExitNotFound)
  {
    match Lookup(products, ProductId, idProduct)
    case None => Sentinel(EExitResponse.ProductNotFound)
    case Some(p) =>
      if p.idStore != token then Sentinel(EExitResponse.NotAuthorized)
      else if p.quantityProductStock - quantityProducts < 0 then Sentinel(EExitResponse.NoStock)
      else Row(NewExit(description, quantityProducts, priceTotal, idProduct))
  }

  /** What update answers. The owner is that of the product the stored
      exit names (a missing product counts as not owned), and the stock
      check compares the stored stock with the new quantity. */
  function UpdateOutcome(
    exits: seq<Exit>, products: seq<Product>, id: int, description: string,
    quantityProducts: int, priceTotal: real, token: int): (r: ExitReply)
    ensures r == Sentinel(EExitResponse.ExitNotFound) <==> Absent(exits, ExitId, id)
    ensures r == Sentinel(EExitResponse.NotAuthorized) <==>
      !Absent(exits, ExitId, id) &&
      ProductOwner(products, Lookup(exits, ExitId, id).value.idProduct) != Some(token)
    ensures r == Sentinel(EExitResponse.NoStock) <==>
      !Absent(exits, ExitId, id) &&
      ProductOwner(products, Lookup(exits, ExitId, id).value.idProduct) == Some(token) &&
      StockOf(products, Lookup(exits, ExitId, id).value.idProduct).value - quantityProducts < 0
    ensures r.Row? ==>
      var old_ := Lookup(exits, ExitId, id).value;
      r.row == old_.(description := description, quantityProducts := quantityProducts, priceTotal := priceTotal)
    ensures r != Sentinel(EExitResponse.ProductNotFound)
  {
    match Lookup(exits, ExitId, id)
    case None => Sentinel(EExitResponse.ExitNotFound)
    case Some(e) =>
      match Lookup(products, ProductId, e.idProduct)
      case None => Sentinel(EExitResponse.NotAuthorized)
      case Some(p) =>
        if p.idStore != token then Sentinel(EExitResponse.NotAuthorized)
        else if p.quantityProductStock - quantityProducts < 0 then Sentinel(EExitResponse.NoStock)
        else Row(e.(description := description, quantityProducts := quantityProducts, priceTotal := priceTotal))
  }

  /** What delete answers: the exit it found, when the caller owns its
      product. */
  function DeleteOutcome(exits: seq<Exit>, products: seq<Product>, id: int, token: int): (r: ExitReply)
    ensures r == Sentinel(EExitResponse.ExitNotFound) <==> Absent(exits, ExitId, id)
    ensures r == Sentinel(EExitResponse.NotAuthorized) <==>
      !Absent(exits, ExitId, id) &&
      ProductOwner(products, Lookup(exits, ExitId, id).value.idProduct) != Some(token)
    ensures r.Row? ==>
      IsFirst(exits, ExitId, id, r.row) && ProductOwner(products, r.row.idProduct) == Some(token)
    ensures r != Sentinel(EExitResponse.ProductNotFound) && r != Sentinel(EExitResponse.NoStock)
  {
    match Lookup(exits, ExitId, id)
    case None => Sentinel(EExitResponse.ExitNotFound)
    case Some(e) =>
      if ProductOwner(products, e.idProduct) != Some(token) then Sentinel(EExitResponse.NotAuthorized)
      else Row(e)
  }

  class InMemoryExitRepository {
    var exits: seq<Exit>
    const products: seq<Product>

    constructor ()
      ensures exits == [] && products == [SeedProduct]
    {
      exits := [];
      products := [SeedProduct];
    }

    method GetById(id: int) returns (reply: ExitReply)
      ensures reply == GetByIdOutcome(exits, id)
    {
      var found := Find(exits, ExitId, id);
      if found.None? {
        return Sentinel(EExitResponse.ExitNotFound);
      }
      reply := Row(exits[found.value]);
    }

    method Create(description: string, quantityProducts: int, priceTotal: real, idProduct: int, token: int)
      returns (reply: ExitReply)
      modifies this
      ensures reply == CreateOutcome(products, description, quantityProducts, priceTotal, idProduct, token)
      ensures exits == old(exits) + RowsOf(reply)
    {
      var found := Find(products, ProductId, idProduct);
      if found.None? {
        return Sentinel(EExitResponse.ProductNotFound);
      }
      var product := products[found.value];
      if product.idStore != token {
        return Sentinel(EExitResponse.NotAuthorized);
      }
      if product.quantityProductStock - quantityProducts < 0 {
        return Sentinel(EExitResponse.NoStock);
      }
      var exit := NewExit(description, quantityProducts, priceTotal, idProduct);
      exits := exits + [exit];
      reply := Row(exit);
    }

    method Update(id: int, description: string, quantityProducts: int, priceTotal: real, token: int)
      returns (reply: ExitReply)
      modifies this
      ensures reply == UpdateOutcome(old(exits), products, id, description, quantityProducts, priceTotal, token)
      ensures reply.Sentinel? ==> exits == old(exits)
      ensures reply.Row? ==> exits == old(exits)[Find(old(exits), ExitId, id).value := reply.row]
    {
      var found := Find(exits, ExitId, id);
      if found.None? {
        return Sentinel(EExitResponse.ExitNotFound);
      }
      var i := found.value;
      var exit := exits[i];
      var owner := Find(products, ProductId, exit.idProduct);
      if owner.None? || products[owner.value].idStore != token {
        return Sentinel(EExitResponse.NotAuthorized);
      }
      if products[owner.value].quantityProductStock - quantityProducts < 0 {
        return Sentinel(EExitResponse.NoStock);
      }
      exit := exit.(description := description, quantityProducts := quantityProducts, priceTotal := priceTotal);
      exits := exits[i := exit];
      reply := Row(exit);
    }

    method Delete(id: int, token: int) returns (reply: ExitReply)
      modifies this
      ensures reply == DeleteOutcome(old(exits), products, id, token)
      ensures reply.Sentinel? ==> exits == old(exits)
      ensures reply.Row? ==> exits == old(exits)[..|old(exits)| - 1]
    {
      var found := Find(exits, ExitId, id);
      if found.None? {
        return Sentinel(EExitResponse.ExitNotFound);
      }
      var exit := exits[found.value];
      var owner := Find(products, ProductId, exit.idProduct);
      if owner.None? || products[owner.value].idStore != token {
        return Sentinel(EExitResponse.NotAuthorized);
      }
      exits := exits[..|exits| - 1];
      reply := Row(exit);
    }
  }
}
