/** The in-memory devolution repository: a list of devolution reports, and
    fixed lists of entrances and products (one seeded entrance of the seeded
    product of store 1) that no method writes. A store may act on a report
    only through an entrance whose product it owns. Every report gets id 1
    and date 2020-02-10; delete removes the last report of the list. */
module InMemoryDevolution {
  import opened Wrappers
  import opened Tables
  import opened Records
  import opened Responses
  import opened Ownership

  type DevolutionReply = Reply<Devolution, EDevolutionResponse>

  function GetByIdOutcome(devolutions: seq<Devolution>, id: int): (r: DevolutionReply)
    ensures r.Sentinel? <==> Absent(devolutions, DevolutionId, id)
    ensures r.Sentinel? ==> r.code == EDevolutionResponse.DevolutionNotFound
    ensures r.Row? ==> IsFirst(devolutions, DevolutionId, id, r.row)
  {
    match Lookup(devolutions, DevolutionId, id)
    case None => Sentinel(EDevolutionResponse.DevolutionNotFound)
    case Some(d) => Row(d)
  }

  function NewDevolution(description: string, quantityProducts: int, idEntrance: int): Devolution
  {
    Devolution(1, description, quantityProducts, FixedDate, idEntrance)
  }

  /** What create answers: EntranceNotFound, then NotAuthorized when the
      entrance's product is missing or belongs to another store; otherwise
      the new report. */
  function CreateOutcome(
    entrances: seq<Entrance>, products: seq<Product>, description: string, quantityProducts: int,
    idEntrance: int, token: int): (r: DevolutionReply)
    ensures r == Sentinel(EDevolutionResponse.EntranceNotFound) <==> Absent(entrances, EntranceId, idEntrance)
    ensures r == Sentinel(EDevolutionResponse.NotAuthorized) <==>
      !Absent(entrances, EntranceId, idEntrance) && EntranceOwner(entrances, products, idEntrance) != Some(token)
    ensures r.Row? <==> EntranceOwner(entrances, products, idEntrance) == Some(token)
    ensures r.Row? ==> r.row == NewDevolution(description, quantityProducts, idEntrance)
    ensures r != Sentinel(EDevolutionResponse.DevolutionNotFound)
  {
    match Lookup(entrances, EntranceId, idEntrance)
    case None => Sentinel(EDevolutionResponse.EntranceNotFound)
    case Some(e) =>
      if ProductOwner(products, e.idProduct) != Some(token) then Sentinel(EDevolutionResponse.NotAuthorized)
      else Row(NewDevolution(description, quantityProducts, idEntrance))
  }

  /** A report create accepts hangs off a real entrance of a real product
      of the caller's store. */
  lemma CreatedReportIsOwned(
    entrances: seq<Entrance>, products: seq<Product>, description: string, quantityProducts: int,
    idEntrance: int, token: int)
    requires CreateOutcome(entrances, products, description, quantityProducts, idEntrance, token).Row?
    ensures
      exists i, j :: 0 <= i < |entrances| && 0 <= j < |products| &&
        entrances[i].id == idEntrance &&
        products[j].id == entrances[i].idProduct && products[j].idStore == token
  {
    EntranceOwnerReachesProduct(entrances, products, idEntrance, token);
  }

  /** What update answers: DevolutionNotFound, then EntranceNotFound for
      the requested entrance, then NotAuthorized through that entrance's
      product; otherwise the report with description, quantity and entrance
      replaced. */
  function UpdateOutcome(
    devolutions: seq<Devolution>, entrances: seq<Entrance>, products: seq<Product>, id: int,
    description: string, quantityProducts: int, idEntrance: int, token: int): (r: DevolutionReply)
    ensures r == Sentinel(EDevolutionResponse.DevolutionNotFound) <==> Absent(devolutions, DevolutionId, id)
    ensures r == Sentinel(EDevolutionResponse.EntranceNotFound) <==>
      !Absent(devolutions, DevolutionId, id) && Absent(entrances, EntranceId, idEntrance)
    ensures r == Sentinel(EDevolutionResponse.NotAuthorized) <==>
      !Absent(devolutions, DevolutionId, id) && !Absent(entrances, EntranceId, idEntrance) &&
      EntranceOwner(entrances, products, idEntrance) != Some(token)
    ensures r.Row? ==>
      EntranceOwner(entrances, products, idEntrance) == Some(token) &&
      r.row == Lookup(devolutions, DevolutionId, id).value.(
        description := description, quantityProducts := quantityProducts, idEntrance := idEntrance)
  {
    match Lookup(devolutions, DevolutionId, id)
    case None => Sentinel(EDevolutionResponse.DevolutionNotFound)
    case Some(d) =>
      match Lookup(entrances, EntranceId, idEntrance)
      case None => Sentinel(EDevolutionResponse.EntranceNotFound)
      case Some(e) =>
        if ProductOwner(products, e.idProduct) != Some(token) then Sentinel(EDevolutionResponse.NotAuthorized)
        else Row(d.(description := description, quantityProducts := quantityProducts, idEntrance := idEntrance))
  }

  /** What delete answers: the report it found, when the caller owns the
      product of the report's stored entrance (a missing entrance or
      product counts as not owned). */
  function DeleteOutcome(
    devolutions: seq<Devolution>, entrances: seq<Entrance>, products: seq<Product>, id: int, token: int)
    : (r: DevolutionReply)
    ensures r == Sentinel(EDevolutionResponse.DevolutionNotFound) <==> Absent(devolutions, DevolutionId, id)
    ensures r == Sentinel(EDevolutionResponse.NotAuthorized) <==>
      !Absent(devolutions, DevolutionId, id) &&
      EntranceOwner(entrances, products, Lookup(devolutions, DevolutionId, id).value.idEntrance) != Some(token)
    ensures r.Row? ==>
      IsFirst(devolutions, DevolutionId, id, r.row) &&
      EntranceOwner(entrances, products, r.row.idEntrance) == Some(token)
    ensures r != Sentinel(EDevolutionResponse.EntranceNotFound)
  {
    match Lookup(devolutions, DevolutionId, id)
    case None => Sentinel(EDevolutionResponse.DevolutionNotFound)
    case Some(d) =>
      if EntranceOwner(entrances, products, d.idEntrance) != Some(token) then Sentinel(EDevolutionResponse.NotAuthorized)
      else Row(d)
  }

  class InMemoryDevolutionRepository {
    var devolutions: seq<Devolution>
    const entrances: seq<Entrance>
    const products: seq<Product>

    /** `now` is the date the seeded entrance gets. */
    constructor (now: Date)
      ensures devolutions == [] && entrances == [SeedEntrance(now)] && products == [SeedProduct]
    {
      devolutions := [];
      entrances := [SeedEntrance(now)];
      products := [SeedProduct];
    }

    method GetById(id: int) returns (reply: DevolutionReply)
      ensures reply == GetByIdOutcome(devolutions, id)
    {
      var found := Find(devolutions, DevolutionId, id);
      if found.None? {
        return Sentinel(EDevolutionResponse.DevolutionNotFound);
      }
      reply := Row(devolutions[found.value]);
    }

    /** The owner of the product entrance `idEntrance` names, read the way
        the repository reads it. */
    method OwnerThrough(idEntrance: int) returns (owner: Option<int>)
      ensures owner == EntranceOwner(entrances, products, idEntrance)
    {
      var entrance := Find(entrances, EntranceId, idEntrance);
      if entrance.None? {
        return None;
      }
      var product := Find(products, ProductId, entrances[entrance.value].idProduct);
      if product.None? {
        return None;
      }
      owner := Some(products[product.value].idStore);
    }

    method Create(description: string, quantityProducts: int, idEntrance: int, token: int)
      returns (reply: DevolutionReply)
      modifies this
      ensures reply == CreateOutcome(entrances, products, description, quantityProducts, idEntrance, token)
      ensures devolutions == old(devolutions) + RowsOf(reply)
    {
      var entrance := Find(entrances, EntranceId, idEntrance);
      if entrance.None? {
        return Sentinel(EDevolutionResponse.EntranceNotFound);
      }
      var owner := OwnerThrough(idEntrance);
      if owner != Some(token) {
        return Sentinel(EDevolutionResponse.NotAuthorized);
      }
      var devolution := NewDevolution(description, quantityProducts, idEntrance);
      devolutions := devolutions + [devolution];
      reply := Row(devolution);
    }

    method Update(id: int, description: string, quantityProducts: int, idEntrance: int, token: int)
      returns (reply: DevolutionReply)
      modifies this
      ensures reply == UpdateOutcome(
        old(devolutions), entrances, products, id, description, quantityProducts, idEntrance, token)
      ensures reply.Sentinel? ==> devolutions == old(devolutions)
      ensures reply.Row? ==>
        devolutions == old(devolutions)[Find(old(devolutions), DevolutionId, id).value := reply.row]
    {
      var found := Find(devolutions, DevolutionId, id);
      if found.None? {
        return Sentinel(EDevolutionResponse.DevolutionNotFound);
      }
      var i := found.value;
      var entrance := Find(entrances, EntranceId, idEntrance);
      if entrance.None? {
        return Sentinel(EDevolutionResponse.EntranceNotFound);
      }
      var owner := OwnerThrough(idEntrance);
      if owner != Some(token) {
        return Sentinel(EDevolutionResponse.NotAuthorized);
      }
      var devolution := devolutions[i].(
        description := description, quantityProducts := quantityProducts, idEntrance := idEntrance);
      devolutions := devolutions[i := devolution];
      reply := Row(devolution);
    }

    method Delete(id: int, token: int) returns (reply: DevolutionReply)
      modifies this
      ensures reply == DeleteOutcome(old(devolutions), entrances, products, id, token)
      ensures reply.Sentinel? ==> devolutions == old(devolutions)
      ensures reply.Row? ==> devolutions == old(devolutions)[..|old(devolutions)| - 1]
    {
      var found := Find(devolutions, DevolutionId, id);
      if found.None? {
        return Sentinel(EDevolutionResponse.DevolutionNotFound);
      }
      var devolution := devolutions[found.value];
      var owner := OwnerThrough(devolution.idEntrance);
      if owner != Some(token) {
        return Sentinel(EDevolutionResponse.NotAuthorized);
      }
      devolutions := devolutions[..|devolutions| - 1];
      reply := Row(devolution);
    }
  }
}
