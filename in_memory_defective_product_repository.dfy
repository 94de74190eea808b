/** The in-memory defective-product repository: a list of defective-product
    reports, and fixed lists of entrances and products (one seeded entrance
    of the seeded product of store 1) that no method writes. A store may act
    on a report only through an entrance whose product it owns; update and
    delete go through the entrance the stored report names. A report has no
    date; every report gets id 1; delete removes the last report of the
    list. */
module InMemoryDefectiveProduct {
  import opened Wrappers
  import opened Tables
  import opened Records
  import opened Responses
  import opened Ownership

  type DefectiveProductReply = Reply<DefectiveProduct, EDefectiveProductResponse>

  function GetByIdOutcome(defectiveProducts: seq<DefectiveProduct>, id: int): (r: DefectiveProductReply)
    ensures r.Sentinel? <==> Absent(defectiveProducts, DefectiveProductId, id)
    ensures r.Sentinel? ==> r.code == EDefectiveProductResponse.DefectiveProductNotFound
    ensures r.Row? ==> IsFirst(defectiveProducts, DefectiveProductId, id, r.row)
  {
    match Lookup(defectiveProducts, DefectiveProductId, id)
    case None => Sentinel(EDefectiveProductResponse.DefectiveProductNotFound)
    case Some(d) => Row(d)
  }

  function NewDefectiveProduct(description: string, quantityProducts: int, idEntrance: int): DefectiveProduct
  {
    DefectiveProduct(1, description, quantityProducts, idEntrance)
  }

  /** What create answers: EntranceNotFound, then NotAuthorized when the
      entrance's product is missing or belongs to another store; otherwise
      the new report. */
  function CreateOutcome(
    entrances: seq<Entrance>, products: seq<Product>, description: string, quantityProducts: int,
    idEntrance: int, token: int): (r: DefectiveProductReply)
    ensures r == Sentinel(EDefectiveProductResponse.EntranceNotFound) <==> Absent(entrances, EntranceId, idEntrance)
    ensures r == Sentinel(EDefectiveProductResponse.NotAuthorized) <==>
      !Absent(entrances, EntranceId, idEntrance) && EntranceOwner(entrances, products, idEntrance) != Some(token)
    ensures r.Row? <==> EntranceOwner(entrances, products, idEntrance) == Some(token)
    ensures r.Row? ==> r.row == NewDefectiveProduct(description, quantityProducts, idEntrance)
    ensures r != Sentinel(EDefectiveProductResponse.DefectiveProductNotFound)
  {
    match Lookup(entrances, EntranceId, idEntrance)
    case None => Sentinel(EDefectiveProductResponse.EntranceNotFound)
    case Some(e) =>
      if ProductOwner(products, e.idProduct) != Some(token) then Sentinel(EDefectiveProductResponse.NotAuthorized)
      else Row(NewDefectiveProduct(description, quantityProducts, idEntrance))
  }

  /** A report create accepts hangs off a real entrance of a real product
      of the caller's store. */
  lemma CreatedReportIsOwned(
    entrances: seq<Entrance>, products: seq<Product>, description: string, quantityProducts: int,
    idEntrance: int, token: int)
    requires CreateOutcome(entrances, products, description, quantityProducts, idEntrance, token).Row?
    ensures
      exists i, j :: 0 <= i < |entrances| && 0 <= j < |products| &&
        entrances[i].id == idEntrance &&
        products[j].id == entrances[i].idProduct && products[j].idStore == token
  {
    EntranceOwnerReachesProduct(entrances, products, idEntrance, token);
  }

  /** What update answers: DefectiveProductNotFound, then NotAuthorized
      through the product of the stored report's entrance (a missing
      entrance or product counts as not owned); otherwise the report with
      description and quantity replaced. */
  function UpdateOutcome(
    defectiveProducts: seq<DefectiveProduct>, entrances: seq<Entrance>, products: seq<Product>, id: int,
    description: string, quantityProducts: int, token: int): (r: DefectiveProductReply)
    ensures r == Sentinel(EDefectiveProductResponse.DefectiveProductNotFound) <==>
      Absent(defectiveProducts, DefectiveProductId, id)
    ensures r == Sentinel(EDefectiveProductResponse.NotAuthorized) <==>
      !Absent(defectiveProducts, DefectiveProductId, id) &&
      EntranceOwner(entrances, products, Lookup(defectiveProducts, DefectiveProductId, id).value.idEntrance)
        != Some(token)
    ensures r.Row? ==>
      var stored := Lookup(defectiveProducts, DefectiveProductId, id).value;
      EntranceOwner(entrances, products, stored.idEntrance) == Some(token) &&
      r.row == stored.(description := description, quantityProducts := quantityProducts)
    ensures r != Sentinel(EDefectiveProductResponse.EntranceNotFound)
  {
    match Lookup(defectiveProducts, DefectiveProductId, id)
    case None => Sentinel(EDefectiveProductResponse.DefectiveProductNotFound)
    case Some(d) =>
      if EntranceOwner(entrances, products, d.idEntrance) != Some(token)
      then Sentinel(EDefectiveProductResponse.NotAuthorized)
      else Row(d.(description := description, quantityProducts := quantityProducts))
  }

  /** What delete answers: the report it found, when the caller owns the
      product of the report's stored entrance (a missing entrance or
      product counts as not owned). */
  function DeleteOutcome(
    defectiveProducts: seq<DefectiveProduct>, entrances: seq<Entrance>, products: seq<Product>, id: int, token: int)
    : (r: DefectiveProductReply)
    ensures r == Sentinel(EDefectiveProductResponse.DefectiveProductNotFound) <==> Absent(defectiveProducts, DefectiveProductId, id)
    ensures r == Sentinel(EDefectiveProductResponse.NotAuthorized) <==>
      !Absent(defectiveProducts, DefectiveProductId, id) &&
      EntranceOwner(entrances, products, Lookup(defectiveProducts, DefectiveProductId, id).value.idEntrance) != Some(token)
    ensures r.Row? ==>
      IsFirst(defectiveProducts, DefectiveProductId, id, r.row) &&
      EntranceOwner(entrances, products, r.row.idEntrance) == Some(token)
    ensures r != Sentinel(EDefectiveProductResponse.EntranceNotFound)
  {
    match Lookup(defectiveProducts, DefectiveProductId, id)
    case None => Sentinel(EDefectiveProductResponse.DefectiveProductNotFound)
    case Some(d) =>
      if EntranceOwner(entrances, products, d.idEntrance) != Some(token) then Sentinel(EDefectiveProductResponse.NotAuthorized)
      else Row(d)
  }

  class InMemoryDefectiveProductRepository {
    var defectiveProducts: seq<DefectiveProduct>
    const entrances: seq<Entrance>
    const products: seq<Product>

    /** `now` is the date the seeded entrance gets. */
    constructor (now: Date)
      ensures defectiveProducts == [] && entrances == [SeedEntrance(now)] && products == [SeedProduct]
    {
      defectiveProducts := [];
      entrances := [SeedEntrance(now)];
      products := [SeedProduct];
    }

    method GetById(id: int) returns (reply: DefectiveProductReply)
      ensures reply == GetByIdOutcome(defectiveProducts, id)
    {
      var found := Find(defectiveProducts, DefectiveProductId, id);
      if found.None? {
        return Sentinel(EDefectiveProductResponse.DefectiveProductNotFound);
      }
      reply := Row(defectiveProducts[found.value]);
    }

    /** The owner of the product entrance `idEntrance` names, read the way
        the repository reads it. */
    method OwnerThrough(idEntrance: int) returns (owner: Option<int>)
      ensures owner == EntranceOwner(entrances, products, idEntrance)
    {
      var entrance := Find(entrances, EntranceId, idEntrance);
      if entrance.None? {
        return None;
      }
      var product := Find(products, ProductId, entrances[entrance.value].idProduct);
      if product.None? {
        return None;
      }
      owner := Some(products[product.value].idStore);
    }

    method Create(description: string, quantityProducts: int, idEntrance: int, token: int)
      returns (reply: DefectiveProductReply)
      modifies this
      ensures reply == CreateOutcome(entrances, products, description, quantityProducts, idEntrance, token)
      ensures defectiveProducts == old(defectiveProducts) + RowsOf(reply)
    {
      var entrance := Find(entrances, EntranceId, idEntrance);
      if entrance.None? {
        return Sentinel(EDefectiveProductResponse.EntranceNotFound);
      }
      var owner := OwnerThrough(idEntrance);
      if owner != Some(token) {
        return Sentinel(EDefectiveProductResponse.NotAuthorized);
      }
      var defectiveProduct := NewDefectiveProduct(description, quantityProducts, idEntrance);
      defectiveProducts := defectiveProducts + [defectiveProduct];
      reply := Row(defectiveProduct);
    }

    method Update(id: int, description: string, quantityProducts: int, token: int)
      returns (reply: DefectiveProductReply)
      modifies this
      ensures reply == UpdateOutcome(
        old(defectiveProducts), entrances, products, id, description, quantityProducts, token)
      ensures reply.Sentinel? ==> defectiveProducts == old(defectiveProducts)
      ensures reply.Row? ==>
        defectiveProducts ==
        old(defectiveProducts)[Find(old(defectiveProducts), DefectiveProductId, id).value := reply.row]
    {
      var found := Find(defectiveProducts, DefectiveProductId, id);
      if found.None? {
        return Sentinel(EDefectiveProductResponse.DefectiveProductNotFound);
      }
      var i := found.value;
      var owner := OwnerThrough(defectiveProducts[i].idEntrance);
      if owner != Some(token) {
        return Sentinel(EDefectiveProductResponse.NotAuthorized);
      }
      var defectiveProduct := defectiveProducts[i].(
        description := description, quantityProducts := quantityProducts);
      defectiveProducts := defectiveProducts[i := defectiveProduct];
      reply := Row(defectiveProduct);
    }

    method Delete(id: int, token: int) returns (reply: DefectiveProductReply)
      modifies this
      ensures reply == DeleteOutcome(old(defectiveProducts), entrances, products, id, token)
      ensures reply.Sentinel? ==> defectiveProducts == old(defectiveProducts)
      ensures reply.Row? ==> defectiveProducts == old(defectiveProducts)[..|old(defectiveProducts)| - 1]
    {
      var found := Find(defectiveProducts, DefectiveProductId, id);
      if found.None? {
        return Sentinel(EDefectiveProductResponse.DefectiveProductNotFound);
      }
      var defectiveProduct := defectiveProducts[found.value];
      var owner := OwnerThrough(defectiveProduct.idEntrance);
      if owner != Some(token) {
        return Sentinel(EDefectiveProductResponse.NotAuthorized);
      }
      defectiveProducts := defectiveProducts[..|defectiveProducts| - 1];
      reply := Row(defectiveProduct);
    }
  }
}
