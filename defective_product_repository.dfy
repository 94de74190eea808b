/** The Prisma defective-product repository. Create checks the entrance;
    update checks the entrance before the record; delete removes the row.
    The id of a new record comes from the database and is a fresh-id
    parameter here. */
module PrismaDefectiveProduct {
  import opened Wrappers
  import opened Tables
  import opened Records
  import opened Responses
  import opened Database

  type DefectiveProductReply = Reply<DefectiveProduct, EDefectiveProductResponse>

  function GetByIdOutcome(defectiveProducts: seq<DefectiveProduct>, id: int): (r: DefectiveProductReply)
    ensures r.Sentinel? <==> Absent(defectiveProducts, DefectiveProductId, id)
    ensures r.Sentinel? ==> r.code == EDefectiveProductResponse.DefectiveProductNotFound
    ensures r.Row? ==> IsFirst(defectiveProducts, DefectiveProductId, id, r.row)
  {
    match Lookup(defectiveProducts, DefectiveProductId, id)
    case None => Sentinel(EDefectiveProductResponse.DefectiveProductNotFound)
    case Some(d) => Row(d)
  }

  /** What create answers: EntranceNotFound; otherwise the inserted
      record. */
  function CreateOutcome(
    entrances: seq<Entrance>, description: string, quantityProducts: int, idEntrance: int, newId: int)
    : (r: DefectiveProductReply)
    ensures r.Sentinel? <==> Absent(entrances, EntranceId, idEntrance)
    ensures r.Sentinel? ==> r.code == EDefectiveProductResponse.EntranceNotFound
    ensures r.Row? ==> r.row == DefectiveProduct(newId, description, quantityProducts, idEntrance)
  {
    if Lookup(entrances, EntranceId, idEntrance).None? then Sentinel(EDefectiveProductResponse.EntranceNotFound)
    else Row(DefectiveProduct(newId, description, quantityProducts, idEntrance))
  }

  /** What update answers: EntranceNotFound for the requested entrance
      first, then DefectiveProductNotFound; otherwise the record with
      description, quantity and entrance replaced. */
  function UpdateOutcome(
    defectiveProducts: seq<DefectiveProduct>, entrances: seq<Entrance>, id: int, description: string,
    quantityProducts: int, idEntrance: int): (r: DefectiveProductReply)
    ensures r == Sentinel(EDefectiveProductResponse.EntranceNotFound) <==> Absent(entrances, EntranceId, idEntrance)
    ensures r == Sentinel(EDefectiveProductResponse.DefectiveProductNotFound) <==>
      !Absent(entrances, EntranceId, idEntrance) && Absent(defectiveProducts, DefectiveProductId, id)
    ensures r.Row? ==>
      r.row == Lookup(defectiveProducts, DefectiveProductId, id).value.(
        description := description, quantityProducts := quantityProducts, idEntrance := idEntrance)
    ensures r != Sentinel(EDefectiveProductResponse.NotAuthorized)
  {
    if Lookup(entrances, EntranceId, idEntrance).None? then Sentinel(EDefectiveProductResponse.EntranceNotFound)
    else
      match Lookup(defectiveProducts, DefectiveProductId, id)
      case None => Sentinel(EDefectiveProductResponse.DefectiveProductNotFound)
      case Some(d) =>
        Row(d.(description := description, quantityProducts := quantityProducts, idEntrance := idEntrance))
  }

  /** What delete answers: the record it removes, or
      DefectiveProductNotFound. */
  function DeleteOutcome(defectiveProducts: seq<DefectiveProduct>, id: int): (r: DefectiveProductReply)
    ensures r.Sentinel? <==> Absent(defectiveProducts, DefectiveProductId, id)
    ensures r.Sentinel? ==> r.code == EDefectiveProductResponse.DefectiveProductNotFound
    ensures r.Row? ==> IsFirst(defectiveProducts, DefectiveProductId, id, r.row)
  {
    GetByIdOutcome(defectiveProducts, id)
  }

  class DefectiveProductRepository {
    const db: PrismaClient

    constructor (db: PrismaClient)
      ensures this.db == db
    {
      this.db := db;
    }

    /** `findMany` ordered by ascending id. */
    method GetAll() returns (rows: seq<DefectiveProduct>)
      ensures SortedBy(rows, DefectiveProductId) && multiset(rows) == multiset(db.defectiveProducts)
    {
      rows := SortBy(db.defectiveProducts, DefectiveProductId);
    }

    method GetById(id: int) returns (reply: DefectiveProductReply)
      ensures reply == GetByIdOutcome(db.defectiveProducts, id)
    {
      var found := Find(db.defectiveProducts, DefectiveProductId, id);
      if found.None? {
        return Sentinel(EDefectiveProductResponse.DefectiveProductNotFound);
      }
      reply := Row(db.defectiveProducts[found.value]);
    }

    method Create(description: string, quantityProducts: int, idEntrance: int, newId: int)
      returns (reply: DefectiveProductReply)
      requires db.Valid() && Absent(db.defectiveProducts, DefectiveProductId, newId)
      modifies db
      ensures db.Valid()
      ensures reply == CreateOutcome(db.entrances, description, quantityProducts, idEntrance, newId)
      ensures db.defectiveProducts == old(db.defectiveProducts) + RowsOf(reply)
      ensures unchanged(db`stores, db`products, db`entrances, db`exits, db`devolutions)
    {
      var entrance := Find(db.entrances, EntranceId, idEntrance);
      if entrance.None? {
        return Sentinel(EDefectiveProductResponse.EntranceNotFound);
      }
      var record := DefectiveProduct(newId, description, quantityProducts, idEntrance);
      UniqueAfterAppend(db.defectiveProducts, DefectiveProductId, record);
      db.defectiveProducts := db.defectiveProducts + [record];
      reply := Row(record);
    }

    method Update(id: int, description: string, quantityProducts: int, idEntrance: int)
      returns (reply: DefectiveProductReply)
      requires db.Valid()
      modifies db
      ensures db.Valid()
      ensures reply == UpdateOutcome(
        old(db.defectiveProducts), db.entrances, id, description, quantityProducts, idEntrance)
      ensures reply.Sentinel? ==> db.defectiveProducts == old(db.defectiveProducts)
      ensures reply.Row? ==>
        db.defectiveProducts ==
        old(db.defectiveProducts)[Find(old(db.defectiveProducts), DefectiveProductId, id).value := reply.row]
      ensures unchanged(db`stores, db`products, db`entrances, db`exits, db`devolutions)
    {
      var entrance := Find(db.entrances, EntranceId, idEntrance);
      if entrance.None? {
        return Sentinel(EDefectiveProductResponse.EntranceNotFound);
      }
      var found := Find(db.defectiveProducts, DefectiveProductId, id);
      if found.None? {
        return Sentinel(EDefectiveProductResponse.DefectiveProductNotFound);
      }
      var i := found.value;
      var record := db.defectiveProducts[i].(
        description := description, quantityProducts := quantityProducts, idEntrance := idEntrance);
      SameKeyReplaceKeepsUnique(db.defectiveProducts, DefectiveProductId, i, record);
      db.defectiveProducts := db.defectiveProducts[i := record];
      reply := Row(record);
    }

    method Delete(id: int) returns (reply: DefectiveProductReply)
      requires db.Valid()
      modifies db
      ensures db.Valid()
      ensures reply == DeleteOutcome(old(db.defectiveProducts), id)
      ensures reply.Sentinel? ==> db.defectiveProducts == old(db.defectiveProducts)
      ensures reply.Row? ==>
        db.defectiveProducts ==
        Remove(old(db.defectiveProducts), Find(old(db.defectiveProducts), DefectiveProductId, id).value)
      ensures unchanged(db`stores, db`products, db`entrances, db`exits, db`devolutions)
    {
      var found := Find(db.defectiveProducts, DefectiveProductId, id);
      if found.None? {
        return Sentinel(EDefectiveProductResponse.DefectiveProductNotFound);
      }
      var record := db.defectiveProducts[found.value];
      UniqueAfterRemove(db.defectiveProducts, DefectiveProductId, found.value);
      db.defectiveProducts := Remove(db.defectiveProducts, found.value);
      reply := Row(record);
    }
  }
}
