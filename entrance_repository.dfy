/** The Prisma entrance repository. It checks only that the entrance and
    the product exist, with no ownership check, and writes only the entrance
    table: unlike the in-memory repository, create does not touch the
    product's stock. The id and the date of a new entrance come from the
    database and are parameters here, the id a fresh one. */
module PrismaEntrance {
  import opened Wrappers
  import opened Tables
  import opened Records
  import opened Responses
  import opened Database

  type EntranceReply = Reply<Entrance, EEntranceResponse>

  function GetByIdOutcome(entrances: seq<Entrance>, id: int): (r: EntranceReply)
    ensures r.Sentinel? <==> Absent(entrances, EntranceId, id)
    ensures r.Sentinel? ==> r.code == EEntranceResponse.EntranceNotFound
    ensures r.Row? ==> IsFirst(entrances, EntranceId, id, r.row)
  {
    match Lookup(entrances, EntranceId, id)
    case None => Sentinel(EEntranceResponse.EntranceNotFound)
    case Some(e) => Row(e)
  }

  /** What create answers: ProductNotFound; otherwise the inserted
      entrance. */
  function CreateOutcome(
    products: seq<Product>, supplier: string, quantityProducts: int, priceTotal: real,
    idProduct: int, newId: int, entranceDate: Date): (r: EntranceReply)
    ensures r.Sentinel? <==> Absent(products, ProductId, idProduct)
    ensures r.Sentinel? ==> r.code == EEntranceResponse.ProductNotFound
    ensures r.Row? ==> r.row == Entrance(newId, supplier, priceTotal, quantityProducts, entranceDate, idProduct)
  {
    if Lookup(products, ProductId, idProduct).None? then Sentinel(EEntranceResponse.ProductNotFound)
    else Row(Entrance(newId, supplier, priceTotal, quantityProducts, entranceDate, idProduct))
  }

  /** What update answers: EntranceNotFound, then ProductNotFound for the
      requested product; otherwise the entrance with its four fields
      replaced. */
  function UpdateOutcome(
    entrances: seq<Entrance>, products: seq<Product>, id: int, supplier: string,
    quantityProducts: int, priceTotal: real, idProduct: int): (r: EntranceReply)
    ensures r == Sentinel(EEntranceResponse.EntranceNotFound) <==> Absent(entrances, EntranceId, id)
    ensures r == Sentinel(EEntranceResponse.ProductNotFound) <==>
      !Absent(entrances, EntranceId, id) && Absent(products, ProductId, idProduct)
    ensures r.Row? ==>
      !Absent(products, ProductId, idProduct) &&
      r.row == Lookup(entrances, EntranceId, id).value.(
        supplier := supplier, quantityProducts := quantityProducts,
        priceTotal := priceTotal, idProduct := idProduct)
    ensures r != Sentinel(EEntranceResponse.NotAuthorized)
  {
    match Lookup(entrances, EntranceId, id)
    case None => Sentinel(EEntranceResponse.EntranceNotFound)
    case Some(e) =>
      if Lookup(products, ProductId, idProduct).None? then Sentinel(EEntranceResponse.ProductNotFound)
      else Row(e.(supplier := supplier, quantityProducts := quantityProducts,
                  priceTotal := priceTotal, idProduct := idProduct))
  }

  /** What delete answers: the entrance it removes, or EntranceNotFound. */
  function DeleteOutcome(entrances: seq<Entrance>, id: int): (r: EntranceReply)
    ensures r.Sentinel? <==> Absent(entrances, EntranceId, id)
    ensures r.Sentinel? ==> r.code == EEntranceResponse.EntranceNotFound
    ensures r.Row? ==> IsFirst(entrances, EntranceId, id, r.row)
  {
    GetByIdOutcome(entrances, id)
  }

  class EntranceRepository {
    const db: PrismaClient

    constructor (db: PrismaClient)
      ensures this.db == db
    {
      this.db := db;
    }

    /** `findMany` without an order: the rows in some order. */
    method GetAll() returns (rows: seq<Entrance>)
      ensures multiset(rows) == multiset(db.entrances)
    {
      rows := db.entrances;
    }

    method GetById(id: int) returns (reply: EntranceReply)
      ensures reply == GetByIdOutcome(db.entrances, id)
    {
      var found := Find(db.entrances, EntranceId, id);
      if found.None? {
        return Sentinel(EEntranceResponse.EntranceNotFound);
      }
      reply := Row(db.entrances[found.value]);
    }

    method Create(
      supplier: string, quantityProducts: int, priceTotal: real, idProduct: int,
      newId: int, entranceDate: Date)
      returns (reply: EntranceReply)
      requires db.Valid() && Absent(db.entrances, EntranceId, newId)
      modifies db
      ensures db.Valid()
      ensures reply == CreateOutcome(db.products, supplier, quantityProducts, priceTotal, idProduct, newId, entranceDate)
      ensures db.entrances == old(db.entrances) + RowsOf(reply)
      ensures unchanged(db`stores, db`products, db`exits, db`devolutions, db`defectiveProducts)
    {
      var product := Find(db.products, ProductId, idProduct);
      if product.None? {
        return Sentinel(EEntranceResponse.ProductNotFound);
      }
      var entrance := Entrance(newId, supplier, priceTotal, quantityProducts, entranceDate, idProduct);
      UniqueAfterAppend(db.entrances, EntranceId, entrance);
      db.entrances := db.entrances + [entrance];
      reply := Row(entrance);
    }

    method Update(
      id: int, supplier: string, quantityProducts: int, priceTotal: real, idProduct: int)
      returns (reply: EntranceReply)
      requires db.Valid()
      modifies db
      ensures db.Valid()
      ensures reply == UpdateOutcome(
        old(db.entrances), db.products, id, supplier, quantityProducts, priceTotal, idProduct)
      ensures reply.Sentinel? ==> db.entrances == old(db.entrances)
      ensures reply.Row? ==>
        db.entrances == old(db.entrances)[Find(old(db.entrances), EntranceId, id).value := reply.row]
      ensures unchanged(db`stores, db`products, db`exits, db`devolutions, db`defectiveProducts)
    {
      var found := Find(db.entrances, EntranceId, id);
      if found.None? {
        return Sentinel(EEntranceResponse.EntranceNotFound);
      }
      var i := found.value;
      var product := Find(db.products, ProductId, idProduct);
      if product.None? {
        return Sentinel(EEntranceResponse.ProductNotFound);
      }
      var entrance := db.entrances[i].(
        supplier := supplier, quantityProducts := quantityProducts,
        priceTotal := priceTotal, idProduct := idProduct);
      SameKeyReplaceKeepsUnique(db.entrances, EntranceId, i, entrance);
      db.entrances := db.entrances[i := entrance];
      reply := Row(entrance);
    }

    method Delete(id: int) returns (reply: EntranceReply)
      requires db.Valid()
      modifies db
      ensures db.Valid()
      ensures reply == DeleteOutcome(old(db.entrances), id)
      ensures reply.Sentinel? ==> db.entrances == old(db.entrances)
      ensures reply.Row? ==> db.entrances == Remove(old(db.entrances), Find(old(db.entrances), EntranceId, id).value)
      ensures unchanged(db`stores, db`products, db`exits, db`devolutions, db`defectiveProducts)
    {
      var found := Find(db.entrances, EntranceId, id);
      if found.None? {
        return Sentinel(EEntranceResponse.EntranceNotFound);
      }
      var entrance := db.entrances[found.value];
      UniqueAfterRemove(db.entrances, EntranceId, found.value);
      db.entrances := Remove(db.entrances, found.value);
      reply := Row(entrance);
    }
  }
}
