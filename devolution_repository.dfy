/** The Prisma devolution repository. Create checks the entrance; update
    checks the entrance before the devolution; delete only looks the row up
    and returns it, leaving the table as it was. The id and the date of a
    new devolution come from the database and are parameters here, the id a
    fresh one. */
module PrismaDevolution {
  import opened Wrappers
  import opened Tables
  import opened Records
  import opened Responses
  import opened Database

  type DevolutionReply = Reply<Devolution, EDevolutionResponse>

  function GetByIdOutcome(devolutions: seq<Devolution>, id: int): (r: DevolutionReply)
    ensures r.Sentinel? <==> Absent(devolutions, DevolutionId, id)
    ensures r.Sentinel? ==> r.code == EDevolutionResponse.DevolutionNotFound
    ensures r.Row? ==> IsFirst(devolutions, DevolutionId, id, r.row)
  {
    match Lookup(devolutions, DevolutionId, id)
    case None => Sentinel(EDevolutionResponse.DevolutionNotFound)
    case Some(d) => Row(d)
  }

  /** What create answers: EntranceNotFound; otherwise the inserted
      devolution. */
  function CreateOutcome(
    entrances: seq<Entrance>, description: string, quantityProducts: int, idEntrance: int,
    newId: int, devolutionDate: Date): (r: DevolutionReply)
    ensures r.Sentinel? <==> Absent(entrances, EntranceId, idEntrance)
    ensures r.Sentinel? ==> r.code == EDevolutionResponse.EntranceNotFound
    ensures r.Row? ==> r.row == Devolution(newId, description, quantityProducts, devolutionDate, idEntrance)
  {
    if Lookup(entrances, EntranceId, idEntrance).None? then Sentinel(EDevolutionResponse.EntranceNotFound)
    else Row(Devolution(newId, description, quantityProducts, devolutionDate, idEntrance))
  }

  /** What update answers: EntranceNotFound for the requested entrance
      first, then DevolutionNotFound; otherwise the devolution with
      description, quantity and entrance replaced. */
  function UpdateOutcome(
    devolutions: seq<Devolution>, entrances: seq<Entrance>, id: int, description: string,
    quantityProducts: int, idEntrance: int): (r: DevolutionReply)
    ensures r == Sentinel(EDevolutionResponse.EntranceNotFound) <==> Absent(entrances, EntranceId, idEntrance)
    ensures r == Sentinel(EDevolutionResponse.DevolutionNotFound) <==>
      !Absent(entrances, EntranceId, idEntrance) && Absent(devolutions, DevolutionId, id)
    ensures r.Row? ==>
      r.row == Lookup(devolutions, DevolutionId, id).value.(
        description := description, quantityProducts := quantityProducts, idEntrance := idEntrance)
    ensures r != Sentinel(EDevolutionResponse.NotAuthorized)
  {
    if Lookup(entrances, EntranceId, idEntrance).None? then Sentinel(EDevolutionResponse.EntranceNotFound)
    else
      match Lookup(devolutions, DevolutionId, id)
      case None => Sentinel(EDevolutionResponse.DevolutionNotFound)
      case Some(d) =>
        Row(d.(description := description, quantityProducts := quantityProducts, idEntrance := idEntrance))
  }

  /** A missing entrance hides a missing devolution: with both absent,
      update reports the entrance. */
  lemma EntranceReportedBeforeDevolution(
    devolutions: seq<Devolution>, entrances: seq<Entrance>, id: int, description: string,
    quantityProducts: int, idEntrance: int)
    requires Absent(entrances, EntranceId, idEntrance) && Absent(devolutions, DevolutionId, id)
    ensures UpdateOutcome(devolutions, entrances, id, description, quantityProducts, idEntrance)
      == Sentinel(EDevolutionResponse.EntranceNotFound)
  {
  }

  class DevolutionRepository {
    const db: PrismaClient

    constructor (db: PrismaClient)
      ensures this.db == db
    {
      this.db := db;
    }

    /** `findMany` without an order: the rows in some order. */
    method GetAll() returns (rows: seq<Devolution>)
      ensures multiset(rows) == multiset(db.devolutions)
    {
      rows := db.devolutions;
    }

    method GetById(id: int) returns (reply: DevolutionReply)
      ensures reply == GetByIdOutcome(db.devolutions, id)
    {
      var found := Find(db.devolutions, DevolutionId, id);
      if found.None? {
        return Sentinel(EDevolutionResponse.DevolutionNotFound);
      }
      reply := Row(db.devolutions[found.value]);
    }

    method Create(description: string, quantityProducts: int, idEntrance: int, newId: int, devolutionDate: Date)
      returns (reply: DevolutionReply)
      requires db.Valid() && Absent(db.devolutions, DevolutionId, newId)
      modifies db
      ensures db.Valid()
      ensures reply == CreateOutcome(db.entrances, description, quantityProducts, idEntrance, newId, devolutionDate)
      ensures db.devolutions == old(db.devolutions) + RowsOf(reply)
      ensures unchanged(db`stores, db`products, db`entrances, db`exits, db`defectiveProducts)
    {
      var entrance := Find(db.entrances, EntranceId, idEntrance);
      if entrance.None? {
        return Sentinel(EDevolutionResponse.EntranceNotFound);
      }
      var devolution := Devolution(newId, description, quantityProducts, devolutionDate, idEntrance);
      UniqueAfterAppend(db.devolutions, DevolutionId, devolution);
      db.devolutions := db.devolutions + [devolution];
      reply := Row(devolution);
    }

    method Update(id: int, description: string, quantityProducts: int, idEntrance: int)
      returns (reply: DevolutionReply)
      requires db.Valid()
      modifies db
      ensures db.Valid()
      ensures reply == UpdateOutcome(old(db.devolutions), db.entrances, id, description, quantityProducts, idEntrance)
      ensures reply.Sentinel? ==> db.devolutions == old(db.devolutions)
      ensures reply.Row? ==>
        db.devolutions == old(db.devolutions)[Find(old(db.devolutions), DevolutionId, id).value := reply.row]
      ensures unchanged(db`stores, db`products, db`entrances, db`exits, db`defectiveProducts)
    {
      var entrance := Find(db.entrances, EntranceId, idEntrance);
      if entrance.None? {
        return Sentinel(EDevolutionResponse.EntranceNotFound);
      }
      var found := Find(db.devolutions, DevolutionId, id);
      if found.None? {
        return Sentinel(EDevolutionResponse.DevolutionNotFound);
      }
      var i := found.value;
      var devolution := db.devolutions[i].(
        description := description, quantityProducts := quantityProducts, idEntrance := idEntrance);
      SameKeyReplaceKeepsUnique(db.devolutions, DevolutionId, i, devolution);
      db.devolutions := db.devolutions[i := devolution];
      reply := Row(devolution);
    }

    /** Looks the devolution up and returns it; nothing is deleted. */
    method Delete(id: int) returns (reply: DevolutionReply)
      ensures reply.Sentinel? <==> Absent(db.devolutions, DevolutionId, id)
      ensures reply.Sentinel? ==> reply.code == EDevolutionResponse.DevolutionNotFound
      ensures reply.Row? ==> IsFirst(db.devolutions, DevolutionId, id, reply.row)
      ensures reply == GetByIdOutcome(db.devolutions, id)
    {
      var found := Find(db.devolutions, DevolutionId, id);
      if found.None? {
        return Sentinel(EDevolutionResponse.DevolutionNotFound);
      }
      reply := Row(db.devolutions[found.value]);
    }
  }
}
