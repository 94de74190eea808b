/** The Prisma exit repository. It checks that the product exists and that
    its stored stock covers the quantity, with no ownership check, and
    writes only the exit table: the product's stock is never decremented.
    The id and the date of a new exit come from the database (autoincrement
    and `now()`); here they are parameters, the id a fresh one. */
module PrismaExit {
  import opened Wrappers
  import opened Tables
  import opened Records
  import opened Responses
  import opened Ownership
  import opened Database

  type ExitReply = Reply<Exit, EExitResponse>

  function GetByIdOutcome(exits: seq<Exit>, id: int): (r: ExitReply)
    ensures r.Sentinel? <==> Absent(exits, ExitId, id)
    ensures r.Sentinel? ==> r.code == EExitResponse.ExitNotFound
    ensures r.Row? ==> IsFirst(exits, ExitId, id, r.row)
  {
    match Lookup(exits, ExitId, id)
    case None => Sentinel(EExitResponse.ExitNotFound)
    case Some(e) => Row(e)
  }

  /** What create answers: ProductNotFound, then NoStock when the stored
      stock minus the quantity is negative; otherwise the inserted exit. */
  function CreateOutcome(
    products: seq<Product>, description: string, quantityProducts: int, priceTotal: real,
    idProduct: int, newId: int, exitDate: Date): (r: ExitReply)
    ensures r == Sentinel(EExitResponse.ProductNotFound) <==> Absent(products, ProductId, idProduct)
    ensures r == Sentinel(EExitResponse.NoStock) <==>
      StockOf(products, idProduct).Some? && StockOf(products, idProduct).value - quantityProducts < 0
    ensures r.Row? <==>
      StockOf(products, idProduct).Some? && StockOf(products, idProduct).value - quantityProducts >= 0
    ensures r.Row? ==> r.row == Exit(newId, description, priceTotal, quantityProducts, exitDate, idProduct)
    ensures r != Sentinel(EExitResponse.ExitNotFound) && r != Sentinel(EExitResponse.NotAuthorized)
  {
    match Lookup(products, ProductId, idProduct)
    case None => Sentinel(EExitResponse.ProductNotFound)
    case Some(p) =>
      if p.quantityProductStock - quantityProducts < 0 then Sentinel(EExitResponse.NoStock)
      else Row(Exit(newId, description, priceTotal, quantityProducts, exitDate, idProduct))
  }

  /** What update answers: ExitNotFound, then ProductNotFound for the
      requested product, then NoStock against that product's stored stock;
      otherwise the exit with description, quantity, price and product
      replaced. */
  function UpdateOutcome(
    exits: seq<Exit>, products: seq<Product>, id: int, description: string,
    quantityProducts: int, priceTotal: real, idProduct: int): (r: ExitReply)
    ensures r == Sentinel(EExitResponse.ExitNotFound) <==> Absent(exits, ExitId, id)
    ensures r == Sentinel(EExitResponse.ProductNotFound) <==>
      !Absent(exits, ExitId, id) && Absent(products, ProductId, idProduct)
    ensures r == Sentinel(EExitResponse.NoStock) <==>
      !Absent(exits, ExitId, id) &&
      StockOf(products, idProduct).Some? && StockOf(products, idProduct).value - quantityProducts < 0
    ensures r.Row? ==>
      StockOf(products, idProduct).value - quantityProducts >= 0 &&
      r.row == Lookup(exits, ExitId, id).value.(
        description := description, quantityProducts := quantityProducts,
        priceTotal := priceTotal, idProduct := idProduct)
    ensures r != Sentinel(EExitResponse.NotAuthorized)
  {
    match Lookup(exits, ExitId, id)
    case None => Sentinel(EExitResponse.ExitNotFound)
    case Some(e) =>
      match Lookup(products, ProductId, idProduct)
      case None => Sentinel(EExitResponse.ProductNotFound)
      case Some(p) =>
        if p.quantityProductStock - quantityProducts < 0 then Sentinel(EExitResponse.NoStock)
        else Row(e.(description := description, quantityProducts := quantityProducts,
                    priceTotal := priceTotal, idProduct := idProduct))
  }

  /** What delete answers: the exit it removes, or ExitNotFound. */
  function DeleteOutcome(exits: seq<Exit>, id: int): (r: ExitReply)
    ensures r.Sentinel? <==> Absent(exits, ExitId, id)
    ensures r.Sentinel? ==> r.code == EExitResponse.ExitNotFound
    ensures r.Row? ==> IsFirst(exits, ExitId, id, r.row)
  {
    GetByIdOutcome(exits, id)
  }

  class ExitRepository {
    const db: PrismaClient

    constructor (db: PrismaClient)
      ensures this.db == db
    {
      this.db := db;
    }

    /** `findMany` ordered by ascending id. */
    method GetAll() returns (rows: seq<Exit>)
      ensures SortedBy(rows, ExitId) && multiset(rows) == multiset(db.exits)
    {
      rows := SortBy(db.exits, ExitId);
    }

    method GetById(id: int) returns (reply: ExitReply)
      ensures reply == GetByIdOutcome(db.exits, id)
    {
      var found := Find(db.exits, ExitId, id);
      if found.None? {
        return Sentinel(EExitResponse.ExitNotFound);
      }
      reply := Row(db.exits[found.value]);
    }

    method Create(
      description: string, quantityProducts: int, priceTotal: real, idProduct: int,
      newId: int, exitDate: Date)
      returns (reply: ExitReply)
      requires db.Valid() && Absent(db.exits, ExitId, newId)
      modifies db
      ensures db.Valid()
      ensures reply == CreateOutcome(db.products, description, quantityProducts, priceTotal, idProduct, newId, exitDate)
      ensures db.exits == old(db.exits) + RowsOf(reply)
      ensures unchanged(db`stores, db`products, db`entrances, db`devolutions, db`defectiveProducts)
    {
      var found := Find(db.products, ProductId, idProduct);
      if found.None? {
        return Sentinel(EExitResponse.ProductNotFound);
      }
      if db.products[found.value].quantityProductStock - quantityProducts < 0 {
        return Sentinel(EExitResponse.NoStock);
      }
      var exit := Exit(newId, description, priceTotal, quantityProducts, exitDate, idProduct);
      UniqueAfterAppend(db.exits, ExitId, exit);
      db.exits := db.exits + [exit];
      reply := Row(exit);
    }

    method Update(
      id: int, description: string, quantityProducts: int, priceTotal: real, idProduct: int)
      returns (reply: ExitReply)
      requires db.Valid()
      modifies db
      ensures db.Valid()
      ensures reply == UpdateOutcome(old(db.exits), db.products, id, description, quantityProducts, priceTotal, idProduct)
      ensures reply.Sentinel? ==> db.exits == old(db.exits)
      ensures reply.Row? ==> db.exits == old(db.exits)[Find(old(db.exits), ExitId, id).value := reply.row]
      ensures unchanged(db`stores, db`products, db`entrances, db`devolutions, db`defectiveProducts)
    {
      var found := Find(db.exits, ExitId, id);
      if found.None? {
        return Sentinel(EExitResponse.ExitNotFound);
      }
      var i := found.value;
      var product := Find(db.products, ProductId, idProduct);
      if product.None? {
        return Sentinel(EExitResponse.ProductNotFound);
      }
      if db.products[product.value].quantityProductStock - quantityProducts < 0 {
        return Sentinel(EExitResponse.NoStock);
      }
      var exit := db.exits[i].(
        description := description, quantityProducts := quantityProducts,
        priceTotal := priceTotal, idProduct := idProduct);
      SameKeyReplaceKeepsUnique(db.exits, ExitId, i, exit);
      db.exits := db.exits[i := exit];
      reply := Row(exit);
    }

    method Delete(id: int) returns (reply: ExitReply)
      requires db.Valid()
      modifies db
      ensures db.Valid()
      ensures reply == DeleteOutcome(old(db.exits), id)
      ensures reply.Sentinel? ==> db.exits == old(db.exits)
      ensures reply.Row? ==> db.exits == Remove(old(db.exits), Find(old(db.exits), ExitId, id).value)
      ensures unchanged(db`stores, db`products, db`entrances, db`devolutions, db`defectiveProducts)
    {
      var found := Find(db.exits, ExitId, id);
      if found.None? {
        return Sentinel(EExitResponse.ExitNotFound);
      }
      var exit := db.exits[found.value];
      UniqueAfterRemove(db.exits, ExitId, found.value);
      db.exits := Remove(db.exits, found.value);
      reply := Row(exit);
    }
  }

  /** After a successful delete no exit with that id is left. */
  lemma DeleteRemovesTheId(exits: seq<Exit>, id: int)
    requires Unique(exits, ExitId) && DeleteOutcome(exits, id).Row?
    ensures Absent(Remove(exits, Find(exits, ExitId, id).value), ExitId, id)
  {
    var i := Find(exits, ExitId, id).value;
    var r := Remove(exits, i);
    forall j | 0 <= j < |r| ensures ExitId(r[j]) != id {
      var j' := if j < i then j else j + 1;
      assert r[j] == exits[j'];
      if ExitId(exits[j']) == id {
        SameKeySameIndex(exits, ExitId, i, j');
      }
    }
  }
}
