/** The Prisma product repository. Product names are unique in the schema:
    create refuses a name already present and update refuses a name held by
    another id (renaming a product to its own name is allowed). No live
    code here writes `quantity_product_stock`. The insert sets only the
    name and the price; the id, the owning store and the stock come from the
    database and are parameters here, the id a fresh one. */
module PrismaProduct {
  import opened Wrappers
  import opened Tables
  import opened Records
  import opened Responses
  import opened Database

  type ProductReply = Reply<Product, EProductResponse>

  function GetByIdOutcome(products: seq<Product>, id: int): (r: ProductReply)
    ensures r.Sentinel? <==> Absent(products, ProductId, id)
    ensures r.Sentinel? ==> r.code == EProductResponse.ProductNotFound
    ensures r.Row? ==> IsFirst(products, ProductId, id, r.row)
  {
    match Lookup(products, ProductId, id)
    case None => Sentinel(EProductResponse.ProductNotFound)
    case Some(p) => Row(p)
  }

  /** What create answers: ProductExists when any product has the name;
      otherwise the inserted product. */
  function CreateOutcome(
    products: seq<Product>, nameProduct: string, priceProduct: real,
    newId: int, idStore: int, stock: int): (r: ProductReply)
    ensures r.Sentinel? <==> !Absent(products, ProductName, nameProduct)
    ensures r.Sentinel? ==> r.code == EProductResponse.ProductExists
    ensures r.Row? ==> r.row == Product(newId, idStore, nameProduct, priceProduct, stock)
  {
    if Lookup(products, ProductName, nameProduct).Some? then Sentinel(EProductResponse.ProductExists)
    else Row(Product(newId, idStore, nameProduct, priceProduct, stock))
  }

  /** Some product other than id `id` already has the name. */
  predicate NameTakenByOther(products: seq<Product>, nameProduct: string, id: int)
  {
    match Lookup(products, ProductName, nameProduct)
    case None => false
    case Some(holder) => holder.id != id
  }

  /** What update answers: ProductNotFound, then ProductExists when another
      product holds the name; otherwise the product with name and price
      replaced. */
  function UpdateOutcome(products: seq<Product>, id: int, nameProduct: string, priceProduct: real)
    : (r: ProductReply)
    ensures r == Sentinel(EProductResponse.ProductNotFound) <==> Absent(products, ProductId, id)
    ensures r == Sentinel(EProductResponse.ProductExists) <==>
      !Absent(products, ProductId, id) && NameTakenByOther(products, nameProduct, id)
    ensures r.Row? ==>
      r.row == Lookup(products, ProductId, id).value.(nameProduct := nameProduct, priceProduct := priceProduct)
    ensures r != Sentinel(EProductResponse.NotAuthorized) && r != Sentinel(EProductResponse.StoreNotFound)
  {
    match Lookup(products, ProductId, id)
    case None => Sentinel(EProductResponse.ProductNotFound)
    case Some(p) =>
      if NameTakenByOther(products, nameProduct, id) then Sentinel(EProductResponse.ProductExists)
      else Row(p.(nameProduct := nameProduct, priceProduct := priceProduct))
  }

  /** Keeping one's own name is never a conflict. */
  lemma RenameToOwnNameSucceeds(products: seq<Product>, id: int, priceProduct: real)
    requires Unique(products, ProductId) && Unique(products, ProductName) && !Absent(products, ProductId, id)
    ensures
      var own := Lookup(products, ProductId, id).value.nameProduct;
      UpdateOutcome(products, id, own, priceProduct).Row?
  {
    var p := Lookup(products, ProductId, id).value;
    var i := Find(products, ProductId, id).value;
    var h := Find(products, ProductName, p.nameProduct).value;
    if products[h].id != id {
      SameKeySameIndex(products, ProductName, h, i);
    }
  }

  /** What delete answers: the product it removes, or ProductNotFound. */
  function DeleteOutcome(products: seq<Product>, id: int): (r: ProductReply)
    ensures r.Sentinel? <==> Absent(products, ProductId, id)
    ensures r.Sentinel? ==> r.code == EProductResponse.ProductNotFound
    ensures r.Row? ==> IsFirst(products, ProductId, id, r.row)
  {
    GetByIdOutcome(products, id)
  }

  /** A successful update keeps names unique (ids are unique here). */
  lemma {:induction false} UpdateKeepsNamesUnique(
    products: seq<Product>, id: int, nameProduct: string, priceProduct: real)
    requires Unique(products, ProductId) && Unique(products, ProductName)
    requires UpdateOutcome(products, id, nameProduct, priceProduct).Row?
    ensures
      var i := Find(products, ProductId, id).value;
      var after := products[i := UpdateOutcome(products, id, nameProduct, priceProduct).row];
      Unique(after, ProductName) && Unique(after, ProductId)
  {
    var i := Find(products, ProductId, id).value;
    var x := UpdateOutcome(products, id, nameProduct, priceProduct).row;
    forall j | 0 <= j < |products| && j != i
      ensures ProductName(products[j]) != ProductName(x)
    {
      if ProductName(products[j]) == nameProduct {
        var f := Find(products, ProductName, nameProduct).value;
        SameKeySameIndex(products, ProductId, f, i);
        SameKeySameIndex(products, ProductName, i, j);
        assert false;
      }
    }
    UniqueAfterReplace(products, ProductName, i, x);
    SameKeyReplaceKeepsUnique(products, ProductId, i, x);
  }

  class ProductRepository {
    const db: PrismaClient

    constructor (db: PrismaClient)
      ensures this.db == db
    {
      this.db := db;
    }

    /** `findMany` without an order: the rows in some order. */
    method GetAll() returns (rows: seq<Product>)
      ensures multiset(rows) == multiset(db.products)
    {
      rows := db.products;
    }

    method GetById(id: int) returns (reply: ProductReply)
      ensures reply == GetByIdOutcome(db.products, id)
    {
      var found := Find(db.products, ProductId, id);
      if found.None? {
        return Sentinel(EProductResponse.ProductNotFound);
      }
      reply := Row(db.products[found.value]);
    }

    method Create(nameProduct: string, priceProduct: real, newId: int, idStore: int, stock: int)
      returns (reply: ProductReply)
      requires db.Valid() && Absent(db.products, ProductId, newId)
      modifies db
      ensures db.Valid()
      ensures reply == CreateOutcome(old(db.products), nameProduct, priceProduct, newId, idStore, stock)
      ensures db.products == old(db.products) + RowsOf(reply)
      ensures unchanged(db`stores, db`entrances, db`exits, db`devolutions, db`defectiveProducts)
    {
      var sameName := Find(db.products, ProductName, nameProduct);
      if sameName.Some? {
        return Sentinel(EProductResponse.ProductExists);
      }
      var product := Product(newId, idStore, nameProduct, priceProduct, stock);
      UniqueAfterAppend(db.products, ProductId, product);
      UniqueAfterAppend(db.products, ProductName, product);
      db.products := db.products + [product];
      reply := Row(product);
    }

    method Update(id: int, nameProduct: string, priceProduct: real) returns (reply: ProductReply)
      requires db.Valid()
      modifies db
      ensures db.Valid()
      ensures reply == UpdateOutcome(old(db.products), id, nameProduct, priceProduct)
      ensures reply.Sentinel? ==> db.products == old(db.products)
      ensures reply.Row? ==>
        db.products == old(db.products)[Find(old(db.products), ProductId, id).value := reply.row]
      ensures unchanged(db`stores, db`entrances, db`exits, db`devolutions, db`defectiveProducts)
    {
      var found := Find(db.products, ProductId, id);
      if found.None? {
        return Sentinel(EProductResponse.ProductNotFound);
      }
      var i := found.value;
      var sameName := Find(db.products, ProductName, nameProduct);
      if sameName.Some? && db.products[sameName.value].id != id {
        return Sentinel(EProductResponse.ProductExists);
      }
      var product := db.products[i].(nameProduct := nameProduct, priceProduct := priceProduct);
      UpdateKeepsNamesUnique(db.products, id, nameProduct, priceProduct);
      db.products := db.products[i := product];
      reply := Row(product);
    }

    method Delete(id: int) returns (reply: ProductReply)
      requires db.Valid()
      modifies db
      ensures db.Valid()
      ensures reply == DeleteOutcome(old(db.products), id)
      ensures reply.Sentinel? ==> db.products == old(db.products)
      ensures reply.Row? ==> db.products == Remove(old(db.products), Find(old(db.products), ProductId, id).value)
      ensures unchanged(db`stores, db`entrances, db`exits, db`devolutions, db`defectiveProducts)
    {
      var found := Find(db.products, ProductId, id);
      if found.None? {
        return Sentinel(EProductResponse.ProductNotFound);
      }
      var product := db.products[found.value];
      UniqueAfterRemove(db.products, ProductId, found.value);
      UniqueAfterRemove(db.products, ProductName, found.value);
      db.products := Remove(db.products, found.value);
      reply := Row(product);
    }
  }
}
