/** The Prisma store repository. Store names and emails are unique in the
    schema: create refuses either one already present; update refuses a
    name held by another id. A store may update or delete only itself (its
    id must be the token's). Login is a lookup by email. The id of a new
    store comes from the database and is a fresh-id parameter here. */
module PrismaStore {
  import opened Wrappers
  import opened Tables
  import opened Records
  import opened Responses
  import opened Database

  type StoreReply = Reply<Store, EStoreResponse>

  function GetByIdOutcome(stores: seq<Store>, id: int): (r: StoreReply)
    ensures r.Sentinel? <==> Absent(stores, StoreId, id)
    ensures r.Sentinel? ==> r.code == EStoreResponse.StoreNotFound
    ensures r.Row? ==> IsFirst(stores, StoreId, id, r.row)
  {
    match Lookup(stores, StoreId, id)
    case None => Sentinel(EStoreResponse.StoreNotFound)
    case Some(s) => Row(s)
  }

  /** What create answers: NameStoreExists, then EmailExists; otherwise the
      inserted store. */
  function CreateOutcome(stores: seq<Store>, nameStore: string, email: string, password: string, newId: int)
    : (r: StoreReply)
    ensures r == Sentinel(EStoreResponse.NameStoreExists) <==> !Absent(stores, StoreName, nameStore)
    ensures r == Sentinel(EStoreResponse.EmailExists) <==>
      Absent(stores, StoreName, nameStore) && !Absent(stores, StoreEmail, email)
    ensures r.Row? <==> Absent(stores, StoreName, nameStore) && Absent(stores, StoreEmail, email)
    ensures r.Row? ==> r.row == Store(newId, nameStore, email, password)
  {
    if Lookup(stores, StoreName, nameStore).Some? then Sentinel(EStoreResponse.NameStoreExists)
    else if Lookup(stores, StoreEmail, email).Some? then Sentinel(EStoreResponse.EmailExists)
    else Row(Store(newId, nameStore, email, password))
  }

  /** Some store other than id `id` already has the name. */
  predicate NameTakenByOther(stores: seq<Store>, nameStore: string, id: int)
  {
    match Lookup(stores, StoreName, nameStore)
    case None => false
    case Some(holder) => holder.id != id
  }

  /** What update answers: NotAuthorized before any lookup, StoreNotFound,
      then NameStoreExists when another store holds the name; otherwise the
      store with its name replaced. */
  function UpdateOutcome(stores: seq<Store>, id: int, nameStore: string, token: int): (r: StoreReply)
    ensures r == Sentinel(EStoreResponse.NotAuthorized) <==> id != token
    ensures r == Sentinel(EStoreResponse.StoreNotFound) <==> id == token && Absent(stores, StoreId, id)
    ensures r == Sentinel(EStoreResponse.NameStoreExists) <==>
      id == token && !Absent(stores, StoreId, id) && NameTakenByOther(stores, nameStore, id)
    ensures r.Row? ==> r.row == Lookup(stores, StoreId, id).value.(nameStore := nameStore)
    ensures r != Sentinel(EStoreResponse.EmailExists)
  {
    if id != token then Sentinel(EStoreResponse.NotAuthorized)
    else
      match Lookup(stores, StoreId, id)
      case None => Sentinel(EStoreResponse.StoreNotFound)
      case Some(s) =>
        if NameTakenByOther(stores, nameStore, id) then Sentinel(EStoreResponse.NameStoreExists)
        else Row(s.(nameStore := nameStore))
  }

  /** What delete answers: NotAuthorized, then StoreNotFound; otherwise the
      store it removes. */
  function DeleteOutcome(stores: seq<Store>, id: int, token: int): (r: StoreReply)
    ensures r == Sentinel(EStoreResponse.NotAuthorized) <==> id != token
    ensures r == Sentinel(EStoreResponse.StoreNotFound) <==> id == token && Absent(stores, StoreId, id)
    ensures r.Row? ==> IsFirst(stores, StoreId, id, r.row) && r.row.id == token
    ensures r != Sentinel(EStoreResponse.NameStoreExists) && r != Sentinel(EStoreResponse.EmailExists)
  {
    if id != token then Sentinel(EStoreResponse.NotAuthorized)
    else GetByIdOutcome(stores, id)
  }

  /** What login answers: the store with that email. */
  function LoginOutcome(stores: seq<Store>, email: string): (r: StoreReply)
    ensures r.Sentinel? <==> Absent(stores, StoreEmail, email)
    ensures r.Sentinel? ==> r.code == EStoreResponse.StoreNotFound
    ensures r.Row? ==> IsFirst(stores, StoreEmail, email, r.row) && r.row.email == email
  {
    match Lookup(stores, StoreEmail, email)
    case None => Sentinel(EStoreResponse.StoreNotFound)
    case Some(s) => Row(s)
  }

  /** A store that was just created can log in with its email and gets
      itself back. */
  lemma CreatedStoreCanLogIn(stores: seq<Store>, nameStore: string, email: string, password: string, newId: int)
    requires CreateOutcome(stores, nameStore, email, password, newId).Row?
    ensures
      var after := stores + RowsOf(CreateOutcome(stores, nameStore, email, password, newId));
      LoginOutcome(after, email) == Row(Store(newId, nameStore, email, password))
  {
    var x := Store(newId, nameStore, email, password);
    var after := stores + [x];
    assert FirstMatch(after, StoreEmail, email, |stores|);
    LookupOfFirst(after, StoreEmail, email, x);
  }

  /** A successful update keeps names, emails and ids unique. */
  lemma {:induction false} UpdateKeepsStoresUnique(stores: seq<Store>, id: int, nameStore: string, token: int)
    requires Unique(stores, StoreId) && Unique(stores, StoreName) && Unique(stores, StoreEmail)
    requires UpdateOutcome(stores, id, nameStore, token).Row?
    ensures
      var after := stores[Find(stores, StoreId, id).value := UpdateOutcome(stores, id, nameStore, token).row];
      Unique(after, StoreId) && Unique(after, StoreName) && Unique(after, StoreEmail)
  {
    var i := Find(stores, StoreId, id).value;
    var x := UpdateOutcome(stores, id, nameStore, token).row;
    forall j | 0 <= j < |stores| && j != i
      ensures StoreName(stores[j]) != StoreName(x)
    {
      if StoreName(stores[j]) == nameStore {
        var f := Find(stores, StoreName, nameStore).value;
        SameKeySameIndex(stores, StoreId, f, i);
        SameKeySameIndex(stores, StoreName, i, j);
        assert false;
      }
    }
    UniqueAfterReplace(stores, StoreName, i, x);
    SameKeyReplaceKeepsUnique(stores, StoreId, i, x);
    SameKeyReplaceKeepsUnique(stores, StoreEmail, i, x);
  }

  class StoreRepository {
    const db: PrismaClient

    constructor (db: PrismaClient)
      ensures this.db == db
    {
      this.db := db;
    }

    /** `findMany` ordered by ascending id. */
    method GetAll() returns (rows: seq<Store>)
      ensures SortedBy(rows, StoreId) && multiset(rows) == multiset(db.stores)
    {
      rows := SortBy(db.stores, StoreId);
    }

    method GetById(id: int) returns (reply: StoreReply)
      ensures reply == GetByIdOutcome(db.stores, id)
    {
      var found := Find(db.stores, StoreId, id);
      if found.None? {
        return Sentinel(EStoreResponse.StoreNotFound);
      }
      reply := Row(db.stores[found.value]);
    }

    method Create(nameStore: string, email: string, password: string, newId: int) returns (reply: StoreReply)
      requires db.Valid() && Absent(db.stores, StoreId, newId)
      modifies db
      ensures db.Valid()
      ensures reply == CreateOutcome(old(db.stores), nameStore, email, password, newId)
      ensures db.stores == old(db.stores) + RowsOf(reply)
      ensures unchanged(db`products, db`entrances, db`exits, db`devolutions, db`defectiveProducts)
    {
      var sameName := Find(db.stores, StoreName, nameStore);
      if sameName.Some? {
        return Sentinel(EStoreResponse.NameStoreExists);
      }
      var sameEmail := Find(db.stores, StoreEmail, email);
      if sameEmail.Some? {
        return Sentinel(EStoreResponse.EmailExists);
      }
      var store := Store(newId, nameStore, email, password);
      UniqueAfterAppend(db.stores, StoreId, store);
      UniqueAfterAppend(db.stores, StoreName, store);
      UniqueAfterAppend(db.stores, StoreEmail, store);
      db.stores := db.stores + [store];
      reply := Row(store);
    }

    method Update(id: int, nameStore: string, token: int) returns (reply: StoreReply)
      requires db.Valid()
      modifies db
      ensures db.Valid()
      ensures reply == UpdateOutcome(old(db.stores), id, nameStore, token)
      ensures reply.Sentinel? ==> db.stores == old(db.stores)
      ensures reply.Row? ==> db.stores == old(db.stores)[Find(old(db.stores), StoreId, id).value := reply.row]
      ensures unchanged(db`products, db`entrances, db`exits, db`devolutions, db`defectiveProducts)
    {
      if id != token {
        return Sentinel(EStoreResponse.NotAuthorized);
      }
      var found := Find(db.stores, StoreId, id);
      if found.None? {
        return Sentinel(EStoreResponse.StoreNotFound);
      }
      var i := found.value;
      var sameName := Find(db.stores, StoreName, nameStore);
      if sameName.Some? && db.stores[sameName.value].id != id {
        return Sentinel(EStoreResponse.NameStoreExists);
      }
      var store := db.stores[i].(nameStore := nameStore);
      UpdateKeepsStoresUnique(db.stores, id, nameStore, token);
      db.stores := db.stores[i := store];
      reply := Row(store);
    }

    method Delete(id: int, token: int) returns (reply: StoreReply)
      requires db.Valid()
      modifies db
      ensures db.Valid()
      ensures reply == DeleteOutcome(old(db.stores), id, token)
      ensures reply.Sentinel? ==> db.stores == old(db.stores)
      ensures reply.Row? ==> db.stores == Remove(old(db.stores), Find(old(db.stores), StoreId, id).value)
      ensures unchanged(db`products, db`entrances, db`exits, db`devolutions, db`defectiveProducts)
    {
      if id != token {
        return Sentinel(EStoreResponse.NotAuthorized);
      }
      var found := Find(db.stores, StoreId, id);
      if found.None? {
        return Sentinel(EStoreResponse.StoreNotFound);
      }
      var store := db.stores[found.value];
      UniqueAfterRemove(db.stores, StoreId, found.value);
      UniqueAfterRemove(db.stores, StoreName, found.value);
      UniqueAfterRemove(db.stores, StoreEmail, found.value);
      db.stores := Remove(db.stores, found.value);
      reply := Row(store);
    }

    method Login(email: string) returns (reply: StoreReply)
      ensures reply == LoginOutcome(db.stores, email)
    {
      var found := Find(db.stores, StoreEmail, email);
      if found.None? {
        return Sentinel(EStoreResponse.StoreNotFound);
      }
      reply := Row(db.stores[found.value]);
    }
  }
}
