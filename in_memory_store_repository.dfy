/** The in-memory store repository: a list of stores, empty at first.
    Store names and emails are meant to be unique: create refuses a name or
    an email already present, and update refuses a name held by a store with
    another id, reporting it as StoreNotFound. A store may update or delete
    only itself (its id must be the token's). Every store gets id 1; delete
    removes the last store of the list. Login is a lookup by email. */
module InMemoryStore {
  import opened Wrappers
  import opened Tables
  import opened Records
  import opened Responses

  type StoreReply = Reply<Store, EStoreResponse>

  function GetByIdOutcome(stores: seq<Store>, id: int): (r: StoreReply)
    ensures r.Sentinel? <==> Absent(stores, StoreId, id)
    ensures r.Sentinel? ==> r.code == EStoreResponse.StoreNotFound
    ensures r.Row? ==> IsFirst(stores, StoreId, id, r.row)
  {
    match Lookup(stores, StoreId, id)
    case None => Sentinel(EStoreResponse.StoreNotFound)
    case Some(s) => Row(s)
  }

  function NewStore(nameStore: string, email: string, password: string): Store
  {
    Store(1, nameStore, email, password)
  }

  /** What create answers: NameStoreExists, then EmailExists; otherwise
      the new store. */
  function CreateOutcome(stores: seq<Store>, nameStore: string, email: string, password: string): (r: StoreReply)
    ensures r == Sentinel(EStoreResponse.NameStoreExists) <==> !Absent(stores, StoreName, nameStore)
    ensures r == Sentinel(EStoreResponse.EmailExists) <==>
      Absent(stores, StoreName, nameStore) && !Absent(stores, StoreEmail, email)
    ensures r.Row? <==> Absent(stores, StoreName, nameStore) && Absent(stores, StoreEmail, email)
    ensures r.Row? ==> r.row == NewStore(nameStore, email, password)
  {
    if Lookup(stores, StoreName, nameStore).Some? then Sentinel(EStoreResponse.NameStoreExists)
    else if Lookup(stores, StoreEmail, email).Some? then Sentinel(EStoreResponse.EmailExists)
    else Row(NewStore(nameStore, email, password))
  }

  /** Some store other than id `id` already has the name. */
  predicate NameTakenByOther(stores: seq<Store>, nameStore: string, id: int)
  {
    match Lookup(stores, StoreName, nameStore)
    case None => false
    case Some(holder) => holder.id != id
  }

  /** What update answers: NotAuthorized when `id` is not the token's,
      before any lookup; then StoreNotFound when the store is absent or
      (reported the same way) when another store holds the name; otherwise
      the store with its name replaced. */
  function UpdateOutcome(stores: seq<Store>, id: int, nameStore: string, token: int): (r: StoreReply)
    ensures r == Sentinel(EStoreResponse.NotAuthorized) <==> id != token
    ensures r == Sentinel(EStoreResponse.StoreNotFound) <==>
      id == token && (Absent(stores, StoreId, id) || NameTakenByOther(stores, nameStore, id))
    ensures r.Row? ==> r.row == Lookup(stores, StoreId, id).value.(nameStore := nameStore)
    ensures r != Sentinel(EStoreResponse.NameStoreExists) && r != Sentinel(EStoreResponse.EmailExists)
  {
    if id != token then Sentinel(EStoreResponse.NotAuthorized)
    else
      match Lookup(stores, StoreId, id)
      case None => Sentinel(EStoreResponse.StoreNotFound)
      case Some(s) =>
        if NameTakenByOther(stores, nameStore, id) then Sentinel(EStoreResponse.StoreNotFound)
        else Row(s.(nameStore := nameStore))
  }

  /** What delete answers: NotAuthorized, then StoreNotFound; otherwise the
      store it found. */
  function DeleteOutcome(stores: seq<Store>, id: int, token: int): (r: StoreReply)
    ensures r == Sentinel(EStoreResponse.NotAuthorized) <==> id != token
    ensures r == Sentinel(EStoreResponse.StoreNotFound) <==> id == token && Absent(stores, StoreId, id)
    ensures r.Row? ==> IsFirst(stores, StoreId, id, r.row) && r.row.id == token
    ensures r != Sentinel(EStoreResponse.NameStoreExists) && r != Sentinel(EStoreResponse.EmailExists)
  {
    if id != token then Sentinel(EStoreResponse.NotAuthorized)
    else
      match Lookup(stores, StoreId, id)
      case None => Sentinel(EStoreResponse.StoreNotFound)
      case Some(s) => Row(s)
  }

  /** What login answers: the first store with that email. */
  function LoginOutcome(stores: seq<Store>, email: string): (r: StoreReply)
    ensures r.Sentinel? <==> Absent(stores, StoreEmail, email)
    ensures r.Sentinel? ==> r.code == EStoreResponse.StoreNotFound
    ensures r.Row? ==> IsFirst(stores, StoreEmail, email, r.row) && r.row.email == email
  {
    match Lookup(stores, StoreEmail, email)
    case None => Sentinel(EStoreResponse.StoreNotFound)
    case Some(s) => Row(s)
  }

  /** A successful create keeps store names and emails unique. */
  lemma CreateKeepsStoresUnique(stores: seq<Store>, nameStore: string, email: string, password: string)
    requires Unique(stores, StoreName) && Unique(stores, StoreEmail)
    requires CreateOutcome(stores, nameStore, email, password).Row?
    ensures
      var after := stores + RowsOf(CreateOutcome(stores, nameStore, email, password));
      Unique(after, StoreName) && Unique(after, StoreEmail)
  {
    UniqueAfterAppend(stores, StoreName, NewStore(nameStore, email, password));
    UniqueAfterAppend(stores, StoreEmail, NewStore(nameStore, email, password));
  }

  /** A successful update keeps store names unique as long as store ids
      are unique, and never disturbs email uniqueness. */
  lemma {:induction false} UpdateKeepsStoresUnique(stores: seq<Store>, id: int, nameStore: string, token: int)
    requires Unique(stores, StoreId) && Unique(stores, StoreName) && Unique(stores, StoreEmail)
    requires UpdateOutcome(stores, id, nameStore, token).Row?
    ensures
      var after := stores[Find(stores, StoreId, id).value := UpdateOutcome(stores, id, nameStore, token).row];
      Unique(after, StoreName) && Unique(after, StoreEmail)
  {
    var i := Find(stores, StoreId, id).value;
    var x := UpdateOutcome(stores, id, nameStore, token).row;
    forall j | 0 <= j < |stores| && j != i
      ensures StoreName(stores[j]) != StoreName(x)
    {
      if StoreName(stores[j]) == nameStore {
        var f := Find(stores, StoreName, nameStore).value;
        SameKeySameIndex(stores, StoreId, f, i);
        SameKeySameIndex(stores, StoreName, i, j);
        assert false;
      }
    }
    UniqueAfterReplace(stores, StoreName, i, x);
    forall j | 0 <= j < |stores| && j != i
      ensures StoreEmail(stores[j]) != StoreEmail(x)
    {
      if StoreEmail(stores[j]) == StoreEmail(x) {
        SameKeySameIndex(stores, StoreEmail, i, j);
      }
    }
    UniqueAfterReplace(stores, StoreEmail, i, x);
  }

  /** Two stores sharing id 1 let update duplicate a store name. */
  lemma UpdateWithRepeatedIdsDuplicatesName()
    ensures
      var stores := [Store(1, "a", "a@x", "p"), Store(1, "b", "b@x", "p")];
      var r := UpdateOutcome(stores, 1, "b", 1);
      r.Row? && !Unique(stores[0 := r.row], StoreName)
  {
    var stores := [Store(1, "a", "a@x", "p"), Store(1, "b", "b@x", "p")];
    assert Find(stores, StoreId, 1) == Some(0);
    assert Find(stores, StoreName, "b") == Some(1);
    var r := UpdateOutcome(stores, 1, "b", 1);
    assert stores[0 := r.row][0].nameStore == stores[0 := r.row][1].nameStore;
  }

  /** Dropping the last store keeps names and emails unique. */
  lemma DeleteKeepsStoresUnique(stores: seq<Store>)
    requires |stores| > 0
    requires Unique(stores, StoreName) && Unique(stores, StoreEmail)
    ensures Unique(stores[..|stores| - 1], StoreName) && Unique(stores[..|stores| - 1], StoreEmail)
  {
    UniqueOfPrefix(stores, StoreName, |stores| - 1);
    UniqueOfPrefix(stores, StoreEmail, |stores| - 1);
  }

  class InMemoryStoreRepository {
    var stores: seq<Store>

    constructor ()
      ensures stores == []
    {
      stores := [];
    }

    method GetById(id: int) returns (reply: StoreReply)
      ensures reply == GetByIdOutcome(stores, id)
    {
      var found := Find(stores, StoreId, id);
      if found.None? {
        return Sentinel(EStoreResponse.StoreNotFound);
      }
      reply := Row(stores[found.value]);
    }

    method Create(nameStore: string, email: string, password: string) returns (reply: StoreReply)
      modifies this
      ensures reply == CreateOutcome(old(stores), nameStore, email, password)
      ensures stores == old(stores) + RowsOf(reply)
    {
      var sameName := Find(stores, StoreName, nameStore);
      if sameName.Some? {
        return Sentinel(EStoreResponse.NameStoreExists);
      }
      var sameEmail := Find(stores, StoreEmail, email);
      if sameEmail.Some? {
        return Sentinel(EStoreResponse.EmailExists);
      }
      var store := NewStore(nameStore, email, password);
      stores := stores + [store];
      reply := Row(store);
    }

    method Update(id: int, nameStore: string, token: int) returns (reply: StoreReply)
      modifies this
      ensures reply == UpdateOutcome(old(stores), id, nameStore, token)
      ensures reply.Sentinel? ==> stores == old(stores)
      ensures reply.Row? ==> stores == old(stores)[Find(old(stores), StoreId, id).value := reply.row]
    {
      if id != token {
        return Sentinel(EStoreResponse.NotAuthorized);
      }
      var found := Find(stores, StoreId, id);
      if found.None? {
        return Sentinel(EStoreResponse.StoreNotFound);
      }
      var i := found.value;
      var sameName := Find(stores, StoreName, nameStore);
      if sameName.Some? && stores[sameName.value].id != id {
        return Sentinel(EStoreResponse.StoreNotFound);
      }
      var store := stores[i].(nameStore := nameStore);
      stores := stores[i := store];
      reply := Row(store);
    }

    method Delete(id: int, token: int) returns (reply: StoreReply)
      modifies this
      ensures reply == DeleteOutcome(old(stores), id, token)
      ensures reply.Sentinel? ==> stores == old(stores)
      ensures reply.Row? ==> stores == old(stores)[..|old(stores)| - 1]
    {
      if id != token {
        return Sentinel(EStoreResponse.NotAuthorized);
      }
      var found := Find(stores, StoreId, id);
      if found.None? {
        return Sentinel(EStoreResponse.StoreNotFound);
      }
      var store := stores[found.value];
      stores := stores[..|stores| - 1];
      reply := Row(store);
    }

    method Login(email: string) returns (reply: StoreReply)
      ensures reply == LoginOutcome(stores, email)
    {
      var found := Find(stores, StoreEmail, email);
      if found.None? {
        return Sentinel(EStoreResponse.StoreNotFound);
      }
      reply := Row(stores[found.value]);
    }
  }
}
