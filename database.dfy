/** The database behind the Prisma repositories: one table per model. The
    schema's unique constraints (every `id`, `Product.name_product`,
    `Store.name_store` and `Store.email`) are the invariant `Valid`; a
    `findUnique` on one of those columns is a lookup by that key, which
    under `Valid` finds the only matching row. */
module Database {
  import opened Wrappers
  import opened Tables
  import opened Records

  class PrismaClient {
    var stores: seq<Store>
    var products: seq<Product>
    var entrances: seq<Entrance>
    var exits: seq<Exit>
    var devolutions: seq<Devolution>
    var defectiveProducts: seq<DefectiveProduct>

    /** The unique constraints of the schema. */
    predicate Valid()
      reads this
    {
      Unique(stores, StoreId) && Unique(stores, StoreName) && Unique(stores, StoreEmail) &&
      Unique(products, ProductId) && Unique(products, ProductName) &&
      Unique(entrances, EntranceId) &&
      Unique(exits, ExitId) &&
      Unique(devolutions, DevolutionId) &&
      Unique(defectiveProducts, DefectiveProductId)
    }

    constructor ()
      ensures Valid()
      ensures stores == [] && products == [] && entrances == [] && exits == []
      ensures devolutions == [] && defectiveProducts == []
    {
      stores := [];
      products := [];
      entrances := [];
      exits := [];
      devolutions := [];
      defectiveProducts := [];
    }
  }

  /** Under a unique key, the row a lookup finds is every row with that
      key: `findUnique` and `findFirst` agree. */
  lemma {:induction false} LookupFindsOnlyRow<T, K>(s: seq<T>, key: T -> K, k: K, j: int)
    requires Unique(s, key) && 0 <= j < |s| && key(s[j]) == k
    ensures Lookup(s, key, k) == Some(s[j])
  {
    var i := Find(s, key, k).value;
    SameKeySameIndex(s, key, i, j);
  }

  /** Writing a row back under its own key keeps that key unique. */
  lemma SameKeyReplaceKeepsUnique<T, K>(s: seq<T>, key: T -> K, i: nat, x: T)
    requires Unique(s, key) && i < |s| && key(x) == key(s[i])
    ensures Unique(s[i := x], key)
  {
    forall j | 0 <= j < |s| && j != i
      ensures key(s[j]) != key(x)
    {
      if key(s[j]) == key(x) {
        SameKeySameIndex(s, key, i, j);
      }
    }
    UniqueAfterReplace(s, key, i, x);
  }
}
