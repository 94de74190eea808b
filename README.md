# Stock-control API: repositories and services

A model of the inventory back end of `api-control-stock`. Stores own
products. Products receive entrances (restocks) and exits (sales). Entrances
carry devolution and defective-product reports.

The model covers three layers:

- **Repositories.** There are two kinds.
  - The six Prisma repositories read and write one shared database, the
    `Database.PrismaClient` class. Its six tables are `seq` fields that the
    repository methods reassign. Its unique constraints are
    `PrismaClient.Valid`.
  - The six in-memory repositories are classes whose arrays are `seq`
    fields. Each starts from the seed rows the source hard-codes.
- **Use-case services.** These are one class per use case, with an
  `Execute` method. The model binds them to the in-memory repositories,
  which implement the repository contracts of `src/api/interfaces/I*.ts`
  that the services are written against. This is a modelling choice: the
  source's constructors and controllers bind the Prisma repositories (see
  "## Left out"). The devolution update is also given as written, on the
  Prisma repository (see "## Findings").
- **Legacy services.** These are the older `ProductService`,
  `EntranceService`, `ExitService`, `DevolutionService` and
  `DefectiveProductService` classes, built on the Prisma repositories.

Every repository operation has a pure `…Outcome` function. It states
declaratively which sentinel (`EProductResponse.ProductExists`,
`EExitResponse.NoStock`, …) or row the operation answers. The method is
proved to return exactly that reply, and its `ensures` gives the table's
whole new state:

- an append for create;
- the found row replaced for update;
- the found row removed for a Prisma delete;
- the last row popped for an in-memory delete.

The `ensures` also says that every other table is unchanged.

Every service is modelled in two parts. The first is its request check:
either a `zod` schema, which reports the message of the first field that
fails, or the legacy product service's truthiness tests. The second is a
pure `…Result` function, which maps the repository reply to an
`Either<AppError, …>` the way the service's `if` chain does. The service
method is proved to answer the check's failure, or the mapped reply of the
repository outcome. Error messages are strings built as `prefix + id`.
`Messages.WithId` proves the id can be read back from the message, so
messages naming different ids are different.

Some behaviour of the source is modelled as written:

- The in-memory entrance create writes `stock += stock + quantity`, that is
  `2·stock + quantity` (in-memory-entrance-repository.ts:47-48).
- The in-memory deletes pop the last element rather than the one they found.
- The in-memory product delete writes nothing.
- Every in-memory create uses id 1.
- The legacy product service answers a missing product with a conflict.
- `DefectiveProductService.ts` reuses other entities' words in three messages:
  - line 44: "Nenhuma produto defeituoso foi encontrada";
  - lines 160 and 191: "Nenhuma devolução".
Two real slips are under "## Findings", each modelled both as written and
corrected:

- the legacy entrance service's update names the wrong id in a message;
- the devolution update use case is built on the Prisma repository, whose
  `update` takes the entrance id where the use case passes the caller's
  store id (update-devolution-service.ts:12 and 53-58).

Shared modules:

- `Wrappers`: `Option`, `Reply`, `RowsOf`.
- `Tables`: first-match lookup, `Find`, `Remove`, uniqueness, and a sort
  for the ordered `findMany`.
- `Decimal`: rendering a number in decimal and reading it back.
- `Records`: the entities of the Prisma schema.
- `Responses`: the sentinel enums.
- `Errors`: the application errors `AppError` and `Either`.
- `Validation`: `zod` fields and `FirstIssue`.
- `Schemas`: the id schema shared by every service.
- `Messages`: `WithId`, `WithName`.
- `Ownership`: the chain from a row to its store, which the in-memory
  repositories check against the caller's token.

## Model

| member | source | states |
|---|---|---|
| PrismaDefectiveProduct.GetByIdOutcome | src/api/repositories/DefectiveProductRepository.ts:16-30 | the first report with the id, or DefectiveProductNotFound exactly when none has it |
| PrismaDefectiveProduct.CreateOutcome | src/api/repositories/DefectiveProductRepository.ts:32-56 | EntranceNotFound exactly when no entrance has the id; otherwise the new report carries the given fields |
| PrismaDefectiveProduct.UpdateOutcome | src/api/repositories/DefectiveProductRepository.ts:58-100 | EntranceNotFound when the requested entrance is missing, before the report is looked up; then DefectiveProductNotFound; otherwise the stored report with description, quantity and entrance replaced |
| PrismaDefectiveProduct.DeleteOutcome | src/api/repositories/DefectiveProductRepository.ts:102-122 | the report with the id, or DefectiveProductNotFound exactly when there is none |
| PrismaDefectiveProduct.DefectiveProductRepository.constructor | src/api/repositories/DefectiveProductRepository.ts:1-5 | the repository works on the given database |
| PrismaDefectiveProduct.DefectiveProductRepository.GetAll | src/api/repositories/DefectiveProductRepository.ts:6-14 | the rows, sorted by ascending id, are a permutation of the table |
| PrismaDefectiveProduct.DefectiveProductRepository.GetById | src/api/repositories/DefectiveProductRepository.ts:16-30 | answers GetByIdOutcome of the table |
| PrismaDefectiveProduct.DefectiveProductRepository.Create | src/api/repositories/DefectiveProductRepository.ts:32-56 | answers CreateOutcome; the table gains exactly the new row; the unique constraints hold; other tables are unchanged |
| PrismaDefectiveProduct.DefectiveProductRepository.Update | src/api/repositories/DefectiveProductRepository.ts:58-100 | answers UpdateOutcome; on success only the found row is replaced; constraints hold |
| PrismaDefectiveProduct.DefectiveProductRepository.Delete | src/api/repositories/DefectiveProductRepository.ts:102-122 | answers DeleteOutcome; on success exactly the found row is removed |
| PrismaDevolution.GetByIdOutcome | src/api/repositories/DevolutionRepository.ts:12-24 | the first devolution with the id, or DevolutionNotFound exactly when none has it |
| PrismaDevolution.CreateOutcome | src/api/repositories/DevolutionRepository.ts:26-50 | EntranceNotFound exactly when the entrance is missing; otherwise the new devolution with the given fields |
| PrismaDevolution.UpdateOutcome | src/api/repositories/DevolutionRepository.ts:52-92 | EntranceNotFound first, then DevolutionNotFound, each exactly when the earlier check passed; otherwise the devolution with three fields replaced |
| PrismaDevolution.EntranceReportedBeforeDevolution | src/api/repositories/DevolutionRepository.ts:52-92 | with both entrance and devolution missing, update reports the entrance |
| PrismaDevolution.DevolutionRepository.constructor | src/api/repositories/DevolutionRepository.ts:1-5 | the repository works on the given database |
| PrismaDevolution.DevolutionRepository.GetAll | src/api/repositories/DevolutionRepository.ts:6-10 | the rows are a permutation of the table |
| PrismaDevolution.DevolutionRepository.GetById | src/api/repositories/DevolutionRepository.ts:12-24 | answers GetByIdOutcome |
| PrismaDevolution.DevolutionRepository.Create | src/api/repositories/DevolutionRepository.ts:26-50 | answers CreateOutcome; the table gains exactly its row; constraints hold |
| PrismaDevolution.DevolutionRepository.Update | src/api/repositories/DevolutionRepository.ts:52-92 | answers UpdateOutcome; on success only the found row is replaced |
| PrismaDevolution.DevolutionRepository.Delete | src/api/repositories/DevolutionRepository.ts:94-106 | answers the lookup of the id and leaves every table as it was (the method only reads) |
| PrismaEntrance.GetByIdOutcome | src/api/repositories/EntranceRepository.ts:17-33 | the first entrance with the id, or EntranceNotFound exactly when none has it |
| PrismaEntrance.CreateOutcome | src/api/repositories/EntranceRepository.ts:35-61 | ProductNotFound exactly when the product is missing; otherwise the new entrance |
| PrismaEntrance.UpdateOutcome | src/api/repositories/EntranceRepository.ts:63-103 | EntranceNotFound, then ProductNotFound for the requested product; otherwise the entrance with four fields replaced |
| PrismaEntrance.DeleteOutcome | src/api/repositories/EntranceRepository.ts:105-123 | the entrance with the id, or EntranceNotFound exactly when none |
| PrismaEntrance.EntranceRepository.constructor | src/api/repositories/EntranceRepository.ts:1-5 | the repository works on the given database |
| PrismaEntrance.EntranceRepository.GetAll | src/api/repositories/EntranceRepository.ts:6-15 | the rows are a permutation of the table |
| PrismaEntrance.EntranceRepository.GetById | src/api/repositories/EntranceRepository.ts:17-33 | answers GetByIdOutcome |
| PrismaEntrance.EntranceRepository.Create | src/api/repositories/EntranceRepository.ts:35-61 | answers CreateOutcome; the table gains exactly its row; constraints hold |
| PrismaEntrance.EntranceRepository.Update | src/api/repositories/EntranceRepository.ts:63-103 | answers UpdateOutcome; on success only the found row is replaced |
| PrismaEntrance.EntranceRepository.Delete | src/api/repositories/EntranceRepository.ts:105-123 | answers DeleteOutcome; on success exactly the found row is removed |
| PrismaExit.GetByIdOutcome | src/api/repositories/ExitRepository.ts:16-28 | the first exit with the id, or ExitNotFound exactly when none |
| PrismaExit.CreateOutcome | src/api/repositories/ExitRepository.ts:30-60 | ProductNotFound; then NoStock exactly when the stored stock minus the quantity is negative; otherwise the new exit |
| PrismaExit.UpdateOutcome | src/api/repositories/ExitRepository.ts:62-108 | ExitNotFound, then ProductNotFound for the requested product, then NoStock against that product's stock; otherwise the exit with four fields replaced |
| PrismaExit.DeleteOutcome | src/api/repositories/ExitRepository.ts:110-128 | the exit with the id, or ExitNotFound exactly when none |
| PrismaExit.DeleteRemovesTheId | src/api/repositories/ExitRepository.ts:110-128 | after a successful delete under unique ids, no exit with that id is left |
| PrismaExit.ExitRepository.constructor | src/api/repositories/ExitRepository.ts:1-5 | the repository works on the given database |
| PrismaExit.ExitRepository.GetAll | src/api/repositories/ExitRepository.ts:6-14 | the rows are sorted by id and a permutation of the table |
| PrismaExit.ExitRepository.GetById | src/api/repositories/ExitRepository.ts:16-28 | answers GetByIdOutcome |
| PrismaExit.ExitRepository.Create | src/api/repositories/ExitRepository.ts:30-60 | answers CreateOutcome; the table gains exactly its row |
| PrismaExit.ExitRepository.Update | src/api/repositories/ExitRepository.ts:62-108 | answers UpdateOutcome; on success only the found row is replaced |
| PrismaExit.ExitRepository.Delete | src/api/repositories/ExitRepository.ts:110-128 | answers DeleteOutcome; on success exactly the found row is removed |
| PrismaProduct.GetByIdOutcome | src/api/repositories/ProductRepository.ts:19-37 | the first product with the id, or ProductNotFound exactly when none |
| PrismaProduct.CreateOutcome | src/api/repositories/ProductRepository.ts:39-61 | ProductExists exactly when some product has the name; otherwise the new product |
| PrismaProduct.UpdateOutcome | src/api/repositories/ProductRepository.ts:63-99 | ProductNotFound, then ProductExists exactly when another product holds the name; otherwise the product with name and price replaced |
| PrismaProduct.RenameToOwnNameSucceeds | src/api/repositories/ProductRepository.ts:63-99 | an existing product may always be updated with its own name |
| PrismaProduct.UpdateKeepsNamesUnique | src/api/repositories/ProductRepository.ts:63-99 | a successful update keeps names and ids unique |
| PrismaProduct.DeleteOutcome | src/api/repositories/ProductRepository.ts:127-145 | the product with the id, or ProductNotFound exactly when none |
| PrismaProduct.ProductRepository.constructor | src/api/repositories/ProductRepository.ts:1-5 | the repository works on the given database |
| PrismaProduct.ProductRepository.GetAll | src/api/repositories/ProductRepository.ts:6-17 | the rows are a permutation of the table |
| PrismaProduct.ProductRepository.GetById | src/api/repositories/ProductRepository.ts:19-37 | answers GetByIdOutcome |
| PrismaProduct.ProductRepository.Create | src/api/repositories/ProductRepository.ts:39-61 | answers CreateOutcome; the table gains exactly its row |
| PrismaProduct.ProductRepository.Update | src/api/repositories/ProductRepository.ts:63-99 | answers UpdateOutcome; on success only the found row is replaced |
| PrismaProduct.ProductRepository.Delete | src/api/repositories/ProductRepository.ts:127-145 | answers DeleteOutcome; on success exactly the found row is removed |
| PrismaStore.GetByIdOutcome | src/api/repositories/StoreRepository.ts:19-34 | the first store with the id, or StoreNotFound exactly when none |
| PrismaStore.CreateOutcome | src/api/repositories/StoreRepository.ts:36-73 | NameStoreExists, then EmailExists, each exactly when the earlier check passed; otherwise the new store |
| PrismaStore.UpdateOutcome | src/api/repositories/StoreRepository.ts:75-119 | NotAuthorized when the id is not the caller's, before any lookup; then StoreNotFound, then NameStoreExists when another store holds the name; otherwise the store renamed |
| PrismaStore.DeleteOutcome | src/api/repositories/StoreRepository.ts:121-146 | NotAuthorized, then StoreNotFound; otherwise the store removed |
| PrismaStore.LoginOutcome | src/api/repositories/StoreRepository.ts:148-160 | the store with the email, or StoreNotFound exactly when none |
| PrismaStore.CreatedStoreCanLogIn | src/api/repositories/StoreRepository.ts:36-73 | a store just created logs in with its email and gets itself back |
| PrismaStore.UpdateKeepsStoresUnique | src/api/repositories/StoreRepository.ts:75-119 | a successful update keeps ids, names and emails unique |
| PrismaStore.StoreRepository.constructor | src/api/repositories/StoreRepository.ts:1-5 | the repository works on the given database |
| PrismaStore.StoreRepository.GetAll | src/api/repositories/StoreRepository.ts:6-17 | the rows are sorted by id and a permutation of the table |
| PrismaStore.StoreRepository.GetById | src/api/repositories/StoreRepository.ts:19-34 | answers GetByIdOutcome |
| PrismaStore.StoreRepository.Create | src/api/repositories/StoreRepository.ts:36-73 | answers CreateOutcome; the table gains exactly its row |
| PrismaStore.StoreRepository.Update | src/api/repositories/StoreRepository.ts:75-119 | answers UpdateOutcome; on success only the found row is replaced |
| PrismaStore.StoreRepository.Delete | src/api/repositories/StoreRepository.ts:121-146 | answers DeleteOutcome; on success exactly the found row is removed |
| PrismaStore.StoreRepository.Login | src/api/repositories/StoreRepository.ts:148-160 | answers LoginOutcome |
| InMemoryDefectiveProduct.GetByIdOutcome | src/api/repositories/in-memory/in-memory-defective-product-repository.ts:30-42 | the first report with the id, or DefectiveProductNotFound exactly when none |
| InMemoryDefectiveProduct.CreateOutcome | src/api/repositories/in-memory/in-memory-defective-product-repository.ts:44-76 | EntranceNotFound; then NotAuthorized exactly when the entrance's product is missing or another store's; otherwise the new report |
| InMemoryDefectiveProduct.CreatedReportIsOwned | src/api/repositories/in-memory/in-memory-defective-product-repository.ts:44-76 | an accepted report hangs off a real entrance of a real product whose store is the caller |
| InMemoryDefectiveProduct.UpdateOutcome | src/api/repositories/in-memory/in-memory-defective-product-repository.ts:78-110 | DefectiveProductNotFound; then NotAuthorized through the stored report's entrance; otherwise the report with description and quantity replaced |
| InMemoryDefectiveProduct.DeleteOutcome | src/api/repositories/in-memory/in-memory-defective-product-repository.ts:112-141 | DefectiveProductNotFound; then NotAuthorized through the report's entrance; otherwise the found report |
| InMemoryDefectiveProduct.InMemoryDefectiveProductRepository.constructor | src/api/repositories/in-memory/in-memory-defective-product-repository.ts:5-24 | an empty report list beside the seeded entrance and product |
| InMemoryDefectiveProduct.InMemoryDefectiveProductRepository.GetById | src/api/repositories/in-memory/in-memory-defective-product-repository.ts:30-42 | answers GetByIdOutcome |
| InMemoryDefectiveProduct.InMemoryDefectiveProductRepository.OwnerThrough | src/api/repositories/in-memory/in-memory-defective-product-repository.ts:54-62 | the owner the two `find` calls reach equals Ownership.EntranceOwner |
| InMemoryDefectiveProduct.InMemoryDefectiveProductRepository.Create | src/api/repositories/in-memory/in-memory-defective-product-repository.ts:44-76 | answers CreateOutcome; the list gains exactly its row |
| InMemoryDefectiveProduct.InMemoryDefectiveProductRepository.Update | src/api/repositories/in-memory/in-memory-defective-product-repository.ts:78-110 | answers UpdateOutcome; on success the found row is replaced in place |
| InMemoryDefectiveProduct.InMemoryDefectiveProductRepository.Delete | src/api/repositories/in-memory/in-memory-defective-product-repository.ts:112-141 | answers DeleteOutcome; on success the last report is popped |
| InMemoryDevolution.GetByIdOutcome | src/api/repositories/in-memory/in-memory-devolution-repository.ts:30-38 | the first devolution with the id, or DevolutionNotFound exactly when none |
| InMemoryDevolution.CreateOutcome | src/api/repositories/in-memory/in-memory-devolution-repository.ts:40-71 | EntranceNotFound; then NotAuthorized exactly when the entrance's product is missing or another store's; otherwise the new devolution |
| InMemoryDevolution.CreatedReportIsOwned | src/api/repositories/in-memory/in-memory-devolution-repository.ts:40-71 | an accepted devolution hangs off a real entrance of a real product whose store is the caller |
| InMemoryDevolution.UpdateOutcome | src/api/repositories/in-memory/in-memory-devolution-repository.ts:73-108 | DevolutionNotFound, then EntranceNotFound for the requested entrance, then NotAuthorized through it; otherwise three fields replaced |
| InMemoryDevolution.DeleteOutcome | src/api/repositories/in-memory/in-memory-devolution-repository.ts:110-135 | DevolutionNotFound; then NotAuthorized through the stored entrance; otherwise the found devolution |
| InMemoryDevolution.InMemoryDevolutionRepository.constructor | src/api/repositories/in-memory/in-memory-devolution-repository.ts:5-24 | an empty devolution list beside the seeded entrance and product |
| InMemoryDevolution.InMemoryDevolutionRepository.GetById | src/api/repositories/in-memory/in-memory-devolution-repository.ts:30-38 | answers GetByIdOutcome |
| InMemoryDevolution.InMemoryDevolutionRepository.OwnerThrough | src/api/repositories/in-memory/in-memory-devolution-repository.ts:48-56 | the owner the two `find` calls reach equals Ownership.EntranceOwner |
| InMemoryDevolution.InMemoryDevolutionRepository.Create | src/api/repositories/in-memory/in-memory-devolution-repository.ts:40-71 | answers CreateOutcome; the list gains exactly its row |
| InMemoryDevolution.InMemoryDevolutionRepository.Update | src/api/repositories/in-memory/in-memory-devolution-repository.ts:73-108 | answers UpdateOutcome; on success the found row is replaced in place |
| InMemoryDevolution.InMemoryDevolutionRepository.Delete | src/api/repositories/in-memory/in-memory-devolution-repository.ts:110-135 | answers DeleteOutcome; on success the last devolution is popped |
| InMemoryEntrance.GetByIdOutcome | src/api/repositories/in-memory/in-memory-entrance-repository.ts:20-28 | the first entrance with the id, or EntranceNotFound exactly when none |
| InMemoryEntrance.CreateOutcome | src/api/repositories/in-memory/in-memory-entrance-repository.ts:30-62 | ProductNotFound, then NotAuthorized when the product is another store's; otherwise the new entrance |
| InMemoryEntrance.UpdateOutcome | src/api/repositories/in-memory/in-memory-entrance-repository.ts:64-99 | EntranceNotFound, then ProductNotFound for the requested product, then NotAuthorized against it; otherwise four fields replaced |
| InMemoryEntrance.DeleteOutcome | src/api/repositories/in-memory/in-memory-entrance-repository.ts:101-120 | EntranceNotFound; then NotAuthorized through the entrance's product; otherwise the found entrance |
| InMemoryEntrance.InMemoryEntranceRepository.constructor | src/api/repositories/in-memory/in-memory-entrance-repository.ts:5-14 | an empty entrance list beside the seeded product |
| InMemoryEntrance.InMemoryEntranceRepository.GetById | src/api/repositories/in-memory/in-memory-entrance-repository.ts:20-28 | answers GetByIdOutcome |
| InMemoryEntrance.InMemoryEntranceRepository.Create | src/api/repositories/in-memory/in-memory-entrance-repository.ts:30-62 | answers CreateOutcome; on success the product's stock becomes 2·stock + quantity and one entrance is appended; on a sentinel nothing changes |
| InMemoryEntrance.InMemoryEntranceRepository.Update | src/api/repositories/in-memory/in-memory-entrance-repository.ts:64-99 | answers UpdateOutcome; on success the found row is replaced in place |
| InMemoryEntrance.InMemoryEntranceRepository.Delete | src/api/repositories/in-memory/in-memory-entrance-repository.ts:101-120 | answers DeleteOutcome; on success the last entrance is popped |
| InMemoryExit.GetByIdOutcome | src/api/repositories/in-memory/in-memory-exit-repository.ts:20-28 | the first exit with the id, or ExitNotFound exactly when none |
| InMemoryExit.CreateOutcome | src/api/repositories/in-memory/in-memory-exit-repository.ts:30-65 | ProductNotFound, NotAuthorized, NoStock, each exactly when the earlier checks passed and its own condition holds; otherwise the new exit |
| InMemoryExit.UpdateOutcome | src/api/repositories/in-memory/in-memory-exit-repository.ts:67-97 | ExitNotFound; NotAuthorized through the stored exit's product; NoStock against its stock; otherwise three fields replaced |
| InMemoryExit.DeleteOutcome | src/api/repositories/in-memory/in-memory-exit-repository.ts:99-118 | ExitNotFound; then NotAuthorized through the exit's product; otherwise the found exit |
| InMemoryExit.InMemoryExitRepository.constructor | src/api/repositories/in-memory/in-memory-exit-repository.ts:5-14 | an empty exit list beside the seeded product |
| InMemoryExit.InMemoryExitRepository.GetById | src/api/repositories/in-memory/in-memory-exit-repository.ts:20-28 | answers GetByIdOutcome |
| InMemoryExit.InMemoryExitRepository.Create | src/api/repositories/in-memory/in-memory-exit-repository.ts:30-65 | answers CreateOutcome; the list gains exactly its row |
| InMemoryExit.InMemoryExitRepository.Update | src/api/repositories/in-memory/in-memory-exit-repository.ts:67-97 | answers UpdateOutcome; on success the found row is replaced in place |
| InMemoryExit.InMemoryExitRepository.Delete | src/api/repositories/in-memory/in-memory-exit-repository.ts:99-118 | answers DeleteOutcome; on success the last exit is popped |
| InMemoryProduct.GetByIdOutcome | src/api/repositories/in-memory/in-memory-product-repository.ts:19-27 | the first product with the id, or ProductNotFound exactly when none |
| InMemoryProduct.CreateOutcome | src/api/repositories/in-memory/in-memory-product-repository.ts:29-67 | NotAuthorized exactly when the store named is not the caller's; then ProductExists; then StoreNotFound; otherwise the new product with id 1 and stock 100 |
| InMemoryProduct.UpdateOutcome | src/api/repositories/in-memory/in-memory-product-repository.ts:69-102 | NotAuthorized exactly when the product exists and is another store's; ProductNotFound when it is missing or another product holds the name; otherwise name and price replaced |
| InMemoryProduct.DeleteOutcome | src/api/repositories/in-memory/in-memory-product-repository.ts:104-119 | ProductNotFound, then NotAuthorized; otherwise the found product |
| InMemoryProduct.CreateKeepsNamesUnique | src/api/repositories/in-memory/in-memory-product-repository.ts:29-67 | a successful create keeps product names unique |
| InMemoryProduct.UpdateKeepsNamesUnique | src/api/repositories/in-memory/in-memory-product-repository.ts:69-102 | a successful update keeps names unique as long as ids are unique |
| InMemoryProduct.UpdateWithRepeatedIdsDuplicatesName | src/api/repositories/in-memory/in-memory-product-repository.ts:55-64 | two products sharing id 1 (every create uses it) let update give the first the second's name |
| InMemoryProduct.InMemoryProductRepository.constructor | src/api/repositories/in-memory/in-memory-product-repository.ts:5-13 | an empty product list beside the seeded store |
| InMemoryProduct.InMemoryProductRepository.GetById | src/api/repositories/in-memory/in-memory-product-repository.ts:19-27 | answers GetByIdOutcome |
| InMemoryProduct.InMemoryProductRepository.Create | src/api/repositories/in-memory/in-memory-product-repository.ts:29-67 | answers CreateOutcome; the list gains exactly its row |
| InMemoryProduct.InMemoryProductRepository.Update | src/api/repositories/in-memory/in-memory-product-repository.ts:69-102 | answers UpdateOutcome; on success the found row is replaced in place |
| InMemoryProduct.InMemoryProductRepository.Delete | src/api/repositories/in-memory/in-memory-product-repository.ts:104-119 | answers DeleteOutcome and changes nothing |
| InMemoryStore.GetByIdOutcome | src/api/repositories/in-memory/in-memory-store-repository.ts:11-19 | the first store with the id, or StoreNotFound exactly when none |
| InMemoryStore.CreateOutcome | src/api/repositories/in-memory/in-memory-store-repository.ts:21-48 | NameStoreExists, then EmailExists; otherwise the new store |
| InMemoryStore.UpdateOutcome | src/api/repositories/in-memory/in-memory-store-repository.ts:50-79 | NotAuthorized when the id is not the caller's; StoreNotFound when the store is missing or another holds the name; otherwise the store renamed |
| InMemoryStore.DeleteOutcome | src/api/repositories/in-memory/in-memory-store-repository.ts:81-98 | NotAuthorized, then StoreNotFound; otherwise the found store |
| InMemoryStore.LoginOutcome | src/api/repositories/in-memory/in-memory-store-repository.ts:100-108 | the first store with the email, or StoreNotFound exactly when none |
| InMemoryStore.CreateKeepsStoresUnique | src/api/repositories/in-memory/in-memory-store-repository.ts:21-48 | a successful create keeps names and emails unique |
| InMemoryStore.UpdateKeepsStoresUnique | src/api/repositories/in-memory/in-memory-store-repository.ts:50-79 | a successful update keeps names unique under unique ids, and emails unique always |
| InMemoryStore.UpdateWithRepeatedIdsDuplicatesName | src/api/repositories/in-memory/in-memory-store-repository.ts:21-48 | two stores sharing id 1 let update duplicate a store name |
| InMemoryStore.DeleteKeepsStoresUnique | src/api/repositories/in-memory/in-memory-store-repository.ts:81-98 | popping the last store keeps names and emails unique |
| InMemoryStore.InMemoryStoreRepository.constructor | src/api/repositories/in-memory/in-memory-store-repository.ts:5 | the store list starts empty |
| InMemoryStore.InMemoryStoreRepository.GetById | src/api/repositories/in-memory/in-memory-store-repository.ts:11-19 | answers GetByIdOutcome |
| InMemoryStore.InMemoryStoreRepository.Create | src/api/repositories/in-memory/in-memory-store-repository.ts:21-48 | answers CreateOutcome; the list gains exactly its row |
| InMemoryStore.InMemoryStoreRepository.Update | src/api/repositories/in-memory/in-memory-store-repository.ts:50-79 | answers UpdateOutcome; on success the found row is replaced in place |
| InMemoryStore.InMemoryStoreRepository.Delete | src/api/repositories/in-memory/in-memory-store-repository.ts:81-98 | answers DeleteOutcome; on success the last store is popped |
| InMemoryStore.InMemoryStoreRepository.Login | src/api/repositories/in-memory/in-memory-store-repository.ts:100-108 | answers LoginOutcome |
| Ownership.ProductOwner | src/api/repositories/in-memory/in-memory-exit-repository.ts:39-45 | none exactly when the product is missing; otherwise the `id_store` of the first product with the id |
| Ownership.StockOf | src/api/repositories/in-memory/in-memory-exit-repository.ts:49 | none exactly when the product is missing; otherwise the first such product's stock |
| Ownership.EntranceOwner | src/api/repositories/in-memory/in-memory-devolution-repository.ts:48-56 | a missing entrance has no owner; otherwise the owner is exactly the owner of the product the first entrance with the id names |
| Ownership.EntranceOwnerReachesProduct | src/api/repositories/in-memory/in-memory-devolution-repository.ts:48-56 | an owner reached through an entrance is the `id_store` of a real product that entrance names |
| Validation.Utf16Length | src/api/services/exit/create-exit-service.ts:23-28 | the length `.min` compares is the JavaScript length: between one and two code units per character, exactly one each when every character is in the Basic Multilingual Plane and exactly two each when every character lies above it |
| Validation.FieldIssue | src/api/services/exit/create-exit-service.ts:22-45 | a field has no issue exactly when it passes; a missing value gives its required message, a wrong type its type message, a broken bound its bound message; text bounds are measured in UTF-16 code units |
| Validation.FirstIssue | src/api/services/exit/create-exit-service.ts:47-58 | none exactly when every field passes; otherwise the issue of some field that fails |
| Validation.FirstFailureWins | src/api/services/exit/create-exit-service.ts:54-57 | when the fields before k pass and field k fails, the schema reports field k's message |
| Schemas.ValidateId | src/api/services/exit/get-exit-by-id-service.ts:13-30 | none exactly when the id is a number of at least 1; the required, type and minimum messages otherwise |
| Messages.WithId | src/api/services/exit/get-exit-by-id-service.ts:34-36 | the message starts with the prefix, and the id reads back from the rest |
| Messages.WithName | src/api/services/product/create-product-service.ts:60-74 | the message is the prefix followed by the name |
| ExitServices.CreateIssue | src/api/services/exit/create-exit-service.ts:22-58 | none exactly when description (5+ UTF-16 code units), quantity (1+), price and product id (1+) are valid; the first failure's message otherwise |
| ExitServices.AstralDescriptionMeetsMinimum | src/api/services/exit/create-exit-service.ts:23-28 | three characters above U+FFFF satisfy the description's `.min(5)` (six code units), three plain characters do not |
| ExitServices.UpdateIssue | src/api/services/exit/update-exit-service.ts:22-58 | none exactly when id, description, quantity and price are valid; the id's message wins |
| ExitServices.CreateResult | src/api/services/exit/create-exit-service.ts:68-86 | Unauthorized, NotFound naming the product, Conflict on stock, each exactly for its sentinel; success carries the reply |
| ExitServices.UpdateResult | src/api/services/exit/update-exit-service.ts:68-86 | Unauthorized, NotFound naming the exit, Conflict on stock, each exactly for its sentinel; success carries the reply |
| ExitServices.DeleteResult | src/api/services/exit/delete-exit-service.ts:39-49 | Unauthorized and NotFound naming the exit, each exactly for its sentinel |
| ExitServices.GetByIdResult | src/api/services/exit/get-exit-by-id-service.ts:34-38 | NotFound naming the exit exactly when the reply is ExitNotFound |
| ExitServices.CreateExitService.constructor | src/api/services/exit/create-exit-service.ts:13 | the service holds the given repository |
| ExitServices.CreateExitService.Execute | src/api/services/exit/create-exit-service.ts:15-87 | a failing schema answers BadRequest with its message and leaves the exits alone; otherwise CreateResult of the repository outcome, and the exits gain exactly its row |
| ExitServices.UpdateExitService.constructor | src/api/services/exit/update-exit-service.ts:13 | the service holds the given repository |
| ExitServices.UpdateExitService.Execute | src/api/services/exit/update-exit-service.ts:15-87 | BadRequest on a failing schema; otherwise UpdateResult of the repository outcome with the found row replaced |
| ExitServices.DeleteExitService.constructor | src/api/services/exit/delete-exit-service.ts:12 | the service holds the given repository |
| ExitServices.DeleteExitService.Execute | src/api/services/exit/delete-exit-service.ts:14-50 | BadRequest on a bad id; otherwise DeleteResult of the outcome, the last exit popped on success |
| ExitServices.GetExitByIdService.constructor | src/api/services/exit/get-exit-by-id-service.ts:10 | the service holds the given repository |
| ExitServices.GetExitByIdService.Execute | src/api/services/exit/get-exit-by-id-service.ts:12-39 | BadRequest on a bad id; otherwise GetByIdResult of the lookup; nothing changes |
| EntranceServices.UpdateIssue | src/api/services/entrance/update-entrance-service.ts:22-67 | none exactly when id, supplier (2+), quantity (1+), price (0.05+) and product id (1+) are valid |
| EntranceServices.UpdateResult | src/api/services/entrance/update-entrance-service.ts:78-92 | Unauthorized, NotFound naming the entrance, NotFound naming the product, for their sentinels; success exactly for a row |
| EntranceServices.DeleteResult | src/api/services/entrance/delete-entrance-service.ts:37-47 | Unauthorized and NotFound naming the entrance, each exactly for its sentinel |
| EntranceServices.GetByIdResult | src/api/services/entrance/get-entrance-by-id-service.ts:32-36 | NotFound naming the entrance exactly when the reply is EntranceNotFound |
| EntranceServices.UpdateEntranceService.constructor | src/api/services/entrance/update-entrance-service.ts:12 | the service holds the given repository |
| EntranceServices.UpdateEntranceService.Execute | src/api/services/entrance/update-entrance-service.ts:14-93 | BadRequest on a failing schema; otherwise UpdateResult of the outcome with the found row replaced |
| EntranceServices.DeleteEntranceService.constructor | src/api/services/entrance/delete-entrance-service.ts:12 | the service holds the given repository |
| EntranceServices.DeleteEntranceService.Execute | src/api/services/entrance/delete-entrance-service.ts:14-48 | BadRequest on a bad id; otherwise DeleteResult of the outcome, the last entrance popped on success |
| EntranceServices.GetEntranceByIdService.constructor | src/api/services/entrance/get-entrance-by-id-service.ts:10 | the service holds the given repository |
| EntranceServices.GetEntranceByIdService.Execute | src/api/services/entrance/get-entrance-by-id-service.ts:12-37 | BadRequest on a bad id; otherwise GetByIdResult of the lookup; nothing changes |
| ProductServices.CreateIssue | src/api/services/product/create-product-service.ts:20-51 | none exactly when name (2+), price (0.05+) and store id (1+) are valid |
| ProductServices.UpdateIssue | src/api/services/product/update-product-service.ts:21-48 | none exactly when id, name and price are valid |
| ProductServices.CreateResult | src/api/services/product/create-product-service.ts:60-74 | Unauthorized exactly for NotAuthorized; a taken name and a missing store are conflicts naming them; success carries the reply |
| ProductServices.UpdateResult | src/api/services/product/update-product-service.ts:57-71 | Unauthorized, Conflict naming the name, NotFound naming the product, each exactly for its sentinel |
| ProductServices.DeleteResult | src/api/services/product/delete-product-service.ts:37-47 | Unauthorized and NotFound naming the product, each exactly for its sentinel |
| ProductServices.GetByIdResult | src/api/services/product/get-product-by-id-service.ts:32-36 | NotFound naming the product exactly when the reply is ProductNotFound |
| ProductServices.CreateProductService.constructor | src/api/services/product/create-product-service.ts:12 | the service holds the given repository |
| ProductServices.CreateProductService.Execute | src/api/services/product/create-product-service.ts:14-75 | BadRequest on a failing schema; otherwise CreateResult of the outcome, the products gaining exactly its row |
| ProductServices.UpdateProductService.constructor | src/api/services/product/update-product-service.ts:13 | the service holds the given repository |
| ProductServices.UpdateProductService.Execute | src/api/services/product/update-product-service.ts:15-72 | BadRequest on a failing schema; otherwise UpdateResult of the outcome with the found row replaced |
| ProductServices.DeleteProductService.constructor | src/api/services/product/delete-product-service.ts:12 | the service holds the given repository |
| ProductServices.DeleteProductService.Execute | src/api/services/product/delete-product-service.ts:14-48 | BadRequest on a bad id; otherwise DeleteResult of the outcome; nothing changes |
| ProductServices.GetProductByIdService.constructor | src/api/services/product/get-product-by-id-service.ts:10 | the service holds the given repository |
| ProductServices.GetProductByIdService.Execute | src/api/services/product/get-product-by-id-service.ts:12-37 | BadRequest on a bad id; otherwise GetByIdResult of the lookup |
| DevolutionServices.CreateIssue | src/api/services/devolution/create-devolution-service.ts:20-51 | none exactly when description (5+), quantity (1+) and entrance id (1+) are valid |
| DevolutionServices.UpdateIssue | src/api/services/devolution/update-devolution-service.ts:20-51 | none exactly when id, description and quantity are valid |
| DevolutionServices.CreateResult | src/api/services/devolution/create-devolution-service.ts:60-72 | Unauthorized and NotFound naming the entrance, each exactly for its sentinel |
| DevolutionServices.UpdateResult | src/api/services/devolution/update-devolution-service.ts:60-72 | Unauthorized and NotFound naming the devolution, each exactly for its sentinel; EntranceNotFound is not checked and passes as a success |
| DevolutionServices.DeleteResult | src/api/services/devolution/delete-devolution-service.ts:39-51 | Unauthorized and NotFound naming the devolution, each exactly for its sentinel |
| DevolutionServices.GetByIdResult | src/api/services/devolution/get-devolution-by-id-service.ts:34-38 | NotFound naming the devolution exactly when the reply is DevolutionNotFound |
| DevolutionServices.CreateDevolutionService.constructor | src/api/services/devolution/create-devolution-service.ts:12 | the service holds the given repository |
| DevolutionServices.CreateDevolutionService.Execute | src/api/services/devolution/create-devolution-service.ts:14-73 | BadRequest on a failing schema; otherwise CreateResult of the outcome, the devolutions gaining exactly its row |
| DevolutionServices.DeclaredUpdateOutcome | src/api/interfaces/IDevolution.ts:18-25 | DevolutionNotFound exactly when absent; NotAuthorized exactly when the caller does not own the stored entrance's product; otherwise the report with description and quantity replaced, still on an entrance the caller owns |
| DevolutionServices.DeclaredUpdateKeepsStoredEntrance | src/api/repositories/in-memory/in-memory-devolution-repository.ts:73-108 | when the stored entrance exists, the declared update equals the in-memory update asked to keep the report on that entrance |
| DevolutionServices.UpdateDevolutionService.constructor | src/api/services/devolution/update-devolution-service.ts:12 | the service holds the given repository |
| DevolutionServices.UpdateDevolutionService.Execute | src/api/services/devolution/update-devolution-service.ts:14-73 | BadRequest on a failing schema; otherwise UpdateResult of the declared update, the found row replaced on success; a success is a row whose entrance the caller owns |
| DevolutionServices.UpdateDevolutionServiceAsWritten.constructor | src/api/services/devolution/update-devolution-service.ts:12 | the service holds the given Prisma repository |
| DevolutionServices.UpdateDevolutionServiceAsWritten.Execute | src/api/services/devolution/update-devolution-service.ts:14-73 | BadRequest on a failing schema; otherwise UpdateResult of the Prisma outcome with the caller's store id as entrance id; never Unauthorized, and a success links the report to the entrance whose id is the store id |
| DevolutionServices.AsWrittenUpdatesAnotherStoresReport | src/api/services/devolution/update-devolution-service.ts:53-58 | store 2 rewrites store 1's report and moves it to entrance 2, where the declared update answers NotAuthorized |
| DevolutionServices.DeleteDevolutionService.constructor | src/api/services/devolution/delete-devolution-service.ts:12 | the service holds the given repository |
| DevolutionServices.DeleteDevolutionService.Execute | src/api/services/devolution/delete-devolution-service.ts:14-52 | BadRequest on a bad id; otherwise DeleteResult of the outcome, the last devolution popped on success |
| DevolutionServices.GetDevolutionByIdService.constructor | src/api/services/devolution/get-devolution-by-id-service.ts:10 | the service holds the given repository |
| DevolutionServices.GetDevolutionByIdService.Execute | src/api/services/devolution/get-devolution-by-id-service.ts:12-39 | BadRequest on a bad id; otherwise GetByIdResult of the lookup |
| DefectiveProductServices.CreateIssue | src/api/services/defective-product/create-defective-product-service.ts:20-51 | none exactly when description (2+), quantity (1+) and entrance id (1+) are valid |
| DefectiveProductServices.UpdateIssue | src/api/services/defective-product/update-defective-product-service.ts:20-51 | none exactly when id, description and quantity are valid |
| DefectiveProductServices.CreateResult | src/api/services/defective-product/create-defective-product-service.ts:60-72 | Unauthorized and NotFound naming the entrance, each exactly for its sentinel |
| DefectiveProductServices.UpdateResult | src/api/services/defective-product/update-defective-product-service.ts:60-72 | Unauthorized and NotFound naming the report, each exactly for its sentinel |
| DefectiveProductServices.DeleteResult | src/api/services/defective-product/delete-defective-product-service.ts:39-51 | Unauthorized and NotFound naming the report, each exactly for its sentinel |
| DefectiveProductServices.GetByIdResult | src/api/services/defective-product/get-defective-product-by-id-service.ts:36-40 | NotFound naming the report exactly when the reply is DefectiveProductNotFound |
| DefectiveProductServices.CreateDefectiveProductService.constructor | src/api/services/defective-product/create-defective-product-service.ts:12 | the service holds the given repository |
| DefectiveProductServices.CreateDefectiveProductService.Execute | src/api/services/defective-product/create-defective-product-service.ts:14-73 | BadRequest on a failing schema; otherwise CreateResult of the outcome, the reports gaining exactly its row |
| DefectiveProductServices.UpdateDefectiveProductService.constructor | src/api/services/defective-product/update-defective-product-service.ts:12 | the service holds the given repository |
| DefectiveProductServices.UpdateDefectiveProductService.Execute | src/api/services/defective-product/update-defective-product-service.ts:14-73 | BadRequest on a failing schema; otherwise UpdateResult of the outcome with the found row replaced |
| DefectiveProductServices.DeleteDefectiveProductService.constructor | src/api/services/defective-product/delete-defective-product-service.ts:12 | the service holds the given repository |
| DefectiveProductServices.DeleteDefectiveProductService.Execute | src/api/services/defective-product/delete-defective-product-service.ts:14-52 | BadRequest on a bad id; otherwise DeleteResult of the outcome, the last report popped on success |
| DefectiveProductServices.GetDefectiveProductByIdService.constructor | src/api/services/defective-product/get-defective-product-by-id-service.ts:10 | the service holds the given repository |
| DefectiveProductServices.GetDefectiveProductByIdService.Execute | src/api/services/defective-product/get-defective-product-by-id-service.ts:12-41 | BadRequest on a bad id; otherwise GetByIdResult of the lookup |
| StoreServices.CreateIssue | src/api/services/store/create-store-service.ts:18-45 | none exactly when the name is a string, the email is well formed and the password has 5+ UTF-16 code units |
| StoreServices.UpdateIssue | src/api/services/store/update-store-service.ts:20-39 | none exactly when the id is valid and the name is a string |
| StoreServices.CreateResult | src/api/services/store/create-store-service.ts:52-60 | Conflict naming the store name exactly for NameStoreExists; the email conflict for EmailExists; success carries the reply |
| StoreServices.UpdateResult | src/api/services/store/update-store-service.ts:43-55 | Unauthorized, NotFound naming the store, the name conflict, each exactly for its sentinel |
| StoreServices.DeleteResult | src/api/services/store/delete-store-service.ts:39-47 | Unauthorized and NotFound naming the store, each exactly for its sentinel |
| StoreServices.GetByIdResult | src/api/services/store/get-store-by-id-service.ts:37-41 | NotFound naming the store exactly when the reply is StoreNotFound |
| StoreServices.CreateStoreService.constructor | src/api/services/store/create-store-service.ts:11 | the service holds the given repository |
| StoreServices.CreateStoreService.Execute | src/api/services/store/create-store-service.ts:13-61 | BadRequest on a failing schema; otherwise CreateResult of the outcome with the hashed password, the stores gaining exactly its row; a created store holds the hash, not the password |
| StoreServices.UpdateStoreService.constructor | src/api/services/store/update-store-service.ts:13 | the service holds the given repository |
| StoreServices.UpdateStoreService.Execute | src/api/services/store/update-store-service.ts:15-56 | BadRequest on a failing schema; otherwise UpdateResult of the outcome with the found row replaced |
| StoreServices.DeleteStoreService.constructor | src/api/services/store/delete-store-service.ts:12 | the service holds the given repository |
| StoreServices.DeleteStoreService.Execute | src/api/services/store/delete-store-service.ts:14-48 | BadRequest on a bad id; otherwise DeleteResult of the outcome, the last store popped on success |
| StoreServices.GetStoreByIdService.constructor | src/api/services/store/get-store-by-id-service.ts:11 | the service holds the given repository |
| StoreServices.GetStoreByIdService.Execute | src/api/services/store/get-store-by-id-service.ts:13-42 | BadRequest on a bad id; otherwise GetByIdResult of the lookup |
| LegacyProductService.Issue | src/api/services/ProductService.ts:32-37 | none exactly when the name is present and non-empty and the price present and non-zero; the name's message first |
| LegacyProductService.GetByIdResult | src/api/services/ProductService.ts:18-26 | NotFound naming the product exactly when the reply is ProductNotFound |
| LegacyProductService.CreateResult | src/api/services/ProductService.ts:40-46 | Conflict naming the name exactly when the reply is ProductExists |
| LegacyProductService.UpdateResult | src/api/services/ProductService.ts:62-72 | Conflict naming the name for ProductExists and Conflict naming the id for ProductNotFound, each exactly for its sentinel |
| LegacyProductService.DeleteResult | src/api/services/ProductService.ts:76-82 | Conflict naming the id exactly when the reply is ProductNotFound |
| LegacyProductService.ProductService.constructor | src/api/services/ProductService.ts:10 | the service holds the given repository |
| LegacyProductService.ProductService.GetById | src/api/services/ProductService.ts:18-26 | GetByIdResult of the lookup; a success is the first product with the id |
| LegacyProductService.ProductService.Create | src/api/services/ProductService.ts:28-47 | UnprocessableEntity on a failed check with the table unchanged; otherwise CreateResult of the Prisma outcome, the table gaining exactly its row |
| LegacyProductService.ProductService.Update | src/api/services/ProductService.ts:49-73 | UnprocessableEntity on a failed check; otherwise UpdateResult of the outcome with the found row replaced; a success has the id and new name |
| LegacyProductService.ProductService.Delete | src/api/services/ProductService.ts:75-83 | DeleteResult of the outcome, the found row removed on success |
| LegacyEntranceService.CreateIssue | src/api/services/EntranceService.ts:53-91 | none exactly when supplier (2+), quantity (1+), price (0.05+) and product id (1+) are valid |
| LegacyEntranceService.NotFoundResult | src/api/services/EntranceService.ts:38-44 | NotFound naming the entrance exactly when the reply is EntranceNotFound |
| LegacyEntranceService.CreateResult | src/api/services/EntranceService.ts:93-104 | NotFound naming the product exactly when the reply is ProductNotFound |
| LegacyEntranceService.NotFoundMessagesDiffer | src/api/services/EntranceService.ts:169-175 | the entrance and product not-found messages never coincide, whatever the ids |
| LegacyEntranceService.UpdateResultAsWritten | src/api/services/EntranceService.ts:161-177 | update's mapping as written: EntranceNotFound and ProductNotFound both give NotFound messages carrying the entrance id; a row or NotAuthorized passes through unchanged as a success |
| LegacyEntranceService.AsWrittenNamesTheEntrance | src/api/services/EntranceService.ts:173-175 | when the ids differ, the as-written message does not read back as the product id, and the as-written answer differs from the corrected one |
| LegacyEntranceService.UpdateResult | src/api/services/EntranceService.ts:161-177 | corrected mapping: NotFound naming the entrance and NotFound naming the product, each exactly for its sentinel |
| LegacyEntranceService.EntranceService.constructor | src/api/services/EntranceService.ts:10 | the service holds the given repository |
| LegacyEntranceService.EntranceService.GetById | src/api/services/EntranceService.ts:18-45 | UnprocessableEntity on a bad id; otherwise NotFoundResult of the lookup; a success is the first entrance with the id |
| LegacyEntranceService.EntranceService.Create | src/api/services/EntranceService.ts:47-105 | UnprocessableEntity on a failing schema; otherwise CreateResult of the Prisma outcome, the table gaining exactly its row |
| LegacyEntranceService.EntranceService.Update | src/api/services/EntranceService.ts:107-178 | UnprocessableEntity on a failing schema; otherwise the corrected UpdateResult of the outcome with the found row replaced; a success names the requested product |
| LegacyEntranceService.EntranceService.Delete | src/api/services/EntranceService.ts:180-207 | UnprocessableEntity on a bad id; otherwise NotFoundResult of the outcome, the found row removed on success |
| LegacyExitService.CreateIssue | src/api/services/ExitService.ts:55-82 | none exactly when description (5+), quantity (1+) and product id (1+) are valid |
| LegacyExitService.UpdateIssue | src/api/services/ExitService.ts:107-140 | none exactly when id, description, quantity and product id are valid; update's own message for a quantity below 1 |
| LegacyExitService.NotFoundMessagesDiffer | src/api/services/ExitService.ts:144-153 | the exit and product not-found messages never coincide |
| LegacyExitService.GetByIdResult | src/api/services/ExitService.ts:40-47 | NotFound naming the exit exactly when the reply is ExitNotFound |
| LegacyExitService.CreateResult | src/api/services/ExitService.ts:86-98 | NotFound naming the product and Conflict on stock, each exactly for its sentinel |
| LegacyExitService.UpdateResult | src/api/services/ExitService.ts:144-160 | NotFound naming the exit, NotFound naming the product, Conflict on stock, each exactly for its sentinel |
| LegacyExitService.DeleteResult | src/api/services/ExitService.ts:182-189 | NotFound with delete's own wording exactly when the reply is ExitNotFound |
| LegacyExitService.ExitService.constructor | src/api/services/ExitService.ts:11 | the service holds the given repository |
| LegacyExitService.ExitService.GetById | src/api/services/ExitService.ts:19-48 | UnprocessableEntity on a bad id; otherwise GetByIdResult of the lookup |
| LegacyExitService.ExitService.Delete | src/api/services/ExitService.ts:163-190 | UnprocessableEntity on a bad id; otherwise DeleteResult of the outcome, the found row removed on success |
| LegacyDevolutionService.UpdateIssue | src/api/services/DevolutionService.ts:106-144 | none exactly when id, description (5+), quantity (1+) and entrance id (1+) are valid |
| LegacyDevolutionService.GetByIdResult | src/api/services/DevolutionService.ts:40-46 | NotFound naming the devolution exactly when the reply is DevolutionNotFound |
| LegacyDevolutionService.CreateResult | src/api/services/DevolutionService.ts:87-97 | NotFound naming the entrance exactly when the reply is EntranceNotFound |
| LegacyDevolutionService.NotFoundMessagesDiffer | src/api/services/DevolutionService.ts:153-159 | the entrance and devolution not-found messages never coincide |
| LegacyDevolutionService.UpdateResult | src/api/services/DevolutionService.ts:146-161 | NotFound naming the entrance, then the devolution, each exactly for its sentinel |
| LegacyDevolutionService.DevolutionService.constructor | src/api/services/DevolutionService.ts:10 | the service holds the given repository |
| LegacyDevolutionService.DevolutionService.GetById | src/api/services/DevolutionService.ts:18-47 | UnprocessableEntity on a bad id; otherwise GetByIdResult of the lookup |
| LegacyDevolutionService.DevolutionService.Create | src/api/services/DevolutionService.ts:49-98 | UnprocessableEntity on a failing schema; otherwise CreateResult of the Prisma outcome, the table gaining exactly its row |
| LegacyDevolutionService.DevolutionService.Update | src/api/services/DevolutionService.ts:100-162 | UnprocessableEntity on a failing schema; otherwise UpdateResult of the outcome with the found row replaced; a success names the requested entrance |
| LegacyDevolutionService.DevolutionService.Delete | src/api/services/DevolutionService.ts:164-193 | UnprocessableEntity on a bad id; otherwise the get-by-id mapping of the lookup: NotFound exactly when the devolution is absent, and a present devolution is returned as a success, the first with the id |
| LegacyDefectiveProductService.UpdateIssue | src/api/services/DefectiveProductService.ts:108-146 | none exactly when id, description (2+), quantity (1+) and entrance id (1+) are valid |
| LegacyDefectiveProductService.GetByIdResult | src/api/services/DefectiveProductService.ts:40-48 | NotFound with getById's wording exactly when the reply is DefectiveProductNotFound |
| LegacyDefectiveProductService.CreateResult | src/api/services/DefectiveProductService.ts:89-99 | NotFound naming the entrance exactly when the reply is EntranceNotFound |
| LegacyDefectiveProductService.NotFoundMessagesDiffer | src/api/services/DefectiveProductService.ts:155-161 | the entrance message and update's report message never coincide |
| LegacyDefectiveProductService.UpdateResult | src/api/services/DefectiveProductService.ts:148-163 | NotFound naming the entrance, then the report, each exactly for its sentinel |
| LegacyDefectiveProductService.DeleteResult | src/api/services/DefectiveProductService.ts:188-194 | NotFound naming the report exactly when the reply is DefectiveProductNotFound |
| LegacyDefectiveProductService.DefectiveProductService.constructor | src/api/services/DefectiveProductService.ts:10 | the service holds the given repository |
| LegacyDefectiveProductService.DefectiveProductService.GetById | src/api/services/DefectiveProductService.ts:18-49 | UnprocessableEntity on a bad id; otherwise GetByIdResult of the lookup |
| LegacyDefectiveProductService.DefectiveProductService.Create | src/api/services/DefectiveProductService.ts:51-100 | UnprocessableEntity on a failing schema; otherwise CreateResult of the Prisma outcome, the table gaining exactly its row |
| LegacyDefectiveProductService.DefectiveProductService.Update | src/api/services/DefectiveProductService.ts:102-164 | UnprocessableEntity on a failing schema; otherwise UpdateResult of the outcome with the found row replaced; a success names the requested entrance |
| LegacyDefectiveProductService.DefectiveProductService.Delete | src/api/services/DefectiveProductService.ts:166-195 | UnprocessableEntity on a bad id; otherwise DeleteResult of the outcome, the found row removed on success |

## Left out

- HTTP controllers, routers and `server.ts` are not part of this model. Each service method's `Either` stands for the HTTP answer.
- The `AuthToken` middleware and JWT decoding are left out. The caller's store id arrives as a plain `InfosToken` value.
- `bcrypt` hashing is a function parameter, and so is the email-format test of `zod`'s `.email()`. Neither is modelled further.
- `StoreService.ts` and `login-store-service.ts` are outside the modelled core. The store repositories' `login` is modelled.
- The get-all use cases and the legacy services' `getAll` return the repository's rows unchanged. They are left out. The Prisma repositories' `getAll` is modelled, and the in-memory `getAll` just returns the field.
- Prisma's autoincrement ids, default dates, relation `include`s and cascading deletes are left out. New ids, dates and defaulted columns are parameters, with the id required to be fresh. `PrismaProduct.CreateOutcome` takes the new product's `idStore` and initial stock as parameters: ProductRepository.ts:53-58 writes only `name_product` and `price_product`, so the source never supplies the store id, and what the database fills in there is not modelled.
- The unique constraints of the Prisma schema come from the repositories' `findUnique` calls. The schema file itself is not part of this model.
- Prices are `real` numbers, not IEEE doubles. NaN and rounding are not modelled, and ids and quantities are integers. An id of 10^21 or more appears in a JavaScript message in exponent form ("1e+21"). `Decimal.IntToDecimal` always writes every digit, so messages for such ids are not modelled.
- Concurrency and the interleaving of `await`s are left out. Each operation runs to completion.
- LegacyExitService.ExitService: `create` and `update` have no method. They call the repository with arguments shifted by one position (ExitService.ts:84 and 142), so they are modelled only by their validation and reply mapping (`CreateIssue`, `UpdateIssue`, `CreateResult`, `UpdateResult`).
- LegacyEntranceService.EntranceService.Update: on success it states the row's product, but not that the row keeps the requested id.
- LegacyProductService.Issue: JavaScript truthiness is reduced to absent or empty name and absent or zero price. Other falsy values of the wrong type are not distinguished.
- The use-case services (`ExitServices`, `EntranceServices`, `ProductServices`, `DevolutionServices`, `DefectiveProductServices`, `StoreServices`) are modelled against the `I*.ts` repository contracts, on the in-memory repositories that the services' `*.spec.ts` test files inject. Their constructors are typed to, and their controllers pass, the Prisma repositories (create-exit-service.ts:13, update-exit-controller.ts:12). Under that binding the ownership checks these services map to Unauthorized are never run, because only the store repository takes a store token. Update arguments also shift: update-exit-service.ts:60-66 passes `infosToken.id` where `ExitRepository.update` reads `id_product` (ExitRepository.ts:62-68), and update-defective-product-service.ts:53-58 passes it where `DefectiveProductRepository.update` reads `id_entrance` (DefectiveProductRepository.ts:58-63). Only the devolution update is also modelled as written (see "## Findings").
- DevolutionServices.UpdateDevolutionService: it runs the update the repository interface declares on the in-memory repository, as a lookup, the ownership walk and the repository's own update with the stored entrance id; neither repository class has a method with that signature.
- Validation.FirstIssue: a `zod` value of the wrong type is reported with the field's type message. `zod`'s other issue kinds are not modelled.

## Findings

| source | as written | input that shows it | evidently intended | confidence | as-written member | corrected member |
|---|---|---|---|---|---|---|
| src/api/services/EntranceService.ts:173-175 | when the repository answers ProductNotFound, the message "Nenhum produto foi encontrado com o ID: " is followed by `id`, the entrance's id | update with id = 1 and id_product = 2, where entrance 1 exists and product 2 does not: the message names product 1 | the message names `id_product`, as create does at line 101 | not executed | LegacyEntranceService.UpdateResultAsWritten, LegacyEntranceService.AsWrittenNamesTheEntrance | LegacyEntranceService.UpdateResult |
| src/api/services/devolution/update-devolution-service.ts:53-58 | the use case holds the Prisma repository (line 12), whose `update` reads its fourth argument as the entrance id, and passes `infosToken.id` there; no ownership is checked, so the Unauthorized branch at lines 60-66 cannot be reached | store 2 updates devolution 1, which hangs off entrance 1 of store 1's product, while an entrance 2 exists: the update succeeds and moves the report to entrance 2 | the update `IDevolution.update` declares (IDevolution.ts:18-25): NotAuthorized unless the caller owns the report's stored entrance, which the report keeps | not executed | DevolutionServices.UpdateDevolutionServiceAsWritten.Execute, DevolutionServices.AsWrittenUpdatesAnotherStoresReport | DevolutionServices.DeclaredUpdateOutcome, DevolutionServices.UpdateDevolutionService.Execute |
