/** The rows of the inventory tables (the Prisma models `Store`, `Product`,
    `Entrance`, `Exit`, `Devolution` and `DefectiveProduct`), the store
    identity carried by an authentication token, and the key functions the
    repositories search the tables by. Ids and quantities are whole
    numbers; prices are exact reals. */
module Records {

  /** A calendar day; the clock is not modelled, so a date is a value. */
  datatype Date = Date(year: int, month: int, day: int)

  /** `new Date("2020-02-10")`, the date every in-memory movement gets. */
  const FixedDate: Date := Date(2020, 2, 10)

  datatype Store = Store(id: int, nameStore: string, email: string, password: string)

  /** `quantityProductStock` is a stored column: nothing recomputes it
      from the entrances and exits of the product. */
  datatype Product = Product(
    id: int,
    idStore: int,
    nameProduct: string,
    priceProduct: real,
    quantityProductStock: int)

  datatype Entrance = Entrance(
    id: int,
    supplier: string,
    priceTotal: real,
    quantityProducts: int,
    entranceDate: Date,
    idProduct: int)

  datatype Exit = Exit(
    id: int,
    description: string,
    priceTotal: real,
    quantityProducts: int,
    exitDate: Date,
    idProduct: int)

  datatype Devolution = Devolution(
    id: int,
    description: string,
    quantityProducts: int,
    devolutionDate: Date,
    idEntrance: int)

  datatype DefectiveProduct = DefectiveProduct(
    id: int,
    description: string,
    quantityProducts: int,
    idEntrance: int)

  /** What the authentication middleware puts on a request: the id of the
      store the token was issued to. */
  datatype InfosToken = InfosToken(id: int)

  function StoreId(s: Store): int { s.id }
  function StoreName(s: Store): string { s.nameStore }
  function StoreEmail(s: Store): string { s.email }
  function ProductId(p: Product): int { p.id }
  function ProductName(p: Product): string { p.nameProduct }
  function EntranceId(e: Entrance): int { e.id }
  function ExitId(e: Exit): int { e.id }
  function DevolutionId(d: Devolution): int { d.id }
  function DefectiveProductId(d: DefectiveProduct): int { d.id }

  /** The product row every in-memory repository starts with. */
  const SeedProduct: Product :=
    Product(1, 1, "Camiseta do Corinthians", 15.0, 100)

  /** The store row the in-memory product repository starts with. */
  const SeedStore: Store :=
    Store(1, "mT loja", "matheus@gmail.com", "10203040")

  /** The entrance row the in-memory report repositories start with, dated
      when the repository is built. */
  function SeedEntrance(now: Date): Entrance
  {
    Entrance(1, "mT fornecedor", 15.0, 1, now, 1)
  }
}
