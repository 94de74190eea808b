/** The older product service, built on the Prisma repository. It checks
    its inputs by JavaScript truthiness rather than a schema: an absent or
    empty name, or an absent or zero price, is an unprocessable entity.
    Unlike the use cases, it answers a missing product on update and delete
    with a conflict, not a not-found. */
module LegacyProductService {
  import opened Wrappers
  import opened Tables
  import opened Records
  import opened Responses
  import opened Errors
  import opened Messages
  import opened PrismaProduct
  import ProductServices

  const NameRequired := "Nome do produto é obrigatório"
  const PriceRequired := "Preço do produto é obrigatório"

  type ProductResult = Either<AppError, ProductReply>

  /** The truthiness checks of create and update. `None` is a value
      JavaScript treats as false before its type matters (`undefined`,
      `null`, and for the price also `NaN`). The name is checked first. */
  function Issue(nameProduct: Option<string>, priceProduct: Option<real>): (r: Option<string>)
    ensures r.None? <==>
      nameProduct.Some? && nameProduct.value != "" && priceProduct.Some? && priceProduct.value != 0.0
    ensures (nameProduct.None? || nameProduct.value == "") ==> r == Some(NameRequired)
    ensures nameProduct.Some? && nameProduct.value != "" && (priceProduct.None? || priceProduct.value == 0.0) ==>
      r == Some(PriceRequired)
  {
    if nameProduct.None? || nameProduct.value == "" then Some(NameRequired)
    else if priceProduct.None? || priceProduct.value == 0.0 then Some(PriceRequired)
    else None
  }

  /** How getById answers a repository reply. */
  function GetByIdResult(reply: ProductReply, id: int): (r: ProductResult)
    ensures r == Failure(NotFound(WithId(ProductServices.ProductNotFoundPrefix, id))) <==>
      reply == Sentinel(EProductResponse.ProductNotFound)
    ensures r.Success? <==> reply != Sentinel(EProductResponse.ProductNotFound)
    ensures r.Success? ==> r.value == reply
  {
    if reply == Sentinel(EProductResponse.ProductNotFound) then
      Failure(NotFound(WithId(ProductServices.ProductNotFoundPrefix, id)))
    else Success(reply)
  }

  /** How create answers a repository reply: a taken name is a conflict
      that names it. */
  function CreateResult(reply: ProductReply, nameProduct: string): (r: ProductResult)
    ensures r == Failure(Conflict(WithName(ProductServices.ProductExistsPrefix, nameProduct))) <==>
      reply == Sentinel(EProductResponse.ProductExists)
    ensures r.Success? <==> reply != Sentinel(EProductResponse.ProductExists)
    ensures r.Success? ==> r.value == reply
  {
    if reply == Sentinel(EProductResponse.ProductExists) then
      Failure(Conflict(WithName(ProductServices.ProductExistsPrefix, nameProduct)))
    else Success(reply)
  }

  /** How update answers a repository reply: a taken name and a missing
      product are both conflicts. */
  function UpdateResult(reply: ProductReply, id: int, nameProduct: string): (r: ProductResult)
    ensures r == Failure(Conflict(WithName(ProductServices.ProductExistsPrefix, nameProduct))) <==>
      reply == Sentinel(EProductResponse.ProductExists)
    ensures r == Failure(Conflict(WithId(ProductServices.ProductNotFoundPrefix, id))) <==>
      reply == Sentinel(EProductResponse.ProductNotFound)
    ensures r.Success? <==>
      reply.Row? || reply == Sentinel(EProductResponse.StoreNotFound) || reply == Sentinel(EProductResponse.NotAuthorized)
    ensures r.Success? ==> r.value == reply
  {
    var taken := WithName(ProductServices.ProductExistsPrefix, nameProduct);
    var missing := WithId(ProductServices.ProductNotFoundPrefix, id);
    // The two conflicts differ in their first character.
    assert taken[0] == taken[..|ProductServices.ProductExistsPrefix|][0] == 'J';
    assert missing[0] == missing[..|ProductServices.ProductNotFoundPrefix|][0] == 'N';
    match reply
    case Row(_) => Success(reply)
    case Sentinel(code) =>
      match code
      case ProductExists => Failure(Conflict(taken))
      case ProductNotFound => Failure(Conflict(missing))
      case StoreNotFound => Success(reply)
      case NotAuthorized => Success(reply)
  }

  /** How delete answers a repository reply: a missing product is a
      conflict. */
  function DeleteResult(reply: ProductReply, id: int): (r: ProductResult)
    ensures r == Failure(Conflict(WithId(ProductServices.ProductNotFoundPrefix, id))) <==>
      reply == Sentinel(EProductResponse.ProductNotFound)
    ensures r.Success? <==> reply != Sentinel(EProductResponse.ProductNotFound)
    ensures r.Success? ==> r.value == reply
  {
    if reply == Sentinel(EProductResponse.ProductNotFound) then
      Failure(Conflict(WithId(ProductServices.ProductNotFoundPrefix, id)))
    else Success(reply)
  }

  class ProductService {
    const productRepository: ProductRepository

    constructor (productRepository: ProductRepository)
      ensures this.productRepository == productRepository
    {
      this.productRepository := productRepository;
    }

    /** No validation: the id goes straight to the repository. */
    method GetById(id: int) returns (result: ProductResult)
      ensures result == GetByIdResult(GetByIdOutcome(productRepository.db.products, id), id)
      ensures result.Success? ==> result.value.Row? && IsFirst(productRepository.db.products, ProductId, id, result.value.row)
    {
      var reply := productRepository.GetById(id);
      result := GetByIdResult(reply, id);
    }

    /** The store, the stock and the new id are filled in by the database. */
    method Create(nameProduct: Option<string>, priceProduct: Option<real>, newId: int, idStore: int, stock: int)
      returns (result: ProductResult)
      requires productRepository.db.Valid() && Absent(productRepository.db.products, ProductId, newId)
      modifies productRepository.db
      ensures productRepository.db.Valid()
      ensures unchanged(productRepository.db`stores, productRepository.db`entrances, productRepository.db`exits,
                        productRepository.db`devolutions, productRepository.db`defectiveProducts)
      ensures Issue(nameProduct, priceProduct).Some? ==>
        result == Failure(UnprocessableEntity(Issue(nameProduct, priceProduct).value)) &&
        productRepository.db.products == old(productRepository.db.products)
      ensures Issue(nameProduct, priceProduct).None? ==>
        var reply := CreateOutcome(
          old(productRepository.db.products), nameProduct.value, priceProduct.value, newId, idStore, stock);
        result == CreateResult(reply, nameProduct.value) &&
        productRepository.db.products == old(productRepository.db.products) + RowsOf(reply)
      ensures result.Success? ==>
        result.value == Row(Product(newId, idStore, nameProduct.value, priceProduct.value, stock))
    {
      var issue := Issue(nameProduct, priceProduct);
      if issue.Some? {
        return Failure(UnprocessableEntity(issue.value));
      }
      var reply := productRepository.Create(nameProduct.value, priceProduct.value, newId, idStore, stock);
      result := CreateResult(reply, nameProduct.value);
    }

    method Update(id: int, nameProduct: Option<string>, priceProduct: Option<real>) returns (result: ProductResult)
      requires productRepository.db.Valid()
      modifies productRepository.db
      ensures productRepository.db.Valid()
      ensures unchanged(productRepository.db`stores, productRepository.db`entrances, productRepository.db`exits,
                        productRepository.db`devolutions, productRepository.db`defectiveProducts)
      ensures Issue(nameProduct, priceProduct).Some? ==>
        result == Failure(UnprocessableEntity(Issue(nameProduct, priceProduct).value)) &&
        productRepository.db.products == old(productRepository.db.products)
      ensures Issue(nameProduct, priceProduct).None? ==>
        var reply := UpdateOutcome(old(productRepository.db.products), id, nameProduct.value, priceProduct.value);
        result == UpdateResult(reply, id, nameProduct.value) &&
        (reply.Sentinel? ==> productRepository.db.products == old(productRepository.db.products)) &&
        (reply.Row? ==>
          productRepository.db.products ==
          old(productRepository.db.products)[Find(old(productRepository.db.products), ProductId, id).value := reply.row])
      ensures result.Success? ==>
        result.value.Row? && result.value.row.id == id && result.value.row.nameProduct == nameProduct.value
    {
      var issue := Issue(nameProduct, priceProduct);
      if issue.Some? {
        return Failure(UnprocessableEntity(issue.value));
      }
      var reply := productRepository.Update(id, nameProduct.value, priceProduct.value);
      result := UpdateResult(reply, id, nameProduct.value);
    }

    method Delete(id: int) returns (result: ProductResult)
      requires productRepository.db.Valid()
      modifies productRepository.db
      ensures productRepository.db.Valid()
      ensures unchanged(productRepository.db`stores, productRepository.db`entrances, productRepository.db`exits,
                        productRepository.db`devolutions, productRepository.db`defectiveProducts)
      ensures var reply := DeleteOutcome(old(productRepository.db.products), id);
        result == DeleteResult(reply, id) &&
        (reply.Sentinel? ==> productRepository.db.products == old(productRepository.db.products)) &&
        (reply.Row? ==>
          productRepository.db.products ==
          Remove(old(productRepository.db.products), Find(old(productRepository.db.products), ProductId, id).value))
      ensures result.Success? ==> result.value.Row? && result.value.row.id == id
    {
      var reply := productRepository.Delete(id);
      result := DeleteResult(reply, id);
    }
  }
}
