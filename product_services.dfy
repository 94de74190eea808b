/** The product use cases: create, update, delete and get by id. A request
    that fails its schema is a bad request and leaves the repository alone;
    otherwise each sentinel the repository answers becomes an error. */
module ProductServices {
  import opened Wrappers
  import opened Tables
  import opened Records
  import opened Responses
  import opened Errors
  import opened Validation
  import opened Schemas
  import opened Messages
  import opened InMemoryProduct

  const NameRequired := "Informe o nome do produto"
  const NameTooShort := "O nome do produto deve ter pelo menos 2 caracteres"
  const PriceTooLow := "O preço do produto deve ser maior que 0.05"

  const Name: TextField := TextField(NameRequired, "O nome do produto deve ser uma string", Min(2, NameTooShort))
  const Price: PriceField := PriceField(
    "Informe o preço do produto", "O preço do produto deve ser um número", Min(0.05, PriceTooLow))
  const StoreIdField: IntField := IntField(
    "O ID da loja é obrigatório",
    "O ID da loja deve ser um número",
    Min(1, "O ID da loja não pode ser menor que 1"))

  const CreateNotAuthorized := "Você não tem permissão para criar um produto nessa loja"
  const UpdateNotAuthorized := "Você não tem permissão para atualizar um produto dessa loja"
  const DeleteNotAuthorized := "Você não tem permissão para deletar um produto dessa loja"
  const ProductExistsPrefix := "Já existe um produto com esse nome: "
  const StoreNotFoundPrefix := "Nenhuma loja foi encontrada com o ID: "
  const ProductNotFoundPrefix := "Nenhum produto foi encontrado com o ID: "

  type ProductResult = Either<AppError, ProductReply>

  /** The create schema: name (at least 2 characters), price (at least
      0.05), store id (at least 1). */
  function CreateIssue(nameProduct: Input<string>, priceProduct: Input<real>, idStore: Input<int>)
    : (r: Option<string>)
    ensures r.None? <==>
      nameProduct.Val? && Utf16Length(nameProduct.value) >= 2 && priceProduct.Val? && priceProduct.value >= 0.05 &&
      idStore.Val? && idStore.value >= 1
    ensures nameProduct.Missing? ==> r == Some(NameRequired)
    ensures nameProduct.Val? && Utf16Length(nameProduct.value) < 2 ==> r == Some(NameTooShort)
  {
    var fields := [TextValue(Name, nameProduct), PriceValue(Price, priceProduct), IntValue(StoreIdField, idStore)];
    assert Passes(fields[0]) <==> nameProduct.Val? && Utf16Length(nameProduct.value) >= 2;
    assert Passes(fields[1]) <==> priceProduct.Val? && priceProduct.value >= 0.05;
    assert Passes(fields[2]) <==> idStore.Val? && idStore.value >= 1;
    FirstIssue(fields)
  }

  /** The update schema: id, name, price. */
  function UpdateIssue(id: Input<int>, nameProduct: Input<string>, priceProduct: Input<real>): (r: Option<string>)
    ensures r.None? <==>
      id.Val? && id.value >= 1 && nameProduct.Val? && Utf16Length(nameProduct.value) >= 2 &&
      priceProduct.Val? && priceProduct.value >= 0.05
    ensures ValidateId(id).Some? ==> r == ValidateId(id)
    ensures ValidateId(id).None? && nameProduct.Missing? ==> r == Some(NameRequired)
    ensures ValidateId(id).None? && nameProduct.Val? && Utf16Length(nameProduct.value) < 2 ==> r == Some(NameTooShort)
  {
    var fields := [IntValue(IdField, id), TextValue(Name, nameProduct), PriceValue(Price, priceProduct)];
    assert Passes(fields[0]) <==> id.Val? && id.value >= 1;
    assert Passes(fields[1]) <==> nameProduct.Val? && Utf16Length(nameProduct.value) >= 2;
    assert Passes(fields[2]) <==> priceProduct.Val? && priceProduct.value >= 0.05;
    assert Passes(fields[0]) ==> FirstIssue(fields) == FirstIssue(fields[1..]);
    FirstIssue(fields)
  }

  /** How create answers a repository reply: a missing store is reported as
      a conflict, not as "not found". */
  function CreateResult(reply: ProductReply, nameProduct: string, idStore: int): (r: ProductResult)
    ensures r == Failure(Unauthorized(CreateNotAuthorized)) <==> reply == Sentinel(EProductResponse.NotAuthorized)
    ensures reply == Sentinel(EProductResponse.ProductExists) ==>
      r == Failure(Conflict(WithName(ProductExistsPrefix, nameProduct)))
    ensures reply == Sentinel(EProductResponse.StoreNotFound) ==>
      r == Failure(Conflict(WithId(StoreNotFoundPrefix, idStore)))
    ensures r.Success? <==> reply.Row? || reply == Sentinel(EProductResponse.ProductNotFound)
    ensures r.Success? ==> r.value == reply
  {
    match reply
    case Row(_) => Success(reply)
    case Sentinel(code) =>
      match code
      case NotAuthorized => Failure(Unauthorized(CreateNotAuthorized))
      case ProductExists => Failure(Conflict(WithName(ProductExistsPrefix, nameProduct)))
      case StoreNotFound => Failure(Conflict(WithId(StoreNotFoundPrefix, idStore)))
      case ProductNotFound => Success(reply)
  }

  /** How update answers a repository reply. */
  function UpdateResult(reply: ProductReply, id: int, nameProduct: string): (r: ProductResult)
    ensures r == Failure(Unauthorized(UpdateNotAuthorized)) <==> reply == Sentinel(EProductResponse.NotAuthorized)
    ensures r == Failure(Conflict(WithName(ProductExistsPrefix, nameProduct))) <==>
      reply == Sentinel(EProductResponse.ProductExists)
    ensures r == Failure(NotFound(WithId(ProductNotFoundPrefix, id))) <==>
      reply == Sentinel(EProductResponse.ProductNotFound)
    ensures r.Success? <==> reply.Row? || reply == Sentinel(EProductResponse.StoreNotFound)
    ensures r.Success? ==> r.value == reply
  {
    match reply
    case Row(_) => Success(reply)
    case Sentinel(code) =>
      match code
      case NotAuthorized => Failure(Unauthorized(UpdateNotAuthorized))
      case ProductExists => Failure(Conflict(WithName(ProductExistsPrefix, nameProduct)))
      case ProductNotFound => Failure(NotFound(WithId(ProductNotFoundPrefix, id)))
      case StoreNotFound => Success(reply)
  }

  /** How delete answers a repository reply. */
  function DeleteResult(reply: ProductReply, id: int): (r: ProductResult)
    ensures r == Failure(Unauthorized(DeleteNotAuthorized)) <==> reply == Sentinel(EProductResponse.NotAuthorized)
    ensures r == Failure(NotFound(WithId(ProductNotFoundPrefix, id))) <==>
      reply == Sentinel(EProductResponse.ProductNotFound)
    ensures r.Success? <==>
      reply.Row? || reply == Sentinel(EProductResponse.ProductExists) || reply == Sentinel(EProductResponse.StoreNotFound)
    ensures r.Success? ==> r.value == reply
  {
    match reply
    case Row(_) => Success(reply)
    case Sentinel(code) =>
      match code
      case NotAuthorized => Failure(Unauthorized(DeleteNotAuthorized))
      case ProductNotFound => Failure(NotFound(WithId(ProductNotFoundPrefix, id)))
      case ProductExists => Success(reply)
      case StoreNotFound => Success(reply)
  }

  /** How get-by-id answers a repository reply. */
  function GetByIdResult(reply: ProductReply, id: int): (r: ProductResult)
    ensures r == Failure(NotFound(WithId(ProductNotFoundPrefix, id))) <==>
      reply == Sentinel(EProductResponse.ProductNotFound)
    ensures r.Success? <==> reply != Sentinel(EProductResponse.ProductNotFound)
    ensures r.Success? ==> r.value == reply
  {
    if reply == Sentinel(EProductResponse.ProductNotFound) then Failure(NotFound(WithId(ProductNotFoundPrefix, id)))
    else Success(reply)
  }

  class CreateProductService {
    const repository: InMemoryProductRepository

    constructor (repository: InMemoryProductRepository)
      ensures this.repository == repository
    {
      this.repository := repository;
    }

    method Execute(nameProduct: Input<string>, priceProduct: Input<real>, idStore: Input<int>, infosToken: InfosToken)
      returns (result: ProductResult)
      modifies repository
      ensures CreateIssue(nameProduct, priceProduct, idStore).Some? ==>
        result == Failure(BadRequest(CreateIssue(nameProduct, priceProduct, idStore).value)) &&
        repository.products == old(repository.products)
      ensures CreateIssue(nameProduct, priceProduct, idStore).None? ==>
        var reply := CreateOutcome(
          old(repository.products), repository.stores, nameProduct.value, priceProduct.value, idStore.value,
          infosToken.id);
        result == CreateResult(reply, nameProduct.value, idStore.value) &&
        repository.products == old(repository.products) + RowsOf(reply)
      ensures result.Success? ==> result.value.Row?
    {
      var issue := CreateIssue(nameProduct, priceProduct, idStore);
      if issue.Some? {
        return Failure(BadRequest(issue.value));
      }
      var reply := repository.Create(nameProduct.value, priceProduct.value, idStore.value, infosToken.id);
      result := CreateResult(reply, nameProduct.value, idStore.value);
    }
  }

  class UpdateProductService {
    const repository: InMemoryProductRepository

    constructor (repository: InMemoryProductRepository)
      ensures this.repository == repository
    {
      this.repository := repository;
    }

    method Execute(id: Input<int>, nameProduct: Input<string>, priceProduct: Input<real>, infosToken: InfosToken)
      returns (result: ProductResult)
      modifies repository
      ensures UpdateIssue(id, nameProduct, priceProduct).Some? ==>
        result == Failure(BadRequest(UpdateIssue(id, nameProduct, priceProduct).value)) &&
        repository.products == old(repository.products)
      ensures UpdateIssue(id, nameProduct, priceProduct).None? ==>
        var reply := UpdateOutcome(
          old(repository.products), id.value, nameProduct.value, priceProduct.value, infosToken.id);
        result == UpdateResult(reply, id.value, nameProduct.value) &&
        (reply.Sentinel? ==> repository.products == old(repository.products)) &&
        (reply.Row? ==>
          repository.products ==
          old(repository.products)[Find(old(repository.products), ProductId, id.value).value := reply.row])
      ensures result.Success? ==> result.value.Row?
    {
      var issue := UpdateIssue(id, nameProduct, priceProduct);
      if issue.Some? {
        return Failure(BadRequest(issue.value));
      }
      var reply := repository.Update(id.value, nameProduct.value, priceProduct.value, infosToken.id);
      result := UpdateResult(reply, id.value, nameProduct.value);
    }
  }

  class DeleteProductService {
    const repository: InMemoryProductRepository

    constructor (repository: InMemoryProductRepository)
      ensures this.repository == repository
    {
      this.repository := repository;
    }

    /** The repository's delete only looks the product up, so nothing
        changes. */
    method Execute(id: Input<int>, infosToken: InfosToken) returns (result: ProductResult)
      ensures ValidateId(id).Some? ==> result == Failure(BadRequest(ValidateId(id).value))
      ensures ValidateId(id).None? ==>
        result == DeleteResult(DeleteOutcome(repository.products, id.value, infosToken.id), id.value)
      ensures result.Success? ==> result.value.Row? && result.value.row.idStore == infosToken.id
    {
      var issue := ValidateId(id);
      if issue.Some? {
        return Failure(BadRequest(issue.value));
      }
      var reply := repository.Delete(id.value, infosToken.id);
      result := DeleteResult(reply, id.value);
    }
  }

  class GetProductByIdService {
    const repository: InMemoryProductRepository

    constructor (repository: InMemoryProductRepository)
      ensures this.repository == repository
    {
      this.repository := repository;
    }

    method Execute(id: Input<int>) returns (result: ProductResult)
      ensures ValidateId(id).Some? ==> result == Failure(BadRequest(ValidateId(id).value))
      ensures ValidateId(id).None? ==>
        result == GetByIdResult(GetByIdOutcome(repository.products, id.value), id.value)
      ensures result.Success? ==> result.value.Row?
    {
      var issue := ValidateId(id);
      if issue.Some? {
        return Failure(BadRequest(issue.value));
      }
      var reply := repository.GetById(id.value);
      result := GetByIdResult(reply, id.value);
    }
  }
}
