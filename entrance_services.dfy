/** The entrance use cases: update, delete and get by id. A request that
    fails its schema is a bad request and leaves the repository alone;
    otherwise every sentinel the repository answers becomes an error, so a
    success always carries an entrance. */
module EntranceServices {
  import opened Wrappers
  import opened Tables
  import opened Records
  import opened Responses
  import opened Errors
  import opened Validation
  import opened Schemas
  import opened Messages
  import opened InMemoryEntrance

  const SupplierRequired := "Informe a fornecedora do produto"
  const SupplierTooShort := "O nome da fornecedora deve ter pelo menos 2 caracteres"
  const PriceTooLow := "O preço total da entrada deve ser maior que 0.05"

  const Supplier: TextField := TextField(
    SupplierRequired, "O nome da fornecedora deve ser uma string", Min(2, SupplierTooShort))
  const Quantity: IntField := IntField(
    "Informe a quantidade de produtos do lote (entrada)",
    "A quantidade de produtos deve ser um número",
    Min(1, "A quantidade de produtos não pode ser menor que 1"))
  const Price: PriceField := PriceField(
    "Informe o preço total do lote (entrada)", "O preço total deve ser um número", Min(0.05, PriceTooLow))
  const ProductIdField: IntField := IntField(
    "O ID do produto é obrigatório",
    "O ID do produto deve ser um número",
    Min(1, "O ID do produto não pode ser menor que 1"))

  const UpdateNotAuthorized := "Você não tem permissão para atualizar uma entrada dessa loja"
  const DeleteNotAuthorized := "Você não tem permissão para deletar uma entrada dessa loja"
  const EntranceNotFoundPrefix := "Nenhuma entrada foi encontrada com o ID: "
  const ProductNotFoundPrefix := "Nenhum produto foi encontrado com o ID: "

  type EntranceResult = Either<AppError, EntranceReply>

  /** The update schema: id, supplier (at least 2 characters), quantity (at
      least 1), price (at least 0.05), product id (at least 1). */
  function UpdateIssue(
    id: Input<int>, supplier: Input<string>, quantityProducts: Input<int>, priceTotal: Input<real>,
    idProduct: Input<int>): (r: Option<string>)
    ensures r.None? <==>
      id.Val? && id.value >= 1 && supplier.Val? && Utf16Length(supplier.value) >= 2 &&
      quantityProducts.Val? && quantityProducts.value >= 1 && priceTotal.Val? && priceTotal.value >= 0.05 &&
      idProduct.Val? && idProduct.value >= 1
    ensures ValidateId(id).Some? ==> r == ValidateId(id)
    ensures ValidateId(id).None? && supplier.Missing? ==> r == Some(SupplierRequired)
    ensures ValidateId(id).None? && supplier.Val? && Utf16Length(supplier.value) < 2 ==> r == Some(SupplierTooShort)
  {
    var fields := [IntValue(IdField, id), TextValue(Supplier, supplier), IntValue(Quantity, quantityProducts),
                   PriceValue(Price, priceTotal), IntValue(ProductIdField, idProduct)];
    assert Passes(fields[0]) <==> id.Val? && id.value >= 1;
    assert Passes(fields[1]) <==> supplier.Val? && Utf16Length(supplier.value) >= 2;
    assert Passes(fields[2]) <==> quantityProducts.Val? && quantityProducts.value >= 1;
    assert Passes(fields[3]) <==> priceTotal.Val? && priceTotal.value >= 0.05;
    assert Passes(fields[4]) <==> idProduct.Val? && idProduct.value >= 1;
    assert Passes(fields[0]) ==> FirstIssue(fields) == FirstIssue(fields[1..]);
    FirstIssue(fields)
  }

  /** How update answers a repository reply. */
  function UpdateResult(reply: EntranceReply, id: int, idProduct: int): (r: EntranceResult)
    ensures r == Failure(Unauthorized(UpdateNotAuthorized)) <==> reply == Sentinel(EEntranceResponse.NotAuthorized)
    ensures r == Failure(NotFound(WithId(EntranceNotFoundPrefix, id))) <==>
      reply == Sentinel(EEntranceResponse.EntranceNotFound)
    ensures reply == Sentinel(EEntranceResponse.ProductNotFound) ==>
      r == Failure(NotFound(WithId(ProductNotFoundPrefix, idProduct)))
    ensures r.Success? <==> reply.Row?
    ensures r.Success? ==> r.value == reply
  {
    match reply
    case Row(_) => Success(reply)
    case Sentinel(code) =>
      match code
      case NotAuthorized => Failure(Unauthorized(UpdateNotAuthorized))
      case EntranceNotFound => Failure(NotFound(WithId(EntranceNotFoundPrefix, id)))
      case ProductNotFound => Failure(NotFound(WithId(ProductNotFoundPrefix, idProduct)))
  }

  /** How delete answers a repository reply. */
  function DeleteResult(reply: EntranceReply, id: int): (r: EntranceResult)
    ensures r == Failure(Unauthorized(DeleteNotAuthorized)) <==> reply == Sentinel(EEntranceResponse.NotAuthorized)
    ensures r == Failure(NotFound(WithId(EntranceNotFoundPrefix, id))) <==>
      reply == Sentinel(EEntranceResponse.EntranceNotFound)
    ensures r.Success? <==> reply.Row? || reply == Sentinel(EEntranceResponse.ProductNotFound)
    ensures r.Success? ==> r.value == reply
  {
    match reply
    case Row(_) => Success(reply)
    case Sentinel(code) =>
      match code
      case NotAuthorized => Failure(Unauthorized(DeleteNotAuthorized))
      case EntranceNotFound => Failure(NotFound(WithId(EntranceNotFoundPrefix, id)))
      case ProductNotFound => Success(reply)
  }

  /** How get-by-id answers a repository reply. */
  function GetByIdResult(reply: EntranceReply, id: int): (r: EntranceResult)
    ensures r == Failure(NotFound(WithId(EntranceNotFoundPrefix, id))) <==>
      reply == Sentinel(EEntranceResponse.EntranceNotFound)
    ensures r.Success? <==> reply != Sentinel(EEntranceResponse.EntranceNotFound)
    ensures r.Success? ==> r.value == reply
  {
    if reply == Sentinel(EEntranceResponse.EntranceNotFound) then
      Failure(NotFound(WithId(EntranceNotFoundPrefix, id)))
    else Success(reply)
  }

  class UpdateEntranceService {
    const repository: InMemoryEntranceRepository

    constructor (repository: InMemoryEntranceRepository)
      ensures this.repository == repository
    {
      this.repository := repository;
    }

    method Execute(
      id: Input<int>, supplier: Input<string>, quantityProducts: Input<int>, priceTotal: Input<real>,
      idProduct: Input<int>, infosToken: InfosToken)
      returns (result: EntranceResult)
      modifies repository
      ensures repository.products == old(repository.products)
      ensures UpdateIssue(id, supplier, quantityProducts, priceTotal, idProduct).Some? ==>
        result == Failure(BadRequest(UpdateIssue(id, supplier, quantityProducts, priceTotal, idProduct).value)) &&
        repository.entrances == old(repository.entrances)
      ensures UpdateIssue(id, supplier, quantityProducts, priceTotal, idProduct).None? ==>
        var reply := UpdateOutcome(
          old(repository.entrances), repository.products, id.value, supplier.value, quantityProducts.value,
          priceTotal.value, idProduct.value, infosToken.id);
        result == UpdateResult(reply, id.value, idProduct.value) &&
        (reply.Sentinel? ==> repository.entrances == old(repository.entrances)) &&
        (reply.Row? ==>
          repository.entrances ==
          old(repository.entrances)[Find(old(repository.entrances), EntranceId, id.value).value := reply.row])
      ensures result.Success? ==> result.value.Row?
    {
      var issue := UpdateIssue(id, supplier, quantityProducts, priceTotal, idProduct);
      if issue.Some? {
        return Failure(BadRequest(issue.value));
      }
      var reply := repository.Update(
        id.value, supplier.value, quantityProducts.value, priceTotal.value, idProduct.value, infosToken.id);
      result := UpdateResult(reply, id.value, idProduct.value);
    }
  }

  class DeleteEntranceService {
    const repository: InMemoryEntranceRepository

    constructor (repository: InMemoryEntranceRepository)
      ensures this.repository == repository
    {
      this.repository := repository;
    }

    method Execute(id: Input<int>, infosToken: InfosToken) returns (result: EntranceResult)
      modifies repository
      ensures repository.products == old(repository.products)
      ensures ValidateId(id).Some? ==>
        result == Failure(BadRequest(ValidateId(id).value)) && repository.entrances == old(repository.entrances)
      ensures ValidateId(id).None? ==>
        var reply := DeleteOutcome(old(repository.entrances), repository.products, id.value, infosToken.id);
        result == DeleteResult(reply, id.value) &&
        (reply.Sentinel? ==> repository.entrances == old(repository.entrances)) &&
        (reply.Row? ==> repository.entrances == old(repository.entrances)[..|old(repository.entrances)| - 1])
      ensures result.Success? ==> result.value.Row?
    {
      var issue := ValidateId(id);
      if issue.Some? {
        return Failure(BadRequest(issue.value));
      }
      var reply := repository.Delete(id.value, infosToken.id);
      result := DeleteResult(reply, id.value);
    }
  }

  class GetEntranceByIdService {
    const repository: InMemoryEntranceRepository

    constructor (repository: InMemoryEntranceRepository)
      ensures this.repository == repository
    {
      this.repository := repository;
    }

    /** Reads only: nothing in the repository changes. */
    method Execute(id: Input<int>) returns (result: EntranceResult)
      ensures ValidateId(id).Some? ==> result == Failure(BadRequest(ValidateId(id).value))
      ensures ValidateId(id).None? ==>
        result == GetByIdResult(GetByIdOutcome(repository.entrances, id.value), id.value)
      ensures result.Success? ==> result.value.Row?
    {
      var issue := ValidateId(id);
      if issue.Some? {
        return Failure(BadRequest(issue.value));
      }
      var reply := repository.GetById(id.value);
      result := GetByIdResult(reply, id.value);
    }
  }
}
