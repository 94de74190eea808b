/** The defective-product use cases: create, update, delete and get by id.
    A request that fails its schema is a bad request and leaves the
    repository alone; otherwise the repository's NotAuthorized and "not
    found" sentinels become errors and anything else is a success. */
module DefectiveProductServices {
  import opened Wrappers
  import opened Tables
  import opened Ownership
  import opened Records
  import opened Responses
  import opened Errors
  import opened Validation
  import opened Schemas
  import opened Messages
  import opened InMemoryDefectiveProduct

  const DescriptionRequired := "Informe o defeito desse produto"
  const DescriptionTooShort := "A descrição deve ter pelo menos 2 caracteres"

  const Description: TextField := TextField(
    DescriptionRequired, "A descrição do defeito do produto deve ser uma string", Min(2, DescriptionTooShort))
  const Quantity: IntField := IntField(
    "Informe a quantidade de produtos defeituosos",
    "A quantidade de produtos defeituosos deve ser um número",
    Min(1, "A quantidade de produtos não pode ser menor que 1"))
  const EntranceIdField: IntField := IntField(
    "O ID da entrada é obrigatório",
    "O ID da entrada deve ser um número",
    Min(1, "O ID da entrada não pode ser menor que 1"))

  const CreateNotAuthorized := "Você não tem permissão para criar um relatório de um produto defeituoso nessa loja"
  const UpdateNotAuthorized := "Você não tem permissão para atualizar um relatório de produto defeituoso dessa loja"
  const DeleteNotAuthorized := "Você não tem permissão para deletar um relatório de produto defeituoso dessa loja"
  const EntranceNotFoundPrefix := "Nenhuma entrada foi encontrada com o ID: "
  const DefectiveProductNotFoundPrefix := "Nenhum produto defeituoso foi encontrado com o ID: "

  type DefectiveProductResult = Either<AppError, DefectiveProductReply>

  /** The create schema: description (at least 2 characters), quantity (at
      least 1), entrance id (at least 1). */
  function CreateIssue(description: Input<string>, quantityProducts: Input<int>, idEntrance: Input<int>)
    : (r: Option<string>)
    ensures r.None? <==>
      description.Val? && Utf16Length(description.value) >= 2 && quantityProducts.Val? && quantityProducts.value >= 1 &&
      idEntrance.Val? && idEntrance.value >= 1
    ensures description.Missing? ==> r == Some(DescriptionRequired)
    ensures description.Val? && Utf16Length(description.value) < 2 ==> r == Some(DescriptionTooShort)
  {
    var fields := [TextValue(Description, description), IntValue(Quantity, quantityProducts),
                   IntValue(EntranceIdField, idEntrance)];
    assert Passes(fields[0]) <==> description.Val? && Utf16Length(description.value) >= 2;
    assert Passes(fields[1]) <==> quantityProducts.Val? && quantityProducts.value >= 1;
    assert Passes(fields[2]) <==> idEntrance.Val? && idEntrance.value >= 1;
    FirstIssue(fields)
  }

  /** The update schema: id, description, quantity. */
  function UpdateIssue(id: Input<int>, description: Input<string>, quantityProducts: Input<int>): (r: Option<string>)
    ensures r.None? <==>
      id.Val? && id.value >= 1 && description.Val? && Utf16Length(description.value) >= 2 &&
      quantityProducts.Val? && quantityProducts.value >= 1
    ensures ValidateId(id).Some? ==> r == ValidateId(id)
    ensures ValidateId(id).None? && description.Missing? ==> r == Some(DescriptionRequired)
  {
    var fields := [IntValue(IdField, id), TextValue(Description, description), IntValue(Quantity, quantityProducts)];
    assert Passes(fields[0]) <==> id.Val? && id.value >= 1;
    assert Passes(fields[1]) <==> description.Val? && Utf16Length(description.value) >= 2;
    assert Passes(fields[2]) <==> quantityProducts.Val? && quantityProducts.value >= 1;
    assert Passes(fields[0]) ==> FirstIssue(fields) == FirstIssue(fields[1..]);
    FirstIssue(fields)
  }

  /** How create answers a repository reply. */
  function CreateResult(reply: DefectiveProductReply, idEntrance: int): (r: DefectiveProductResult)
    ensures r == Failure(Unauthorized(CreateNotAuthorized)) <==>
      reply == Sentinel(EDefectiveProductResponse.NotAuthorized)
    ensures r == Failure(NotFound(WithId(EntranceNotFoundPrefix, idEntrance))) <==>
      reply == Sentinel(EDefectiveProductResponse.EntranceNotFound)
    ensures r.Success? <==> reply.Row? || reply == Sentinel(EDefectiveProductResponse.DefectiveProductNotFound)
    ensures r.Success? ==> r.value == reply
  {
    match reply
    case Row(_) => Success(reply)
    case Sentinel(code) =>
      match code
      case NotAuthorized => Failure(Unauthorized(CreateNotAuthorized))
      case EntranceNotFound => Failure(NotFound(WithId(EntranceNotFoundPrefix, idEntrance)))
      case DefectiveProductNotFound => Success(reply)
  }

  /** How update answers a repository reply. */
  function UpdateResult(reply: DefectiveProductReply, id: int): (r: DefectiveProductResult)
    ensures r == Failure(Unauthorized(UpdateNotAuthorized)) <==>
      reply == Sentinel(EDefectiveProductResponse.NotAuthorized)
    ensures r == Failure(NotFound(WithId(DefectiveProductNotFoundPrefix, id))) <==>
      reply == Sentinel(EDefectiveProductResponse.DefectiveProductNotFound)
    ensures r.Success? <==> reply.Row? || reply == Sentinel(EDefectiveProductResponse.EntranceNotFound)
    ensures r.Success? ==> r.value == reply
  {
    match reply
    case Row(_) => Success(reply)
    case Sentinel(code) =>
      match code
      case NotAuthorized => Failure(Unauthorized(UpdateNotAuthorized))
      case DefectiveProductNotFound => Failure(NotFound(WithId(DefectiveProductNotFoundPrefix, id)))
      case EntranceNotFound => Success(reply)
  }

  /** How delete answers a repository reply. */
  function DeleteResult(reply: DefectiveProductReply, id: int): (r: DefectiveProductResult)
    ensures r == Failure(Unauthorized(DeleteNotAuthorized)) <==>
      reply == Sentinel(EDefectiveProductResponse.NotAuthorized)
    ensures r == Failure(NotFound(WithId(DefectiveProductNotFoundPrefix, id))) <==>
      reply == Sentinel(EDefectiveProductResponse.DefectiveProductNotFound)
    ensures r.Success? <==> reply.Row? || reply == Sentinel(EDefectiveProductResponse.EntranceNotFound)
    ensures r.Success? ==> r.value == reply
  {
    match reply
    case Row(_) => Success(reply)
    case Sentinel(code) =>
      match code
      case NotAuthorized => Failure(Unauthorized(DeleteNotAuthorized))
      case DefectiveProductNotFound => Failure(NotFound(WithId(DefectiveProductNotFoundPrefix, id)))
      case EntranceNotFound => Success(reply)
  }

  /** How get-by-id answers a repository reply. */
  function GetByIdResult(reply: DefectiveProductReply, id: int): (r: DefectiveProductResult)
    ensures r == Failure(NotFound(WithId(DefectiveProductNotFoundPrefix, id))) <==>
      reply == Sentinel(EDefectiveProductResponse.DefectiveProductNotFound)
    ensures r.Success? <==> reply != Sentinel(EDefectiveProductResponse.DefectiveProductNotFound)
    ensures r.Success? ==> r.value == reply
  {
    if reply == Sentinel(EDefectiveProductResponse.DefectiveProductNotFound) then
      Failure(NotFound(WithId(DefectiveProductNotFoundPrefix, id)))
    else Success(reply)
  }

  class CreateDefectiveProductService {
    const repository: InMemoryDefectiveProductRepository

    constructor (repository: InMemoryDefectiveProductRepository)
      ensures this.repository == repository
    {
      this.repository := repository;
    }

    method Execute(description: Input<string>, quantityProducts: Input<int>, idEntrance: Input<int>, infosToken: InfosToken)
      returns (result: DefectiveProductResult)
      modifies repository
      ensures CreateIssue(description, quantityProducts, idEntrance).Some? ==>
        result == Failure(BadRequest(CreateIssue(description, quantityProducts, idEntrance).value)) &&
        repository.defectiveProducts == old(repository.defectiveProducts)
      ensures CreateIssue(description, quantityProducts, idEntrance).None? ==>
        var reply := CreateOutcome(
          repository.entrances, repository.products, description.value, quantityProducts.value, idEntrance.value,
          infosToken.id);
        result == CreateResult(reply, idEntrance.value) &&
        repository.defectiveProducts == old(repository.defectiveProducts) + RowsOf(reply)
      ensures result.Success? ==>
        result.value.Row? &&
        EntranceOwner(repository.entrances, repository.products, idEntrance.value) == Some(infosToken.id)
    {
      var issue := CreateIssue(description, quantityProducts, idEntrance);
      if issue.Some? {
        return Failure(BadRequest(issue.value));
      }
      var reply := repository.Create(description.value, quantityProducts.value, idEntrance.value, infosToken.id);
      result := CreateResult(reply, idEntrance.value);
    }
  }

  class UpdateDefectiveProductService {
    const repository: InMemoryDefectiveProductRepository

    constructor (repository: InMemoryDefectiveProductRepository)
      ensures this.repository == repository
    {
      this.repository := repository;
    }

    method Execute(id: Input<int>, description: Input<string>, quantityProducts: Input<int>, infosToken: InfosToken)
      returns (result: DefectiveProductResult)
      modifies repository
      ensures UpdateIssue(id, description, quantityProducts).Some? ==>
        result == Failure(BadRequest(UpdateIssue(id, description, quantityProducts).value)) &&
        repository.defectiveProducts == old(repository.defectiveProducts)
      ensures UpdateIssue(id, description, quantityProducts).None? ==>
        var reply := UpdateOutcome(
          old(repository.defectiveProducts), repository.entrances, repository.products, id.value, description.value,
          quantityProducts.value, infosToken.id);
        result == UpdateResult(reply, id.value) &&
        (reply.Sentinel? ==> repository.defectiveProducts == old(repository.defectiveProducts)) &&
        (reply.Row? ==>
          repository.defectiveProducts ==
          old(repository.defectiveProducts)[
            Find(old(repository.defectiveProducts), DefectiveProductId, id.value).value := reply.row])
      ensures result.Success? ==>
        result.value.Row? &&
        EntranceOwner(repository.entrances, repository.products, result.value.row.idEntrance) == Some(infosToken.id)
    {
      var issue := UpdateIssue(id, description, quantityProducts);
      if issue.Some? {
        return Failure(BadRequest(issue.value));
      }
      var reply := repository.Update(id.value, description.value, quantityProducts.value, infosToken.id);
      result := UpdateResult(reply, id.value);
    }
  }

  class DeleteDefectiveProductService {
    const repository: InMemoryDefectiveProductRepository

    constructor (repository: InMemoryDefectiveProductRepository)
      ensures this.repository == repository
    {
      this.repository := repository;
    }

    method Execute(id: Input<int>, infosToken: InfosToken) returns (result: DefectiveProductResult)
      modifies repository
      ensures ValidateId(id).Some? ==>
        result == Failure(BadRequest(ValidateId(id).value)) &&
        repository.defectiveProducts == old(repository.defectiveProducts)
      ensures ValidateId(id).None? ==>
        var reply := DeleteOutcome(
          old(repository.defectiveProducts), repository.entrances, repository.products, id.value, infosToken.id);
        result == DeleteResult(reply, id.value) &&
        (reply.Sentinel? ==> repository.defectiveProducts == old(repository.defectiveProducts)) &&
        (reply.Row? ==>
          repository.defectiveProducts == old(repository.defectiveProducts)[..|old(repository.defectiveProducts)| - 1])
      ensures result.Success? ==>
        result.value.Row? &&
        EntranceOwner(repository.entrances, repository.products, result.value.row.idEntrance) == Some(infosToken.id)
    {
      var issue := ValidateId(id);
      if issue.Some? {
        return Failure(BadRequest(issue.value));
      }
      var reply := repository.Delete(id.value, infosToken.id);
      result := DeleteResult(reply, id.value);
    }
  }

  class GetDefectiveProductByIdService {
    const repository: InMemoryDefectiveProductRepository

    constructor (repository: InMemoryDefectiveProductRepository)
      ensures this.repository == repository
    {
      this.repository := repository;
    }

    method Execute(id: Input<int>) returns (result: DefectiveProductResult)
      ensures ValidateId(id).Some? ==> result == Failure(BadRequest(ValidateId(id).value))
      ensures ValidateId(id).None? ==>
        result == GetByIdResult(GetByIdOutcome(repository.defectiveProducts, id.value), id.value)
      ensures result.Success? ==> result.value.Row?
    {
      var issue := ValidateId(id);
      if issue.Some? {
        return Failure(BadRequest(issue.value));
      }
      var reply := repository.GetById(id.value);
      result := GetByIdResult(reply, id.value);
    }
  }
}
