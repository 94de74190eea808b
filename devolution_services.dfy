/** The devolution use cases: create, update, delete and get by id. A
    request that fails its schema is a bad request and leaves the
    repository alone; otherwise the repository's NotAuthorized and "not
    found" sentinels become errors and anything else is a success.

    Update is written against the database repository, whose `update`
    takes `(id, description, quantity_products, id_entrance)`, while the
    service passes the caller's store id fourth, as the repository
    interface declares. `UpdateDevolutionServiceAsWritten` keeps that
    mismatch; `UpdateDevolutionService` runs the declared update. */
module DevolutionServices {
  import opened Wrappers
  import opened Tables
  import opened Ownership
  import opened Records
  import opened Responses
  import opened Errors
  import opened Validation
  import opened Schemas
  import opened Messages
  import opened InMemoryDevolution
  import PrismaDevolution

  const DescriptionRequired := "Descreva o motivo para a devolução do produto"
  const DescriptionTooShort := "A descrição deve ter pelo menos 5 caracteres"

  const Description: TextField := TextField(
    DescriptionRequired, "A descrição do motivo da devolução deve ser uma string", Min(5, DescriptionTooShort))
  const Quantity: IntField := IntField(
    "Informe a quantidade de devoluções desse produto",
    "A quantidade de devoluções deve ser um número",
    Min(1, "A quantidade de produtos não pode ser menor que 1"))
  const EntranceIdField: IntField := IntField(
    "O ID da entrada é obrigatório",
    "O ID da entrada deve ser um número",
    Min(1, "O ID da entrada não pode ser menor que 1"))

  const CreateNotAuthorized := "Você não tem permissão para criar um relatório de devolução nessa loja"
  const UpdateNotAuthorized := "Você não tem permissão para atualizar um relatório de devolução dessa loja"
  const DeleteNotAuthorized := "Você não tem permissão para deletar um relatório de devolução dessa loja"
  const EntranceNotFoundPrefix := "Nenhuma entrada foi encontrada com o ID: "
  const DevolutionNotFoundPrefix := "Nenhuma devolução foi encontrada com o ID: "

  type DevolutionResult = Either<AppError, DevolutionReply>

  /** The create schema: description (at least 5 characters), quantity (at
      least 1), entrance id (at least 1). */
  function CreateIssue(description: Input<string>, quantityProducts: Input<int>, idEntrance: Input<int>)
    : (r: Option<string>)
    ensures r.None? <==>
      description.Val? && Utf16Length(description.value) >= 5 && quantityProducts.Val? && quantityProducts.value >= 1 &&
      idEntrance.Val? && idEntrance.value >= 1
    ensures description.Missing? ==> r == Some(DescriptionRequired)
    ensures description.Val? && Utf16Length(description.value) < 5 ==> r == Some(DescriptionTooShort)
  {
    var fields := [TextValue(Description, description), IntValue(Quantity, quantityProducts),
                   IntValue(EntranceIdField, idEntrance)];
    assert Passes(fields[0]) <==> description.Val? && Utf16Length(description.value) >= 5;
    assert Passes(fields[1]) <==> quantityProducts.Val? && quantityProducts.value >= 1;
    assert Passes(fields[2]) <==> idEntrance.Val? && idEntrance.value >= 1;
    FirstIssue(fields)
  }

  /** The update schema: id, description, quantity. */
  function UpdateIssue(id: Input<int>, description: Input<string>, quantityProducts: Input<int>): (r: Option<string>)
    ensures r.None? <==>
      id.Val? && id.value >= 1 && description.Val? && Utf16Length(description.value) >= 5 &&
      quantityProducts.Val? && quantityProducts.value >= 1
    ensures ValidateId(id).Some? ==> r == ValidateId(id)
    ensures ValidateId(id).None? && description.Missing? ==> r == Some(DescriptionRequired)
  {
    var fields := [IntValue(IdField, id), TextValue(Description, description), IntValue(Quantity, quantityProducts)];
    assert Passes(fields[0]) <==> id.Val? && id.value >= 1;
    assert Passes(fields[1]) <==> description.Val? && Utf16Length(description.value) >= 5;
    assert Passes(fields[2]) <==> quantityProducts.Val? && quantityProducts.value >= 1;
    assert Passes(fields[0]) ==> FirstIssue(fields) == FirstIssue(fields[1..]);
    FirstIssue(fields)
  }

  /** How create answers a repository reply. */
  function CreateResult(reply: DevolutionReply, idEntrance: int): (r: DevolutionResult)
    ensures r == Failure(Unauthorized(CreateNotAuthorized)) <==>
      reply == Sentinel(EDevolutionResponse.NotAuthorized)
    ensures r == Failure(NotFound(WithId(EntranceNotFoundPrefix, idEntrance))) <==>
      reply == Sentinel(EDevolutionResponse.EntranceNotFound)
    ensures r.Success? <==> reply.Row? || reply == Sentinel(EDevolutionResponse.DevolutionNotFound)
    ensures r.Success? ==> r.value == reply
  {
    match reply
    case Row(_) => Success(reply)
    case Sentinel(code) =>
      match code
      case NotAuthorized => Failure(Unauthorized(CreateNotAuthorized))
      case EntranceNotFound => Failure(NotFound(WithId(EntranceNotFoundPrefix, idEntrance)))
      case DevolutionNotFound => Success(reply)
  }

  /** How update answers a repository reply: EntranceNotFound is not
      checked, so it comes back as a success. */
  function UpdateResult(reply: DevolutionReply, id: int): (r: DevolutionResult)
    ensures r == Failure(Unauthorized(UpdateNotAuthorized)) <==>
      reply == Sentinel(EDevolutionResponse.NotAuthorized)
    ensures r == Failure(NotFound(WithId(DevolutionNotFoundPrefix, id))) <==>
      reply == Sentinel(EDevolutionResponse.DevolutionNotFound)
    ensures r.Success? <==> reply.Row? || reply == Sentinel(EDevolutionResponse.EntranceNotFound)
    ensures r.Success? ==> r.value == reply
  {
    match reply
    case Row(_) => Success(reply)
    case Sentinel(code) =>
      match code
      case NotAuthorized => Failure(Unauthorized(UpdateNotAuthorized))
      case DevolutionNotFound => Failure(NotFound(WithId(DevolutionNotFoundPrefix, id)))
      case EntranceNotFound => Success(reply)
  }

  /** How delete answers a repository reply. */
  function DeleteResult(reply: DevolutionReply, id: int): (r: DevolutionResult)
    ensures r == Failure(Unauthorized(DeleteNotAuthorized)) <==>
      reply == Sentinel(EDevolutionResponse.NotAuthorized)
    ensures r == Failure(NotFound(WithId(DevolutionNotFoundPrefix, id))) <==>
      reply == Sentinel(EDevolutionResponse.DevolutionNotFound)
    ensures r.Success? <==> reply.Row? || reply == Sentinel(EDevolutionResponse.EntranceNotFound)
    ensures r.Success? ==> r.value == reply
  {
    match reply
    case Row(_) => Success(reply)
    case Sentinel(code) =>
      match code
      case NotAuthorized => Failure(Unauthorized(DeleteNotAuthorized))
      case DevolutionNotFound => Failure(NotFound(WithId(DevolutionNotFoundPrefix, id)))
      case EntranceNotFound => Success(reply)
  }

  /** How get-by-id answers a repository reply. */
  function GetByIdResult(reply: DevolutionReply, id: int): (r: DevolutionResult)
    ensures r == Failure(NotFound(WithId(DevolutionNotFoundPrefix, id))) <==>
      reply == Sentinel(EDevolutionResponse.DevolutionNotFound)
    ensures r.Success? <==> reply != Sentinel(EDevolutionResponse.DevolutionNotFound)
    ensures r.Success? ==> r.value == reply
  {
    if reply == Sentinel(EDevolutionResponse.DevolutionNotFound) then
      Failure(NotFound(WithId(DevolutionNotFoundPrefix, id)))
    else Success(reply)
  }

  class CreateDevolutionService {
    const repository: InMemoryDevolutionRepository

    constructor (repository: InMemoryDevolutionRepository)
      ensures this.repository == repository
    {
      this.repository := repository;
    }

    method Execute(description: Input<string>, quantityProducts: Input<int>, idEntrance: Input<int>, infosToken: InfosToken)
      returns (result: DevolutionResult)
      modifies repository
      ensures CreateIssue(description, quantityProducts, idEntrance).Some? ==>
        result == Failure(BadRequest(CreateIssue(description, quantityProducts, idEntrance).value)) &&
        repository.devolutions == old(repository.devolutions)
      ensures CreateIssue(description, quantityProducts, idEntrance).None? ==>
        var reply := CreateOutcome(
          repository.entrances, repository.products, description.value, quantityProducts.value, idEntrance.value,
          infosToken.id);
        result == CreateResult(reply, idEntrance.value) &&
        repository.devolutions == old(repository.devolutions) + RowsOf(reply)
      ensures result.Success? ==>
        result.value.Row? && EntranceOwner(repository.entrances, repository.products, idEntrance.value) == Some(infosToken.id)
    {
      var issue := CreateIssue(description, quantityProducts, idEntrance);
      if issue.Some? {
        return Failure(BadRequest(issue.value));
      }
      var reply := repository.Create(description.value, quantityProducts.value, idEntrance.value, infosToken.id);
      result := CreateResult(reply, idEntrance.value);
    }
  }

  /** The update `IDevolution` declares, `update(id, description,
      quantity_products, id_store_token)`: DevolutionNotFound, then
      NotAuthorized unless the caller owns the product of the report's
      stored entrance (a missing entrance or product counts as not owned);
      otherwise the report with description and quantity replaced. */
  function DeclaredUpdateOutcome(
    devolutions: seq<Devolution>, entrances: seq<Entrance>, products: seq<Product>, id: int,
    description: string, quantityProducts: int, token: int): (r: DevolutionReply)
    ensures r == Sentinel(EDevolutionResponse.DevolutionNotFound) <==> Absent(devolutions, DevolutionId, id)
    ensures r == Sentinel(EDevolutionResponse.NotAuthorized) <==>
      !Absent(devolutions, DevolutionId, id) &&
      EntranceOwner(entrances, products, Lookup(devolutions, DevolutionId, id).value.idEntrance) != Some(token)
    ensures r.Row? ==>
      EntranceOwner(entrances, products, r.row.idEntrance) == Some(token) &&
      r.row == Lookup(devolutions, DevolutionId, id).value.(
        description := description, quantityProducts := quantityProducts)
    ensures r != Sentinel(EDevolutionResponse.EntranceNotFound)
  {
    match Lookup(devolutions, DevolutionId, id)
    case None => Sentinel(EDevolutionResponse.DevolutionNotFound)
    case Some(d) =>
      if EntranceOwner(entrances, products, d.idEntrance) != Some(token) then Sentinel(EDevolutionResponse.NotAuthorized)
      else Row(d.(description := description, quantityProducts := quantityProducts))
  }

  /** The declared update is the in-memory repository's update asked to keep
      the report on its stored entrance, whenever that entrance exists. */
  lemma DeclaredUpdateKeepsStoredEntrance(
    devolutions: seq<Devolution>, entrances: seq<Entrance>, products: seq<Product>, id: int,
    description: string, quantityProducts: int, token: int)
    requires !Absent(devolutions, DevolutionId, id)
    requires !Absent(entrances, EntranceId, Lookup(devolutions, DevolutionId, id).value.idEntrance)
    ensures
      var stored := Lookup(devolutions, DevolutionId, id).value;
      DeclaredUpdateOutcome(devolutions, entrances, products, id, description, quantityProducts, token) ==
      UpdateOutcome(devolutions, entrances, products, id, description, quantityProducts, stored.idEntrance, token)
  {
    var stored := Lookup(devolutions, DevolutionId, id).value;
    var e := Lookup(entrances, EntranceId, stored.idEntrance).value;
    assert EntranceOwner(entrances, products, stored.idEntrance) == ProductOwner(products, e.idProduct);
  }

  /** The update use case with the repository doing the update `IDevolution`
      declares: the caller must own the report's stored entrance, and the
      report stays on that entrance. On the in-memory repository the
      declared update is a lookup, the ownership walk and the repository's
      own update with the stored entrance id. */
  class UpdateDevolutionService {
    const repository: InMemoryDevolutionRepository

    constructor (repository: InMemoryDevolutionRepository)
      ensures this.repository == repository
    {
      this.repository := repository;
    }

    method Execute(id: Input<int>, description: Input<string>, quantityProducts: Input<int>, infosToken: InfosToken)
      returns (result: DevolutionResult)
      modifies repository
      ensures UpdateIssue(id, description, quantityProducts).Some? ==>
        result == Failure(BadRequest(UpdateIssue(id, description, quantityProducts).value)) &&
        repository.devolutions == old(repository.devolutions)
      ensures UpdateIssue(id, description, quantityProducts).None? ==>
        var reply := DeclaredUpdateOutcome(
          old(repository.devolutions), repository.entrances, repository.products, id.value, description.value,
          quantityProducts.value, infosToken.id);
        result == UpdateResult(reply, id.value) &&
        (reply.Sentinel? ==> repository.devolutions == old(repository.devolutions)) &&
        (reply.Row? ==>
          repository.devolutions ==
          old(repository.devolutions)[Find(old(repository.devolutions), DevolutionId, id.value).value := reply.row])
      ensures result.Success? ==>
        result.value.Row? &&
        EntranceOwner(repository.entrances, repository.products, result.value.row.idEntrance) == Some(infosToken.id)
    {
      var issue := UpdateIssue(id, description, quantityProducts);
      if issue.Some? {
        return Failure(BadRequest(issue.value));
      }
      var reply := repository.GetById(id.value);
      if reply.Row? {
        var owner := repository.OwnerThrough(reply.row.idEntrance);
        if owner != Some(infosToken.id) {
          reply := Sentinel(EDevolutionResponse.NotAuthorized);
        } else {
          DeclaredUpdateKeepsStoredEntrance(
            repository.devolutions, repository.entrances, repository.products, id.value, description.value,
            quantityProducts.value, infosToken.id);
          reply := repository.Update(
            id.value, description.value, quantityProducts.value, reply.row.idEntrance, infosToken.id);
        }
      }
      result := UpdateResult(reply, id.value);
    }
  }

  /** The update use case as written: it is built on the database
      repository, whose `update` takes `(id, description, quantity_products,
      id_entrance)`, and passes the caller's store id fourth. The store id is
      read as an entrance id, no ownership is checked, and a successful
      update re-links the report to the entrance whose id equals the
      caller's store id. */
  class UpdateDevolutionServiceAsWritten {
    const repository: PrismaDevolution.DevolutionRepository

    constructor (repository: PrismaDevolution.DevolutionRepository)
      ensures this.repository == repository
    {
      this.repository := repository;
    }

    method Execute(id: Input<int>, description: Input<string>, quantityProducts: Input<int>, infosToken: InfosToken)
      returns (result: Either<AppError, PrismaDevolution.DevolutionReply>)
      requires repository.db.Valid()
      modifies repository.db
      ensures repository.db.Valid()
      ensures unchanged(repository.db`stores, repository.db`products, repository.db`entrances,
                        repository.db`exits, repository.db`defectiveProducts)
      ensures UpdateIssue(id, description, quantityProducts).Some? ==>
        result == Failure(BadRequest(UpdateIssue(id, description, quantityProducts).value)) &&
        repository.db.devolutions == old(repository.db.devolutions)
      ensures UpdateIssue(id, description, quantityProducts).None? ==>
        var reply := PrismaDevolution.UpdateOutcome(
          old(repository.db.devolutions), repository.db.entrances, id.value, description.value,
          quantityProducts.value, infosToken.id);
        result == UpdateResult(reply, id.value) &&
        (reply.Sentinel? ==> repository.db.devolutions == old(repository.db.devolutions)) &&
        (reply.Row? ==>
          repository.db.devolutions ==
          old(repository.db.devolutions)[Find(old(repository.db.devolutions), DevolutionId, id.value).value := reply.row])
      ensures result.Success? && result.value.Row? ==> result.value.row.idEntrance == infosToken.id
      ensures result != Failure(Unauthorized(UpdateNotAuthorized))
    {
      var issue := UpdateIssue(id, description, quantityProducts);
      if issue.Some? {
        return Failure(BadRequest(issue.value));
      }
      var reply := repository.Update(id.value, description.value, quantityProducts.value, infosToken.id);
      result := UpdateResult(reply, id.value);
    }
  }

  /** The as-written update lets store 2 rewrite a report that hangs off
      store 1's entrance, and moves it onto entrance 2; the declared update
      refuses the same request. */
  lemma AsWrittenUpdatesAnotherStoresReport()
    ensures
      var devolutions := [Devolution(1, "Produto com defeito", 1, FixedDate, 1)];
      var entrances := [Entrance(1, "Fornecedor A", 15.0, 1, FixedDate, 1),
                        Entrance(2, "Fornecedor B", 15.0, 1, FixedDate, 2)];
      var products := [Product(1, 1, "Camiseta", 15.0, 100), Product(2, 2, "Bermuda", 15.0, 100)];
      var asWritten := PrismaDevolution.UpdateOutcome(devolutions, entrances, 1, "Veio rasgado", 2, 2);
      EntranceOwner(entrances, products, devolutions[0].idEntrance) == Some(1) &&
      UpdateResult(asWritten, 1).Success? && asWritten.Row? && asWritten.row.idEntrance == 2 &&
      DeclaredUpdateOutcome(devolutions, entrances, products, 1, "Veio rasgado", 2, 2) ==
        Sentinel(EDevolutionResponse.NotAuthorized)
  {
    var devolutions := [Devolution(1, "Produto com defeito", 1, FixedDate, 1)];
    var entrances := [Entrance(1, "Fornecedor A", 15.0, 1, FixedDate, 1),
                      Entrance(2, "Fornecedor B", 15.0, 1, FixedDate, 2)];
    var products := [Product(1, 1, "Camiseta", 15.0, 100), Product(2, 2, "Bermuda", 15.0, 100)];
    assert FirstMatch(entrances, EntranceId, 1, 0);
    assert FirstMatch(entrances, EntranceId, 2, 1);
    assert FirstMatch(products, ProductId, 1, 0);
    assert FirstMatch(devolutions, DevolutionId, 1, 0);
    LookupOfFirst(entrances, EntranceId, 1, entrances[0]);
    LookupOfFirst(entrances, EntranceId, 2, entrances[1]);
    LookupOfFirst(products, ProductId, 1, products[0]);
    LookupOfFirst(devolutions, DevolutionId, 1, devolutions[0]);
  }

  class DeleteDevolutionService {
    const repository: InMemoryDevolutionRepository

    constructor (repository: InMemoryDevolutionRepository)
      ensures this.repository == repository
    {
      this.repository := repository;
    }

    method Execute(id: Input<int>, infosToken: InfosToken) returns (result: DevolutionResult)
      modifies repository
      ensures ValidateId(id).Some? ==>
        result == Failure(BadRequest(ValidateId(id).value)) && repository.devolutions == old(repository.devolutions)
      ensures ValidateId(id).None? ==>
        var reply := DeleteOutcome(
          old(repository.devolutions), repository.entrances, repository.products, id.value, infosToken.id);
        result == DeleteResult(reply, id.value) &&
        (reply.Sentinel? ==> repository.devolutions == old(repository.devolutions)) &&
        (reply.Row? ==> repository.devolutions == old(repository.devolutions)[..|old(repository.devolutions)| - 1])
      ensures result.Success? ==>
        result.value.Row? &&
        EntranceOwner(repository.entrances, repository.products, result.value.row.idEntrance) == Some(infosToken.id)
    {
      var issue := ValidateId(id);
      if issue.Some? {
        return Failure(BadRequest(issue.value));
      }
      var reply := repository.Delete(id.value, infosToken.id);
      result := DeleteResult(reply, id.value);
    }
  }

  class GetDevolutionByIdService {
    const repository: InMemoryDevolutionRepository

    constructor (repository: InMemoryDevolutionRepository)
      ensures this.repository == repository
    {
      this.repository := repository;
    }

    method Execute(id: Input<int>) returns (result: DevolutionResult)
      ensures ValidateId(id).Some? ==> result == Failure(BadRequest(ValidateId(id).value))
      ensures ValidateId(id).None? ==>
        result == GetByIdResult(GetByIdOutcome(repository.devolutions, id.value), id.value)
      ensures result.Success? ==> result.value.Row?
    {
      var issue := ValidateId(id);
      if issue.Some? {
        return Failure(BadRequest(issue.value));
      }
      var reply := repository.GetById(id.value);
      result := GetByIdResult(reply, id.value);
    }
  }
}
