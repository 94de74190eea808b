/** The older exit service, built on the Prisma repository. Its schemas
    have no price field, a request that fails one is an unprocessable
    entity, and its update schema words the quantity bound differently from
    create. Create and update are modelled by their validation and their
    reply mapping; getById and delete also call the repository. */
module LegacyExitService {
  import opened Wrappers
  import opened Tables
  import opened Records
  import opened Responses
  import opened Errors
  import opened Validation
  import opened Schemas
  import opened Messages
  import opened PrismaExit
  import ExitServices

  /** Update's quantity field: the same as create's but for its bound
      message. */
  const UpdateQuantity: IntField := IntField(
    ExitServices.QuantityRequired,
    "A quantidade de produtos vendidos deve ser um número",
    Min(1, "A quantidade de produtos não pode ser menor que 1"))

  const DeleteNotFoundPrefix := "Nenhuma saída encontrada com o ID: "

  type ExitResult = Either<AppError, ExitReply>

  /** The create schema: description (at least 5 characters), quantity (at
      least 1), product id (at least 1). */
  function CreateIssue(description: Input<string>, quantityProducts: Input<int>, idProduct: Input<int>)
    : (r: Option<string>)
    ensures r.None? <==>
      description.Val? && Utf16Length(description.value) >= 5 && quantityProducts.Val? && quantityProducts.value >= 1 &&
      idProduct.Val? && idProduct.value >= 1
    ensures description.Missing? ==> r == Some(ExitServices.DescriptionRequired)
    ensures description.Val? && Utf16Length(description.value) < 5 ==> r == Some(ExitServices.DescriptionTooShort)
    ensures description.Val? && Utf16Length(description.value) >= 5 && quantityProducts.Missing? ==>
      r == Some(ExitServices.QuantityRequired)
  {
    var fields := [TextValue(ExitServices.Description, description), IntValue(ExitServices.Quantity, quantityProducts),
                   IntValue(ExitServices.ProductIdField, idProduct)];
    assert Passes(fields[0]) <==> description.Val? && Utf16Length(description.value) >= 5;
    assert Passes(fields[1]) <==> quantityProducts.Val? && quantityProducts.value >= 1;
    assert Passes(fields[2]) <==> idProduct.Val? && idProduct.value >= 1;
    assert Passes(fields[0]) ==> FirstIssue(fields) == FirstIssue(fields[1..]);
    FirstIssue(fields)
  }

  /** The update schema: id, then the create fields, with update's own
      quantity bound message. */
  function UpdateIssue(
    id: Input<int>, description: Input<string>, quantityProducts: Input<int>, idProduct: Input<int>)
    : (r: Option<string>)
    ensures r.None? <==>
      id.Val? && id.value >= 1 && description.Val? && Utf16Length(description.value) >= 5 &&
      quantityProducts.Val? && quantityProducts.value >= 1 && idProduct.Val? && idProduct.value >= 1
    ensures ValidateId(id).Some? ==> r == ValidateId(id)
    ensures ValidateId(id).None? && description.Missing? ==> r == Some(ExitServices.DescriptionRequired)
    ensures (ValidateId(id).None? && description.Val? && Utf16Length(description.value) >= 5 &&
             quantityProducts.Val? && quantityProducts.value < 1) ==>
      r == Some("A quantidade de produtos não pode ser menor que 1")
  {
    var fields := [IntValue(IdField, id), TextValue(ExitServices.Description, description),
                   IntValue(UpdateQuantity, quantityProducts), IntValue(ExitServices.ProductIdField, idProduct)];
    assert Passes(fields[0]) <==> id.Val? && id.value >= 1;
    assert Passes(fields[1]) <==> description.Val? && Utf16Length(description.value) >= 5;
    assert Passes(fields[2]) <==> quantityProducts.Val? && quantityProducts.value >= 1;
    assert Passes(fields[3]) <==> idProduct.Val? && idProduct.value >= 1;
    assert Passes(fields[0]) ==> FirstIssue(fields) == FirstIssue(fields[1..]);
    assert Passes(fields[0]) && Passes(fields[1]) ==> FirstIssue(fields[1..]) == FirstIssue(fields[2..]);
    FirstIssue(fields)
  }

  /** The exit and product not-found messages never coincide: one reads
      "Nenhuma", the other "Nenhum ". */
  lemma NotFoundMessagesDiffer(a: int, b: int)
    ensures WithId(ExitServices.ExitNotFoundPrefix, a) != WithId(ExitServices.ProductNotFoundPrefix, b)
  {
    var e := WithId(ExitServices.ExitNotFoundPrefix, a);
    var p := WithId(ExitServices.ProductNotFoundPrefix, b);
    assert ExitServices.ExitNotFoundPrefix[6] == 'a' && ExitServices.ProductNotFoundPrefix[6] == ' ';
    assert e[6] == e[..|ExitServices.ExitNotFoundPrefix|][6];
    assert p[6] == p[..|ExitServices.ProductNotFoundPrefix|][6];
  }

  /** How getById answers a repository reply. */
  function GetByIdResult(reply: ExitReply, id: int): (r: ExitResult)
    ensures r == Failure(NotFound(WithId(ExitServices.ExitNotFoundPrefix, id))) <==>
      reply == Sentinel(EExitResponse.ExitNotFound)
    ensures r.Success? <==> reply != Sentinel(EExitResponse.ExitNotFound)
    ensures r.Success? ==> r.value == reply
  {
    if reply == Sentinel(EExitResponse.ExitNotFound) then
      Failure(NotFound(WithId(ExitServices.ExitNotFoundPrefix, id)))
    else Success(reply)
  }

  /** How create answers a repository reply: a missing product is named by
      its id, a short stock is a conflict. */
  function CreateResult(reply: ExitReply, idProduct: int): (r: ExitResult)
    ensures r == Failure(NotFound(WithId(ExitServices.ProductNotFoundPrefix, idProduct))) <==>
      reply == Sentinel(EExitResponse.ProductNotFound)
    ensures r == Failure(Conflict(ExitServices.NoStockMessage)) <==> reply == Sentinel(EExitResponse.NoStock)
    ensures r.Success? <==>
      reply.Row? || reply == Sentinel(EExitResponse.ExitNotFound) || reply == Sentinel(EExitResponse.NotAuthorized)
    ensures r.Success? ==> r.value == reply
  {
    match reply
    case Row(_) => Success(reply)
    case Sentinel(code) =>
      match code
      case ProductNotFound => Failure(NotFound(WithId(ExitServices.ProductNotFoundPrefix, idProduct)))
      case NoStock => Failure(Conflict(ExitServices.NoStockMessage))
      case ExitNotFound => Success(reply)
      case NotAuthorized => Success(reply)
  }

  /** How update answers a repository reply: a missing exit by its id, a
      missing product by its id, a short stock as a conflict. */
  function UpdateResult(reply: ExitReply, id: int, idProduct: int): (r: ExitResult)
    ensures r == Failure(NotFound(WithId(ExitServices.ExitNotFoundPrefix, id))) <==>
      reply == Sentinel(EExitResponse.ExitNotFound)
    ensures r == Failure(NotFound(WithId(ExitServices.ProductNotFoundPrefix, idProduct))) <==>
      reply == Sentinel(EExitResponse.ProductNotFound)
    ensures r == Failure(Conflict(ExitServices.NoStockMessage)) <==> reply == Sentinel(EExitResponse.NoStock)
    ensures r.Success? <==> reply.Row? || reply == Sentinel(EExitResponse.NotAuthorized)
    ensures r.Success? ==> r.value == reply
  {
    NotFoundMessagesDiffer(id, idProduct);
    match reply
    case Row(_) => Success(reply)
    case Sentinel(code) =>
      match code
      case ExitNotFound => Failure(NotFound(WithId(ExitServices.ExitNotFoundPrefix, id)))
      case ProductNotFound => Failure(NotFound(WithId(ExitServices.ProductNotFoundPrefix, idProduct)))
      case NoStock => Failure(Conflict(ExitServices.NoStockMessage))
      case NotAuthorized => Success(reply)
  }

  /** How delete answers a repository reply; its message lacks the "foi" of
      the other exit messages. */
  function DeleteResult(reply: ExitReply, id: int): (r: ExitResult)
    ensures r == Failure(NotFound(WithId(DeleteNotFoundPrefix, id))) <==>
      reply == Sentinel(EExitResponse.ExitNotFound)
    ensures r.Success? <==> reply != Sentinel(EExitResponse.ExitNotFound)
    ensures r.Success? ==> r.value == reply
  {
    if reply == Sentinel(EExitResponse.ExitNotFound) then Failure(NotFound(WithId(DeleteNotFoundPrefix, id)))
    else Success(reply)
  }

  class ExitService {
    const exitRepository: ExitRepository

    constructor (exitRepository: ExitRepository)
      ensures this.exitRepository == exitRepository
    {
      this.exitRepository := exitRepository;
    }

    /** Reads only. */
    method GetById(id: Input<int>) returns (result: ExitResult)
      ensures ValidateId(id).Some? ==> result == Failure(UnprocessableEntity(ValidateId(id).value))
      ensures ValidateId(id).None? ==>
        result == GetByIdResult(GetByIdOutcome(exitRepository.db.exits, id.value), id.value)
      ensures result.Success? ==>
        result.value.Row? && IsFirst(exitRepository.db.exits, ExitId, id.value, result.value.row)
    {
      var issue := ValidateId(id);
      if issue.Some? {
        return Failure(UnprocessableEntity(issue.value));
      }
      var reply := exitRepository.GetById(id.value);
      result := GetByIdResult(reply, id.value);
    }

    method Delete(id: Input<int>) returns (result: ExitResult)
      requires exitRepository.db.Valid()
      modifies exitRepository.db
      ensures exitRepository.db.Valid()
      ensures unchanged(exitRepository.db`stores, exitRepository.db`products, exitRepository.db`entrances,
                        exitRepository.db`devolutions, exitRepository.db`defectiveProducts)
      ensures ValidateId(id).Some? ==>
        result == Failure(UnprocessableEntity(ValidateId(id).value)) &&
        exitRepository.db.exits == old(exitRepository.db.exits)
      ensures ValidateId(id).None? ==>
        var reply := DeleteOutcome(old(exitRepository.db.exits), id.value);
        result == DeleteResult(reply, id.value) &&
        (reply.Sentinel? ==> exitRepository.db.exits == old(exitRepository.db.exits)) &&
        (reply.Row? ==>
          exitRepository.db.exits ==
          Remove(old(exitRepository.db.exits), Find(old(exitRepository.db.exits), ExitId, id.value).value))
      ensures result.Success? ==> result.value.Row?
    {
      var issue := ValidateId(id);
      if issue.Some? {
        return Failure(UnprocessableEntity(issue.value));
      }
      var reply := exitRepository.Delete(id.value);
      result := DeleteResult(reply, id.value);
    }
  }
}
