/** The older defective-product service, built on the Prisma repository.
    Its schemas carry the fields and messages of the defective-product use
    cases, and its update schema also asks for the entrance id; a request
    that fails one is an unprocessable entity. Its not-found messages are
    worded as the service writes them: getById says "Nenhuma produto
    defeituoso foi encontrada", and update and delete speak of a devolution. */
module LegacyDefectiveProductService {
  import opened Wrappers
  import opened Tables
  import opened Records
  import opened Responses
  import opened Errors
  import opened Validation
  import opened Schemas
  import opened Messages
  import opened PrismaDefectiveProduct
  import DefectiveProductServices

  const GetByIdNotFoundPrefix := "Nenhuma produto defeituoso foi encontrada com o ID: "
  const WriteNotFoundPrefix := "Nenhuma devolução foi encontrada com o ID: "

  type DefectiveProductResult = Either<AppError, DefectiveProductReply>

  /** The update schema: id, description (at least 2 characters), quantity
      (at least 1), entrance id (at least 1). */
  function UpdateIssue(
    id: Input<int>, description: Input<string>, quantityProducts: Input<int>, idEntrance: Input<int>)
    : (r: Option<string>)
    ensures r.None? <==>
      id.Val? && id.value >= 1 && description.Val? && Utf16Length(description.value) >= 2 &&
      quantityProducts.Val? && quantityProducts.value >= 1 && idEntrance.Val? && idEntrance.value >= 1
    ensures ValidateId(id).Some? ==> r == ValidateId(id)
    ensures ValidateId(id).None? && description.Missing? ==> r == Some(DefectiveProductServices.DescriptionRequired)
    ensures ValidateId(id).None? && description.Val? && Utf16Length(description.value) < 2 ==>
      r == Some(DefectiveProductServices.DescriptionTooShort)
  {
    var fields := [IntValue(IdField, id), TextValue(DefectiveProductServices.Description, description),
                   IntValue(DefectiveProductServices.Quantity, quantityProducts),
                   IntValue(DefectiveProductServices.EntranceIdField, idEntrance)];
    assert Passes(fields[0]) <==> id.Val? && id.value >= 1;
    assert Passes(fields[1]) <==> description.Val? && Utf16Length(description.value) >= 2;
    assert Passes(fields[2]) <==> quantityProducts.Val? && quantityProducts.value >= 1;
    assert Passes(fields[3]) <==> idEntrance.Val? && idEntrance.value >= 1;
    assert Passes(fields[0]) ==> FirstIssue(fields) == FirstIssue(fields[1..]);
    FirstIssue(fields)
  }

  /** How getById answers a repository reply. */
  function GetByIdResult(reply: DefectiveProductReply, id: int): (r: DefectiveProductResult)
    ensures r == Failure(NotFound(WithId(GetByIdNotFoundPrefix, id))) <==>
      reply == Sentinel(EDefectiveProductResponse.DefectiveProductNotFound)
    ensures r.Success? <==> reply != Sentinel(EDefectiveProductResponse.DefectiveProductNotFound)
    ensures r.Success? ==> r.value == reply
  {
    if reply == Sentinel(EDefectiveProductResponse.DefectiveProductNotFound) then
      Failure(NotFound(WithId(GetByIdNotFoundPrefix, id)))
    else Success(reply)
  }

  /** How create answers a repository reply: a missing entrance is named by
      its id. */
  function CreateResult(reply: DefectiveProductReply, idEntrance: int): (r: DefectiveProductResult)
    ensures r == Failure(NotFound(WithId(DefectiveProductServices.EntranceNotFoundPrefix, idEntrance))) <==>
      reply == Sentinel(EDefectiveProductResponse.EntranceNotFound)
    ensures r.Success? <==> reply != Sentinel(EDefectiveProductResponse.EntranceNotFound)
    ensures r.Success? ==> r.value == reply
  {
    if reply == Sentinel(EDefectiveProductResponse.EntranceNotFound) then
      Failure(NotFound(WithId(DefectiveProductServices.EntranceNotFoundPrefix, idEntrance)))
    else Success(reply)
  }

  /** The entrance message and update's record message never coincide:
      they part at "entrada" and "devolução". */
  lemma NotFoundMessagesDiffer(a: int, b: int)
    ensures WithId(DefectiveProductServices.EntranceNotFoundPrefix, a) != WithId(WriteNotFoundPrefix, b)
  {
    var e := WithId(DefectiveProductServices.EntranceNotFoundPrefix, a);
    var d := WithId(WriteNotFoundPrefix, b);
    assert DefectiveProductServices.EntranceNotFoundPrefix[8] == 'e' && WriteNotFoundPrefix[8] == 'd';
    assert e[8] == e[..|DefectiveProductServices.EntranceNotFoundPrefix|][8];
    assert d[8] == d[..|WriteNotFoundPrefix|][8];
  }

  /** How update answers a repository reply: the entrance is checked first
      and named by the requested entrance id, then the record by its id. */
  function UpdateResult(reply: DefectiveProductReply, id: int, idEntrance: int): (r: DefectiveProductResult)
    ensures r == Failure(NotFound(WithId(DefectiveProductServices.EntranceNotFoundPrefix, idEntrance))) <==>
      reply == Sentinel(EDefectiveProductResponse.EntranceNotFound)
    ensures r == Failure(NotFound(WithId(WriteNotFoundPrefix, id))) <==>
      reply == Sentinel(EDefectiveProductResponse.DefectiveProductNotFound)
    ensures r.Success? <==> reply.Row? || reply == Sentinel(EDefectiveProductResponse.NotAuthorized)
    ensures r.Success? ==> r.value == reply
  {
    NotFoundMessagesDiffer(idEntrance, id);
    match reply
    case Row(_) => Success(reply)
    case Sentinel(code) =>
      match code
      case EntranceNotFound => Failure(NotFound(WithId(DefectiveProductServices.EntranceNotFoundPrefix, idEntrance)))
      case DefectiveProductNotFound => Failure(NotFound(WithId(WriteNotFoundPrefix, id)))
      case NotAuthorized => Success(reply)
  }

  /** How delete answers a repository reply. */
  function DeleteResult(reply: DefectiveProductReply, id: int): (r: DefectiveProductResult)
    ensures r == Failure(NotFound(WithId(WriteNotFoundPrefix, id))) <==>
      reply == Sentinel(EDefectiveProductResponse.DefectiveProductNotFound)
    ensures r.Success? <==> reply != Sentinel(EDefectiveProductResponse.DefectiveProductNotFound)
    ensures r.Success? ==> r.value == reply
  {
    if reply == Sentinel(EDefectiveProductResponse.DefectiveProductNotFound) then
      Failure(NotFound(WithId(WriteNotFoundPrefix, id)))
    else Success(reply)
  }

  class DefectiveProductService {
    const defectiveProductRepository: DefectiveProductRepository

    constructor (defectiveProductRepository: DefectiveProductRepository)
      ensures this.defectiveProductRepository == defectiveProductRepository
    {
      this.defectiveProductRepository := defectiveProductRepository;
    }

    /** Reads only. */
    method GetById(id: Input<int>) returns (result: DefectiveProductResult)
      ensures ValidateId(id).Some? ==> result == Failure(UnprocessableEntity(ValidateId(id).value))
      ensures ValidateId(id).None? ==>
        result == GetByIdResult(GetByIdOutcome(defectiveProductRepository.db.defectiveProducts, id.value), id.value)
      ensures result.Success? ==>
        result.value.Row? &&
        IsFirst(defectiveProductRepository.db.defectiveProducts, DefectiveProductId, id.value, result.value.row)
    {
      var issue := ValidateId(id);
      if issue.Some? {
        return Failure(UnprocessableEntity(issue.value));
      }
      var reply := defectiveProductRepository.GetById(id.value);
      result := GetByIdResult(reply, id.value);
    }

    /** The new record's id is filled in by the database. */
    method Create(description: Input<string>, quantityProducts: Input<int>, idEntrance: Input<int>, newId: int)
      returns (result: DefectiveProductResult)
      requires defectiveProductRepository.db.Valid()
      requires Absent(defectiveProductRepository.db.defectiveProducts, DefectiveProductId, newId)
      modifies defectiveProductRepository.db
      ensures defectiveProductRepository.db.Valid()
      ensures unchanged(defectiveProductRepository.db`stores, defectiveProductRepository.db`products,
                        defectiveProductRepository.db`entrances, defectiveProductRepository.db`exits,
                        defectiveProductRepository.db`devolutions)
      ensures DefectiveProductServices.CreateIssue(description, quantityProducts, idEntrance).Some? ==>
        result == Failure(UnprocessableEntity(
          DefectiveProductServices.CreateIssue(description, quantityProducts, idEntrance).value)) &&
        defectiveProductRepository.db.defectiveProducts == old(defectiveProductRepository.db.defectiveProducts)
      ensures DefectiveProductServices.CreateIssue(description, quantityProducts, idEntrance).None? ==>
        var reply := CreateOutcome(
          defectiveProductRepository.db.entrances, description.value, quantityProducts.value, idEntrance.value, newId);
        result == CreateResult(reply, idEntrance.value) &&
        defectiveProductRepository.db.defectiveProducts ==
        old(defectiveProductRepository.db.defectiveProducts) + RowsOf(reply)
      ensures result.Success? ==>
        result.value == Row(DefectiveProduct(newId, description.value, quantityProducts.value, idEntrance.value))
    {
      var issue := DefectiveProductServices.CreateIssue(description, quantityProducts, idEntrance);
      if issue.Some? {
        return Failure(UnprocessableEntity(issue.value));
      }
      var reply := defectiveProductRepository.Create(description.value, quantityProducts.value, idEntrance.value, newId);
      result := CreateResult(reply, idEntrance.value);
    }

    method Update(
      id: Input<int>, description: Input<string>, quantityProducts: Input<int>, idEntrance: Input<int>)
      returns (result: DefectiveProductResult)
      requires defectiveProductRepository.db.Valid()
      modifies defectiveProductRepository.db
      ensures defectiveProductRepository.db.Valid()
      ensures unchanged(defectiveProductRepository.db`stores, defectiveProductRepository.db`products,
                        defectiveProductRepository.db`entrances, defectiveProductRepository.db`exits,
                        defectiveProductRepository.db`devolutions)
      ensures UpdateIssue(id, description, quantityProducts, idEntrance).Some? ==>
        result == Failure(UnprocessableEntity(UpdateIssue(id, description, quantityProducts, idEntrance).value)) &&
        defectiveProductRepository.db.defectiveProducts == old(defectiveProductRepository.db.defectiveProducts)
      ensures UpdateIssue(id, description, quantityProducts, idEntrance).None? ==>
        var reply := UpdateOutcome(
          old(defectiveProductRepository.db.defectiveProducts), defectiveProductRepository.db.entrances, id.value,
          description.value, quantityProducts.value, idEntrance.value);
        result == UpdateResult(reply, id.value, idEntrance.value) &&
        (reply.Sentinel? ==>
          defectiveProductRepository.db.defectiveProducts == old(defectiveProductRepository.db.defectiveProducts)) &&
        (reply.Row? ==>
          defectiveProductRepository.db.defectiveProducts ==
          old(defectiveProductRepository.db.defectiveProducts)[
            Find(old(defectiveProductRepository.db.defectiveProducts), DefectiveProductId, id.value).value := reply.row])
      ensures result.Success? ==> result.value.Row? && result.value.row.idEntrance == idEntrance.value
    {
      var issue := UpdateIssue(id, description, quantityProducts, idEntrance);
      if issue.Some? {
        return Failure(UnprocessableEntity(issue.value));
      }
      var reply := defectiveProductRepository.Update(
        id.value, description.value, quantityProducts.value, idEntrance.value);
      result := UpdateResult(reply, id.value, idEntrance.value);
    }

    method Delete(id: Input<int>) returns (result: DefectiveProductResult)
      requires defectiveProductRepository.db.Valid()
      modifies defectiveProductRepository.db
      ensures defectiveProductRepository.db.Valid()
      ensures unchanged(defectiveProductRepository.db`stores, defectiveProductRepository.db`products,
                        defectiveProductRepository.db`entrances, defectiveProductRepository.db`exits,
                        defectiveProductRepository.db`devolutions)
      ensures ValidateId(id).Some? ==>
        result == Failure(UnprocessableEntity(ValidateId(id).value)) &&
        defectiveProductRepository.db.defectiveProducts == old(defectiveProductRepository.db.defectiveProducts)
      ensures ValidateId(id).None? ==>
        var reply := DeleteOutcome(old(defectiveProductRepository.db.defectiveProducts), id.value);
        result == DeleteResult(reply, id.value) &&
        (reply.Sentinel? ==>
          defectiveProductRepository.db.defectiveProducts == old(defectiveProductRepository.db.defectiveProducts)) &&
        (reply.Row? ==>
          defectiveProductRepository.db.defectiveProducts ==
          Remove(old(defectiveProductRepository.db.defectiveProducts),
                 Find(old(defectiveProductRepository.db.defectiveProducts), DefectiveProductId, id.value).value))
      ensures result.Success? ==> result.value.Row?
    {
      var issue := ValidateId(id);
      if issue.Some? {
        return Failure(UnprocessableEntity(issue.value));
      }
      var reply := defectiveProductRepository.Delete(id.value);
      result := DeleteResult(reply, id.value);
    }
  }
}
