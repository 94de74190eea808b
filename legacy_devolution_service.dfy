/** The older devolution service, built on the Prisma repository. Its
    schemas carry the fields and messages of the devolution use cases, and
    its update schema also asks for the entrance id; a request that fails
    one is an unprocessable entity. Its delete relies on the repository's
    delete, which only looks the devolution up. */
module LegacyDevolutionService {
  import opened Wrappers
  import opened Tables
  import opened Records
  import opened Responses
  import opened Errors
  import opened Validation
  import opened Schemas
  import opened Messages
  import opened PrismaDevolution
  import DevolutionServices

  type DevolutionResult = Either<AppError, DevolutionReply>

  /** The update schema: id, description (at least 5 characters), quantity
      (at least 1), entrance id (at least 1). */
  function UpdateIssue(
    id: Input<int>, description: Input<string>, quantityProducts: Input<int>, idEntrance: Input<int>)
    : (r: Option<string>)
    ensures r.None? <==>
      id.Val? && id.value >= 1 && description.Val? && Utf16Length(description.value) >= 5 &&
      quantityProducts.Val? && quantityProducts.value >= 1 && idEntrance.Val? && idEntrance.value >= 1
    ensures ValidateId(id).Some? ==> r == ValidateId(id)
    ensures ValidateId(id).None? && description.Missing? ==> r == Some(DevolutionServices.DescriptionRequired)
    ensures ValidateId(id).None? && description.Val? && Utf16Length(description.value) < 5 ==>
      r == Some(DevolutionServices.DescriptionTooShort)
  {
    var fields := [IntValue(IdField, id), TextValue(DevolutionServices.Description, description),
                   IntValue(DevolutionServices.Quantity, quantityProducts),
                   IntValue(DevolutionServices.EntranceIdField, idEntrance)];
    assert Passes(fields[0]) <==> id.Val? && id.value >= 1;
    assert Passes(fields[1]) <==> description.Val? && Utf16Length(description.value) >= 5;
    assert Passes(fields[2]) <==> quantityProducts.Val? && quantityProducts.value >= 1;
    assert Passes(fields[3]) <==> idEntrance.Val? && idEntrance.value >= 1;
    assert Passes(fields[0]) ==> FirstIssue(fields) == FirstIssue(fields[1..]);
    FirstIssue(fields)
  }

  /** How getById answers a repository reply. */
  function GetByIdResult(reply: DevolutionReply, id: int): (r: DevolutionResult)
    ensures r == Failure(NotFound(WithId(DevolutionServices.DevolutionNotFoundPrefix, id))) <==>
      reply == Sentinel(EDevolutionResponse.DevolutionNotFound)
    ensures r.Success? <==> reply != Sentinel(EDevolutionResponse.DevolutionNotFound)
    ensures r.Success? ==> r.value == reply
  {
    if reply == Sentinel(EDevolutionResponse.DevolutionNotFound) then
      Failure(NotFound(WithId(DevolutionServices.DevolutionNotFoundPrefix, id)))
    else Success(reply)
  }

  /** How create answers a repository reply: a missing entrance is named by
      its id. */
  function CreateResult(reply: DevolutionReply, idEntrance: int): (r: DevolutionResult)
    ensures r == Failure(NotFound(WithId(DevolutionServices.EntranceNotFoundPrefix, idEntrance))) <==>
      reply == Sentinel(EDevolutionResponse.EntranceNotFound)
    ensures r.Success? <==> reply != Sentinel(EDevolutionResponse.EntranceNotFound)
    ensures r.Success? ==> r.value == reply
  {
    if reply == Sentinel(EDevolutionResponse.EntranceNotFound) then
      Failure(NotFound(WithId(DevolutionServices.EntranceNotFoundPrefix, idEntrance)))
    else Success(reply)
  }

  /** The entrance and devolution not-found messages never coincide: they
      part at "entrada" and "devolução". */
  lemma NotFoundMessagesDiffer(a: int, b: int)
    ensures WithId(DevolutionServices.EntranceNotFoundPrefix, a) !=
            WithId(DevolutionServices.DevolutionNotFoundPrefix, b)
  {
    var e := WithId(DevolutionServices.EntranceNotFoundPrefix, a);
    var d := WithId(DevolutionServices.DevolutionNotFoundPrefix, b);
    assert DevolutionServices.EntranceNotFoundPrefix[8] == 'e' && DevolutionServices.DevolutionNotFoundPrefix[8] == 'd';
    assert e[8] == e[..|DevolutionServices.EntranceNotFoundPrefix|][8];
    assert d[8] == d[..|DevolutionServices.DevolutionNotFoundPrefix|][8];
  }

  /** How update answers a repository reply: the entrance is checked first
      and named by the requested entrance id, then the devolution by its
      id. */
  function UpdateResult(reply: DevolutionReply, id: int, idEntrance: int): (r: DevolutionResult)
    ensures r == Failure(NotFound(WithId(DevolutionServices.EntranceNotFoundPrefix, idEntrance))) <==>
      reply == Sentinel(EDevolutionResponse.EntranceNotFound)
    ensures r == Failure(NotFound(WithId(DevolutionServices.DevolutionNotFoundPrefix, id))) <==>
      reply == Sentinel(EDevolutionResponse.DevolutionNotFound)
    ensures r.Success? <==> reply.Row? || reply == Sentinel(EDevolutionResponse.NotAuthorized)
    ensures r.Success? ==> r.value == reply
  {
    NotFoundMessagesDiffer(idEntrance, id);
    match reply
    case Row(_) => Success(reply)
    case Sentinel(code) =>
      match code
      case EntranceNotFound => Failure(NotFound(WithId(DevolutionServices.EntranceNotFoundPrefix, idEntrance)))
      case DevolutionNotFound => Failure(NotFound(WithId(DevolutionServices.DevolutionNotFoundPrefix, id)))
      case NotAuthorized => Success(reply)
  }

  class DevolutionService {
    const devolutionRepository: DevolutionRepository

    constructor (devolutionRepository: DevolutionRepository)
      ensures this.devolutionRepository == devolutionRepository
    {
      this.devolutionRepository := devolutionRepository;
    }

    /** Reads only. */
    method GetById(id: Input<int>) returns (result: DevolutionResult)
      ensures ValidateId(id).Some? ==> result == Failure(UnprocessableEntity(ValidateId(id).value))
      ensures ValidateId(id).None? ==>
        result == GetByIdResult(GetByIdOutcome(devolutionRepository.db.devolutions, id.value), id.value)
      ensures result.Success? ==>
        result.value.Row? && IsFirst(devolutionRepository.db.devolutions, DevolutionId, id.value, result.value.row)
    {
      var issue := ValidateId(id);
      if issue.Some? {
        return Failure(UnprocessableEntity(issue.value));
      }
      var reply := devolutionRepository.GetById(id.value);
      result := GetByIdResult(reply, id.value);
    }

    /** The new devolution's id and date are filled in by the database. */
    method Create(
      description: Input<string>, quantityProducts: Input<int>, idEntrance: Input<int>,
      newId: int, devolutionDate: Date)
      returns (result: DevolutionResult)
      requires devolutionRepository.db.Valid() && Absent(devolutionRepository.db.devolutions, DevolutionId, newId)
      modifies devolutionRepository.db
      ensures devolutionRepository.db.Valid()
      ensures unchanged(devolutionRepository.db`stores, devolutionRepository.db`products,
                        devolutionRepository.db`entrances, devolutionRepository.db`exits,
                        devolutionRepository.db`defectiveProducts)
      ensures DevolutionServices.CreateIssue(description, quantityProducts, idEntrance).Some? ==>
        result == Failure(UnprocessableEntity(
          DevolutionServices.CreateIssue(description, quantityProducts, idEntrance).value)) &&
        devolutionRepository.db.devolutions == old(devolutionRepository.db.devolutions)
      ensures DevolutionServices.CreateIssue(description, quantityProducts, idEntrance).None? ==>
        var reply := CreateOutcome(
          devolutionRepository.db.entrances, description.value, quantityProducts.value, idEntrance.value,
          newId, devolutionDate);
        result == CreateResult(reply, idEntrance.value) &&
        devolutionRepository.db.devolutions == old(devolutionRepository.db.devolutions) + RowsOf(reply)
      ensures result.Success? ==>
        result.value ==
        Row(Devolution(newId, description.value, quantityProducts.value, devolutionDate, idEntrance.value))
    {
      var issue := DevolutionServices.CreateIssue(description, quantityProducts, idEntrance);
      if issue.Some? {
        return Failure(UnprocessableEntity(issue.value));
      }
      var reply := devolutionRepository.Create(
        description.value, quantityProducts.value, idEntrance.value, newId, devolutionDate);
      result := CreateResult(reply, idEntrance.value);
    }

    method Update(
      id: Input<int>, description: Input<string>, quantityProducts: Input<int>, idEntrance: Input<int>)
      returns (result: DevolutionResult)
      requires devolutionRepository.db.Valid()
      modifies devolutionRepository.db
      ensures devolutionRepository.db.Valid()
      ensures unchanged(devolutionRepository.db`stores, devolutionRepository.db`products,
                        devolutionRepository.db`entrances, devolutionRepository.db`exits,
                        devolutionRepository.db`defectiveProducts)
      ensures UpdateIssue(id, description, quantityProducts, idEntrance).Some? ==>
        result == Failure(UnprocessableEntity(UpdateIssue(id, description, quantityProducts, idEntrance).value)) &&
        devolutionRepository.db.devolutions == old(devolutionRepository.db.devolutions)
      ensures UpdateIssue(id, description, quantityProducts, idEntrance).None? ==>
        var reply := UpdateOutcome(
          old(devolutionRepository.db.devolutions), devolutionRepository.db.entrances, id.value,
          description.value, quantityProducts.value, idEntrance.value);
        result == UpdateResult(reply, id.value, idEntrance.value) &&
        (reply.Sentinel? ==> devolutionRepository.db.devolutions == old(devolutionRepository.db.devolutions)) &&
        (reply.Row? ==>
          devolutionRepository.db.devolutions ==
          old(devolutionRepository.db.devolutions)[
            Find(old(devolutionRepository.db.devolutions), DevolutionId, id.value).value := reply.row])
      ensures result.Success? ==> result.value.Row? && result.value.row.idEntrance == idEntrance.value
    {
      var issue := UpdateIssue(id, description, quantityProducts, idEntrance);
      if issue.Some? {
        return Failure(UnprocessableEntity(issue.value));
      }
      var reply := devolutionRepository.Update(id.value, description.value, quantityProducts.value, idEntrance.value);
      result := UpdateResult(reply, id.value, idEntrance.value);
    }

    /** The repository's delete only looks the devolution up, so the table
        is never changed. */
    method Delete(id: Input<int>) returns (result: DevolutionResult)
      ensures ValidateId(id).Some? ==> result == Failure(UnprocessableEntity(ValidateId(id).value))
      ensures ValidateId(id).None? ==>
        (result == Failure(NotFound(WithId(DevolutionServices.DevolutionNotFoundPrefix, id.value))) <==>
         Absent(devolutionRepository.db.devolutions, DevolutionId, id.value))
      ensures ValidateId(id).None? ==>
        result == GetByIdResult(GetByIdOutcome(devolutionRepository.db.devolutions, id.value), id.value)
      ensures ValidateId(id).None? && !Absent(devolutionRepository.db.devolutions, DevolutionId, id.value) ==>
        result.Success?
      ensures result.Success? ==>
        result.value.Row? && IsFirst(devolutionRepository.db.devolutions, DevolutionId, id.value, result.value.row)
    {
      var issue := ValidateId(id);
      if issue.Some? {
        return Failure(UnprocessableEntity(issue.value));
      }
      var reply := devolutionRepository.Delete(id.value);
      result := GetByIdResult(reply, id.value);
    }
  }
}
