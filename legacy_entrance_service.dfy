/** The older entrance service, built on the Prisma repository. Its schemas
    carry the same fields and messages as the entrance use cases, but a
    request that fails one is an unprocessable entity, and the repository's
    replies are mapped without an authorization branch. */
module LegacyEntranceService {
  import opened Wrappers
  import opened Tables
  import opened Records
  import opened Responses
  import opened Errors
  import opened Validation
  import opened Schemas
  import opened Messages
  import opened Decimal
  import opened PrismaEntrance
  import EntranceServices

  type EntranceResult = Either<AppError, EntranceReply>

  /** The create schema: supplier (at least 2 characters), quantity (at
      least 1), price (at least 0.05), product id (at least 1). */
  function CreateIssue(
    supplier: Input<string>, quantityProducts: Input<int>, priceTotal: Input<real>, idProduct: Input<int>)
    : (r: Option<string>)
    ensures r.None? <==>
      supplier.Val? && Utf16Length(supplier.value) >= 2 && quantityProducts.Val? && quantityProducts.value >= 1 &&
      priceTotal.Val? && priceTotal.value >= 0.05 && idProduct.Val? && idProduct.value >= 1
    ensures supplier.Missing? ==> r == Some(EntranceServices.SupplierRequired)
    ensures supplier.Val? && Utf16Length(supplier.value) < 2 ==> r == Some(EntranceServices.SupplierTooShort)
    ensures (supplier.Val? && Utf16Length(supplier.value) >= 2 && quantityProducts.Val? && quantityProducts.value >= 1 &&
             priceTotal.Val? && priceTotal.value < 0.05) ==> r == Some(EntranceServices.PriceTooLow)
  {
    var fields := [TextValue(EntranceServices.Supplier, supplier), IntValue(EntranceServices.Quantity, quantityProducts),
                   PriceValue(EntranceServices.Price, priceTotal), IntValue(EntranceServices.ProductIdField, idProduct)];
    assert Passes(fields[0]) <==> supplier.Val? && Utf16Length(supplier.value) >= 2;
    assert Passes(fields[1]) <==> quantityProducts.Val? && quantityProducts.value >= 1;
    assert Passes(fields[2]) <==> priceTotal.Val? && priceTotal.value >= 0.05;
    assert Passes(fields[3]) <==> idProduct.Val? && idProduct.value >= 1;
    assert Passes(fields[0]) ==> FirstIssue(fields) == FirstIssue(fields[1..]);
    assert Passes(fields[0]) && Passes(fields[1]) ==> FirstIssue(fields[1..]) == FirstIssue(fields[2..]);
    FirstIssue(fields)
  }

  /** How getById and delete answer a repository reply. */
  function NotFoundResult(reply: EntranceReply, id: int): (r: EntranceResult)
    ensures r == Failure(NotFound(WithId(EntranceServices.EntranceNotFoundPrefix, id))) <==>
      reply == Sentinel(EEntranceResponse.EntranceNotFound)
    ensures r.Success? <==> reply != Sentinel(EEntranceResponse.EntranceNotFound)
    ensures r.Success? ==> r.value == reply
  {
    if reply == Sentinel(EEntranceResponse.EntranceNotFound) then
      Failure(NotFound(WithId(EntranceServices.EntranceNotFoundPrefix, id)))
    else Success(reply)
  }

  /** How create answers a repository reply: a missing product is named by
      its id. */
  function CreateResult(reply: EntranceReply, idProduct: int): (r: EntranceResult)
    ensures r == Failure(NotFound(WithId(EntranceServices.ProductNotFoundPrefix, idProduct))) <==>
      reply == Sentinel(EEntranceResponse.ProductNotFound)
    ensures r.Success? <==> reply != Sentinel(EEntranceResponse.ProductNotFound)
    ensures r.Success? ==> r.value == reply
  {
    if reply == Sentinel(EEntranceResponse.ProductNotFound) then
      Failure(NotFound(WithId(EntranceServices.ProductNotFoundPrefix, idProduct)))
    else Success(reply)
  }

  /** The two not-found messages of update never coincide: the entrance
      prefix reads "Nenhuma", the product prefix "Nenhum ". */
  lemma NotFoundMessagesDiffer(a: int, b: int)
    ensures WithId(EntranceServices.EntranceNotFoundPrefix, a) != WithId(EntranceServices.ProductNotFoundPrefix, b)
  {
    var e := WithId(EntranceServices.EntranceNotFoundPrefix, a);
    var p := WithId(EntranceServices.ProductNotFoundPrefix, b);
    assert e[6] == e[..|EntranceServices.EntranceNotFoundPrefix|][6] == 'a';
    assert p[6] == p[..|EntranceServices.ProductNotFoundPrefix|][6] == ' ';
  }

  /** Update's mapping as the service writes it: a missing product is
      reported with the entrance's id. */
  function UpdateResultAsWritten(reply: EntranceReply, id: int, idProduct: int): (r: EntranceResult)
    ensures reply == Sentinel(EEntranceResponse.ProductNotFound) ==>
      r == Failure(NotFound(WithId(EntranceServices.ProductNotFoundPrefix, id)))
    ensures reply == Sentinel(EEntranceResponse.EntranceNotFound) ==>
      r == Failure(NotFound(WithId(EntranceServices.EntranceNotFoundPrefix, id)))
    ensures r.Success? <==> reply.Row? || reply == Sentinel(EEntranceResponse.NotAuthorized)
    ensures r.Success? ==> r.value == reply
  {
    match reply
    case Row(_) => Success(reply)
    case Sentinel(code) =>
      match code
      case EntranceNotFound => Failure(NotFound(WithId(EntranceServices.EntranceNotFoundPrefix, id)))
      case ProductNotFound => Failure(NotFound(WithId(EntranceServices.ProductNotFoundPrefix, id)))
      case NotAuthorized => Success(reply)
  }

  /** Whenever the two ids differ, the message as written names the wrong
      record: it cannot be read back as the product id the request gave,
      so it differs from what the corrected mapping answers. */
  lemma AsWrittenNamesTheEntrance(id: int, idProduct: int)
    requires id != idProduct
    ensures
      var reply := Sentinel(EEntranceResponse.ProductNotFound);
      var m := UpdateResultAsWritten(reply, id, idProduct).error.message;
      DecimalValue(m[|EntranceServices.ProductNotFoundPrefix|..]) != idProduct &&
      UpdateResultAsWritten(reply, id, idProduct) != UpdateResult(reply, id, idProduct)
  {
  }

  /** Update's mapping with the product id in the product message: an
      entrance that is missing is reported first, with its own id. */
  function UpdateResult(reply: EntranceReply, id: int, idProduct: int): (r: EntranceResult)
    ensures r == Failure(NotFound(WithId(EntranceServices.EntranceNotFoundPrefix, id))) <==>
      reply == Sentinel(EEntranceResponse.EntranceNotFound)
    ensures r == Failure(NotFound(WithId(EntranceServices.ProductNotFoundPrefix, idProduct))) <==>
      reply == Sentinel(EEntranceResponse.ProductNotFound)
    ensures r.Success? <==> reply.Row? || reply == Sentinel(EEntranceResponse.NotAuthorized)
    ensures r.Success? ==> r.value == reply
  {
    NotFoundMessagesDiffer(id, idProduct);
    match reply
    case Row(_) => Success(reply)
    case Sentinel(code) =>
      match code
      case EntranceNotFound => Failure(NotFound(WithId(EntranceServices.EntranceNotFoundPrefix, id)))
      case ProductNotFound => Failure(NotFound(WithId(EntranceServices.ProductNotFoundPrefix, idProduct)))
      case NotAuthorized => Success(reply)
  }

  class EntranceService {
    const entranceRepository: EntranceRepository

    constructor (entranceRepository: EntranceRepository)
      ensures this.entranceRepository == entranceRepository
    {
      this.entranceRepository := entranceRepository;
    }

    /** Reads only. */
    method GetById(id: Input<int>) returns (result: EntranceResult)
      ensures ValidateId(id).Some? ==> result == Failure(UnprocessableEntity(ValidateId(id).value))
      ensures ValidateId(id).None? ==>
        result == NotFoundResult(GetByIdOutcome(entranceRepository.db.entrances, id.value), id.value)
      ensures result.Success? ==>
        result.value.Row? && IsFirst(entranceRepository.db.entrances, EntranceId, id.value, result.value.row)
    {
      var issue := ValidateId(id);
      if issue.Some? {
        return Failure(UnprocessableEntity(issue.value));
      }
      var reply := entranceRepository.GetById(id.value);
      result := NotFoundResult(reply, id.value);
    }

    /** The new entrance's id and date are filled in by the database. */
    method Create(
      supplier: Input<string>, quantityProducts: Input<int>, priceTotal: Input<real>, idProduct: Input<int>,
      newId: int, entranceDate: Date)
      returns (result: EntranceResult)
      requires entranceRepository.db.Valid() && Absent(entranceRepository.db.entrances, EntranceId, newId)
      modifies entranceRepository.db
      ensures entranceRepository.db.Valid()
      ensures unchanged(entranceRepository.db`stores, entranceRepository.db`products, entranceRepository.db`exits,
                        entranceRepository.db`devolutions, entranceRepository.db`defectiveProducts)
      ensures CreateIssue(supplier, quantityProducts, priceTotal, idProduct).Some? ==>
        result == Failure(UnprocessableEntity(CreateIssue(supplier, quantityProducts, priceTotal, idProduct).value)) &&
        entranceRepository.db.entrances == old(entranceRepository.db.entrances)
      ensures CreateIssue(supplier, quantityProducts, priceTotal, idProduct).None? ==>
        var reply := CreateOutcome(
          entranceRepository.db.products, supplier.value, quantityProducts.value, priceTotal.value,
          idProduct.value, newId, entranceDate);
        result == CreateResult(reply, idProduct.value) &&
        entranceRepository.db.entrances == old(entranceRepository.db.entrances) + RowsOf(reply)
      ensures result.Success? ==>
        result.value ==
        Row(Entrance(newId, supplier.value, priceTotal.value, quantityProducts.value, entranceDate, idProduct.value))
    {
      var issue := CreateIssue(supplier, quantityProducts, priceTotal, idProduct);
      if issue.Some? {
        return Failure(UnprocessableEntity(issue.value));
      }
      var reply := entranceRepository.Create(
        supplier.value, quantityProducts.value, priceTotal.value, idProduct.value, newId, entranceDate);
      result := CreateResult(reply, idProduct.value);
    }

    /** Uses the corrected mapping, which names the missing product by its
        own id. */
    method Update(
      id: Input<int>, supplier: Input<string>, quantityProducts: Input<int>, priceTotal: Input<real>,
      idProduct: Input<int>)
      returns (result: EntranceResult)
      requires entranceRepository.db.Valid()
      modifies entranceRepository.db
      ensures entranceRepository.db.Valid()
      ensures unchanged(entranceRepository.db`stores, entranceRepository.db`products, entranceRepository.db`exits,
                        entranceRepository.db`devolutions, entranceRepository.db`defectiveProducts)
      ensures EntranceServices.UpdateIssue(id, supplier, quantityProducts, priceTotal, idProduct).Some? ==>
        result == Failure(UnprocessableEntity(
          EntranceServices.UpdateIssue(id, supplier, quantityProducts, priceTotal, idProduct).value)) &&
        entranceRepository.db.entrances == old(entranceRepository.db.entrances)
      ensures EntranceServices.UpdateIssue(id, supplier, quantityProducts, priceTotal, idProduct).None? ==>
        var reply := UpdateOutcome(
          old(entranceRepository.db.entrances), entranceRepository.db.products, id.value, supplier.value,
          quantityProducts.value, priceTotal.value, idProduct.value);
        result == UpdateResult(reply, id.value, idProduct.value) &&
        (reply.Sentinel? ==> entranceRepository.db.entrances == old(entranceRepository.db.entrances)) &&
        (reply.Row? ==>
          entranceRepository.db.entrances ==
          old(entranceRepository.db.entrances)[
            Find(old(entranceRepository.db.entrances), EntranceId, id.value).value := reply.row])
      ensures result.Success? ==>
        result.value.Row? && result.value.row.idProduct == idProduct.value
    {
      var issue := EntranceServices.UpdateIssue(id, supplier, quantityProducts, priceTotal, idProduct);
      if issue.Some? {
        return Failure(UnprocessableEntity(issue.value));
      }
      var reply := entranceRepository.Update(
        id.value, supplier.value, quantityProducts.value, priceTotal.value, idProduct.value);
      result := UpdateResult(reply, id.value, idProduct.value);
    }

    method Delete(id: Input<int>) returns (result: EntranceResult)
      requires entranceRepository.db.Valid()
      modifies entranceRepository.db
      ensures entranceRepository.db.Valid()
      ensures unchanged(entranceRepository.db`stores, entranceRepository.db`products, entranceRepository.db`exits,
                        entranceRepository.db`devolutions, entranceRepository.db`defectiveProducts)
      ensures ValidateId(id).Some? ==>
        result == Failure(UnprocessableEntity(ValidateId(id).value)) &&
        entranceRepository.db.entrances == old(entranceRepository.db.entrances)
      ensures ValidateId(id).None? ==>
        var reply := DeleteOutcome(old(entranceRepository.db.entrances), id.value);
        result == NotFoundResult(reply, id.value) &&
        (reply.Sentinel? ==> entranceRepository.db.entrances == old(entranceRepository.db.entrances)) &&
        (reply.Row? ==>
          entranceRepository.db.entrances ==
          Remove(old(entranceRepository.db.entrances), Find(old(entranceRepository.db.entrances), EntranceId, id.value).value))
      ensures result.Success? ==> result.value.Row? && result.value.row.id == id.value
    {
      var issue := ValidateId(id);
      if issue.Some? {
        return Failure(UnprocessableEntity(issue.value));
      }
      var reply := entranceRepository.Delete(id.value);
      result := NotFoundResult(reply, id.value);
    }
  }
}
