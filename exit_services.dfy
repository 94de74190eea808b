/** The exit use cases: create, update, delete and get by id. Each checks
    its request against a schema and reports the first issue as a bad
    request without touching the repository; otherwise it calls the
    repository with the token's store id and maps each sentinel to an error
    with a fixed message. Any other reply is handed back as a success. */
module ExitServices {
  import opened Wrappers
  import opened Tables
  import opened Records
  import opened Responses
  import opened Errors
  import opened Validation
  import opened Schemas
  import opened Messages
  import opened InMemoryExit

  const DescriptionRequired := "Faça uma descrição para a saída do(s) produto(s)"
  const DescriptionInvalidType := "A descrição da saída do(s) produto(s) deve ser uma string"
  const DescriptionTooShort := "A descrição deve ter pelo menos 5 caracteres"
  const QuantityRequired := "Informe a quantidade de produtos vendidos (saída)"

  const Description: TextField := TextField(DescriptionRequired, DescriptionInvalidType, Min(5, DescriptionTooShort))
  const Quantity: IntField := IntField(
    QuantityRequired,
    "A quantidade de produtos vendidos deve ser um número",
    Min(1, "A quantidade de produtos vendidos não pode ser menor que 1"))
  const Price: PriceField := PriceField("Informe o preço total da saída", "O preço total deve ser um número", NoMin)
  const ProductIdField: IntField := IntField(
    "O ID do produto é obrigatório",
    "O ID do produto deve ser um número",
    Min(1, "O ID do produto não pode ser menor que 1"))

  const CreateNotAuthorized := "Você não tem permissão para criar uma nova saída nessa loja"
  const UpdateNotAuthorized := "Você não tem permissão para atualizar uma saída dessa loja"
  const DeleteNotAuthorized := "Você não tem permissão para deletar uma saída dessa loja"
  const NoStockMessage := "Não é possível efetuar a saída, pois não tem estoque suficiente deste produto"
  const ProductNotFoundPrefix := "Nenhum produto foi encontrado com o ID: "
  const ExitNotFoundPrefix := "Nenhuma saída foi encontrada com o ID: "

  type ExitResult = Either<AppError, ExitReply>

  /** The create schema: description (at least 5 characters), quantity (at
      least 1), price, product id (at least 1), in that order. */
  function CreateIssue(description: Input<string>, quantityProducts: Input<int>, priceTotal: Input<real>, idProduct: Input<int>)
    : (r: Option<string>)
    ensures r.None? <==>
      description.Val? && Utf16Length(description.value) >= 5 && quantityProducts.Val? && quantityProducts.value >= 1 &&
      priceTotal.Val? && idProduct.Val? && idProduct.value >= 1
    ensures description.Missing? ==> r == Some(DescriptionRequired)
    ensures description.Val? && Utf16Length(description.value) < 5 ==> r == Some(DescriptionTooShort)
    ensures description.Val? && Utf16Length(description.value) >= 5 && quantityProducts.Missing? ==> r == Some(QuantityRequired)
  {
    var fields := [TextValue(Description, description), IntValue(Quantity, quantityProducts),
                   PriceValue(Price, priceTotal), IntValue(ProductIdField, idProduct)];
    assert Passes(fields[0]) <==> description.Val? && Utf16Length(description.value) >= 5;
    assert Passes(fields[1]) <==> quantityProducts.Val? && quantityProducts.value >= 1;
    assert Passes(fields[2]) <==> priceTotal.Val?;
    assert Passes(fields[3]) <==> idProduct.Val? && idProduct.value >= 1;
    assert Passes(fields[0]) ==> FirstIssue(fields) == FirstIssue(fields[1..]);
    FirstIssue(fields)
  }

  /** Description length is counted as JavaScript counts it: three
      characters above U+FFFF are six code units, enough for `.min(5)`,
      while three characters of the Basic Multilingual Plane are not. */
  lemma {:induction false} AstralDescriptionMeetsMinimum()
    ensures CreateIssue(Val("\U{1F600}\U{1F600}\U{1F600}"), Val(1), Val(1.0), Val(1)).None?
    ensures CreateIssue(Val("abc"), Val(1), Val(1.0), Val(1)) == Some(DescriptionTooShort)
  {
    var astral := "\U{1F600}\U{1F600}\U{1F600}";
    assert forall i :: 0 <= i < |astral| ==> astral[i] as int > 0xFFFF;
    assert Utf16Length(astral) == 6;
    var plain := "abc";
    assert forall i :: 0 <= i < |plain| ==> plain[i] as int <= 0xFFFF;
    assert Utf16Length(plain) == 3;
  }

  /** The update schema: id, then the create schema without the product. */
  function UpdateIssue(id: Input<int>, description: Input<string>, quantityProducts: Input<int>, priceTotal: Input<real>)
    : (r: Option<string>)
    ensures r.None? <==>
      id.Val? && id.value >= 1 && description.Val? && Utf16Length(description.value) >= 5 &&
      quantityProducts.Val? && quantityProducts.value >= 1 && priceTotal.Val?
    ensures ValidateId(id).Some? ==> r == ValidateId(id)
    ensures ValidateId(id).None? && description.Missing? ==> r == Some(DescriptionRequired)
  {
    var fields := [IntValue(IdField, id), TextValue(Description, description),
                   IntValue(Quantity, quantityProducts), PriceValue(Price, priceTotal)];
    assert Passes(fields[0]) <==> id.Val? && id.value >= 1;
    assert Passes(fields[1]) <==> description.Val? && Utf16Length(description.value) >= 5;
    assert Passes(fields[2]) <==> quantityProducts.Val? && quantityProducts.value >= 1;
    assert Passes(fields[3]) <==> priceTotal.Val?;
    assert Passes(fields[0]) ==> FirstIssue(fields) == FirstIssue(fields[1..]);
    FirstIssue(fields)
  }

  /** How create answers a repository reply. */
  function CreateResult(reply: ExitReply, idProduct: int): (r: ExitResult)
    ensures r == Failure(Unauthorized(CreateNotAuthorized)) <==> reply == Sentinel(EExitResponse.NotAuthorized)
    ensures r == Failure(NotFound(WithId(ProductNotFoundPrefix, idProduct))) <==>
      reply == Sentinel(EExitResponse.ProductNotFound)
    ensures r == Failure(Conflict(NoStockMessage)) <==> reply == Sentinel(EExitResponse.NoStock)
    ensures r.Success? <==> reply.Row? || reply == Sentinel(EExitResponse.ExitNotFound)
    ensures r.Success? ==> r.value == reply
  {
    match reply
    case Row(_) => Success(reply)
    case Sentinel(code) =>
      match code
      case NotAuthorized => Failure(Unauthorized(CreateNotAuthorized))
      case ProductNotFound => Failure(NotFound(WithId(ProductNotFoundPrefix, idProduct)))
      case NoStock => Failure(Conflict(NoStockMessage))
      case ExitNotFound => Success(reply)
  }

  /** How update answers a repository reply. */
  function UpdateResult(reply: ExitReply, id: int): (r: ExitResult)
    ensures r == Failure(Unauthorized(UpdateNotAuthorized)) <==> reply == Sentinel(EExitResponse.NotAuthorized)
    ensures r == Failure(NotFound(WithId(ExitNotFoundPrefix, id))) <==> reply == Sentinel(EExitResponse.ExitNotFound)
    ensures r == Failure(Conflict(NoStockMessage)) <==> reply == Sentinel(EExitResponse.NoStock)
    ensures r.Success? <==> reply.Row? || reply == Sentinel(EExitResponse.ProductNotFound)
    ensures r.Success? ==> r.value == reply
  {
    match reply
    case Row(_) => Success(reply)
    case Sentinel(code) =>
      match code
      case NotAuthorized => Failure(Unauthorized(UpdateNotAuthorized))
      case ExitNotFound => Failure(NotFound(WithId(ExitNotFoundPrefix, id)))
      case NoStock => Failure(Conflict(NoStockMessage))
      case ProductNotFound => Success(reply)
  }

  /** How delete answers a repository reply. */
  function DeleteResult(reply: ExitReply, id: int): (r: ExitResult)
    ensures r == Failure(Unauthorized(DeleteNotAuthorized)) <==> reply == Sentinel(EExitResponse.NotAuthorized)
    ensures r == Failure(NotFound(WithId(ExitNotFoundPrefix, id))) <==> reply == Sentinel(EExitResponse.ExitNotFound)
    ensures r.Success? <==>
      reply.Row? || reply == Sentinel(EExitResponse.ProductNotFound) || reply == Sentinel(EExitResponse.NoStock)
    ensures r.Success? ==> r.value == reply
  {
    match reply
    case Row(_) => Success(reply)
    case Sentinel(code) =>
      match code
      case NotAuthorized => Failure(Unauthorized(DeleteNotAuthorized))
      case ExitNotFound => Failure(NotFound(WithId(ExitNotFoundPrefix, id)))
      case ProductNotFound => Success(reply)
      case NoStock => Success(reply)
  }

  /** How get-by-id answers a repository reply. */
  function GetByIdResult(reply: ExitReply, id: int): (r: ExitResult)
    ensures r == Failure(NotFound(WithId(ExitNotFoundPrefix, id))) <==> reply == Sentinel(EExitResponse.ExitNotFound)
    ensures r.Success? <==> reply != Sentinel(EExitResponse.ExitNotFound)
    ensures r.Success? ==> r.value == reply
  {
    if reply == Sentinel(EExitResponse.ExitNotFound) then Failure(NotFound(WithId(ExitNotFoundPrefix, id)))
    else Success(reply)
  }

  class CreateExitService {
    const repository: InMemoryExitRepository

    constructor (repository: InMemoryExitRepository)
      ensures this.repository == repository
    {
      this.repository := repository;
    }

    method Execute(
      description: Input<string>, quantityProducts: Input<int>, priceTotal: Input<real>, idProduct: Input<int>,
      infosToken: InfosToken)
      returns (result: ExitResult)
      modifies repository
      ensures CreateIssue(description, quantityProducts, priceTotal, idProduct).Some? ==>
        result == Failure(BadRequest(CreateIssue(description, quantityProducts, priceTotal, idProduct).value)) &&
        repository.exits == old(repository.exits)
      ensures CreateIssue(description, quantityProducts, priceTotal, idProduct).None? ==>
        var reply := CreateOutcome(
          repository.products, description.value, quantityProducts.value, priceTotal.value, idProduct.value, infosToken.id);
        result == CreateResult(reply, idProduct.value) && repository.exits == old(repository.exits) + RowsOf(reply)
      ensures result.Success? ==> result.value.Row?
    {
      var issue := CreateIssue(description, quantityProducts, priceTotal, idProduct);
      if issue.Some? {
        return Failure(BadRequest(issue.value));
      }
      var reply := repository.Create(
        description.value, quantityProducts.value, priceTotal.value, idProduct.value, infosToken.id);
      result := CreateResult(reply, idProduct.value);
    }
  }

  class UpdateExitService {
    const repository: InMemoryExitRepository

    constructor (repository: InMemoryExitRepository)
      ensures this.repository == repository
    {
      this.repository := repository;
    }

    method Execute(
      id: Input<int>, description: Input<string>, quantityProducts: Input<int>, priceTotal: Input<real>,
      infosToken: InfosToken)
      returns (result: ExitResult)
      modifies repository
      ensures UpdateIssue(id, description, quantityProducts, priceTotal).Some? ==>
        result == Failure(BadRequest(UpdateIssue(id, description, quantityProducts, priceTotal).value)) &&
        repository.exits == old(repository.exits)
      ensures UpdateIssue(id, description, quantityProducts, priceTotal).None? ==>
        var reply := UpdateOutcome(
          old(repository.exits), repository.products, id.value, description.value, quantityProducts.value,
          priceTotal.value, infosToken.id);
        result == UpdateResult(reply, id.value) &&
        (reply.Sentinel? ==> repository.exits == old(repository.exits)) &&
        (reply.Row? ==>
          repository.exits == old(repository.exits)[Find(old(repository.exits), ExitId, id.value).value := reply.row])
      ensures result.Success? ==> result.value.Row?
    {
      var issue := UpdateIssue(id, description, quantityProducts, priceTotal);
      if issue.Some? {
        return Failure(BadRequest(issue.value));
      }
      var reply := repository.Update(id.value, description.value, quantityProducts.value, priceTotal.value, infosToken.id);
      result := UpdateResult(reply, id.value);
    }
  }

  class DeleteExitService {
    const repository: InMemoryExitRepository

    constructor (repository: InMemoryExitRepository)
      ensures this.repository == repository
    {
      this.repository := repository;
    }

    method Execute(id: Input<int>, infosToken: InfosToken) returns (result: ExitResult)
      modifies repository
      ensures ValidateId(id).Some? ==>
        result == Failure(BadRequest(ValidateId(id).value)) && repository.exits == old(repository.exits)
      ensures ValidateId(id).None? ==>
        var reply := DeleteOutcome(old(repository.exits), repository.products, id.value, infosToken.id);
        result == DeleteResult(reply, id.value) &&
        (reply.Sentinel? ==> repository.exits == old(repository.exits)) &&
        (reply.Row? ==> repository.exits == old(repository.exits)[..|old(repository.exits)| - 1])
      ensures result.Success? ==> result.value.Row?
    {
      var issue := ValidateId(id);
      if issue.Some? {
        return Failure(BadRequest(issue.value));
      }
      var reply := repository.Delete(id.value, infosToken.id);
      result := DeleteResult(reply, id.value);
    }
  }

  class GetExitByIdService {
    const repository: InMemoryExitRepository

    constructor (repository: InMemoryExitRepository)
      ensures this.repository == repository
    {
      this.repository := repository;
    }

    /** Reads only: nothing in the repository changes. */
    method Execute(id: Input<int>) returns (result: ExitResult)
      ensures ValidateId(id).Some? ==> result == Failure(BadRequest(ValidateId(id).value))
      ensures ValidateId(id).None? ==> result == GetByIdResult(GetByIdOutcome(repository.exits, id.value), id.value)
      ensures result.Success? ==> result.value.Row?
    {
      var issue := ValidateId(id);
      if issue.Some? {
        return Failure(BadRequest(issue.value));
      }
      var reply := repository.GetById(id.value);
      result := GetByIdResult(reply, id.value);
    }
  }
}
