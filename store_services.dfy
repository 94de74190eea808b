/** The store use cases: create, update, delete and get by id. A request
    that fails its schema is a bad request and leaves the repository alone;
    otherwise each sentinel the repository answers becomes an error. Create
    stores a hash of the password, never the password itself; the hash
    (bcrypt with a fresh salt) and the email format check are parameters. */
module StoreServices {
  import opened Wrappers
  import opened Tables
  import opened Records
  import opened Responses
  import opened Errors
  import opened Validation
  import opened Schemas
  import opened Messages
  import opened InMemoryStore

  const NameRequired := "Informe o nome da loja"
  const NameInvalidType := "O nome da loja deve ser uma string"
  const EmailRequired := "Informe o email da loja"
  const EmailInvalid := "Endereço de email inválido"
  const PasswordTooShort := "A senha deve ter no mínimo 5 caracteres"

  const Name: TextField := TextField(NameRequired, NameInvalidType, NoMin)
  const Password: TextField := TextField("Informe a senha da loja", "A senha da loja deve ser uma string", Min(5, PasswordTooShort))

  /** `z.string(...).email(...)` for the store's email, with the format
      check `isEmail`. */
  function Email(isEmail: string -> bool): EmailField
  {
    EmailField(EmailRequired, "O email da loja deve ser uma string", isEmail, EmailInvalid)
  }

  const UpdateNotAuthorized := "Você não tem permissão para atualizar essa loja"
  const DeleteNotAuthorized := "Você não tem permissão para deletar essa loja"
  const NameExistsPrefix := "Já existe uma loja com esse nome: "
  const EmailExistsMessage := "Esse email já foi cadastrado"
  const NameTakenMessage := "Esse nome de loja já existe"
  const StoreNotFoundPrefix := "Nenhuma loja foi encontrada com o ID: "

  type StoreResult = Either<AppError, StoreReply>

  /** The create schema: name (any string), email (well formed), password
      (at least 5 characters). */
  function CreateIssue(nameStore: Input<string>, email: Input<string>, password: Input<string>, isEmail: string -> bool)
    : (r: Option<string>)
    ensures r.None? <==>
      nameStore.Val? && email.Val? && isEmail(email.value) && password.Val? && Utf16Length(password.value) >= 5
    ensures nameStore.Missing? ==> r == Some(NameRequired)
    ensures nameStore.Val? && email.Val? && !isEmail(email.value) ==> r == Some(EmailInvalid)
    ensures nameStore.Val? && email.Val? && isEmail(email.value) && password.Val? && Utf16Length(password.value) < 5 ==>
      r == Some(PasswordTooShort)
  {
    var fields := [TextValue(Name, nameStore), EmailValue(Email(isEmail), email), TextValue(Password, password)];
    assert Passes(fields[0]) <==> nameStore.Val?;
    assert Passes(fields[1]) <==> email.Val? && isEmail(email.value);
    assert Passes(fields[2]) <==> password.Val? && Utf16Length(password.value) >= 5;
    assert Passes(fields[0]) ==> FirstIssue(fields) == FirstIssue(fields[1..]);
    assert Passes(fields[0]) && Passes(fields[1]) ==> FirstIssue(fields[1..]) == FirstIssue(fields[2..]);
    FirstIssue(fields)
  }

  /** The update schema: id, then the name (any string). */
  function UpdateIssue(id: Input<int>, nameStore: Input<string>): (r: Option<string>)
    ensures r.None? <==> id.Val? && id.value >= 1 && nameStore.Val?
    ensures ValidateId(id).Some? ==> r == ValidateId(id)
    ensures ValidateId(id).None? && nameStore.Missing? ==> r == Some(NameRequired)
    ensures ValidateId(id).None? && nameStore.WrongType? ==> r == Some(NameInvalidType)
  {
    var fields := [IntValue(IdField, id), TextValue(Name, nameStore)];
    assert Passes(fields[0]) <==> id.Val? && id.value >= 1;
    assert Passes(fields[1]) <==> nameStore.Val?;
    assert Passes(fields[0]) ==> FirstIssue(fields) == FirstIssue(fields[1..]);
    FirstIssue(fields)
  }

  /** How create answers a repository reply. */
  function CreateResult(reply: StoreReply, nameStore: string): (r: StoreResult)
    ensures r == Failure(Conflict(WithName(NameExistsPrefix, nameStore))) <==>
      reply == Sentinel(EStoreResponse.NameStoreExists)
    ensures reply == Sentinel(EStoreResponse.EmailExists) ==> r == Failure(Conflict(EmailExistsMessage))
    ensures r.Success? <==>
      reply.Row? || reply == Sentinel(EStoreResponse.StoreNotFound) || reply == Sentinel(EStoreResponse.NotAuthorized)
    ensures r.Success? ==> r.value == reply
  {
    match reply
    case Row(_) => Success(reply)
    case Sentinel(code) =>
      match code
      case NameStoreExists => Failure(Conflict(WithName(NameExistsPrefix, nameStore)))
      case EmailExists => Failure(Conflict(EmailExistsMessage))
      case StoreNotFound => Success(reply)
      case NotAuthorized => Success(reply)
  }

  /** How update answers a repository reply. */
  function UpdateResult(reply: StoreReply, id: int): (r: StoreResult)
    ensures r == Failure(Unauthorized(UpdateNotAuthorized)) <==> reply == Sentinel(EStoreResponse.NotAuthorized)
    ensures r == Failure(NotFound(WithId(StoreNotFoundPrefix, id))) <==> reply == Sentinel(EStoreResponse.StoreNotFound)
    ensures r == Failure(Conflict(NameTakenMessage)) <==> reply == Sentinel(EStoreResponse.NameStoreExists)
    ensures r.Success? <==> reply.Row? || reply == Sentinel(EStoreResponse.EmailExists)
    ensures r.Success? ==> r.value == reply
  {
    match reply
    case Row(_) => Success(reply)
    case Sentinel(code) =>
      match code
      case NotAuthorized => Failure(Unauthorized(UpdateNotAuthorized))
      case StoreNotFound => Failure(NotFound(WithId(StoreNotFoundPrefix, id)))
      case NameStoreExists => Failure(Conflict(NameTakenMessage))
      case EmailExists => Success(reply)
  }

  /** How delete answers a repository reply. */
  function DeleteResult(reply: StoreReply, id: int): (r: StoreResult)
    ensures r == Failure(Unauthorized(DeleteNotAuthorized)) <==> reply == Sentinel(EStoreResponse.NotAuthorized)
    ensures r == Failure(NotFound(WithId(StoreNotFoundPrefix, id))) <==> reply == Sentinel(EStoreResponse.StoreNotFound)
    ensures r.Success? <==>
      reply.Row? || reply == Sentinel(EStoreResponse.NameStoreExists) || reply == Sentinel(EStoreResponse.EmailExists)
    ensures r.Success? ==> r.value == reply
  {
    match reply
    case Row(_) => Success(reply)
    case Sentinel(code) =>
      match code
      case NotAuthorized => Failure(Unauthorized(DeleteNotAuthorized))
      case StoreNotFound => Failure(NotFound(WithId(StoreNotFoundPrefix, id)))
      case NameStoreExists => Success(reply)
      case EmailExists => Success(reply)
  }

  /** How get-by-id answers a repository reply. */
  function GetByIdResult(reply: StoreReply, id: int): (r: StoreResult)
    ensures r == Failure(NotFound(WithId(StoreNotFoundPrefix, id))) <==> reply == Sentinel(EStoreResponse.StoreNotFound)
    ensures r.Success? <==> reply != Sentinel(EStoreResponse.StoreNotFound)
    ensures r.Success? ==> r.value == reply
  {
    if reply == Sentinel(EStoreResponse.StoreNotFound) then Failure(NotFound(WithId(StoreNotFoundPrefix, id)))
    else Success(reply)
  }

  class CreateStoreService {
    const repository: InMemoryStoreRepository

    constructor (repository: InMemoryStoreRepository)
      ensures this.repository == repository
    {
      this.repository := repository;
    }

    /** `hashPassword` stands for `bcrypt.hash` with a fresh salt. */
    method Execute(
      nameStore: Input<string>, email: Input<string>, password: Input<string>,
      isEmail: string -> bool, hashPassword: string -> string)
      returns (result: StoreResult)
      modifies repository
      ensures CreateIssue(nameStore, email, password, isEmail).Some? ==>
        result == Failure(BadRequest(CreateIssue(nameStore, email, password, isEmail).value)) &&
        repository.stores == old(repository.stores)
      ensures CreateIssue(nameStore, email, password, isEmail).None? ==>
        var reply := CreateOutcome(old(repository.stores), nameStore.value, email.value, hashPassword(password.value));
        result == CreateResult(reply, nameStore.value) && repository.stores == old(repository.stores) + RowsOf(reply)
      ensures result.Success? ==>
        result.value.Row? && password.Val? && result.value.row.password == hashPassword(password.value)
    {
      var issue := CreateIssue(nameStore, email, password, isEmail);
      if issue.Some? {
        return Failure(BadRequest(issue.value));
      }
      var passwordHash := hashPassword(password.value);
      var reply := repository.Create(nameStore.value, email.value, passwordHash);
      result := CreateResult(reply, nameStore.value);
    }
  }

  class UpdateStoreService {
    const repository: InMemoryStoreRepository

    constructor (repository: InMemoryStoreRepository)
      ensures this.repository == repository
    {
      this.repository := repository;
    }

    method Execute(id: Input<int>, nameStore: Input<string>, infosToken: InfosToken) returns (result: StoreResult)
      modifies repository
      ensures UpdateIssue(id, nameStore).Some? ==>
        result == Failure(BadRequest(UpdateIssue(id, nameStore).value)) && repository.stores == old(repository.stores)
      ensures UpdateIssue(id, nameStore).None? ==>
        var reply := UpdateOutcome(old(repository.stores), id.value, nameStore.value, infosToken.id);
        result == UpdateResult(reply, id.value) &&
        (reply.Sentinel? ==> repository.stores == old(repository.stores)) &&
        (reply.Row? ==>
          repository.stores == old(repository.stores)[Find(old(repository.stores), StoreId, id.value).value := reply.row])
      ensures result.Success? ==> result.value.Row? && id.Val? && id.value == infosToken.id
    {
      var issue := UpdateIssue(id, nameStore);
      if issue.Some? {
        return Failure(BadRequest(issue.value));
      }
      var reply := repository.Update(id.value, nameStore.value, infosToken.id);
      result := UpdateResult(reply, id.value);
    }
  }

  class DeleteStoreService {
    const repository: InMemoryStoreRepository

    constructor (repository: InMemoryStoreRepository)
      ensures this.repository == repository
    {
      this.repository := repository;
    }

    method Execute(id: Input<int>, infosToken: InfosToken) returns (result: StoreResult)
      modifies repository
      ensures ValidateId(id).Some? ==>
        result == Failure(BadRequest(ValidateId(id).value)) && repository.stores == old(repository.stores)
      ensures ValidateId(id).None? ==>
        var reply := DeleteOutcome(old(repository.stores), id.value, infosToken.id);
        result == DeleteResult(reply, id.value) &&
        (reply.Sentinel? ==> repository.stores == old(repository.stores)) &&
        (reply.Row? ==> repository.stores == old(repository.stores)[..|old(repository.stores)| - 1])
      ensures result.Success? ==> result.value.Row? && result.value.row.id == infosToken.id
    {
      var issue := ValidateId(id);
      if issue.Some? {
        return Failure(BadRequest(issue.value));
      }
      var reply := repository.Delete(id.value, infosToken.id);
      result := DeleteResult(reply, id.value);
    }
  }

  class GetStoreByIdService {
    const repository: InMemoryStoreRepository

    constructor (repository: InMemoryStoreRepository)
      ensures this.repository == repository
    {
      this.repository := repository;
    }

    method Execute(id: Input<int>) returns (result: StoreResult)
      ensures ValidateId(id).Some? ==> result == Failure(BadRequest(ValidateId(id).value))
      ensures ValidateId(id).None? ==> result == GetByIdResult(GetByIdOutcome(repository.stores, id.value), id.value)
      ensures result.Success? ==> result.value.Row?
    {
      var issue := ValidateId(id);
      if issue.Some? {
        return Failure(BadRequest(issue.value));
      }
      var reply := repository.GetById(id.value);
      result := GetByIdResult(reply, id.value);
    }
  }
}
