/** The audit records of the client: the enumerations the server's audit
    log uses, with their wire strings, and the conversion that turns a
    record's raw fields into enumeration members. A value that is not a
    member's wire string stays as it came. */
module Audit {
  import opened Values

  /** What an audited operation was applied to. */
  datatype ObjectType = Adcm | Bundle | Cluster | Service | Component | Provider | Host | Role | Policy | User | Group

  function ObjectTypeValue(t: ObjectType): string {
    match t
    case Adcm => "adcm"
    case Bundle => "bundle"
    case Cluster => "cluster"
    case Service => "service"
    case Component => "component"
    case Provider => "provider"
    case Host => "host"
    case Role => "role"
    case Policy => "policy"
    case User => "user"
    case Group => "group"
  }

  /** `ObjectType(s)`: the member whose wire string is `s`. */
  function DecodeObjectType(s: string): (r: Option<ObjectType>)
    ensures r.Some? ==> ObjectTypeValue(r.value) == s
    ensures r.None? ==> forall t: ObjectType :: ObjectTypeValue(t) != s
  {
    if s == "adcm" then Some(Adcm)
    else if s == "bundle" then Some(Bundle)
    else if s == "cluster" then Some(Cluster)
    else if s == "service" then Some(Service)
    else if s == "component" then Some(Component)
    else if s == "provider" then Some(Provider)
    else if s == "host" then Some(Host)
    else if s == "role" then Some(Role)
    else if s == "policy" then Some(Policy)
    else if s == "user" then Some(User)
    else if s == "group" then Some(Group)
    else None
  }

  /** The eleven object types have distinct wire strings, and each decodes
      back to its member. */
  lemma ObjectTypeRoundTrip(t: ObjectType, u: ObjectType)
    ensures DecodeObjectType(ObjectTypeValue(t)) == Some(t)
    ensures ObjectTypeValue(t) == ObjectTypeValue(u) ==> t == u
  {
  }

  /** What kind of change an audited operation made. */
  datatype OperationType = Create | Update | Delete

  function OperationTypeValue(t: OperationType): string {
    match t
    case Create => "create"
    case Update => "update"
    case Delete => "delete"
  }

  /** `OperationType(s)`: only "create", "update" and "delete" decode. */
  function DecodeOperationType(s: string): (r: Option<OperationType>)
    ensures r.Some? <==> s == "create" || s == "update" || s == "delete"
    ensures r.Some? ==> OperationTypeValue(r.value) == s
  {
    if s == "create" then Some(Create)
    else if s == "update" then Some(Update)
    else if s == "delete" then Some(Delete)
    else None
  }

  lemma OperationTypeRoundTrip(t: OperationType, u: OperationType)
    ensures DecodeOperationType(OperationTypeValue(t)) == Some(t)
    ensures OperationTypeValue(t) == OperationTypeValue(u) ==> t == u
  {
  }

  /** How an audited operation ended. */
  datatype OperationResult = Success | Failure | Denied

  function OperationResultValue(t: OperationResult): string {
    match t
    case Success => "success"
    case Failure => "fail"
    case Denied => "denied"
  }

  /** `OperationResult(s)`: a failure is written "fail". */
  function DecodeOperationResult(s: string): (r: Option<OperationResult>)
    ensures r == Some(Success) <==> s == "success"
    ensures r == Some(Failure) <==> s == "fail"
    ensures r == Some(Denied) <==> s == "denied"
    ensures r.Some? ==> OperationResultValue(r.value) == s
  {
    if s == "success" then Some(Success)
    else if s == "fail" then Some(Failure)
    else if s == "denied" then Some(Denied)
    else None
  }

  lemma OperationResultRoundTrip(t: OperationResult, u: OperationResult)
    ensures DecodeOperationResult(OperationResultValue(t)) == Some(t)
    ensures OperationResultValue(t) == OperationResultValue(u) ==> t == u
    ensures DecodeOperationResult("failure") == None
  {
  }

  /** How a login attempt ended. */
  datatype LoginResult = LoginSuccess | UserNotFound | WrongPassword | Disabled

  function LoginResultValue(t: LoginResult): string {
    match t
    case LoginSuccess => "success"
    case UserNotFound => "user not found"
    case WrongPassword => "wrong password"
    case Disabled => "account disabled"
  }

  /** `LoginResult(s)`. */
  function DecodeLoginResult(s: string): (r: Option<LoginResult>)
    ensures r.Some? <==> s in {"success", "user not found", "wrong password", "account disabled"}
    ensures r.Some? ==> LoginResultValue(r.value) == s
  {
    if s == "success" then Some(LoginSuccess)
    else if s == "user not found" then Some(UserNotFound)
    else if s == "wrong password" then Some(WrongPassword)
    else if s == "account disabled" then Some(Disabled)
    else None
  }

  lemma LoginResultRoundTrip(t: LoginResult, u: LoginResult)
    ensures DecodeLoginResult(LoginResultValue(t)) == Some(t)
    ensures LoginResultValue(t) == LoginResultValue(u) ==> t == u
  {
  }

  // Fields

  /** An enumeration-typed attribute: the value the server sent, or the
      member it was converted to. */
  datatype Field<E> = Raw(value: Json) | Member(member: E)

  /** `_convert_enum`: a raw wire string of a member becomes that member;
      anything else is left as it is. */
  function ConvertField<E>(f: Field<E>, decode: string -> Option<E>): (r: Field<E>)
    ensures r.Member? <==> f.Member? || (f.value.Str? && decode(f.value.s).Some?)
    ensures f.Raw? && f.value.Str? && decode(f.value.s).Some? ==> r == Member(decode(f.value.s).value)
    ensures r.Raw? ==> r == f
  {
    match f
    case Raw(Str(s)) => if decode(s).Some? then Member(decode(s).value) else f
    case _ => f
  }

  /** Converting twice is converting once. */
  lemma ConvertFieldIdempotent<E>(f: Field<E>, decode: string -> Option<E>)
    ensures ConvertField(ConvertField(f, decode), decode) == ConvertField(f, decode)
  {
  }

  /** A converted field sent as its member's wire string is that member. */
  lemma ConvertObjectTypeField(t: ObjectType)
    ensures ConvertField(Raw(Str(ObjectTypeValue(t))), DecodeObjectType) == Member(t)
  {
    ObjectTypeRoundTrip(t, t);
  }

  /** An audit record of an operation. */
  class AuditOperation {
    var id: Json
    var objectId: Json
    var objectType: Field<ObjectType>
    var objectName: Json
    var objectChanges: Json
    var operationType: Field<OperationType>
    var operationName: Json
    var operationResult: Field<OperationResult>
    var operationTime: Json
    var userId: Json

    /** The record as the server sent it. */
    constructor(data: seq<Entry>)
      ensures id == GetOr(data, "id", Null) && objectId == GetOr(data, "object_id", Null)
      ensures objectType == Raw(GetOr(data, "object_type", Null)) && objectName == GetOr(data, "object_name", Null)
      ensures objectChanges == GetOr(data, "object_changes", Null)
      ensures operationType == Raw(GetOr(data, "operation_type", Null)) && operationName == GetOr(data, "operation_name", Null)
      ensures operationResult == Raw(GetOr(data, "operation_result", Null))
      ensures operationTime == GetOr(data, "operation_time", Null) && userId == GetOr(data, "user_id", Null)
    {
      id := GetOr(data, "id", Null);
      objectId := GetOr(data, "object_id", Null);
      objectType := Raw(GetOr(data, "object_type", Null));
      objectName := GetOr(data, "object_name", Null);
      objectChanges := GetOr(data, "object_changes", Null);
      operationType := Raw(GetOr(data, "operation_type", Null));
      operationName := GetOr(data, "operation_name", Null);
      operationResult := Raw(GetOr(data, "operation_result", Null));
      operationTime := GetOr(data, "operation_time", Null);
      userId := GetOr(data, "user_id", Null);
    }

    /** `_convert`: the three enumeration fields are decoded in place;
        nothing else changes. */
    method Convert()
      modifies this
      ensures objectType == ConvertField(old(objectType), DecodeObjectType)
      ensures operationType == ConvertField(old(operationType), DecodeOperationType)
      ensures operationResult == ConvertField(old(operationResult), DecodeOperationResult)
      ensures id == old(id) && objectId == old(objectId) && objectName == old(objectName)
      ensures objectChanges == old(objectChanges) && operationName == old(operationName)
      ensures operationTime == old(operationTime) && userId == old(userId)
    {
      objectType := ConvertField(objectType, DecodeObjectType);
      operationType := ConvertField(operationType, DecodeOperationType);
      operationResult := ConvertField(operationResult, DecodeOperationResult);
    }
  }

  /** An audit record of a login. */
  class AuditLogin {
    var id: Json
    var userId: Json
    var loginResult: Field<LoginResult>
    var loginTime: Json

    constructor(data: seq<Entry>)
      ensures id == GetOr(data, "id", Null) && userId == GetOr(data, "user_id", Null)
      ensures loginResult == Raw(GetOr(data, "login_result", Null)) && loginTime == GetOr(data, "login_time", Null)
    {
      id := GetOr(data, "id", Null);
      userId := GetOr(data, "user_id", Null);
      loginResult := Raw(GetOr(data, "login_result", Null));
      loginTime := GetOr(data, "login_time", Null);
    }

    /** `_convert`: only the login result is decoded. */
    method Convert()
      modifies this
      ensures loginResult == ConvertField(old(loginResult), DecodeLoginResult)
      ensures id == old(id) && userId == old(userId) && loginTime == old(loginTime)
    {
      loginResult := ConvertField(loginResult, DecodeLoginResult);
    }
  }
}
