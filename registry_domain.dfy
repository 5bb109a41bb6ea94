/**
 * The registry's entities.  A user signs up with an e-mail address and an
 * (already encoded) password and starts as a pending ROLE_USER; a user
 * referenced from a function carries only its id.  A function's fields are
 * (re)assigned by `update`, which normalises the timeout: zero means the
 * default of 300 seconds, and anything above 3600 is cut to 3600.
 */
module RegistryDomain {
  import opened Common
  import opened Uuids

  // ---------------------------------------------------------------------
  // Users
  // ---------------------------------------------------------------------

  datatype Role = RoleUser

  datatype Status = Active | PendingApproval | Compromised

  /** A user row; `None` is a column the constructor left null. */
  datatype User = User(userId: Uuid, email: Option<string>, password: Option<string>,
                       role: Option<Role>, status: Option<Status>)

  /** The signup constructor: a fresh id, the given e-mail and password, ROLE_USER, PENDING_APPROVAL. */
  function SignupUser(freshId: Uuid, email: string, password: string): (u: User)
    ensures u.userId == freshId
    ensures u.email == Some(email) && u.password == Some(password)
    ensures u.role == Some(RoleUser) && u.status == Some(PendingApproval)
  {
    User(freshId, Some(email), Some(password), Some(RoleUser), Some(PendingApproval))
  }

  /** The id-only constructor: every other column is null. */
  function UserReference(userId: Uuid): (u: User)
    ensures u.userId == userId
    ensures u.email.None? && u.password.None? && u.role.None? && u.status.None?
  {
    User(userId, None, None, None, None)
  }

  // ---------------------------------------------------------------------
  // Functions
  // ---------------------------------------------------------------------

  const DEFAULT_TIMEOUT: int := 300
  const MAX_TIMEOUT: int := 3600

  /** The timeout `update` stores: zero becomes the default, then the maximum caps it. */
  function NormaliseTimeout(timeout: Int32): (r: Int32)
    ensures r <= MAX_TIMEOUT
    ensures r == DEFAULT_TIMEOUT || r == timeout || r == MAX_TIMEOUT
  {
    var effective := if timeout == 0 then DEFAULT_TIMEOUT else timeout;
    if effective < MAX_TIMEOUT then effective else MAX_TIMEOUT
  }

  /**
   * The stored timeout: 300 for 0, the value itself from 1 up to 3600 and
   * for every negative value (there is no lower bound), 3600 above.
   */
  lemma NormaliseTimeoutCases(timeout: Int32)
    ensures timeout == 0 ==> NormaliseTimeout(timeout) == 300
    ensures timeout != 0 && timeout <= 3600 ==> NormaliseTimeout(timeout) == timeout
    ensures timeout > 3600 ==> NormaliseTimeout(timeout) == 3600
    ensures timeout < 0 ==> NormaliseTimeout(timeout) == timeout
  {
  }

  /** Normalising a stored timeout again leaves it as it is. */
  lemma NormaliseTimeoutIdempotent(timeout: Int32)
    ensures NormaliseTimeout(NormaliseTimeout(timeout)) == NormaliseTimeout(timeout)
  {
  }

  /** What the functions table holds for one function. */
  datatype FunctionRow = FunctionRow(
    functionId: Uuid, user: User, accessKey: string, functionName: string,
    description: string, timeout: Int32, runtime: Runtime, s3Key: string)

  /** The Function entity, whose descriptive fields `update` reassigns in place. */
  class FunctionEntity {
    const functionId: Uuid
    const user: User
    const accessKey: string
    var functionName: string
    var description: string
    var timeout: Int32
    var runtime: Runtime
    var s3Key: string

    /** The builder constructor: the user is linked by id only, then `update` assigns the rest. */
    constructor (functionId: Uuid, userId: Uuid, accessKey: string, functionName: string,
                 description: string, timeout: Int32, runtime: Runtime, s3Key: string)
      ensures this.functionId == functionId && this.user == UserReference(userId)
      ensures this.accessKey == accessKey
      ensures this.functionName == functionName && this.description == description
      ensures this.timeout == NormaliseTimeout(timeout)
      ensures this.runtime == runtime && this.s3Key == s3Key
    {
      this.functionId := functionId;
      this.user := UserReference(userId);
      this.accessKey := accessKey;
      new;
      Update(functionName, description, timeout, runtime, s3Key);
    }

    /** update: name, description, runtime and key verbatim; the timeout normalised. */
    method Update(functionName: string, description: string, timeout: Int32, runtime: Runtime, s3Key: string)
      modifies this
      ensures this.functionName == functionName && this.description == description
      ensures this.timeout == NormaliseTimeout(timeout)
      ensures this.runtime == runtime && this.s3Key == s3Key
    {
      this.functionName := functionName;
      this.description := description;
      this.timeout := NormaliseTimeout(timeout);
      this.runtime := runtime;
      this.s3Key := s3Key;
    }

    /** The row the repository stores for this entity. */
    function Row(): FunctionRow
      reads this
    {
      FunctionRow(functionId, user, accessKey, functionName, description, timeout, runtime, s3Key)
    }
  }
}
