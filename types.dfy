// Result codes, key types and error messages of the krown_auth module.

module KrownTypes {

  datatype Option<+T> = None | Some(value: T)

  /** A value, or the result code that stopped an operation from producing one. */
  datatype Result<+T> = Ok(value: T) | Err(error: AuthResult)

  /** The code a C function returns for a result: SUCCESS with the value,
      or the error code. */
  function StatusOf<T>(r: Result<T>): AuthResult
  {
    match r
    case Ok(_) => Success
    case Err(e) => e
  }

  /** The two key types the provisioning logic knows about. */
  datatype KeyType = Ed25519 | Rsa4096

  /** The closed set of outcomes every public operation returns. */
  datatype AuthResult =
    | Success
    | ErrSshDir
    | ErrKeyGen
    | ErrPermissions
    | ErrOpensshNotFound
    | ErrReadKey
    | ErrMemory

  /** The integer value of each result in the C enumeration. */
  function Code(r: AuthResult): (c: int)
    ensures -6 <= c <= 0
    ensures c == 0 <==> r == Success
  {
    match r
    case Success => 0
    case ErrSshDir => -1
    case ErrKeyGen => -2
    case ErrPermissions => -3
    case ErrOpensshNotFound => -4
    case ErrReadKey => -5
    case ErrMemory => -6
  }

  /** Reads a C result value back; values outside the enumeration have no result. */
  function FromCode(c: int): (r: Option<AuthResult>)
    ensures r.Some? <==> -6 <= c <= 0
    ensures r.Some? ==> Code(r.value) == c
  {
    if c == 0 then Some(Success)
    else if c == -1 then Some(ErrSshDir)
    else if c == -2 then Some(ErrKeyGen)
    else if c == -3 then Some(ErrPermissions)
    else if c == -4 then Some(ErrOpensshNotFound)
    else if c == -5 then Some(ErrReadKey)
    else if c == -6 then Some(ErrMemory)
    else None
  }

  lemma CodeRoundTrip(r: AuthResult)
    ensures FromCode(Code(r)) == Some(r)
  {
    match r
    case Success =>
    case ErrSshDir =>
    case ErrKeyGen =>
    case ErrPermissions =>
    case ErrOpensshNotFound =>
    case ErrReadKey =>
    case ErrMemory =>
  }

  /** The integer value of each key type in the C enumeration. */
  function KeyTypeCode(t: KeyType): (c: int)
    ensures c == 0 <==> t == Ed25519
    ensures c == 1 <==> t == Rsa4096
  {
    match t
    case Ed25519 => 0
    case Rsa4096 => 1
  }

  /** The key type tried when `t` cannot be used. */
  function Other(t: KeyType): (o: KeyType)
    ensures o != t
  {
    if t == Ed25519 then Rsa4096 else Ed25519
  }

  /** The human-readable messages, one per result plus the one for unknown values. */
  datatype Message =
    | MsgSuccess
    | MsgSshDir
    | MsgKeyGen
    | MsgPermissions
    | MsgOpensshNotFound
    | MsgReadKey
    | MsgMemory
    | MsgUnknown

  function MessageFor(r: AuthResult): Message
  {
    match r
    case Success => MsgSuccess
    case ErrSshDir => MsgSshDir
    case ErrKeyGen => MsgKeyGen
    case ErrPermissions => MsgPermissions
    case ErrOpensshNotFound => MsgOpensshNotFound
    case ErrReadKey => MsgReadKey
    case ErrMemory => MsgMemory
  }

  /** The message for any integer passed as a result: total, with a default branch. */
  function ErrorMessage(c: int): (m: Message)
    ensures m == MsgUnknown <==> FromCode(c).None?
    ensures forall r: AuthResult :: Code(r) == c ==> m == MessageFor(r)
  {
    match FromCode(c)
    case Some(r) => MessageFor(r)
    case None => MsgUnknown
  }
}
