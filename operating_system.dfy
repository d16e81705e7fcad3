/**
 * The translation of `errno` into the typed error domain `SystemError`
 * (Sources/OperatingSystem.swift).
 *
 * The errno constants come from the platform's C headers, so the model does not fix their
 * values: an `Env` supplies the value of each, and two may share a value (EAGAIN and
 * EWOULDBLOCK do on Linux and Darwin). The `switch` of `lastError(with:)` is its list of `case`
 * labels, searched from the top, so the earliest matching `case` wins exactly as in Swift.
 * `strerror` is an uninterpreted function of the error number.
 */
module OperatingSystem {
  import opened CTypes
  import opened Wrappers

  /** The named variants of `SystemError`, in declaration order (`other` is separate). */
  datatype ErrorKind =
    | ArgumentListTooLong | PermissionDenied | AddressInUse | AddressNotAvailable
    | AddressFamiltyNotSupported | ResourceUnavailable | ConnectionAlreadyInProgress
    | BadFileDescriptor | BadMessage | DeviceOrResourceBusy | OperationCancelled | NoChildProcesses
    | ConnectionAborted | ConnectionRefused | ConnectionReset | ResourceDeadlockWouldOccur
    | DestinationAddressRequired | OutOfFunctionDomain | FileExists | BadAddress | FileTooLarge
    | HostIsUnreachable | IdentifierRemoved | IllegalByteSequence | OperationInfProgress
    | InterruptedFunction | InvalidArgument | InputOutputError | SocketIsConnected | IsDirectory
    | TooManyLevelsOfSymbolicLinks | TooManyOpenFiles | TooManyLinks | MessageTooLarge
    | FilenameTooLong | NetworkIsDown | ConnectionAbortedByNetwork | NetworkUnreachable
    | TooManyFilesOpenInSystem | NoBufferSpaceAvailable | NoSuchDevice | NoSuchFileOrDirectory
    | ExecutableFileFormatError | NoLocksAvailable | NotEnoughSpace | NoMessageOfTheDesiredType
    | ProtocolNotAvailable | NoSpaceLeftOnDevice | NoMessageIsAvailableOnTheStreamHeadReadQueue
    | NoStreamResources | NotAStream | FunctionNotSupported | SocketIsNotConnected | NotADirectory
    | DirectoryNotEmpty | NotASocket | NotSupported | InappropriateInputOutputControlOperation
    | NoSuchDeviceOrAddress | OperationNotSupportedOnSocket | ValueTooLargeToBeStoredInDataType
    | OperationNotPermitted | BrokenPipe | ProtocolError | ProtocolNotSupported
    | ProtocolWrongTypeForSocket | ResultTooLarge | ReadOnlyFileSystem | InvalidSeek
    | NoSuchProcess | StreamTimeout | ConnectionTimedOut | TextFileBusy | OperationWouldBlock
    | CrossDeviceLink

  /** A `SystemError`: a named variant with its description and payload, or `other`. */
  datatype SystemError =
    | Known(kind: ErrorKind, description: string, data: Bytes)
    | Other(description: string)

  /** The number of `case` labels in `lastError(with:)`. */
  const CaseCount: nat := 73

  /**
   * A `case` label of `lastError(with:)`, identified by its place in the `switch` (0 for the
   * first). The constants below name each label by the errno constant it tests.
   */
  type ErrnoName = i: nat | i < CaseCount

  const E2BIG: ErrnoName := 0
  const EACCES: ErrnoName := 1
  const EADDRINUSE: ErrnoName := 2
  const EADDRNOTAVAIL: ErrnoName := 3
  const EAFNOSUPPORT: ErrnoName := 4
  const EAGAIN: ErrnoName := 5
  const EALREADY: ErrnoName := 6
  const EBADF: ErrnoName := 7
  const EBADMSG: ErrnoName := 8
  const EBUSY: ErrnoName := 9
  const ECANCELED: ErrnoName := 10
  const ECHILD: ErrnoName := 11
  const ECONNABORTED: ErrnoName := 12
  const ECONNREFUSED: ErrnoName := 13
  const ECONNRESET: ErrnoName := 14
  const EDEADLK: ErrnoName := 15
  const EDESTADDRREQ: ErrnoName := 16
  const EDOM: ErrnoName := 17
  const EEXIST: ErrnoName := 18
  const EFAULT: ErrnoName := 19
  const EFBIG: ErrnoName := 20
  const EHOSTUNREACH: ErrnoName := 21
  const EIDRM: ErrnoName := 22
  const EILSEQ: ErrnoName := 23
  const EINPROGRESS: ErrnoName := 24
  const EINTR: ErrnoName := 25
  const EINVAL: ErrnoName := 26
  const EIO: ErrnoName := 27
  const EISCONN: ErrnoName := 28
  const EISDIR: ErrnoName := 29
  const ELOOP: ErrnoName := 30
  const EMFILE: ErrnoName := 31
  const EMLINK: ErrnoName := 32
  const EMSGSIZE: ErrnoName := 33
  const ENAMETOOLONG: ErrnoName := 34
  const ENETDOWN: ErrnoName := 35
  const ENETRESET: ErrnoName := 36
  const ENETUNREACH: ErrnoName := 37
  const ENFILE: ErrnoName := 38
  const ENOBUFS: ErrnoName := 39
  const ENODATA: ErrnoName := 40
  const ENODEV: ErrnoName := 41
  const ENOENT: ErrnoName := 42
  const ENOEXEC: ErrnoName := 43
  const ENOLCK: ErrnoName := 44
  const ENOMSG: ErrnoName := 45
  const ENOPROTOOPT: ErrnoName := 46
  const ENOSPC: ErrnoName := 47
  const ENOSR: ErrnoName := 48
  const ENOSTR: ErrnoName := 49
  const ENOSYS: ErrnoName := 50
  const ENOTCONN: ErrnoName := 51
  const ENOTDIR: ErrnoName := 52
  const ENOTEMPTY: ErrnoName := 53
  const ENOTSOCK: ErrnoName := 54
  const ENOTSUP: ErrnoName := 55
  const ENOTTY: ErrnoName := 56
  const ENXIO: ErrnoName := 57
  const EOPNOTSUPP: ErrnoName := 58
  const EOVERFLOW: ErrnoName := 59
  const EPERM: ErrnoName := 60
  const EPIPE: ErrnoName := 61
  const EPROTO: ErrnoName := 62
  const EPROTONOSUPPORT: ErrnoName := 63
  const EPROTOTYPE: ErrnoName := 64
  const ERANGE: ErrnoName := 65
  const ESPIPE: ErrnoName := 66
  const ESRCH: ErrnoName := 67
  const ETIME: ErrnoName := 68
  const ETIMEDOUT: ErrnoName := 69
  const ETXTBSY: ErrnoName := 70
  const EWOULDBLOCK: ErrnoName := 71
  const EXDEV: ErrnoName := 72

  /**
   * What the error mapping reads from the process and the platform: the current `errno`,
   * the value of the errno constant that each `case` label tests, and `strerror`.
   */
  datatype Env = Env(errno: int32, constant: ErrnoName -> int32, strerror: int32 -> string)

  /** The variant that the `case` labelled `n` returns. */
  function KindOf(n: ErrnoName): (k: ErrorKind)
    ensures k != ReadOnlyFileSystem && k != NotEnoughSpace
  {
    match n
    case 0 => ArgumentListTooLong
    case 1 => PermissionDenied
    case 2 => AddressInUse
    case 3 => AddressNotAvailable
    case 4 => AddressFamiltyNotSupported
    case 5 => ResourceUnavailable
    case 6 => ConnectionAlreadyInProgress
    case 7 => BadFileDescriptor
    case 8 => BadMessage
    case 9 => DeviceOrResourceBusy
    case 10 => OperationCancelled
    case 11 => NoChildProcesses
    case 12 => ConnectionAborted
    case 13 => ConnectionRefused
    case 14 => ConnectionReset
    case 15 => ResourceDeadlockWouldOccur
    case 16 => DestinationAddressRequired
    case 17 => OutOfFunctionDomain
    case 18 => FileExists
    case 19 => BadAddress
    case 20 => FileTooLarge
    case 21 => HostIsUnreachable
    case 22 => IdentifierRemoved
    case 23 => IllegalByteSequence
    case 24 => OperationInfProgress
    case 25 => InterruptedFunction
    case 26 => InvalidArgument
    case 27 => InputOutputError
    case 28 => SocketIsConnected
    case 29 => IsDirectory
    case 30 => TooManyLevelsOfSymbolicLinks
    case 31 => TooManyOpenFiles
    case 32 => TooManyLinks
    case 33 => MessageTooLarge
    case 34 => FilenameTooLong
    case 35 => NetworkIsDown
    case 36 => ConnectionAbortedByNetwork
    case 37 => NetworkUnreachable
    case 38 => TooManyFilesOpenInSystem
    case 39 => NoBufferSpaceAvailable
    case 40 => NoMessageIsAvailableOnTheStreamHeadReadQueue
    case 41 => NoSuchDevice
    case 42 => NoSuchFileOrDirectory
    case 43 => ExecutableFileFormatError
    case 44 => NoLocksAvailable
    case 45 => NoMessageOfTheDesiredType
    case 46 => ProtocolNotAvailable
    case 47 => NoSpaceLeftOnDevice
    case 48 => NoStreamResources
    case 49 => NotAStream
    case 50 => FunctionNotSupported
    case 51 => SocketIsNotConnected
    case 52 => NotADirectory
    case 53 => DirectoryNotEmpty
    case 54 => NotASocket
    case 55 => NotSupported
    case 56 => InappropriateInputOutputControlOperation
    case 57 => NoSuchDeviceOrAddress
    case 58 => OperationNotSupportedOnSocket
    case 59 => ValueTooLargeToBeStoredInDataType
    case 60 => OperationNotPermitted
    case 61 => BrokenPipe
    case 62 => ProtocolError
    case 63 => ProtocolNotSupported
    case 64 => ProtocolWrongTypeForSocket
    case 65 => ResultTooLarge
    case 66 => InvalidSeek
    case 67 => NoSuchProcess
    case 68 => StreamTimeout
    case 69 => ConnectionTimedOut
    case 70 => TextFileBusy
    case 71 => OperationWouldBlock
    case _ => CrossDeviceLink
  }

  /** Only the `case` for EWOULDBLOCK returns `operationWouldBlock`. */
  lemma OnlyWouldBlockCase(n: ErrnoName)
    ensures KindOf(n) == OperationWouldBlock <==> n == EWOULDBLOCK
  {
  }

  /** Only the `case` for EOPNOTSUPP returns `operationNotSupportedOnSocket`. */
  lemma OnlyOpNotSuppCase(n: ErrnoName)
    ensures KindOf(n) == OperationNotSupportedOnSocket <==> n == EOPNOTSUPP
  {
  }

  /** The description `lastErrorDescription()` gives: `strerror(errno)`. */
  function LastErrorDescription(env: Env): string
  {
    env.strerror(env.errno)
  }

  /**
   * The index of the first `case`, at `from` or later, whose constant has the value `errno`, or
   * `None`: the search, top to bottom, that a Swift `switch` over non-literal patterns performs.
   */
  function FirstMatch(constant: ErrnoName -> int32, errno: int32, from: nat): (m: Option<nat>)
    requires from <= CaseCount
    ensures m.Some? ==> from <= m.value < CaseCount && constant(m.value) == errno
    ensures m.Some? ==> forall j :: from <= j < m.value ==> constant(j) != errno
    ensures m.None? <==> forall j :: from <= j < CaseCount ==> constant(j) != errno
    decreases CaseCount - from
  {
    if from == CaseCount then None
    else if constant(from) == errno then Some(from)
    else FirstMatch(constant, errno, from + 1)
  }

  /** The `case` at index `i` is the first whose constant equals `errno`. */
  ghost predicate FirstMatchAt(env: Env, i: int)
  {
    && 0 <= i < CaseCount
    && env.constant(i) == env.errno
    && forall j :: 0 <= j < i ==> env.constant(j) != env.errno
  }

  /** No `case` constant equals `errno`: the `default` branch. */
  ghost predicate NoCaseMatches(env: Env)
  {
    forall i :: 0 <= i < CaseCount ==> env.constant(i) != env.errno
  }

  /** The variant of an error, `None` for `other`. */
  function Kind(e: SystemError): Option<ErrorKind>
  {
    if e.Known? then Some(e.kind) else None
  }

  /** The payload an error carries; `other` carries none. */
  function Payload(e: SystemError): Bytes
  {
    if e.Known? then e.data else []
  }

  /** A first match is the one `FirstMatch` finds. */
  lemma FirstMatchIsUnique(env: Env)
    ensures forall i :: FirstMatchAt(env, i) ==> FirstMatch(env.constant, env.errno, 0) == Some(i)
  {
    var m := FirstMatch(env.constant, env.errno, 0);
    forall i | FirstMatchAt(env, i)
      ensures m == Some(i)
    {
      assert m.Some?;
    }
  }

  /**
   * `lastError(with: data)`: the variant of the first `case` whose constant equals `errno`,
   * carrying `data` and the description; `other` with the description when none matches.
   */
  function LastError(env: Env, data: Bytes): (e: SystemError)
    ensures e.description == LastErrorDescription(env)
    ensures forall i :: FirstMatchAt(env, i) ==> e == Known(KindOf(i), LastErrorDescription(env), data)
    ensures NoCaseMatches(env) <==> e == Other(LastErrorDescription(env))
  {
    FirstMatchIsUnique(env);
    match FirstMatch(env.constant, env.errno, 0)
    case Some(i) => Known(KindOf(i), LastErrorDescription(env), data)
    case None => Other(LastErrorDescription(env))
  }

  /** `lastError()`: the same variant and description as with any payload, and no payload. */
  function LastErrorWithoutData(env: Env): (e: SystemError)
    ensures Payload(e) == []
    ensures e.description == LastErrorDescription(env)
    ensures forall data :: Kind(LastError(env, data)) == Kind(e)
  {
    LastError(env, [])
  }

  /**
   * `lastReceiveError(with:bytesProcessed:)`: the payload is the part already received. Swift's
   * `prefix(upTo:)` traps unless `0 <= bytesProcessed <= data.count`.
   */
  function LastReceiveError(env: Env, data: Bytes, bytesProcessed: int): (e: SystemError)
    requires 0 <= bytesProcessed <= |data|
    ensures Kind(e) == Kind(LastErrorWithoutData(env))
    ensures e.description == LastErrorDescription(env)
    ensures e.Known? ==> e.data == data[..bytesProcessed]
  {
    LastError(env, data[..bytesProcessed])
  }

  /**
   * `lastSendError(with:bytesProcessed:)`: the payload is the part not yet sent. Swift's
   * `suffix(from:)` traps unless `0 <= bytesProcessed <= data.count`.
   */
  function LastSendError(env: Env, data: Bytes, bytesProcessed: int): (e: SystemError)
    requires 0 <= bytesProcessed <= |data|
    ensures Kind(e) == Kind(LastErrorWithoutData(env))
    ensures e.description == LastErrorDescription(env)
    ensures e.Known? ==> e.data == data[bytesProcessed..]
  {
    LastError(env, data[bytesProcessed..])
  }

  /** `assertNoError()`: throws exactly when `errno != 0`, and then the error of `lastError()`. */
  function AssertNoError(env: Env): (o: Outcome<SystemError>)
    ensures o.Fail? <==> env.errno != 0
    ensures o.Fail? ==> Kind(o.error) == Kind(LastErrorWithoutData(env)) && Payload(o.error) == []
    ensures o.Fail? ==> o.error.description == LastErrorDescription(env)
  {
    if env.errno != 0 then Fail(LastErrorWithoutData(env)) else Pass
  }

  /**
   * `assertNoReceiveError(with:bytesProcessed:)`: throws when `errno != 0`, with the received
   * prefix. The buffer is sliced only then, so with `errno == 0` any `bytesProcessed` is accepted.
   */
  function AssertNoReceiveError(env: Env, data: Bytes, bytesProcessed: int): (o: Outcome<SystemError>)
    requires env.errno != 0 ==> 0 <= bytesProcessed <= |data|
    ensures o.Fail? <==> env.errno != 0
    ensures o.Fail? ==> Kind(o.error) == Kind(LastErrorWithoutData(env))
    ensures o.Fail? ==> o.error.description == LastErrorDescription(env)
    ensures o.Fail? ==> o.error.Known? ==> o.error.data == data[..bytesProcessed]
  {
    if env.errno != 0 then Fail(LastReceiveError(env, data, bytesProcessed)) else Pass
  }

  /**
   * `assertNoSendError(with:bytesProcessed:)`: throws when `errno != 0`, with the unsent suffix.
   * The buffer is sliced only then, so with `errno == 0` any `bytesProcessed` is accepted.
   */
  function AssertNoSendError(env: Env, data: Bytes, bytesProcessed: int): (o: Outcome<SystemError>)
    requires env.errno != 0 ==> 0 <= bytesProcessed <= |data|
    ensures o.Fail? <==> env.errno != 0
    ensures o.Fail? ==> Kind(o.error) == Kind(LastErrorWithoutData(env))
    ensures o.Fail? ==> o.error.description == LastErrorDescription(env)
    ensures o.Fail? ==> o.error.Known? ==> o.error.data == data[bytesProcessed..]
  {
    if env.errno != 0 then Fail(LastSendError(env, data, bytesProcessed)) else Pass
  }

  // Properties of the mapping

  /** When some `case` matches, `lastError` names that `case`'s variant; otherwise it is `other`. */
  lemma FirstMatchDecides(env: Env, data: Bytes)
    ensures LastError(env, data).Known? <==> exists i :: 0 <= i < CaseCount && env.constant(i) == env.errno
    ensures LastError(env, data).Known? ==>
      exists i :: FirstMatchAt(env, i) && LastError(env, data).kind == KindOf(i)
  {
    var m := FirstMatch(env.constant, env.errno, 0);
    if m.Some? {
      assert FirstMatchAt(env, m.value);
    }
  }

  /** The variant `lastError` picks does not depend on the payload. */
  lemma KindIndependentOfData(env: Env, d1: Bytes, d2: Bytes)
    ensures Kind(LastError(env, d1)) == Kind(LastError(env, d2))
    ensures LastError(env, d1).description == LastError(env, d2).description
  {
  }

  /**
   * A `case` whose constant has the value of an earlier `case`'s constant is never the one
   * taken: when constants alias, the earlier `case` wins.
   */
  lemma EarlierAliasWins(env: Env, first: ErrnoName, later: ErrnoName)
    requires first < later
    requires env.constant(first) == env.constant(later)
    ensures !FirstMatchAt(env, later)
  {
  }

  /** If EAGAIN and EWOULDBLOCK have one value, `operationWouldBlock` is never produced. */
  lemma {:induction false} WouldBlockShadowedByAgain(env: Env, data: Bytes)
    requires env.constant(EAGAIN) == env.constant(EWOULDBLOCK)
    ensures Kind(LastError(env, data)) != Some(OperationWouldBlock)
  {
    var e := LastError(env, data);
    if e.Known? {
      FirstMatchDecides(env, data);
      var i :| FirstMatchAt(env, i) && e.kind == KindOf(i);
      EarlierAliasWins(env, EAGAIN, EWOULDBLOCK);
      OnlyWouldBlockCase(i);
    }
  }

  /** If ENOTSUP and EOPNOTSUPP have one value, `operationNotSupportedOnSocket` is never produced. */
  lemma {:induction false} NotSupportedShadowsOnSocket(env: Env, data: Bytes)
    requires env.constant(ENOTSUP) == env.constant(EOPNOTSUPP)
    ensures Kind(LastError(env, data)) != Some(OperationNotSupportedOnSocket)
  {
    var e := LastError(env, data);
    if e.Known? {
      FirstMatchDecides(env, data);
      var i :| FirstMatchAt(env, i) && e.kind == KindOf(i);
      EarlierAliasWins(env, ENOTSUP, EOPNOTSUPP);
      OnlyOpNotSuppCase(i);
    }
  }

  /**
   * With `errno` equal to the shared value of EAGAIN and EWOULDBLOCK, and no constant of an
   * earlier case sharing it, the result is `resourceUnavailable`.
   */
  lemma AgainIsResourceUnavailable(env: Env, data: Bytes)
    requires env.errno == env.constant(EAGAIN) == env.constant(EWOULDBLOCK)
    requires forall n: ErrnoName :: n < EAGAIN ==> env.constant(n) != env.errno
    ensures LastError(env, data) == Known(ResourceUnavailable, LastErrorDescription(env), data)
  {
    assert FirstMatchAt(env, EAGAIN);
  }

  /**
   * With `errno` equal to the shared value of ENOTSUP and EOPNOTSUPP, and no constant of an
   * earlier case sharing it, the result is `notSupported`.
   */
  lemma NotSupIsNotSupported(env: Env, data: Bytes)
    requires env.errno == env.constant(ENOTSUP) == env.constant(EOPNOTSUPP)
    requires forall n: ErrnoName :: n < ENOTSUP ==> env.constant(n) != env.errno
    ensures LastError(env, data) == Known(NotSupported, LastErrorDescription(env), data)
  {
    assert FirstMatchAt(env, ENOTSUP);
  }

  /** `readOnlyFileSystem` and `notEnoughSpace` are declared, but no `case` returns them. */
  lemma {:induction false} UnmatchedVariantsNeverProduced(env: Env, data: Bytes)
    ensures Kind(LastError(env, data)) != Some(ReadOnlyFileSystem)
    ensures Kind(LastError(env, data)) != Some(NotEnoughSpace)
  {
    var e := LastError(env, data);
    if e.Known? {
      FirstMatchDecides(env, data);
    }
  }

  /**
   * A code equal to none of the case constants (EROFS or ENOMEM, unless the platform makes
   * them alias a case constant) falls through to `other`, which carries no payload.
   */
  lemma UnmatchedCodeIsOther(env: Env, data: Bytes)
    requires forall n :: env.constant(n) != env.errno
    ensures LastError(env, data) == Other(LastErrorDescription(env))
    ensures Payload(LastError(env, data)) == []
  {
  }

  /** The receive and send payloads for one `bytesProcessed` split the buffer in two. */
  lemma ReceiveAndSendSplitData(env: Env, data: Bytes, bytesProcessed: int)
    requires 0 <= bytesProcessed <= |data|
    ensures LastErrorWithoutData(env).Known? ==>
      Payload(LastReceiveError(env, data, bytesProcessed)) + Payload(LastSendError(env, data, bytesProcessed)) == data
  {
    assert data[..bytesProcessed] + data[bytesProcessed..] == data;
  }

  /**
   * The description is `strerror` of `errno` alone: the platform's values for the case constants
   * do not affect it, whichever variant they select.
   */
  lemma DescriptionIgnoresConstants(env: Env, constant: ErrnoName -> int32, data: Bytes)
    ensures LastError(env.(constant := constant), data).description == LastError(env, data).description
    ensures LastError(env, data).description == env.strerror(env.errno)
  {
  }

  /**
   * With `errno == 0` the receive and send checks return normally for every `bytesProcessed`,
   * even one outside the buffer, since they slice the buffer only when `errno != 0`.
   */
  lemma NoErrorAcceptsAnyOffset(env: Env, data: Bytes, bytesProcessed: int)
    requires env.errno == 0
    ensures AssertNoReceiveError(env, data, bytesProcessed) == Pass
    ensures AssertNoSendError(env, data, bytesProcessed) == Pass
  {
  }
}
