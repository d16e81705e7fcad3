# POSIX signals and system errors, modelled in Dafny

This project models two parts of a Swift POSIX wrapper library:

- **Signals** (`Sources/POSIX/Sigaction.swift`):
  - the `SignalType` catalogue and its numbering;
  - the `SignalAction` dispositions;
  - `SignalError`, with its hand-written `hashValue` and `==`;
  - the process-wide handler registry `Signal`, with `trap(signal:action:handler:)`, `killPid(pid:signal:)` and `handleSignal(signal:)`.
- **System errors** (`Sources/OperatingSystem.swift`):
  - the mapping from the current `errno` to a `SystemError` variant, done by `lastError(with:)`, `lastError()`, `lastReceiveError` and `lastSendError`;
  - the throwing checks `assertNoError`, `assertNoReceiveError` and `assertNoSendError`.

Files:

- `ctypes.dfy`: the C types `Int32` (`int32`), `pid_t` (`pid`) and bytes.
- `wrappers.dfy`: `Option`, and `Outcome`, which stands in for "returns normally or throws".
- `sigaction.dfy`: module `Sigaction`.
- `operating_system.dfy`: module `OperatingSystem`.

**Signals.** `SignalType` keeps the numbering written in the source. `hup` is 1 and `usr2` is 31. `unknown` has no number written, so it takes the next one, 32. Decoding a number never fails: anything outside 1 to 31 becomes `unknown`.

The registry is the class `SignalRegistry`:

- `table` is `signalTable`. Each handler closure is replaced by an opaque `HandlerId`.
- The C calls are modelled by their effects on ghost fields:
  - `installed` is the disposition given to the operating system for each signal;
  - `sent` logs every `kill(pid, signal)` call;
  - `invoked` logs every call `handleSignal` makes to a handler.
- Each method is specified against a function over the value `Registry`: `TrapOutcome` and `AfterTrap` for `trap`, `KillRequest` for `killPid`, and `Dispatch` for `handleSignal`. Lemmas over those functions state the registry's promises:
  - the order of the guards;
  - the one-entry update;
  - idempotence;
  - the invariant that `unknown`, `stop` and `kill` never have a handler or an installed disposition;
  - a handler is only ever run for a trappable signal installed as `handle`.

`Deliver` states how the operating system behaves: it enters `handleSignal` only for a signal whose installed disposition is `handle`.

**System errors.** The `errno` constants (`E2BIG` … `EXDEV`) come from platform headers. On some platforms two of them share a value: EAGAIN and EWOULDBLOCK, or ENOTSUP and EOPNOTSUPP.

- Each constant is abstract. An `Env` gives the value of every `case` of the `switch`, the current `errno` and `strerror`.
- A Swift `switch` over such constants takes the first `case` that matches, top to bottom. `FirstMatch` models that search over the 73 case positions, and `KindOf` gives each position's variant.
- `SystemError` keeps the source's 75 variants, including the spellings `addressFamiltyNotSupported` and `operationInfProgress`. It is flattened to `Known(kind, description, data)` plus `Other(description)`.

## Model

| member | source | states |
|---|---|---|
| Sigaction.RawValue | Sources/POSIX/Sigaction.swift:53-85 | every signal's number lies in 1..32, and 32 is the number of `unknown` exactly |
| Sigaction.FromRaw | Sources/POSIX/Sigaction.swift:91-103 | decoding never fails and yields `unknown` exactly when the number is outside 1..31 |
| Sigaction.FromRawRoundTrip | Sources/POSIX/Sigaction.swift:91-103 | each number 1..31 decodes to the signal whose raw value it is |
| Sigaction.RawValueRoundTrip | Sources/POSIX/Sigaction.swift:53-103 | decoding a signal's raw value gives that signal back, `unknown` (32) included |
| Sigaction.RawValueInjective | Sources/POSIX/Sigaction.swift:53-85 | distinct signals have distinct raw values |
| Sigaction.ActionRaw | Sources/POSIX/Sigaction.swift:113-117 | every disposition code is 0, 1 or 2 |
| Sigaction.ActionFromRaw | Sources/POSIX/Sigaction.swift:113-117 | a code decodes exactly when it is 0..2, to the action with that code |
| Sigaction.ActionRawRoundTrip | Sources/POSIX/Sigaction.swift:113-117 | decoding an action's code gives the action back |
| Sigaction.HashValue | Sources/POSIX/Sigaction.swift:133-140 | when no signal hashes as 0xcafe, the hash 0xcafe belongs to `invalidTrapCombination` and to nothing else; when signal hashes are distinct, an error with a signal's hash is `cannotHandle` of that signal or `invalidTrapCombination` |
| Sigaction.Equal | Sources/POSIX/Sigaction.swift:142-144 | identical errors are equal, and when no signal hashes as 0xcafe, `invalidTrapCombination` equals only itself |
| Sigaction.EqualIsEquivalence | Sources/POSIX/Sigaction.swift:142-144 | hash-based `==` is reflexive, symmetric and transitive for any signal hash |
| Sigaction.EqualIsIdentity | Sources/POSIX/Sigaction.swift:129-144 | when the signal hash is injective and avoids 0xcafe, `==` holds exactly for identical errors |
| Sigaction.DeclarationIndex | Sources/POSIX/Sigaction.swift:53-85 | the synthesised hash of a signal, its declaration position, lies in 0..31 |
| Sigaction.DeclarationIndexSeparatesErrors | Sources/POSIX/Sigaction.swift:129-144 | the declaration-position hash makes `==` structural: `cannotHandle(kill)` equals itself but not `cannotHandle(stop)` or `invalidTrapCombination` |
| Sigaction.TrapOutcome | Sources/POSIX/Sigaction.swift:181-186 | `trap` throws only `cannotHandle` of the signal given or `invalidTrapCombination`, and the latter only for `handle` without a handler |
| Sigaction.AfterTrap | Sources/POSIX/Sigaction.swift:187-192 | `trap` changes no entry, in the handler table or the installed dispositions, of any signal other than the one given |
| Sigaction.Dispatch | Sources/POSIX/Sigaction.swift:211-216 | a selected handler is one stored in the table, and every number outside 1..31 selects what `unknown` selects |
| Sigaction.KillRequest | Sources/POSIX/Sigaction.swift:200-205 | no `kill` call for `unknown`; otherwise one call to the given pid with a number that decodes back to the signal |
| Sigaction.UntrappableRefusedFirst | Sources/POSIX/Sigaction.swift:181-186 | `unknown`, `stop` and `kill` throw `cannotHandle(signal)` whatever the action and handler, before the handler check; the registry is unchanged |
| Sigaction.HandleWithoutHandlerRefused | Sources/POSIX/Sigaction.swift:184-186 | `handle` with no handler, for a trappable signal, throws `invalidTrapCombination`; the registry is unchanged |
| Sigaction.TrapSucceedsIff | Sources/POSIX/Sigaction.swift:180-193 | `trap` returns normally if and only if the signal is trappable and `handle` comes with a handler |
| Sigaction.HandleTrapUpdatesOneEntry | Sources/POSIX/Sigaction.swift:187-192 | a successful `trap(s, handle, h)` maps `s` to `h`, replacing any earlier handler; it installs `handle` for `s` and leaves every other key and value of both maps unchanged |
| Sigaction.NonHandleTrapKeepsTable | Sources/POSIX/Sigaction.swift:174-192 | a successful `ignore` or `useDefault` trap ignores the handler argument, keeps the table, and sets only that signal's installed action |
| Sigaction.TrapIdempotent | Sources/POSIX/Sigaction.swift:180-193 | repeating the same `trap` call leaves the registry as the first call left it |
| Sigaction.TrapPreservesInvariant | Sources/POSIX/Sigaction.swift:181-189 | `trap` keeps the invariant: `unknown`, `stop` and `kill` are never table keys or installed, and every signal installed as `handle` has a handler |
| Sigaction.EmptySatisfiesInvariant | Sources/POSIX/Sigaction.swift:165 | the initially empty registry satisfies the invariant, and no delivered signal runs a handler |
| Sigaction.DispatchOnlyTrappable | Sources/POSIX/Sigaction.swift:211-216 | under the invariant, only a number 1..31 that decodes to a trappable signal ever selects a handler |
| Sigaction.OutOfRangeNeverDispatched | Sources/POSIX/Sigaction.swift:211-216 | under the invariant, a number outside 1..31 never selects or runs a handler |
| Sigaction.HandledSignalHasHandler | Sources/POSIX/Sigaction.swift:187-216 | under the invariant, delivering a signal installed as `handle` runs its stored handler |
| Sigaction.TrappedSignalReachesHandler | Sources/POSIX/Sigaction.swift:180-216 | after `trap(s, handle, h)`, the number `killPid` sends for `s` is decoded by `handleSignal` and runs `h` |
| Sigaction.DefaultAfterHandleSilencesHandler | Sources/POSIX/Sigaction.swift:187-192 | `trap(s, handle, h)` then `trap(s, useDefault)` installs `useDefault` and keeps `table[s] = h`, yet delivering `s` runs no handler |
| Sigaction.SignalRegistry.constructor | Sources/POSIX/Sigaction.swift:165 | the registry starts empty and valid, with nothing sent or run |
| Sigaction.SignalRegistry.Trap | Sources/POSIX/Sigaction.swift:180-193 | the guards throw as `TrapOutcome` says; the new table and installed map are `AfterTrap` of the old ones; validity is kept |
| Sigaction.SignalRegistry.KillPid | Sources/POSIX/Sigaction.swift:200-205 | `unknown` sends nothing; any other signal appends exactly one `(pid, rawValue)` to the log of `kill` calls |
| Sigaction.SignalRegistry.HandleSignal | Sources/POSIX/Sigaction.swift:211-216 | runs the handler stored for the decoded signal exactly once, passing that decoded signal; with no stored handler nothing runs |
| OperatingSystem.KindOf | Sources/OperatingSystem.swift:120-196 | no `case` of the switch yields `readOnlyFileSystem` or `notEnoughSpace` |
| OperatingSystem.OnlyWouldBlockCase | Sources/OperatingSystem.swift:193 | only the EWOULDBLOCK case yields `operationWouldBlock` |
| OperatingSystem.OnlyOpNotSuppCase | Sources/OperatingSystem.swift:180 | only the EOPNOTSUPP case yields `operationNotSupportedOnSocket` |
| OperatingSystem.FirstMatch | Sources/OperatingSystem.swift:121-196 | finds the first case, top to bottom, whose constant equals `errno`, or reports that none does |
| OperatingSystem.FirstMatchIsUnique | Sources/OperatingSystem.swift:121-196 | any first matching case is the one the search returns |
| OperatingSystem.LastError | Sources/OperatingSystem.swift:120-197 | the variant of the first matching case, carrying the data and `strerror(errno)`; `other(description)` exactly when no case matches |
| OperatingSystem.LastErrorWithoutData | Sources/OperatingSystem.swift:199-201 | same variant and description as `lastError(with:)` for any data, and an empty payload |
| OperatingSystem.LastReceiveError | Sources/OperatingSystem.swift:203-206 | same variant as `lastError()` and the description `strerror(errno)`, carrying the first `bytesProcessed` bytes |
| OperatingSystem.LastSendError | Sources/OperatingSystem.swift:208-211 | same variant as `lastError()` and the description `strerror(errno)`, carrying the bytes from `bytesProcessed` on |
| OperatingSystem.AssertNoError | Sources/OperatingSystem.swift:217-221 | throws if and only if `errno != 0`, and then the variant and description of `lastError()` with no payload |
| OperatingSystem.AssertNoReceiveError | Sources/OperatingSystem.swift:223-227 | throws if and only if `errno != 0`, and then `lastError()`'s variant and description with the received prefix; `bytesProcessed` must lie within the buffer only when it throws |
| OperatingSystem.AssertNoSendError | Sources/OperatingSystem.swift:229-233 | throws if and only if `errno != 0`, and then `lastError()`'s variant and description with the unsent suffix; `bytesProcessed` must lie within the buffer only when it throws |
| OperatingSystem.NoErrorAcceptsAnyOffset | Sources/OperatingSystem.swift:223-233 | with `errno == 0` the receive and send checks return normally for every `bytesProcessed`, even one outside the buffer |
| OperatingSystem.DescriptionIgnoresConstants | Sources/OperatingSystem.swift:116-118 | `lastErrorDescription()` is `strerror(errno)`, whatever values the platform gives the case constants |
| OperatingSystem.FirstMatchDecides | Sources/OperatingSystem.swift:120-197 | the result is a named variant if and only if some constant equals `errno`, and then it is the first such case's variant |
| OperatingSystem.KindIndependentOfData | Sources/OperatingSystem.swift:120-197 | the chosen variant and the description do not depend on the payload |
| OperatingSystem.EarlierAliasWins | Sources/OperatingSystem.swift:121-196 | a case whose constant repeats an earlier case's value is never taken |
| OperatingSystem.WouldBlockShadowedByAgain | Sources/OperatingSystem.swift:127-193 | when EAGAIN equals EWOULDBLOCK, `operationWouldBlock` is never produced |
| OperatingSystem.NotSupportedShadowsOnSocket | Sources/OperatingSystem.swift:177-180 | when ENOTSUP equals EOPNOTSUPP, `operationNotSupportedOnSocket` is never produced |
| OperatingSystem.AgainIsResourceUnavailable | Sources/OperatingSystem.swift:122-127 | `errno` equal to the shared EAGAIN/EWOULDBLOCK value, with no earlier case's constant equal to it, gives `resourceUnavailable` |
| OperatingSystem.NotSupIsNotSupported | Sources/OperatingSystem.swift:122-177 | `errno` equal to the shared ENOTSUP/EOPNOTSUPP value, with no earlier case's constant equal to it, gives `notSupported` |
| OperatingSystem.UnmatchedVariantsNeverProduced | Sources/OperatingSystem.swift:120-197 | `readOnlyFileSystem` and `notEnoughSpace` are never the result, whatever the constants and `errno` |
| OperatingSystem.UnmatchedCodeIsOther | Sources/OperatingSystem.swift:195 | a code no case constant equals (such as EROFS or ENOMEM, for which the switch has no case) yields `other`, with no payload |
| OperatingSystem.ReceiveAndSendSplitData | Sources/OperatingSystem.swift:203-211 | for a named variant, the receive payload followed by the send payload at the same `bytesProcessed` is the whole buffer |

## Left out

- `CPOSIXInstallSignalHandler`, `kill`, `getpid` and `strerror` are C calls.
  - The first two are modelled only by the ghost `installed` map and the `sent` log.
  - `getpid()`, the default pid of `killPid`, is left to the caller: the pid is always passed explicitly.
  - `strerror` is an uninterpreted function of `errno` in `Env`.
- `kill`'s return value is discarded by the source; the model records the call and nothing else.
- Whatever `CPOSIXInstallSignalHandler` itself may fail on is not modelled: the source does not look at it.
- Concrete numbers:
  - errno values are abstract, possibly aliasing constants, since they come from platform headers;
  - the signal numbers are those written in the enumeration, not a particular operating system's.
- Asynchronous delivery, a handler running while `trap` is halfway through, reentrant calls from inside a handler, and races on the static `signalTable` are concurrency concerns. They are not modelled: delivery is the pure function `Deliver`, applied between calls.
- What a handler closure does when run is not modelled. The model records only which handler is called and with which signal.
- Sigaction.HashValue: `SignalType.hashValue` is supplied by the Swift runtime, and current Swift seeds it per process. The model therefore takes the signal hash as a parameter. `DeclarationIndex` is the hash Swift used to synthesise, the declaration position.
- OperatingSystem.LastErrorDescription: the `String(validatingUTF8:)!` crash on a non-UTF-8 `strerror` result is not modelled. The description is an uninterpreted string.
- OperatingSystem.LastReceiveError: the requirement `0 <= bytesProcessed <= |data|` stands for the trap Swift's `prefix(upTo:)` raises outside that range; `LastSendError` has the same requirement for `suffix(from:)`. The checks `assertNoReceiveError` and `assertNoSendError` slice the buffer only when `errno != 0`, so they require the range only then.
- The `C7` `Data` type is a plain byte sequence.
- `SystemError`'s one-enum-case-per-variant form is flattened to `Known(kind, description, data)` and `Other(description)`. The variants and their payloads are the same.
- Batch registration (`trap(for:)`, `ignore(these:)`, `useDefault(for:)`), a `SignalError.invalidSignal` case and a throwing `killPid` do not exist in `Sources/POSIX/Sigaction.swift`. They are not modelled.
- `killPid` with `unknown` returns without sending and without throwing, as the code does. `Tests/POSIXTests/POSIXTests.swift:169-175` is written for a `killPid` that throws `SignalError.invalidSignal`, a case that `Sources/POSIX/Sigaction.swift` does not declare; the model follows the code.
- `trap` with `ignore` or `useDefault` leaves a signal's earlier handler in `signalTable`, as the code does. The model keeps that stale entry. `DefaultAfterHandleSilencesHandler` proves it is never run, given `Deliver`.
