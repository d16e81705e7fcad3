/**
 * Signals and the process-wide signal registry (Sources/POSIX/Sigaction.swift).
 *
 * `Signal` in the Swift code is a struct of static members over one static dictionary,
 * `signalTable`. Here it is the class `SignalRegistry`: `table` is that dictionary, with each
 * handler closure replaced by an opaque `HandlerId`. The C calls the registry makes are
 * modelled by their effects on ghost state: `installed` stands for the operating system's
 * per-signal disposition (set by `CPOSIXInstallSignalHandler`), `sent` records every
 * `kill(pid, signal)` call and `invoked` records every handler call made by the dispatch routine.
 *
 * Each method is specified by a function over the value `Registry` (`TrapOutcome`, `AfterTrap`,
 * `Dispatch`, `KillRequest`); the lemmas below state what the source promises about them.
 */
module Sigaction {
  import opened CTypes
  import opened Wrappers

  // The signal catalogue

  /** `SignalType`: the signals of `sys/signal.h` as the Swift enumeration numbers them. */
  datatype SignalType =
    | Hup | Int | Quit | Ill | Trap | Abrt | Poll | Fpe | Kill | Bus | Segv | Sys | Pipe | Alrm
    | Term | Urg | Stop | Stp | Cont | Chld | Ttin | Ttou | Io | Xcpu | Xfsz | Vtalrm | Prof
    | Winch | Info | Usr1 | Usr2 | Unknown

  /**
   * `rawValue`: the number written for each case, and 32 for `unknown`, which has no number
   * written and so takes the one after `usr2`'s.
   */
  function RawValue(s: SignalType): (n: int32)
    ensures 1 <= n <= 32
    ensures n == 32 <==> s == Unknown
  {
    match s
    case Hup => 1     case Int => 2     case Quit => 3    case Ill => 4
    case Trap => 5    case Abrt => 6    case Poll => 7    case Fpe => 8
    case Kill => 9    case Bus => 10    case Segv => 11   case Sys => 12
    case Pipe => 13   case Alrm => 14   case Term => 15   case Urg => 16
    case Stop => 17   case Stp => 18    case Cont => 19   case Chld => 20
    case Ttin => 21   case Ttou => 22   case Io => 23     case Xcpu => 24
    case Xfsz => 25   case Vtalrm => 26 case Prof => 27   case Winch => 28
    case Info => 29   case Usr1 => 30   case Usr2 => 31   case Unknown => 32
  }

  /**
   * `SignalType(rawValue:)`: never fails. A number from 1 to 31 gives the signal with that raw
   * value; every other number gives `unknown`.
   */
  function FromRaw(n: int32): (s: SignalType)
    ensures s == Unknown <==> !(1 <= n <= 31)
  {
    match n
    case 1 => Hup     case 2 => Int     case 3 => Quit    case 4 => Ill
    case 5 => Trap    case 6 => Abrt    case 7 => Poll    case 8 => Fpe
    case 9 => Kill    case 10 => Bus    case 11 => Segv   case 12 => Sys
    case 13 => Pipe   case 14 => Alrm   case 15 => Term   case 16 => Urg
    case 17 => Stop   case 18 => Stp    case 19 => Cont   case 20 => Chld
    case 21 => Ttin   case 22 => Ttou   case 23 => Io     case 24 => Xcpu
    case 25 => Xfsz   case 26 => Vtalrm case 27 => Prof   case 28 => Winch
    case 29 => Info   case 30 => Usr1   case 31 => Usr2
    case _ => Unknown
  }

  // FromRawRoundTrip, proved in four parts to keep each proof small.

  lemma FromRawRoundTripA(n: int32)
    requires 1 <= n <= 8
    ensures RawValue(FromRaw(n)) == n
  {
  }

  lemma FromRawRoundTripB(n: int32)
    requires 9 <= n <= 16
    ensures RawValue(FromRaw(n)) == n
  {
  }

  lemma FromRawRoundTripC(n: int32)
    requires 17 <= n <= 24
    ensures RawValue(FromRaw(n)) == n
  {
  }

  lemma FromRawRoundTripD(n: int32)
    requires 25 <= n <= 31
    ensures RawValue(FromRaw(n)) == n
  {
  }

  /** A number from 1 to 31 decodes to the signal with that raw value. */
  lemma {:induction false} FromRawRoundTrip(n: int32)
    requires 1 <= n <= 31
    ensures RawValue(FromRaw(n)) == n
  {
    if n <= 8 { FromRawRoundTripA(n); }
    else if n <= 16 { FromRawRoundTripB(n); }
    else if n <= 24 { FromRawRoundTripC(n); }
    else { FromRawRoundTripD(n); }
  }

  /** Decoding a signal's raw value gives the signal back, `unknown` (raw value 32) included. */
  lemma RawValueRoundTrip(s: SignalType)
    ensures FromRaw(RawValue(s)) == s
  {
  }

  /** Distinct signals have distinct raw values. */
  lemma RawValueInjective(a: SignalType, b: SignalType)
    ensures RawValue(a) == RawValue(b) ==> a == b
  {
    RawValueRoundTrip(a);
    RawValueRoundTrip(b);
  }

  /** `SignalAction`: what the operating system does when a signal arrives. */
  datatype SignalAction = Ignore | UseDefault | Handle

  /** `SignalAction.rawValue`, the disposition code passed to `CPOSIXInstallSignalHandler`. */
  function ActionRaw(a: SignalAction): (n: int32)
    ensures 0 <= n <= 2
  {
    match a
    case Ignore => 0
    case UseDefault => 1
    case Handle => 2
  }

  /** `SignalAction(rawValue:)`, the failable initialiser Swift derives for the enumeration. */
  function ActionFromRaw(n: int32): (a: Option<SignalAction>)
    ensures a.Some? <==> 0 <= n <= 2
    ensures a.Some? ==> ActionRaw(a.value) == n
  {
    match n
    case 0 => Some(Ignore)
    case 1 => Some(UseDefault)
    case 2 => Some(Handle)
    case _ => None
  }

  /** Decoding an action's raw value gives the action back. */
  lemma ActionRawRoundTrip(a: SignalAction)
    ensures ActionFromRaw(ActionRaw(a)) == Some(a)
  {
  }

  // Errors

  /** `SignalError`. */
  datatype SignalError = CannotHandle(signal: SignalType) | InvalidTrapCombination

  /** The hash value the source gives `invalidTrapCombination`. */
  const InvalidTrapCombinationHash: int := 0xcafe

  /**
   * `SignalError.hashValue`, given the hash of a `SignalType` (`signalHash`, supplied by the
   * Swift runtime): a signal's hash for `cannotHandle`, and 0xcafe for `invalidTrapCombination`.
   * When no signal hashes as 0xcafe, that value singles out `invalidTrapCombination`; when
   * signal hashes are distinct, a signal's hash singles out `cannotHandle` of that signal.
   */
  function HashValue(e: SignalError, signalHash: SignalType -> int): (h: int)
    ensures (forall s :: signalHash(s) != InvalidTrapCombinationHash) ==>
      (h == InvalidTrapCombinationHash <==> e == InvalidTrapCombination)
    ensures (forall s, t :: signalHash(s) == signalHash(t) ==> s == t) ==>
      forall s :: h == signalHash(s) ==> e == CannotHandle(s) || e == InvalidTrapCombination
  {
    match e
    case CannotHandle(s) => signalHash(s)
    case InvalidTrapCombination => InvalidTrapCombinationHash
  }

  /**
   * `SignalError.==`: two errors are equal when their hash values are. Identical errors are
   * equal, and when no signal hashes as 0xcafe, `invalidTrapCombination` equals only itself.
   */
  predicate Equal(a: SignalError, b: SignalError, signalHash: SignalType -> int): (eq: bool)
    ensures a == b ==> eq
    ensures (forall s :: signalHash(s) != InvalidTrapCombinationHash) ==>
      (eq && a == InvalidTrapCombination ==> b == InvalidTrapCombination)
  {
    HashValue(a, signalHash) == HashValue(b, signalHash)
  }

  /** `==` is reflexive, symmetric and transitive whatever the signal hash. */
  lemma EqualIsEquivalence(a: SignalError, b: SignalError, c: SignalError, signalHash: SignalType -> int)
    ensures Equal(a, a, signalHash)
    ensures Equal(a, b, signalHash) ==> Equal(b, a, signalHash)
    ensures Equal(a, b, signalHash) && Equal(b, c, signalHash) ==> Equal(a, c, signalHash)
  {
  }

  /** The signal hash tells signals apart and never collides with 0xcafe. */
  ghost predicate SeparatesErrors(signalHash: SignalType -> int)
  {
    && (forall s, t :: signalHash(s) == signalHash(t) ==> s == t)
    && (forall s :: signalHash(s) != InvalidTrapCombinationHash)
  }

  /** With such a signal hash, `==` is structural equality. */
  lemma EqualIsIdentity(a: SignalError, b: SignalError, signalHash: SignalType -> int)
    requires SeparatesErrors(signalHash)
    ensures Equal(a, b, signalHash) <==> a == b
  {
  }

  /**
   * The hash Swift synthesised for an enumeration without payloads when this code was written:
   * the case's position in the declaration, from 0.
   */
  function DeclarationIndex(s: SignalType): (h: int)
    ensures 0 <= h <= 31
  {
    RawValue(s) as int - 1
  }

  /**
   * The declaration-index hash separates errors, so with it `cannotHandle(kill)` equals
   * `cannotHandle(kill)` but not `cannotHandle(stop)`, and `invalidTrapCombination` equals itself.
   */
  lemma DeclarationIndexSeparatesErrors()
    ensures SeparatesErrors(DeclarationIndex)
    ensures Equal(CannotHandle(Kill), CannotHandle(Kill), DeclarationIndex)
    ensures !Equal(CannotHandle(Kill), CannotHandle(Stop), DeclarationIndex)
    ensures !Equal(CannotHandle(Kill), InvalidTrapCombination, DeclarationIndex)
  {
    forall s, t | DeclarationIndex(s) == DeclarationIndex(t)
      ensures s == t
    {
      RawValueInjective(s, t);
    }
  }

  // The registry, as a value

  /** A registered handler closure, known only by its identity. */
  type HandlerId = nat

  /**
   * The registry's state: `signalTable`, and the disposition installed with the operating system
   * for each signal the registry has trapped.
   */
  datatype Registry = Registry(table: map<SignalType, HandlerId>, installed: map<SignalType, SignalAction>)

  /** A signal that may be trapped, ignored or given its default back: not `unknown`, `stop` or `kill`. */
  predicate Trappable(s: SignalType)
  {
    s != Unknown && s != Stop && s != Kill
  }

  /**
   * What the registry keeps true: only trappable signals have a handler or an installed
   * disposition, and a signal installed as `handle` has a handler.
   */
  predicate Invariant(r: Registry)
  {
    && (forall s :: s in r.table ==> Trappable(s))
    && (forall s :: s in r.installed ==> Trappable(s))
    && (forall s :: s in r.installed && r.installed[s] == Handle ==> s in r.table)
  }

  /** The registry before any `trap`. */
  const Empty := Registry(map[], map[])

  /** Whether `trap(signal:action:handler:)` throws, and what: the two guards in order. */
  function TrapOutcome(signal: SignalType, action: SignalAction, handler: Option<HandlerId>): (o: Outcome<SignalError>)
    ensures o.Fail? ==> o.error == CannotHandle(signal) || o.error == InvalidTrapCombination
    ensures o == Fail(InvalidTrapCombination) ==> action == Handle && handler.None?
  {
    if signal == Unknown || signal == Stop || signal == Kill then Fail(CannotHandle(signal))
    else if !(action != Handle || handler.Some?) then Fail(InvalidTrapCombination)
    else Pass
  }

  /**
   * The registry after `trap(signal:action:handler:)`: unchanged when it throws; otherwise
   * `handle` stores the handler, and every action installs its disposition.
   */
  function AfterTrap(r: Registry, signal: SignalType, action: SignalAction, handler: Option<HandlerId>): (r': Registry)
    ensures forall s :: s != signal ==> (s in r'.table <==> s in r.table)
    ensures forall s :: s != signal && s in r.table ==> r'.table[s] == r.table[s]
    ensures forall s :: s != signal ==> (s in r'.installed <==> s in r.installed)
    ensures forall s :: s != signal && s in r.installed ==> r'.installed[s] == r.installed[s]
  {
    if TrapOutcome(signal, action, handler).Fail? then r
    else
      var table := if action == Handle then r.table[signal := handler.value] else r.table;
      Registry(table, r.installed[signal := action])
  }

  /** The handler `handleSignal(signal:)` calls for signal number `n`, if any. */
  function Dispatch(table: map<SignalType, HandlerId>, n: int32): (d: Option<HandlerId>)
    ensures d.Some? ==> d.value in table.Values
    ensures !(1 <= n <= 31) ==> d == (if Unknown in table then Some(table[Unknown]) else None)
  {
    var received := FromRaw(n);
    if received in table then Some(table[received]) else None
  }

  /**
   * The handler that runs when the operating system delivers signal number `n`: the
   * operating system calls `handleSignal` only for a signal installed as `handle`.
   */
  function Deliver(r: Registry, n: int32): Option<HandlerId>
  {
    var s := FromRaw(n);
    if s in r.installed && r.installed[s] == Handle then Dispatch(r.table, n) else None
  }

  /** The `kill(pid, signal)` call `killPid(pid:signal:)` makes, if any. */
  function KillRequest(p: pid, signal: SignalType): (k: Option<(pid, int32)>)
    ensures k.None? <==> signal == Unknown
    ensures k.Some? ==> k.value.0 == p && FromRaw(k.value.1) == signal
  {
    if signal == Unknown then None else Some((p, RawValue(signal)))
  }

  // What trap promises

  /**
   * `unknown`, `stop` and `kill` are refused with `cannotHandle` whatever the action and the
   * handler: this guard comes first, so `trap(kill, handle, nil)` is `cannotHandle` too. Nothing
   * changes.
   */
  lemma UntrappableRefusedFirst(r: Registry, signal: SignalType, action: SignalAction, handler: Option<HandlerId>)
    requires !Trappable(signal)
    ensures TrapOutcome(signal, action, handler) == Fail(CannotHandle(signal))
    ensures AfterTrap(r, signal, action, handler) == r
  {
  }

  /** `handle` without a handler, for a trappable signal, throws `invalidTrapCombination`; nothing changes. */
  lemma HandleWithoutHandlerRefused(r: Registry, signal: SignalType)
    requires Trappable(signal)
    ensures TrapOutcome(signal, Handle, None) == Fail(InvalidTrapCombination)
    ensures AfterTrap(r, signal, Handle, None) == r
  {
  }

  /** `trap` returns normally exactly when the signal is trappable and `handle` comes with a handler. */
  lemma TrapSucceedsIff(signal: SignalType, action: SignalAction, handler: Option<HandlerId>)
    ensures TrapOutcome(signal, action, handler) == Pass <==> Trappable(signal) && (action == Handle ==> handler.Some?)
  {
  }

  /**
   * A successful `trap(signal, handle, h)` maps `signal` to `h`, replacing any earlier handler,
   * leaves every other entry as it was and installs `handle` for `signal` alone.
   */
  lemma HandleTrapUpdatesOneEntry(r: Registry, signal: SignalType, h: HandlerId)
    requires Trappable(signal)
    ensures var r' := AfterTrap(r, signal, Handle, Some(h));
      && r'.table.Keys == r.table.Keys + {signal}
      && r'.table[signal] == h
      && (forall s :: s in r.table && s != signal ==> r'.table[s] == r.table[s])
      && r'.installed.Keys == r.installed.Keys + {signal}
      && r'.installed[signal] == Handle
      && (forall s :: s in r.installed && s != signal ==> r'.installed[s] == r.installed[s])
  {
  }

  /**
   * A successful `trap(signal, ignore or useDefault, _)` ignores the handler argument, leaves the
   * table as it was and installs the action for `signal` alone.
   */
  lemma NonHandleTrapKeepsTable(r: Registry, signal: SignalType, action: SignalAction, handler: Option<HandlerId>)
    requires Trappable(signal) && action != Handle
    ensures AfterTrap(r, signal, action, handler).table == r.table
    ensures AfterTrap(r, signal, action, handler).installed == r.installed[signal := action]
  {
  }

  /** Repeating a `trap` call changes nothing more. */
  lemma TrapIdempotent(r: Registry, signal: SignalType, action: SignalAction, handler: Option<HandlerId>)
    ensures var r' := AfterTrap(r, signal, action, handler);
      AfterTrap(r', signal, action, handler) == r'
  {
  }

  /** `trap` keeps the registry's invariant. */
  lemma TrapPreservesInvariant(r: Registry, signal: SignalType, action: SignalAction, handler: Option<HandlerId>)
    requires Invariant(r)
    ensures Invariant(AfterTrap(r, signal, action, handler))
  {
  }

  /** The registry starts out satisfying its invariant, with nothing trapped. */
  lemma EmptySatisfiesInvariant()
    ensures Invariant(Empty)
    ensures forall n :: Deliver(Empty, n).None?
  {
  }

  // What dispatch promises

  /** Under the invariant, only the number of a trappable signal ever reaches a handler. */
  lemma DispatchOnlyTrappable(r: Registry, n: int32)
    requires Invariant(r)
    ensures Dispatch(r.table, n).Some? ==> 1 <= n <= 31 && Trappable(FromRaw(n))
  {
  }

  /** Under the invariant, a number outside 1 to 31 never reaches a handler. */
  lemma OutOfRangeNeverDispatched(r: Registry, n: int32)
    requires Invariant(r)
    requires !(1 <= n <= 31)
    ensures Dispatch(r.table, n) == None
    ensures Deliver(r, n) == None
  {
  }

  /** Under the invariant, a signal installed as `handle` always finds a handler when delivered. */
  lemma HandledSignalHasHandler(r: Registry, s: SignalType)
    requires Invariant(r)
    requires s in r.installed && r.installed[s] == Handle
    ensures Deliver(r, RawValue(s)) == Some(r.table[s])
  {
    RawValueRoundTrip(s);
  }

  /**
   * After `trap(signal, handle, h)`, sending `signal` to a process runs `h` once delivered:
   * the number `kill` is given decodes to `signal`, whose handler is `h`.
   */
  lemma {:induction false} TrappedSignalReachesHandler(r: Registry, signal: SignalType, h: HandlerId, p: pid)
    requires Trappable(signal)
    ensures KillRequest(p, signal).Some?
    ensures Deliver(AfterTrap(r, signal, Handle, Some(h)), KillRequest(p, signal).value.1) == Some(h)
  {
    RawValueRoundTrip(signal);
  }

  /**
   * A handler stored by `trap(signal, handle, h)` stays in the table after
   * `trap(signal, useDefault)`, but is never run: the installed disposition is `useDefault`.
   */
  lemma {:induction false} DefaultAfterHandleSilencesHandler(r: Registry, signal: SignalType, h: HandlerId, handler: Option<HandlerId>)
    requires Trappable(signal)
    ensures var r' := AfterTrap(AfterTrap(r, signal, Handle, Some(h)), signal, UseDefault, handler);
      && r'.installed[signal] == UseDefault
      && signal in r'.table && r'.table[signal] == h
      && Deliver(r', RawValue(signal)) == None
  {
    RawValueRoundTrip(signal);
  }

  // The registry, with state updated in place

  /** `Signal`: the process-wide registry of signal handlers. */
  class SignalRegistry {
    /** `signalTable`. */
    var table: map<SignalType, HandlerId>
    /** The disposition installed with the operating system for each trapped signal. */
    ghost var installed: map<SignalType, SignalAction>
    /** Every `kill(pid, signal)` call made, in order. */
    ghost var sent: seq<(pid, int32)>
    /** Every handler call made by `handleSignal`, in order, with the signal it was given. */
    ghost var invoked: seq<(HandlerId, SignalType)>

    ghost function State(): Registry
      reads this
    {
      Registry(table, installed)
    }

    ghost predicate Valid()
      reads this
    {
      Invariant(State())
    }

    /** The registry at process start: no handler, nothing installed, nothing sent or run. */
    constructor ()
      ensures Valid() && State() == Empty
      ensures sent == [] && invoked == []
    {
      table := map[];
      installed := map[];
      sent := [];
      invoked := [];
    }

    /**
     * `trap(signal:action:handler:)`: checks the signal, then the handler, stores the handler
     * for `handle`, and installs the action with the operating system.
     */
    method Trap(signal: SignalType, action: SignalAction, handler: Option<HandlerId>) returns (outcome: Outcome<SignalError>)
      requires Valid()
      modifies this`table, this`installed
      ensures Valid()
      ensures outcome == TrapOutcome(signal, action, handler)
      ensures State() == AfterTrap(old(State()), signal, action, handler)
    {
      if signal == Unknown || signal == Stop || signal == Kill {
        return Fail(CannotHandle(signal));
      }
      if !(action != Handle || handler.Some?) {
        return Fail(InvalidTrapCombination);
      }
      if action == Handle {
        table := table[signal := handler.value];
      }
      installed := installed[signal := action];
      TrapPreservesInvariant(old(State()), signal, action, handler);
      outcome := Pass;
    }

    /** `killPid(pid:signal:)`: sends `signal` to `p`, or returns without sending for `unknown`. */
    method KillPid(p: pid, signal: SignalType)
      modifies this`sent
      ensures KillRequest(p, signal).None? ==> sent == old(sent)
      ensures KillRequest(p, signal).Some? ==> sent == old(sent) + [KillRequest(p, signal).value]
    {
      if signal == Unknown {
        return;
      }
      sent := sent + [(p, RawValue(signal))];
    }

    /**
     * `handleSignal(signal:)`: decodes the number and calls the handler stored for the signal,
     * once, with the decoded signal; does nothing when there is none.
     */
    method HandleSignal(signal: int32) returns (called: Option<HandlerId>)
      modifies this`invoked
      ensures called == Dispatch(table, signal)
      ensures called.None? ==> invoked == old(invoked)
      ensures called.Some? ==> invoked == old(invoked) + [(called.value, FromRaw(signal))]
    {
      var receivedSignal := FromRaw(signal);
      if receivedSignal in table {
        called := Some(table[receivedSignal]);
        invoked := invoked + [(table[receivedSignal], receivedSignal)];
      } else {
        called := None;
      }
    }
  }
}
