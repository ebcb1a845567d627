/** Class verification and initialisation (`ClassLinker::VerifyClass`,
    `ClassLinker::InitializeClass`, `ClassLinker::WaitForInitializeClass`) as a state machine
    whose steps belong to threads and interleave freely.

    A thread is a stack of activations. A step runs one activation from one point where other
    threads can interfere to the next: taking a monitor, releasing it, reading a status without
    holding the monitor, or running Java code. Monitors are scoped to activations in the source
    (`ObjectLock`), so who holds which monitor is derived from the stacks. */
module ClassInit {

  type ClassId = nat
  type ThreadId = nat

  // `Class::Status`, from `kStatusResolved` on; a class is known here once it is linked.
  datatype Status =
    | Error
    | Resolved
    | Verifying
    | RetryVerificationAtRuntime
    | VerifyingAtRuntime
    | Verified
    | Initializing
    | Initialized
  {
    // The numeric value of the enumerator.
    function Value(): int {
      match this
      case Error => -1
      case Resolved => 3
      case Verifying => 4
      case RetryVerificationAtRuntime => 5
      case VerifyingAtRuntime => 6
      case Verified => 7
      case Initializing => 8
      case Initialized => 9
    }

    predicate IsVerified() { Value() >= 7 }

    predicate IsCompileTimeVerified() { Value() >= 5 }
  }

  /** The linked classes. Classes are numbered in the order they were linked, so a superclass has
      a smaller number. */
  datatype World = World(classes: set<ClassId>, superOf: map<ClassId, ClassId>,
                         interfaces: set<ClassId>, threads: set<ThreadId>, isCompiler: bool)
  {
    ghost predicate Valid() {
      && superOf.Keys <= classes
      && (forall k :: k in superOf ==> superOf[k] in classes && superOf[k] < k)
      // `LinkSuperClass` refuses an interface as superclass.
      && forall k :: k in superOf ==> superOf[k] !in interfaces
    }

    // Does `InitializeClass` initialise a superclass first?
    predicate InitsSuper(k: ClassId) { k !in interfaces && k in superOf }
  }

  // Where an activation of `InitializeClass` is.
  datatype InitPc =
    | Enter               // unlocked test of the status
    | Lock                // about to take the monitor
    | AwaitVerify         // monitor held, `VerifyClass` on top
    | AfterVerify         // monitor held
    | Claim               // monitor held, class verified
    | Waiting             // in `WaitForInitializeClass`, monitor released
    | CheckSuper          // status is Initializing, by this activation
    | AwaitSuper          // `InitializeClass` of the superclass on top
    | SuperDone(ok: bool)
    | Starting
    | Running             // the class initialiser, Java code
    | Finishing(threw: bool)

  // Where an activation of `VerifyClass` is.
  datatype VerifyPc =
    | VLock               // about to take the class's monitor
    | VLockSuper          // about to take the superclass's monitor
    | VAwaitSuper         // `VerifyClass` of the superclass on top
    | VSuperDone          // both monitors held
    | VVerdict            // superclass's monitor released
    | VConclude(soft: bool)

  datatype Frame =
    | Init(klass: ClassId, pc: InitPc)
    | Verify(klass: ClassId, vpc: VerifyPc)

  // Failed fatal checks of the source.
  datatype Fatal =
    | NoFatal
    | SuperStatusRace(klass: ClassId)   // the comparison of the superclass's status at 2487
    | CheckFailed                       // any other CHECK, or a refused `SetStatus`

  /** `started` counts how often a class's initialiser was entered; `returned` is the value of a
      thread's latest return. */
  datatype State = State(status: map<ClassId, Status>, clinitThread: map<ClassId, ThreadId>,
                         started: map<ClassId, nat>, stacks: map<ThreadId, seq<Frame>>,
                         returned: map<ThreadId, bool>, fatal: Fatal)

  datatype Verdict = Preverified | OatError | NoFailure | SoftFailure | HardFailure

  // What the environment decides.
  datatype Choice = Choice(descriptorsValid: bool, verdict: Verdict, threw: bool)

  datatype Action =
    | CallInit(t: ThreadId, k: ClassId)
    | CallVerify(t: ThreadId, k: ClassId)
    | Advance(t: ThreadId, c: Choice)

  // ---- monitors ------------------------------------------------------------------------------

  // The monitors an activation holds.
  function HeldBy(w: World, f: Frame): set<ClassId> {
    match f
    case Init(k, pc) => if pc.AwaitVerify? || pc.AfterVerify? || pc.Claim? then {k} else {}
    case Verify(k, pc) =>
      if pc.VLock? then {}
      else if (pc.VAwaitSuper? || pc.VSuperDone?) && k in w.superOf then {k, w.superOf[k]}
      else {k}
  }

  predicate Holds(w: World, s: State, t: ThreadId, k: ClassId) {
    t in s.stacks && exists i :: 0 <= i < |s.stacks[t]| && k in HeldBy(w, s.stacks[t][i])
  }

  predicate CanLock(w: World, s: State, t: ThreadId, k: ClassId) {
    forall u :: u in s.stacks && u != t ==> !Holds(w, s, u, k)
  }

  // ---- steps ---------------------------------------------------------------------------------

  function Fail(s: State, f: Fatal): State { s.(fatal := f) }

  function SetTop(s: State, t: ThreadId, f: Frame): State
    requires t in s.stacks && s.stacks[t] != []
  {
    s.(stacks := s.stacks[t := s.stacks[t][..|s.stacks[t]| - 1] + [f]])
  }

  function Push(s: State, t: ThreadId, f: Frame): State
    requires t in s.stacks
  {
    s.(stacks := s.stacks[t := s.stacks[t] + [f]])
  }

  // What the caller does when the activation above it returns.
  function Resume(f: Frame, ok: bool): Frame {
    match f
    case Init(k, AwaitVerify) => Init(k, AfterVerify)
    case Init(k, AwaitSuper) => Init(k, SuperDone(ok))
    case Verify(k, VAwaitSuper) => Verify(k, VSuperDone)
    case _ => f
  }

  function Return(s: State, t: ThreadId, ok: bool): State
    requires t in s.stacks && s.stacks[t] != []
  {
    var below := s.stacks[t][..|s.stacks[t]| - 1];
    var resumed := if below == [] then []
                   else below[..|below| - 1] + [Resume(below[|below| - 1], ok)];
    s.(stacks := s.stacks[t := resumed], returned := s.returned[t := ok])
  }

  /** `Class::SetStatus`: refuses to go back, to mark an erroneous class erroneous again, and to
      change a status without the class's monitor. The caller holds the monitor by construction
      wherever this is used. */
  function SetStatus(s: State, k: ClassId, new_: Status): State
    requires k in s.status
  {
    if new_.Value() <= s.status[k].Value() && new_ != Error then Fail(s, CheckFailed)
    else if new_ == Error && s.status[k] == Error then Fail(s, CheckFailed)
    else s.(status := s.status[k := new_])
  }

  // A status change is followed by the rest of the step only if it was not refused.
  function ReturnError(s: State, t: ThreadId, k: ClassId): State
    requires t in s.stacks && s.stacks[t] != [] && k in s.status
  {
    var s1 := SetStatus(s, k, Error);
    if s1.fatal != s.fatal then s1 else Return(s1, t, false)
  }

  function InitStep(w: World, s: State, t: ThreadId, k: ClassId, pc: InitPc, c: Choice): State
    requires t in s.stacks && s.stacks[t] != [] && k in s.status
    requires k in s.clinitThread && k in s.started
    requires k in w.superOf ==> w.superOf[k] in s.status
  {
    match pc
    case Enter =>
      if s.status[k] == Initialized then Return(s, t, true) else SetTop(s, t, Init(k, Lock))
    case Lock =>
      if s.status[k] == Initialized then Return(s, t, true)
      else if s.status[k] == Error then Return(s, t, false)
      else if s.status[k].IsVerified() then SetTop(s, t, Init(k, Claim))
      else Push(SetTop(s, t, Init(k, AwaitVerify)), t, Verify(k, VLock))
    case AfterVerify =>
      if s.status[k].IsVerified() then SetTop(s, t, Init(k, Claim))
      else if s.status[k] == Error then Return(s, t, false)
      else if w.isCompiler && s.status[k] == RetryVerificationAtRuntime then Return(s, t, false)
      else Fail(s, CheckFailed)
    case Claim =>
      if s.status[k] == Initializing then
        if s.clinitThread[k] == t then Return(s, t, true)
        else SetTop(s, t, Init(k, Waiting))
      else if !c.descriptorsValid then ReturnError(s, t, k)
      else if s.status[k] != Verified then Fail(s, CheckFailed)
      else SetTop(SetStatus(s.(clinitThread := s.clinitThread[k := t]), k, Initializing), t, Init(k, CheckSuper))
    case Waiting =>
      if s.status[k] == Initializing then s
      else if s.status[k] == Verified && w.isCompiler then Return(s, t, false)
      else if s.status[k] == Error then Return(s, t, false)
      else if s.status[k] == Initialized then Return(s, t, true)
      else Fail(s, CheckFailed)
    case CheckSuper =>
      if w.InitsSuper(k) && s.status[w.superOf[k]] != Initialized then
        if w.superOf[k] in w.interfaces then Fail(s, CheckFailed)
        else Push(SetTop(s, t, Init(k, AwaitSuper)), t, Init(w.superOf[k], Enter))
      else SetTop(s, t, Init(k, Starting))
    case SuperDone(ok) =>
      if ok then SetTop(s, t, Init(k, Starting))
      else if k in w.superOf && s.status[w.superOf[k]] == Error then ReturnError(s, t, k)
      else Fail(s, CheckFailed)
    case Starting => SetTop(s.(started := s.started[k := s.started[k] + 1]), t, Init(k, Running))
    case Running => SetTop(s, t, Init(k, Finishing(c.threw)))
    case Finishing(threw) =>
      if threw then ReturnError(s, t, k)
      else
        var s1 := SetStatus(s, k, Initialized);
        if s1.fatal != s.fatal then s1 else Return(s1, t, true)
    case _ => s
  }

  function VerifyStep(w: World, s: State, t: ThreadId, k: ClassId, pc: VerifyPc, c: Choice): State
    requires t in s.stacks && s.stacks[t] != [] && k in s.status
    requires k in w.superOf ==> w.superOf[k] in s.status
  {
    match pc
    case VLock =>
      if s.status[k].IsVerified() || (s.status[k].IsCompileTimeVerified() && w.isCompiler) then
        Return(s, t, true)
      else if s.status[k] == Error then Return(s, t, true)
      else
        var next := Verify(k, if k in w.superOf then VLockSuper else VVerdict);
        if s.status[k] == Resolved then SetTop(SetStatus(s, k, Verifying), t, next)
        else if s.status[k] == RetryVerificationAtRuntime && !w.isCompiler then
          SetTop(SetStatus(s, k, VerifyingAtRuntime), t, next)
        else Fail(s, CheckFailed)
    case VLockSuper =>
      if k !in w.superOf then s
      else if !s.status[w.superOf[k]].IsVerified() && s.status[w.superOf[k]] != Error then
        Push(SetTop(s, t, Verify(k, VAwaitSuper)), t, Verify(w.superOf[k], VLock))
      else SetTop(s, t, Verify(k, VSuperDone))
    case VSuperDone =>
      if k !in w.superOf then s
      else if !s.status[w.superOf[k]].IsCompileTimeVerified() then ReturnError(s, t, k)
      else SetTop(s, t, Verify(k, VVerdict))
    case VVerdict =>
      match c.verdict {
        case OatError => ReturnError(s, t, k)
        case HardFailure => ReturnError(s, t, k)
        case SoftFailure => SetTop(s, t, Verify(k, VConclude(true)))
        case Preverified => SetTop(s, t, Verify(k, VConclude(false)))
        case NoFailure => SetTop(s, t, Verify(k, VConclude(false)))
      }
    case VConclude(soft) =>
      if soft && !w.isCompiler then FinishVerify(s, t, k, Verified)
      else if soft then FinishVerify(s, t, k, RetryVerificationAtRuntime)
      else if k !in w.superOf || s.status[w.superOf[k]].IsVerified() then
        FinishVerify(s, t, k, Verified)
      else if s.status[w.superOf[k]] == RetryVerificationAtRuntime then
        FinishVerify(s, t, k, RetryVerificationAtRuntime)
      else Fail(s, SuperStatusRace(k))
    case VAwaitSuper => s
  }

  function FinishVerify(s: State, t: ThreadId, k: ClassId, new_: Status): State
    requires t in s.stacks && s.stacks[t] != [] && k in s.status
  {
    var s1 := SetStatus(s, k, new_);
    if s1.fatal != s.fatal then s1 else Return(s1, t, true)
  }

  // The monitor a step must be able to take first, if any.
  function Needs(w: World, f: Frame): set<ClassId> {
    match f
    case Init(k, pc) =>
      // The second critical section of the source at 3028 and the last one at 3072 take the monitor
      // again.
      if pc.Lock? || pc.Waiting? || pc == SuperDone(false) || pc.Finishing? then {k} else {}
    case Verify(k, pc) =>
      if pc.VLock? then {k}
      else if pc.VLockSuper? && k in w.superOf then {w.superOf[k]}
      else {}
  }

  // Java code may call into the class linker; so may a thread with no activation.
  predicate MayCall(s: State, t: ThreadId) {
    && t in s.stacks
    && (s.stacks[t] == [] ||
        var top := s.stacks[t][|s.stacks[t]| - 1]; top.Init? && top.pc.Running?)
  }

  predicate Enabled(w: World, s: State, a: Action) {
    && s.fatal == NoFatal
    && match a
       case CallInit(t, k) => MayCall(s, t) && k in w.classes
       case CallVerify(t, k) => MayCall(s, t) && k in w.classes
       case Advance(t, c) =>
         && t in s.stacks && s.stacks[t] != []
         && forall k :: k in Needs(w, s.stacks[t][|s.stacks[t]| - 1]) ==> CanLock(w, s, t, k)
  }

  // All maps are about all classes and all threads, and activations are of known classes.
  ghost predicate WellFormed(w: World, s: State) {
    && w.Valid()
    && s.status.Keys == w.classes && s.clinitThread.Keys == w.classes
    && s.started.Keys == w.classes && s.stacks.Keys == w.threads
    && forall t, i :: t in s.stacks && 0 <= i < |s.stacks[t]| ==> s.stacks[t][i].klass in w.classes
  }

  function Step(w: World, s: State, a: Action): State
    requires WellFormed(w, s) && Enabled(w, s, a)
  {
    match a
    case CallInit(t, k) => Push(s, t, Init(k, Enter))
    case CallVerify(t, k) => Push(s, t, Verify(k, VLock))
    case Advance(t, c) =>
      match s.stacks[t][|s.stacks[t]| - 1] {
        case Init(k, pc) => InitStep(w, s, t, k, pc, c)
        case Verify(k, pc) => VerifyStep(w, s, t, k, pc, c)
      }
  }
}
