/** Whole runs: what holds under every interleaving of any number of threads. */
module ClassInitRuns {
  import opened ClassInit
  import opened ClassInitSafety

  // No activation; classes freshly linked or taken from an image.
  ghost predicate Initial(w: World, s: State) {
    && WellFormed(w, s) && s.fatal == NoFatal
    && (forall t :: t in s.stacks ==> s.stacks[t] == [])
    && (forall k :: k in w.classes ==>
          && !InVerification(s.status[k]) && s.status[k] != Initializing
          && s.started[k] == (if s.status[k] == Initialized then 1 else 0)
          && (s.status[k].IsVerified() && k in w.superOf ==>
                s.status[w.superOf[k]].IsVerified() || s.status[w.superOf[k]] == Error))
  }

  ghost predicate Run(w: World, run: seq<State>, acts: seq<Action>) {
    && |run| == |acts| + 1 && Initial(w, run[0])
    && forall i :: 0 <= i < |acts| ==>
         WellFormed(w, run[i]) && Enabled(w, run[i], acts[i]) && run[i + 1] == Step(w, run[i], acts[i])
  }

  lemma {:induction false} RunKeeps(w: World, run: seq<State>, acts: seq<Action>, i: nat)
    requires Run(w, run, acts) && i < |run|
    ensures Inv(w, run[i])
    decreases i
  {
    if i > 0 {
      RunKeeps(w, run, acts, i - 1);
      StepKeeps(w, run[i - 1], acts[i - 1]);
    }
  }

  // The step enters the initialiser of k.
  predicate Starts(s: State, a: Action, k: ClassId) {
    a.Advance? && a.t in s.stacks && s.stacks[a.t] != [] && s.stacks[a.t][|s.stacks[a.t]| - 1] == Init(k, Starting)
  }

  // Every other class is untouched.
  ghost predicate OthersSame(s: State, s': State, t: ThreadId, k: ClassId) {
    && k in s.status && k in s'.status && k in s.started && k in s'.started && t in s.stacks && t in s'.stacks
    && s'.status == s.status[k := s'.status[k]] && s'.started == s.started[k := s'.started[k]]
  }

  // What a step of `InitializeClass` does to its class, and what it answers.
  ghost predicate InitFacts(w: World, s: State, s': State, t: ThreadId, k: ClassId, pc: InitPc)
    requires OthersSame(s, s', t, k)
  {
    && s'.fatal == NoFatal
    && s'.started[k] == s.started[k] + (if pc.Starting? then 1 else 0)
    && (s.status[k] == Initialized || s.status[k] == Error ==> s'.status[k] == s.status[k])
    && (s'.status[k] == Verified ==> s.status[k] == Verified)
    && (|s'.stacks[t]| < |s.stacks[t]| ==> AnswerRight(w, s', t, k))
  }

  // What `InitializeClass` tells its caller about class k is right.
  ghost predicate AnswerRight(w: World, s: State, t: ThreadId, k: ClassId) {
    && k in s.status && k in s.clinitThread && t in s.returned
    && (s.returned[t] ==>
          || s.status[k] == Initialized
          || (s.status[k] == Initializing && s.clinitThread[k] == t))
    && (!s.returned[t] ==>
          || s.status[k] == Error
          || (w.isCompiler && s.status[k] == RetryVerificationAtRuntime))
  }

  lemma InitClaimFacts(w: World, s: State, t: ThreadId, k: ClassId, c: Choice)
    requires Before(w, s, t, Init(k, Claim)) && WellFormed(w, s) && k in w.classes
    ensures OthersSame(s, InitStep(w, s, t, k, Claim, c), t, k)
    ensures InitFacts(w, s, InitStep(w, s, t, k, Claim, c), t, k, Claim)
  {
    hide Inv, Holds, HeldBy, Under, CanLock, HasVerifier, HasOwner, SuperReady, Awaiting;
    TopFacts(w, s, t, Init(k, Claim));
  }

  lemma InitSuperFacts(w: World, s: State, t: ThreadId, k: ClassId, ok: bool, c: Choice)
    requires Before(w, s, t, Init(k, SuperDone(ok))) && WellFormed(w, s) && k in w.classes
    ensures OthersSame(s, InitStep(w, s, t, k, SuperDone(ok), c), t, k)
    ensures InitFacts(w, s, InitStep(w, s, t, k, SuperDone(ok), c), t, k, SuperDone(ok))
  {
    hide Inv, Holds, HeldBy, Under, CanLock, HasVerifier, HasOwner, SuperReady, Awaiting, Needs, Resume;
    TopFacts(w, s, t, Init(k, SuperDone(ok)));
  }

  lemma InitEndFacts(w: World, s: State, t: ThreadId, k: ClassId, threw: bool, c: Choice)
    requires Before(w, s, t, Init(k, Finishing(threw))) && WellFormed(w, s) && k in w.classes
    ensures OthersSame(s, InitStep(w, s, t, k, Finishing(threw), c), t, k)
    ensures InitFacts(w, s, InitStep(w, s, t, k, Finishing(threw), c), t, k, Finishing(threw))
  {
    hide Inv, Holds, HeldBy, Under, CanLock, HasVerifier, HasOwner, SuperReady, Awaiting, Needs, Resume;
    TopFacts(w, s, t, Init(k, Finishing(threw)));
  }

  lemma InitEarlyFacts(w: World, s: State, t: ThreadId, k: ClassId, pc: InitPc, c: Choice)
    requires Before(w, s, t, Init(k, pc)) && WellFormed(w, s) && k in w.classes
    requires pc.Enter? || pc.Lock? || pc.AwaitVerify?
    ensures OthersSame(s, InitStep(w, s, t, k, pc, c), t, k)
    ensures InitFacts(w, s, InitStep(w, s, t, k, pc, c), t, k, pc)
  {
    hide Inv, Holds, HeldBy, Under, CanLock, HasVerifier, HasOwner, SuperReady, Needs, Resume;
    TopFacts(w, s, t, Init(k, pc));
  }

  lemma InitWaitFacts(w: World, s: State, t: ThreadId, k: ClassId, pc: InitPc, c: Choice)
    requires Before(w, s, t, Init(k, pc)) && WellFormed(w, s) && k in w.classes
    requires pc.AfterVerify? || pc.Waiting?
    ensures OthersSame(s, InitStep(w, s, t, k, pc, c), t, k)
    ensures InitFacts(w, s, InitStep(w, s, t, k, pc, c), t, k, pc)
  {
    hide Inv, Holds, HeldBy, Under, CanLock, HasVerifier, HasOwner, SuperReady, Needs, Resume;
    TopFacts(w, s, t, Init(k, pc));
  }

  lemma InitMiddleFacts(w: World, s: State, t: ThreadId, k: ClassId, pc: InitPc, c: Choice)
    requires Before(w, s, t, Init(k, pc)) && WellFormed(w, s) && k in w.classes
    requires pc.CheckSuper? || pc.AwaitSuper? || pc.Starting? || pc.Running?
    ensures OthersSame(s, InitStep(w, s, t, k, pc, c), t, k)
    ensures InitFacts(w, s, InitStep(w, s, t, k, pc, c), t, k, pc)
  {
    hide Inv, Holds, HeldBy, Under, CanLock, HasVerifier, HasOwner, SuperReady, Needs, Resume;
    TopFacts(w, s, t, Init(k, pc));
  }

  lemma InitStepFacts(w: World, s: State, t: ThreadId, k: ClassId, pc: InitPc, c: Choice)
    requires Before(w, s, t, Init(k, pc)) && WellFormed(w, s) && k in w.classes
    ensures OthersSame(s, InitStep(w, s, t, k, pc, c), t, k)
    ensures InitFacts(w, s, InitStep(w, s, t, k, pc, c), t, k, pc)
  {
    hide Inv, InitStep, InitFacts, OthersSame, Before;
    match pc {
      case Claim => InitClaimFacts(w, s, t, k, c);
      case SuperDone(ok) => InitSuperFacts(w, s, t, k, ok, c);
      case Finishing(threw) => InitEndFacts(w, s, t, k, threw, c);
      case CheckSuper => InitMiddleFacts(w, s, t, k, pc, c);
      case AwaitSuper => InitMiddleFacts(w, s, t, k, pc, c);
      case Starting => InitMiddleFacts(w, s, t, k, pc, c);
      case Running => InitMiddleFacts(w, s, t, k, pc, c);
      case AfterVerify => InitWaitFacts(w, s, t, k, pc, c);
      case Waiting => InitWaitFacts(w, s, t, k, pc, c);
      case _ => InitEarlyFacts(w, s, t, k, pc, c);
    }
  }

  // What a step of `VerifyClass` does to its class.
  ghost predicate VerifyFacts(w: World, s: State, s': State, t: ThreadId, k: ClassId, pc: VerifyPc)
    requires OthersSame(s, s', t, k)
  {
    && (s'.fatal != NoFatal <==>
          pc == VConclude(false) && k in w.superOf && w.superOf[k] in s.status && s.status[w.superOf[k]] == Error)
    && s'.started[k] == s.started[k]
    && (s.status[k] == Initialized || s.status[k] == Error ==> s'.status[k] == s.status[k])
    && (|s'.stacks[t]| < |s.stacks[t]| ==> Settled(w, s'.status[k]))
  }

  lemma VerifyLockFacts(w: World, s: State, t: ThreadId, k: ClassId, c: Choice)
    requires Before(w, s, t, Verify(k, VLock)) && WellFormed(w, s) && k in w.classes
    ensures OthersSame(s, VerifyStep(w, s, t, k, VLock, c), t, k)
    ensures VerifyFacts(w, s, VerifyStep(w, s, t, k, VLock, c), t, k, VLock)
  {
    hide Inv, Holds, HeldBy, Under, CanLock, HasVerifier, HasOwner, Verifier;
    TopFacts(w, s, t, Verify(k, VLock));
    NotInVerification(w, s, t, k);
  }

  lemma VerifySuperFacts(w: World, s: State, t: ThreadId, k: ClassId, pc: VerifyPc, c: Choice)
    requires Before(w, s, t, Verify(k, pc)) && WellFormed(w, s) && k in w.classes
    requires pc.VLockSuper? || pc.VAwaitSuper? || pc.VSuperDone?
    ensures OthersSame(s, VerifyStep(w, s, t, k, pc, c), t, k)
    ensures VerifyFacts(w, s, VerifyStep(w, s, t, k, pc, c), t, k, pc)
  {
    hide Inv, Holds, HeldBy, Under, CanLock, HasVerifier, HasOwner, Needs, Resume;
    TopFacts(w, s, t, Verify(k, pc));
  }

  lemma VerifyVerdictFacts(w: World, s: State, t: ThreadId, k: ClassId, c: Choice)
    requires Before(w, s, t, Verify(k, VVerdict)) && WellFormed(w, s) && k in w.classes
    ensures OthersSame(s, VerifyStep(w, s, t, k, VVerdict, c), t, k)
    ensures VerifyFacts(w, s, VerifyStep(w, s, t, k, VVerdict, c), t, k, VVerdict)
  {
    hide Inv, Holds, HeldBy, Under, CanLock, HasVerifier, HasOwner, Needs, Resume;
    TopFacts(w, s, t, Verify(k, VVerdict));
    if c.verdict.OatError? || c.verdict.HardFailure? {
      assert VerifyStep(w, s, t, k, VVerdict, c) == ReturnError(s, t, k);
    }
  }

  lemma VerifyConcludeFacts(w: World, s: State, t: ThreadId, k: ClassId, soft: bool, c: Choice)
    requires Before(w, s, t, Verify(k, VConclude(soft))) && WellFormed(w, s) && k in w.classes
    ensures OthersSame(s, VerifyStep(w, s, t, k, VConclude(soft), c), t, k)
    ensures VerifyFacts(w, s, VerifyStep(w, s, t, k, VConclude(soft), c), t, k, VConclude(soft))
  {
    hide Inv, Holds, HeldBy, Under, CanLock, HasVerifier, HasOwner, Needs, Resume;
    TopFacts(w, s, t, Verify(k, VConclude(soft)));
  }

  lemma VerifyStepFacts(w: World, s: State, t: ThreadId, k: ClassId, pc: VerifyPc, c: Choice)
    requires Before(w, s, t, Verify(k, pc)) && WellFormed(w, s) && k in w.classes
    ensures OthersSame(s, VerifyStep(w, s, t, k, pc, c), t, k)
    ensures VerifyFacts(w, s, VerifyStep(w, s, t, k, pc, c), t, k, pc)
  {
    hide Inv, VerifyStep, VerifyFacts, OthersSame, Before;
    match pc {
      case VLock => VerifyLockFacts(w, s, t, k, c);
      case VConclude(soft) => VerifyConcludeFacts(w, s, t, k, soft, c);
      case VVerdict => VerifyVerdictFacts(w, s, t, k, c);
      case _ => VerifySuperFacts(w, s, t, k, pc, c);
    }
  }

  // One step never takes back an end state, and counts exactly the starts.
  lemma StepIsMonotone(w: World, s: State, a: Action, k: ClassId)
    requires Inv(w, s) && Enabled(w, s, a) && k in w.classes
    ensures WellFormed(w, s) && WellFormed(w, Step(w, s, a))
    ensures Step(w, s, a).started[k] == s.started[k] + if Starts(s, a, k) then 1 else 0
    ensures s.status[k] == Initialized || s.status[k] == Error ==> Step(w, s, a).status[k] == s.status[k]
  {
    hide Inv, InitStep, VerifyStep;
    StepKeeps(w, s, a);
    InvMutex(w, s);
    InvMutex(w, Step(w, s, a));
    if a.Advance? {
      var f := s.stacks[a.t][|s.stacks[a.t]| - 1];
      assert Before(w, s, a.t, f);
      match f {
        case Init(q, pc) => InitStepFacts(w, s, a.t, q, pc, a.c);
        case Verify(q, pc) => VerifyStepFacts(w, s, a.t, q, pc, a.c);
      }
    }
  }

  lemma {:induction false} RunIsMonotone(w: World, run: seq<State>, acts: seq<Action>, i: nat, j: nat, k: ClassId)
    requires Run(w, run, acts) && i <= j < |run| && k in w.classes
    ensures WellFormed(w, run[i]) && WellFormed(w, run[j])
    ensures run[i].started[k] <= run[j].started[k]
    ensures run[i].status[k] == Initialized || run[i].status[k] == Error ==> run[j].status[k] == run[i].status[k]
    decreases j - i
  {
    hide Inv, Step;
    RunKeeps(w, run, acts, i);
    InvMutex(w, run[i]);
    if i < j {
      StepIsMonotone(w, run[i], acts[i], k);
      RunIsMonotone(w, run, acts, i + 1, j, k);
    }
  }

  lemma UncountedBeforeStart(w: World, s: State, a: Action, k: ClassId)
    requires Inv(w, s) && Starts(s, a, k) && k in s.started
    ensures s.started[k] == 0
  {
    hide Inv;
    InvAt(w, s, a.t, |s.stacks[a.t]| - 1);
  }

  // The count rules out a second start.
  lemma NoLaterStart(w: World, run: seq<State>, acts: seq<Action>, a: nat, b: nat, k: ClassId)
    requires Run(w, run, acts) && a < b < |acts| && k in w.classes
    requires Starts(run[a], acts[a], k)
    ensures !Starts(run[b], acts[b], k)
  {
    hide Inv, Step, Starts, Enabled;
    RunKeeps(w, run, acts, a);
    RunKeeps(w, run, acts, b);
    StepIsMonotone(w, run[a], acts[a], k);
    RunIsMonotone(w, run, acts, a + 1, b, k);
    if Starts(run[b], acts[b], k) { UncountedBeforeStart(w, run[b], acts[b], k); }
  }

  /** Each class's initialiser is started at most once in a run. */
  lemma InitializerStartsOnce(w: World, run: seq<State>, acts: seq<Action>, i: nat, j: nat, k: ClassId)
    requires Run(w, run, acts) && i < |acts| && j < |acts| && k in w.classes
    requires Starts(run[i], acts[i], k) && Starts(run[j], acts[j], k)
    ensures i == j
  {
    hide Run, Starts;
    if i < j { NoLaterStart(w, run, acts, i, j, k); }
    if j < i { NoLaterStart(w, run, acts, j, i, k); }
  }

  // The step makes thread a.t return from a call on class k.
  predicate ReturnsFrom(w: World, s: State, a: Action, s': State, k: ClassId) {
    && a.Advance? && a.t in s.stacks && s.stacks[a.t] != [] && a.t in s'.stacks && a.t in s'.returned
    && s.stacks[a.t][|s.stacks[a.t]| - 1].klass == k
    && |s'.stacks[a.t]| < |s.stacks[a.t]|
  }

  predicate ReturnsFromInit(w: World, s: State, a: Action, s': State, k: ClassId) {
    ReturnsFrom(w, s, a, s', k) && s.stacks[a.t][|s.stacks[a.t]| - 1].Init?
  }

  predicate ReturnsFromVerify(w: World, s: State, a: Action, s': State, k: ClassId) {
    ReturnsFrom(w, s, a, s', k) && s.stacks[a.t][|s.stacks[a.t]| - 1].Verify?
  }

  predicate EndsSettled(w: World, s: State, k: ClassId) { k in s.status && Settled(w, s.status[k]) }

  lemma StepAnswers(w: World, s: State, a: Action, s': State, k: ClassId)
    requires Inv(w, s) && Enabled(w, s, a) && s' == Step(w, s, a)
    requires ReturnsFromInit(w, s, a, s', k)
    ensures AnswerRight(w, s', a.t, k)
  {
    hide Inv, InitStep, AnswerRight;
    InvMutex(w, s);
    var f := s.stacks[a.t][|s.stacks[a.t]| - 1];
    assert Before(w, s, a.t, f);
    InitStepFacts(w, s, a.t, k, f.pc, a.c);
  }

  lemma StepSettles(w: World, s: State, a: Action, s': State, k: ClassId)
    requires Inv(w, s) && Enabled(w, s, a) && s' == Step(w, s, a)
    requires ReturnsFromVerify(w, s, a, s', k)
    ensures EndsSettled(w, s', k)
  {
    hide Inv, VerifyStep;
    InvMutex(w, s);
    var f := s.stacks[a.t][|s.stacks[a.t]| - 1];
    assert Before(w, s, a.t, f);
    VerifyStepFacts(w, s, a.t, k, f.vpc, a.c);
  }

  /** A call of `InitializeClass` returns true only if the class is initialised or is being
      initialised by that same thread, and false only if the class is erroneous or, in the compiler,
      left to be verified at run time. */
  lemma TrueOnlyIfReady(w: World, run: seq<State>, acts: seq<Action>, i: nat, k: ClassId)
    requires Run(w, run, acts) && i < |acts| && k in w.classes
    requires ReturnsFromInit(w, run[i], acts[i], run[i + 1], k)
    ensures AnswerRight(w, run[i + 1], acts[i].t, k)
  {
    hide Inv, Step, AnswerRight, Enabled, Initial, ReturnsFromInit;
    RunKeeps(w, run, acts, i);
    StepAnswers(w, run[i], acts[i], run[i + 1], k);
  }

  /** `VerifyClass` returns only when the class is verified or erroneous, except that the compiler may
      leave it to be verified at run time. */
  lemma VerifyEndsSettled(w: World, run: seq<State>, acts: seq<Action>, i: nat, k: ClassId)
    requires Run(w, run, acts) && i < |acts| && k in w.classes
    requires ReturnsFromVerify(w, run[i], acts[i], run[i + 1], k)
    ensures EndsSettled(w, run[i + 1], k)
  {
    hide Inv, Step, EndsSettled, Enabled, Initial, ReturnsFromVerify;
    RunKeeps(w, run, acts, i);
    StepSettles(w, run[i], acts[i], run[i + 1], k);
  }

  lemma SuperclassReady(w: World, s: State, a: Action, k: ClassId)
    requires Inv(w, s) && Enabled(w, s, a) && Starts(s, a, k)
    requires k in w.superOf && k !in w.interfaces
    ensures WellFormed(w, s)
    ensures var p := w.superOf[k];
            s.status[p] == Initialized || (s.status[p] == Initializing && s.clinitThread[p] == a.t)
  {
    hide Inv, Step, Enabled;
    InvMutex(w, s);
    var n := |s.stacks[a.t]| - 1;
    InvAt(w, s, a.t, n);
    if s.status[w.superOf[k]] != Initialized {
      var j :| 0 <= j < n && Owner(s.stacks[a.t][j], w.superOf[k]);
      InvAt(w, s, a.t, j);
    }
  }

  /** When the initialiser of a class that is not an interface starts, its superclass is initialised
      or is being initialised by the same thread. */
  lemma SuperclassFirst(w: World, run: seq<State>, acts: seq<Action>, i: nat, k: ClassId)
    requires Run(w, run, acts) && i < |acts| && Starts(run[i], acts[i], k)
    requires k in w.superOf && k !in w.interfaces
    ensures WellFormed(w, run[i])
    ensures var p := w.superOf[k];
            || run[i].status[p] == Initialized
            || (run[i].status[p] == Initializing && run[i].clinitThread[p] == acts[i].t)
  {
    hide Inv, Step;
    RunKeeps(w, run, acts, i);
    SuperclassReady(w, run[i], acts[i], k);
  }

  /** No two activations initialise the same class, on one thread or on two. */
  lemma OneInitializer(w: World, run: seq<State>, acts: seq<Action>, m: nat, t: ThreadId, i: nat,
                       u: ThreadId, j: nat, k: ClassId)
    requires Run(w, run, acts) && m < |run| && At(run[m], t, i) && At(run[m], u, j)
    requires Owner(run[m].stacks[t][i], k) && Owner(run[m].stacks[u][j], k)
    ensures t == u && i == j
  {
    hide Inv, Step;
    RunKeeps(w, run, acts, m);
    InvAt(w, run[m], t, i);
    InvAt(w, run[m], u, j);
  }

  // The step compares the status of the superclass of k at line 2487.
  predicate ComparesSuperStatus(s: State, a: Action, k: ClassId) {
    && a.Advance? && a.t in s.stacks && s.stacks[a.t] != []
    && s.stacks[a.t][|s.stacks[a.t]| - 1] == Verify(k, VConclude(false))
  }

  lemma StepFatal(w: World, s: State, a: Action, s': State)
    requires Inv(w, s) && Enabled(w, s, a) && s' == Step(w, s, a)
    ensures WellFormed(w, s) && s'.fatal != CheckFailed
    ensures s'.fatal != NoFatal <==>
              exists k :: k in w.superOf && ComparesSuperStatus(s, a, k) && s.status[w.superOf[k]] == Error
  {
    hide Inv, InitStep, VerifyStep, HasOwner, HasVerifier, Holds, CanLock;
    StepKeeps(w, s, a);
    InvMutex(w, s);
    InvMutex(w, s');
    if a.Advance? {
      var f := s.stacks[a.t][|s.stacks[a.t]| - 1];
      assert Before(w, s, a.t, f);
      match f {
        case Init(q, pc) => InitStepFacts(w, s, a.t, q, pc, a.c);
        case Verify(q, pc) =>
          VerifyStepFacts(w, s, a.t, q, pc, a.c);
          assert pc == VConclude(false) ==> ComparesSuperStatus(s, a, q);
      }
    }
  }

  /** Of all the fatal checks on these paths only one can fail, and it fails exactly when a class
      without verifier failure finds that its superclass has become erroneous since it looked at it
      under the superclass's monitor. */
  lemma OnlyTheSuperStatusCheckFails(w: World, run: seq<State>, acts: seq<Action>, i: nat)
    requires Run(w, run, acts) && i < |acts|
    ensures WellFormed(w, run[i])
    ensures run[i + 1].fatal != CheckFailed
    ensures run[i + 1].fatal != NoFatal <==>
              exists k :: k in w.superOf && ComparesSuperStatus(run[i], acts[i], k) &&
                  run[i].status[w.superOf[k]] == Error
  {
    hide Inv, Step, Enabled, Initial;
    RunKeeps(w, run, acts, i);
    StepFatal(w, run[i], acts[i], run[i + 1]);
  }

  // ---- one thread ---------------------------------------------------------------------------------

  // An activation that has looked at the superclass under its monitor has not seen it erroneous.
  ghost predicate SuperFine(w: World, s: State, t: ThreadId) {
    t in s.stacks && s.stacks[t] != [] ==>
      var top := s.stacks[t][|s.stacks[t]| - 1];
      top.Verify? && (top.vpc.VVerdict? || top.vpc.VConclude?) && top.klass in w.superOf ==>
        w.superOf[top.klass] in s.status && s.status[w.superOf[top.klass]] != Error
  }

  // The step leaves the stack as it is, puts a new activation or a new top of `InitializeClass` on it,
  // or returns.
  ghost predicate Simple(s: State, s': State, t: ThreadId) {
    && t in s.stacks && s.stacks[t] != [] && t in s'.stacks
    && var top := |s.stacks[t]| - 1;
       || (s'.stacks[t] != [] && s'.stacks[t][|s'.stacks[t]| - 1].Init?)
       || (s'.stacks[t] != [] && s'.stacks[t][|s'.stacks[t]| - 1].Verify? &&
            s'.stacks[t][|s'.stacks[t]| - 1].vpc == VLock)
       || (top == 0 && s'.stacks[t] == [])
       || (top > 0 && |s'.stacks[t]| == top &&
             (s'.stacks[t][top - 1] == Resume(s.stacks[t][top - 1], true) ||
                 s'.stacks[t][top - 1] == Resume(s.stacks[t][top - 1], false)))
  }

  lemma ReturnIsSimple(s: State, s1: State, t: ThreadId, ok: bool)
    requires t in s.stacks && s.stacks[t] != [] && s1.stacks == s.stacks
    ensures Simple(s, Return(s1, t, ok), t)
  {
    hide Resume;
    var top := |s.stacks[t]| - 1;
    if top > 0 { assert Return(s1, t, ok).stacks[t][top - 1] == Resume(s.stacks[t][top - 1], ok); }
  }

  lemma ErrorIsSimple(s: State, t: ThreadId, k: ClassId)
    requires t in s.stacks && s.stacks[t] != [] && s.stacks[t][|s.stacks[t]| - 1].Init? && k in s.status
    ensures Simple(s, ReturnError(s, t, k), t)
  {
    hide Resume, Return;
    ReturnIsSimple(s, SetStatus(s, k, Error), t, false);
  }

  lemma SimpleIsFine(w: World, s: State, s': State, t: ThreadId)
    requires Inv(w, s) && Simple(s, s', t)
    ensures SuperFine(w, s', t)
  {
    hide Inv;
    if |s.stacks[t]| > 1 { ResumedIsFine(w, s, t); }
  }

  lemma InitIsSimple(w: World, s: State, t: ThreadId, k: ClassId, pc: InitPc, c: Choice)
    requires WellFormed(w, s) && k in w.classes && t in s.stacks && s.stacks[t] != []
    requires s.stacks[t][|s.stacks[t]| - 1] == Init(k, pc)
    ensures Simple(s, InitStep(w, s, t, k, pc, c), t)
  {
    hide Return, ReturnError, Resume;
    ReturnIsSimple(s, s, t, true);
    ReturnIsSimple(s, s, t, false);
    ErrorIsSimple(s, t, k);
    if pc.Finishing? { ReturnIsSimple(s, SetStatus(s, k, Initialized), t, true); }
  }

  // The activation a return resumes is not past the look at its superclass.
  lemma ResumedIsFine(w: World, s: State, t: ThreadId)
    requires Inv(w, s) && t in s.stacks && |s.stacks[t]| > 1
    ensures var f := s.stacks[t][|s.stacks[t]| - 2]; f.Verify? ==> f.vpc.VAwaitSuper?
  {
    hide Inv;
    InvAt(w, s, t, |s.stacks[t]| - 2);
  }

  lemma VerifyStaysFine(w: World, s: State, t: ThreadId, k: ClassId, pc: VerifyPc, c: Choice)
    requires Inv(w, s) && WellFormed(w, s) && k in w.classes && t in s.stacks && s.stacks[t] != []
    requires s.stacks[t][|s.stacks[t]| - 1] == Verify(k, pc) && SuperFine(w, s, t)
    ensures SuperFine(w, VerifyStep(w, s, t, k, pc, c), t)
  {
    hide Inv, Return, ReturnError, FinishVerify, Simple, Resume;
    VerifyReturns(w, s, t, k);
  }

  // Whatever `VerifyClass` returns with, the caller is not past the look at its superclass.
  lemma VerifyReturns(w: World, s: State, t: ThreadId, k: ClassId)
    requires Inv(w, s) && WellFormed(w, s) && k in s.status && t in s.stacks && s.stacks[t] != []
    requires s.stacks[t][|s.stacks[t]| - 1].Verify? && s.stacks[t][|s.stacks[t]| - 1].klass == k
    requires SuperFine(w, s, t)
    ensures SuperFine(w, Return(s, t, true), t)
    ensures SuperFine(w, ReturnError(s, t, k), t)
    ensures SuperFine(w, FinishVerify(s, t, k, Verified), t)
    ensures SuperFine(w, FinishVerify(s, t, k, RetryVerificationAtRuntime), t)
  {
    hide Inv, Simple, Resume, Return;
    ReturnIsSimple(s, s, t, true);
    SimpleIsFine(w, s, Return(s, t, true), t);
    ReturnIsSimple(s, SetStatus(s, k, Error), t, false);
    SimpleIsFine(w, s, Return(SetStatus(s, k, Error), t, false), t);
    ReturnIsSimple(s, SetStatus(s, k, Verified), t, true);
    SimpleIsFine(w, s, Return(SetStatus(s, k, Verified), t, true), t);
    ReturnIsSimple(s, SetStatus(s, k, RetryVerificationAtRuntime), t, true);
    SimpleIsFine(w, s, Return(SetStatus(s, k, RetryVerificationAtRuntime), t, true), t);
  }

  lemma StepStaysFine(w: World, s: State, a: Action, s': State)
    requires Inv(w, s) && Enabled(w, s, a) && s' == Step(w, s, a) && SuperFine(w, s, a.t)
    ensures SuperFine(w, s', a.t)
  {
    hide Inv, InitStep, VerifyStep, Simple, Holds, CanLock;
    InvMutex(w, s);
    if a.Advance? {
      var f := s.stacks[a.t][|s.stacks[a.t]| - 1];
      match f {
        case Init(k, pc) =>
          InitIsSimple(w, s, a.t, k, pc, a.c);
          SimpleIsFine(w, s, s', a.t);
        case Verify(k, pc) => VerifyStaysFine(w, s, a.t, k, pc, a.c);
      }
    }
  }

  lemma FineStepsAreNotFatal(w: World, s: State, a: Action, s': State)
    requires Inv(w, s) && Enabled(w, s, a) && s' == Step(w, s, a) && SuperFine(w, s, a.t)
    ensures s'.fatal == NoFatal
  {
    hide Inv, Step, Enabled;
    StepFatal(w, s, a, s');
  }

  lemma {:induction false} OneThreadStaysFine(w: World, run: seq<State>, acts: seq<Action>, i: nat, t: ThreadId)
    requires Run(w, run, acts) && i < |run| && w.threads == {t}
    ensures SuperFine(w, run[i], t)
    decreases i
  {
    hide Inv, Step, SuperFine, Enabled, Initial, WellFormed;
    if i == 0 {
      NothingYet(w, run[0], t);
    } else {
      OneThreadStaysFine(w, run, acts, i - 1, t);
      RunKeeps(w, run, acts, i - 1);
      InvMutex(w, run[i - 1]);
      ActsOnThread(w, run[i - 1], acts[i - 1]);
      StepStaysFine(w, run[i - 1], acts[i - 1], run[i]);
    }
  }

  lemma NothingYet(w: World, s: State, t: ThreadId)
    requires Initial(w, s)
    ensures SuperFine(w, s, t)
  {
  }

  lemma ActsOnThread(w: World, s: State, a: Action)
    requires WellFormed(w, s) && Enabled(w, s, a)
    ensures a.t in w.threads
  {
  }

  /** On a single thread no fatal check of verification or initialisation ever fails. */
  lemma OneThreadNeverFails(w: World, run: seq<State>, acts: seq<Action>, i: nat, t: ThreadId)
    requires Run(w, run, acts) && i < |run| && w.threads == {t}
    ensures run[i].fatal == NoFatal
  {
    hide Inv, Step, SuperFine, Enabled;
    if i > 0 {
      OneThreadStaysFine(w, run, acts, i - 1, t);
      RunKeeps(w, run, acts, i - 1);
      InvMutex(w, run[i - 1]);
      ActsOnThread(w, run[i - 1], acts[i - 1]);
      FineStepsAreNotFatal(w, run[i - 1], acts[i - 1], run[i]);
    }
  }

  // ---- verified after its superclass -------------------------------------------------------------

  predicate BecomesVerified(s: State, s': State, k: ClassId)
    requires k in s.status && k in s'.status
  {
    s'.status[k] == Verified && s.status[k] != Verified
  }

  // The step ends the verification of k with a soft failure of the verifier, outside the compiler.
  predicate AcceptsSoftFailure(w: World, s: State, a: Action, k: ClassId) {
    && !w.isCompiler && a.Advance? && a.t in s.stacks && s.stacks[a.t] != []
    && s.stacks[a.t][|s.stacks[a.t]| - 1] == Verify(k, VConclude(true))
  }

  lemma ReturnsWithStatus(s: State, t: ThreadId, k: ClassId, new_: Status)
    requires t in s.stacks && s.stacks[t] != [] && k in s.status
    ensures Return(s, t, true).status == s.status
    ensures ReturnError(s, t, k).status == SetStatus(s, k, Error).status
    ensures FinishVerify(s, t, k, new_).status == SetStatus(s, k, new_).status
  {
  }

  lemma VerifyGoesOn(w: World, s: State, t: ThreadId, k: ClassId, pc: VerifyPc, c: Choice)
    requires t in s.stacks && s.stacks[t] != [] && k in s.status && (k in w.superOf ==> w.superOf[k] in s.status)
    requires !pc.VConclude?
    ensures k in VerifyStep(w, s, t, k, pc, c).status && !BecomesVerified(s, VerifyStep(w, s, t, k, pc, c), k)
  {
    hide Return, ReturnError;
    ReturnsWithStatus(s, t, k, Verified);
  }

  lemma VerifyConcludes(w: World, s: State, t: ThreadId, k: ClassId, soft: bool, c: Choice)
    requires t in s.stacks && s.stacks[t] != [] && k in s.status && k in w.superOf && w.superOf[k] in s.status
    ensures k in VerifyStep(w, s, t, k, VConclude(soft), c).status
    ensures BecomesVerified(s, VerifyStep(w, s, t, k, VConclude(soft), c), k) ==>
              if soft then !w.isCompiler else s.status[w.superOf[k]].IsVerified()
  {
    hide Return, FinishVerify;
    ReturnsWithStatus(s, t, k, Verified);
    ReturnsWithStatus(s, t, k, RetryVerificationAtRuntime);
  }

  lemma VerifyEnds(w: World, s: State, t: ThreadId, k: ClassId, pc: VerifyPc, c: Choice)
    requires Before(w, s, t, Verify(k, pc)) && WellFormed(w, s) && k in w.superOf
    ensures k in VerifyStep(w, s, t, k, pc, c).status
    ensures BecomesVerified(s, VerifyStep(w, s, t, k, pc, c), k) ==>
              || (pc == VConclude(true) && !w.isCompiler && Settled(w, s.status[w.superOf[k]]))
              || (pc == VConclude(false) && s.status[w.superOf[k]].IsVerified())
  {
    hide Inv, VerifyStep, Under, ClassInv, Needs, CanLock, BecomesVerified;
    TopFacts(w, s, t, Verify(k, pc));
    match pc {
      case VConclude(soft) => VerifyConcludes(w, s, t, k, soft, c);
      case _ => VerifyGoesOn(w, s, t, k, pc, c);
    }
  }

  lemma StepVerifies(w: World, s: State, a: Action, s': State, k: ClassId)
    requires Inv(w, s) && Enabled(w, s, a) && s' == Step(w, s, a) && k in w.superOf
    ensures WellFormed(w, s) && WellFormed(w, s')
    ensures BecomesVerified(s, s', k) ==>
              (!s.status[w.superOf[k]].IsVerified() <==>
               AcceptsSoftFailure(w, s, a, k) && s.status[w.superOf[k]] == Error)
    ensures BecomesVerified(s, s', k) ==> s'.status[w.superOf[k]] == s.status[w.superOf[k]]
  {
    hide Inv, InitStep, VerifyStep, HasOwner, HasVerifier, Holds, CanLock;
    StepKeeps(w, s, a);
    InvMutex(w, s);
    InvMutex(w, s');
    if a.Advance? {
      var f := s.stacks[a.t][|s.stacks[a.t]| - 1];
      assert Before(w, s, a.t, f);
      match f {
        case Init(q, pc) => InitStepFacts(w, s, a.t, q, pc, a.c);
        case Verify(q, pc) =>
          VerifyStepFacts(w, s, a.t, q, pc, a.c);
          if q == k { VerifyEnds(w, s, a.t, k, pc, a.c); }
      }
    }
  }

  // Thread t is verifying k and has looked at its superclass under its monitor.
  predicate PastSuper(s: State, t: ThreadId, k: ClassId) {
    && t in s.stacks && s.stacks[t] != []
    && var f := s.stacks[t][|s.stacks[t]| - 1]; f.Verify? && f.klass == k && (f.vpc.VVerdict? || f.vpc.VConclude?)
  }

  lemma SimpleIsNotPast(w: World, s: State, s': State, t: ThreadId, k: ClassId)
    requires Inv(w, s) && Simple(s, s', t)
    ensures !PastSuper(s', t, k)
  {
    hide Inv;
    if |s.stacks[t]| > 1 { ResumedIsFine(w, s, t); }
  }

  // However `VerifyClass` returns, the caller is not past the look at a superclass.
  lemma ReturnsNotPast(w: World, s: State, t: ThreadId, q: ClassId, k: ClassId)
    requires Inv(w, s) && WellFormed(w, s) && q in s.status && t in s.stacks && s.stacks[t] != []
    ensures PastSuper(Return(s, t, true), t, k) ==> PastSuper(s, t, k)
    ensures PastSuper(ReturnError(s, t, q), t, k) ==> PastSuper(s, t, k)
    ensures PastSuper(FinishVerify(s, t, q, Verified), t, k) ==> PastSuper(s, t, k)
    ensures PastSuper(FinishVerify(s, t, q, RetryVerificationAtRuntime), t, k) ==> PastSuper(s, t, k)
  {
    hide Inv, Simple, Resume, Return;
    ReturnIsSimple(s, s, t, true);
    SimpleIsNotPast(w, s, Return(s, t, true), t, k);
    ReturnIsSimple(s, SetStatus(s, q, Error), t, false);
    SimpleIsNotPast(w, s, Return(SetStatus(s, q, Error), t, false), t, k);
    ReturnIsSimple(s, SetStatus(s, q, Verified), t, true);
    SimpleIsNotPast(w, s, Return(SetStatus(s, q, Verified), t, true), t, k);
    ReturnIsSimple(s, SetStatus(s, q, RetryVerificationAtRuntime), t, true);
    SimpleIsNotPast(w, s, Return(SetStatus(s, q, RetryVerificationAtRuntime), t, true), t, k);
  }

  lemma VerifyLooks(w: World, s: State, t: ThreadId, q: ClassId, pc: VerifyPc, c: Choice, k: ClassId)
    requires Before(w, s, t, Verify(q, pc)) && WellFormed(w, s) && q in w.classes && k in w.superOf && !w.isCompiler
    requires PastSuper(VerifyStep(w, s, t, q, pc, c), t, k)
    ensures PastSuper(s, t, k) || s.status[w.superOf[k]].IsVerified()
  {
    hide Inv, Return, ReturnError, FinishVerify, Resume, Holds, HeldBy, CanLock, Needs, Under, HasOwner, HasVerifier;
    TopFacts(w, s, t, Verify(q, pc));
    ReturnsNotPast(w, s, t, q, k);
  }

  // A step on one stack leaves the others alone.
  predicate SameStack(s: State, s': State, u: ThreadId) {
    (u in s'.stacks <==> u in s.stacks) && (u in s.stacks ==> s'.stacks[u] == s.stacks[u])
  }

  lemma ReturnOnOtherStack(s: State, s1: State, t: ThreadId, k: ClassId, u: ThreadId)
    requires u != t && t in s.stacks && s.stacks[t] != [] && s1.stacks == s.stacks && k in s1.status
    ensures SameStack(s, Return(s1, t, true), u) && SameStack(s, Return(s1, t, false), u)
    ensures SameStack(s, ReturnError(s1, t, k), u)
  {
  }

  lemma FinishOnOtherStack(s: State, t: ThreadId, k: ClassId, new_: Status, u: ThreadId)
    requires u != t && t in s.stacks && s.stacks[t] != [] && k in s.status
    ensures SameStack(s, FinishVerify(s, t, k, new_), u)
  {
    hide Return;
    ReturnOnOtherStack(s, SetStatus(s, k, new_), t, k, u);
  }

  lemma TopOnOtherStack(s: State, s1: State, t: ThreadId, u: ThreadId)
    requires u != t && t in s.stacks && s.stacks[t] != [] && s1.stacks == s.stacks
    ensures forall f :: SameStack(s, SetTop(s1, t, f), u)
    ensures forall f, g :: SameStack(s, Push(SetTop(s1, t, f), t, g), u)
  {
  }

  lemma StatusMovesNoStack(s: State, k: ClassId)
    requires k in s.status
    ensures SetStatus(s, k, Verifying).stacks == SetStatus(s, k, VerifyingAtRuntime).stacks == s.stacks
  {
  }

  lemma FailsOnNoStack(s: State, u: ThreadId)
    ensures SameStack(s, s, u) && forall fatal :: SameStack(s, Fail(s, fatal), u)
  {
  }

  lemma InitOnOtherStack(w: World, s: State, t: ThreadId, k: ClassId, pc: InitPc, c: Choice, u: ThreadId)
    requires u != t && t in s.stacks && s.stacks[t] != [] && k in s.status && k in s.clinitThread && k in s.started
    requires k in w.superOf ==> w.superOf[k] in s.status
    ensures SameStack(s, InitStep(w, s, t, k, pc, c), u)
  {
    hide Return, ReturnError, World.InitsSuper;
    ReturnOnOtherStack(s, s, t, k, u);
    ReturnOnOtherStack(s, SetStatus(s, k, Initialized), t, k, u);
  }

  lemma VerifyOnOtherStack(w: World, s: State, t: ThreadId, k: ClassId, pc: VerifyPc, c: Choice, u: ThreadId)
    requires u != t && t in s.stacks && s.stacks[t] != [] && k in s.status
    requires k in w.superOf ==> w.superOf[k] in s.status
    ensures SameStack(s, VerifyStep(w, s, t, k, pc, c), u)
  {
    hide Return, ReturnError, FinishVerify, SetStatus, SetTop, Push, SameStack;
    StatusMovesNoStack(s, k);
    TopOnOtherStack(s, s, t, u);
    TopOnOtherStack(s, SetStatus(s, k, Verifying), t, u);
    TopOnOtherStack(s, SetStatus(s, k, VerifyingAtRuntime), t, u);
    FailsOnNoStack(s, u);
    ReturnOnOtherStack(s, s, t, k, u);
    FinishOnOtherStack(s, t, k, Verified, u);
    FinishOnOtherStack(s, t, k, RetryVerificationAtRuntime, u);
  }

  lemma OtherNotPast(w: World, s: State, a: Action, t: ThreadId, k: ClassId)
    requires WellFormed(w, s) && Enabled(w, s, a) && (!a.Advance? || a.t != t) && PastSuper(Step(w, s, a), t, k)
    ensures PastSuper(s, t, k)
  {
    hide InitStep, VerifyStep, CanLock, Needs;
    if a.Advance? {
      match s.stacks[a.t][|s.stacks[a.t]| - 1] {
        case Init(q, pc) => InitOnOtherStack(w, s, a.t, q, pc, a.c, t);
        case Verify(q, pc) => VerifyOnOtherStack(w, s, a.t, q, pc, a.c, t);
      }
    }
  }

  // Outside the compiler the look finds the superclass verified.
  lemma StepLooks(w: World, s: State, a: Action, s': State, t: ThreadId, k: ClassId)
    requires Inv(w, s) && Enabled(w, s, a) && s' == Step(w, s, a) && k in w.superOf && !w.isCompiler
    requires PastSuper(s', t, k)
    ensures WellFormed(w, s) && (PastSuper(s, t, k) || s.status[w.superOf[k]].IsVerified())
  {
    hide Inv, InitStep, VerifyStep, Simple, Holds, CanLock, PastSuper, HasOwner, HasVerifier;
    InvMutex(w, s);
    if a.Advance? && a.t == t {
      var f := s.stacks[t][|s.stacks[t]| - 1];
      assert Before(w, s, t, f);
      match f {
        case Init(q, pc) =>
          InitIsSimple(w, s, t, q, pc, a.c);
          SimpleIsNotPast(w, s, s', t, k);
        case Verify(q, pc) => VerifyLooks(w, s, t, q, pc, a.c, k);
      }
    } else {
      OtherNotPast(w, s, a, t, k);
    }
  }

  lemma {:induction false} SuperWasVerified(w: World, run: seq<State>, acts: seq<Action>, i: nat, t: ThreadId,
                                            k: ClassId)
    returns (j: nat)
    requires Run(w, run, acts) && i < |run| && k in w.superOf && !w.isCompiler && PastSuper(run[i], t, k)
    ensures j <= i && WellFormed(w, run[j]) && run[j].status[w.superOf[k]].IsVerified()
    decreases i
  {
    hide Inv, Step, Enabled, WellFormed;
    RunKeeps(w, run, acts, i - 1);
    StepLooks(w, run[i - 1], acts[i - 1], run[i], t, k);
    if PastSuper(run[i - 1], t, k) {
      j := SuperWasVerified(w, run, acts, i - 1, t, k);
    } else {
      j := i - 1;
    }
  }

  lemma Domains(w: World, s: State, k: ClassId)
    requires Inv(w, s) && k in w.superOf
    ensures k in s.status && w.superOf[k] in s.status
  {
    InvMutex(w, s);
  }

  /** When a class becomes verified its superclass has been verified before, and it is so still if and only
      if it is not the case that a soft failure is accepted, outside the compiler, after the superclass has
      failed its own initialisation. */
  lemma VerifiedAfterSuper(w: World, run: seq<State>, acts: seq<Action>, i: nat, k: ClassId)
    requires Run(w, run, acts) && i < |acts| && k in w.superOf
    ensures forall j :: 0 <= j < |run| ==> k in run[j].status && w.superOf[k] in run[j].status
    ensures BecomesVerified(run[i], run[i + 1], k) ==>
              && (exists j :: 0 <= j <= i && run[j].status[w.superOf[k]].IsVerified())
              && (!run[i].status[w.superOf[k]].IsVerified() <==>
                  AcceptsSoftFailure(w, run[i], acts[i], k) && run[i].status[w.superOf[k]] == Error)
              && run[i + 1].status[w.superOf[k]] == run[i].status[w.superOf[k]]
  {
    hide Inv, Step, Enabled, Initial, WellFormed;
    forall j | 0 <= j < |run| ensures k in run[j].status && w.superOf[k] in run[j].status {
      RunKeeps(w, run, acts, j);
      Domains(w, run[j], k);
    }
    RunKeeps(w, run, acts, i);
    StepVerifies(w, run[i], acts[i], run[i + 1], k);
    if AcceptsSoftFailure(w, run[i], acts[i], k) {
      var j := SuperWasVerified(w, run, acts, i, acts[i].t, k);
    }
  }

  /** In the compiler, and wherever no soft failure is accepted, the superclass is verified then. */
  lemma VerifiedOnlyAfterSuper(w: World, run: seq<State>, acts: seq<Action>, i: nat, k: ClassId)
    requires Run(w, run, acts) && i < |acts| && k in w.superOf
    requires w.isCompiler || !AcceptsSoftFailure(w, run[i], acts[i], k)
    ensures forall j :: 0 <= j < |run| ==> k in run[j].status && w.superOf[k] in run[j].status
    ensures BecomesVerified(run[i], run[i + 1], k) ==>
              run[i].status[w.superOf[k]].IsVerified() && run[i + 1].status[w.superOf[k]].IsVerified()
  {
    hide Inv, Step, Enabled, Initial, WellFormed;
    VerifiedAfterSuper(w, run, acts, i, k);
  }

  // ---- the check that can fail -----------------------------------------------------------------

  // Class 1 extends class 0; thread 1 verifies the subclass, thread 2 initialises the superclass.
  const RACE_WORLD := World({0, 1}, map[1 := 0], {}, {1, 2}, false)
  const FINE := Choice(true, NoFailure, false)
  const SOFT := Choice(true, SoftFailure, false)
  const THROWS := Choice(true, NoFailure, true)

  ghost predicate Reaches(s: State) {
    exists run, acts :: Run(RACE_WORLD, run, acts) && run[|acts|] == s
  }

  // A reachable state with these stacks and statuses.
  ghost predicate RaceAt(s: State, one: seq<Frame>, two: seq<Frame>, st0: Status, st1: Status, owner0: ThreadId) {
    && Reaches(s) && Inv(RACE_WORLD, s) && WellFormed(RACE_WORLD, s) && s.fatal == NoFatal
    && s.stacks[1] == one && s.stacks[2] == two
    && s.status[0] == st0 && s.status[1] == st1 && s.clinitThread[0] == owner0
  }

  lemma RunTo(s: State) returns (run: seq<State>, acts: seq<Action>)
    requires Reaches(s)
    ensures Run(RACE_WORLD, run, acts) && run[|acts|] == s
  {
    hide Step, Enabled, WellFormed, Initial;
    run, acts :| Run(RACE_WORLD, run, acts) && run[|acts|] == s;
  }

  lemma LastStep(run: seq<State>, acts: seq<Action>, s: State, a: Action)
    requires Run(RACE_WORLD, run, acts) && run[|acts|] == s && WellFormed(RACE_WORLD, s) && Enabled(RACE_WORLD, s, a)
    ensures var run', acts' := run + [Step(RACE_WORLD, s, a)], acts + [a];
            && Run(RACE_WORLD, run', acts') && run'[|acts'| - 1] == s && run'[|acts'|] == Step(RACE_WORLD, s, a)
  {
    hide Step, Enabled, WellFormed, Initial;
  }

  lemma ReachesNext(s: State, a: Action)
    requires Reaches(s) && WellFormed(RACE_WORLD, s) && Enabled(RACE_WORLD, s, a)
    ensures Reaches(Step(RACE_WORLD, s, a))
  {
    hide Step, Enabled, WellFormed, Initial;
    var run, acts := RunTo(s);
    LastStep(run, acts, s, a);
  }

  lemma RaceStep(s: State, a: Action) returns (s': State)
    requires Reaches(s) && Inv(RACE_WORLD, s) && WellFormed(RACE_WORLD, s) && Enabled(RACE_WORLD, s, a)
    ensures s' == Step(RACE_WORLD, s, a) && Reaches(s') && Inv(RACE_WORLD, s') && WellFormed(RACE_WORLD, s')
  {
    hide Step, Enabled, Inv, Reaches;
    s' := Step(RACE_WORLD, s, a);
    StepKeeps(RACE_WORLD, s, a);
    InvMutex(RACE_WORLD, s');
    ReachesNext(s, a);
  }

  // The only other thread holds no monitor of class k.
  lemma RaceCanLock(s: State, t: ThreadId, u: ThreadId, k: ClassId)
    requires s.stacks.Keys == {1, 2} && {t, u} == {1, 2}
    requires forall i :: 0 <= i < |s.stacks[u]| ==> k !in HeldBy(RACE_WORLD, s.stacks[u][i])
    ensures CanLock(RACE_WORLD, s, t, k)
  {
  }

  lemma RaceBegins() returns (s: State)
    ensures RaceAt(s, [], [], Verified, Resolved, 0)
  {
    s := State(map[0 := Verified, 1 := Resolved], map[0 := 0, 1 := 0], map[0 := 0, 1 := 0],
               map[1 := [], 2 := []], map[], NoFatal);
    assert RACE_WORLD.Valid();
    assert Run(RACE_WORLD, [s], []);
    RunKeeps(RACE_WORLD, [s], [], 0);
  }

  lemma RaceCalls(s: State) returns (s': State)
    requires RaceAt(s, [], [], Verified, Resolved, 0)
    ensures RaceAt(s', [Verify(1, VLock)], [], Verified, Resolved, 0)
  {
    hide Inv, Reaches, InitStep, VerifyStep;
    s' := RaceStep(s, CallVerify(1, 1));
  }

  lemma RaceLocks(s: State) returns (s': State)
    requires RaceAt(s, [Verify(1, VLock)], [], Verified, Resolved, 0)
    ensures RaceAt(s', [Verify(1, VLockSuper)], [], Verified, Verifying, 0)
  {
    hide Inv, Reaches, InitStep;
    RaceCanLock(s, 1, 2, 1);
    s' := RaceStep(s, Advance(1, FINE));
  }

  lemma RaceLocksSuper(s: State) returns (s': State)
    requires RaceAt(s, [Verify(1, VLockSuper)], [], Verified, Verifying, 0)
    ensures RaceAt(s', [Verify(1, VSuperDone)], [], Verified, Verifying, 0)
  {
    hide Inv, Reaches, InitStep;
    RaceCanLock(s, 1, 2, 0);
    s' := RaceStep(s, Advance(1, FINE));
  }

  lemma RaceLooksAtSuper(s: State) returns (s': State)
    requires RaceAt(s, [Verify(1, VSuperDone)], [], Verified, Verifying, 0)
    ensures RaceAt(s', [Verify(1, VVerdict)], [], Verified, Verifying, 0)
  {
    hide Inv, Reaches, InitStep;
    s' := RaceStep(s, Advance(1, FINE));
  }

  lemma RaceIsJudged(s: State, soft: bool) returns (s': State)
    requires RaceAt(s, [Verify(1, VVerdict)], [], Verified, Verifying, 0)
    ensures RaceAt(s', [Verify(1, VConclude(soft))], [], Verified, Verifying, 0)
  {
    hide Inv, Reaches, InitStep;
    s' := RaceStep(s, Advance(1, if soft then SOFT else FINE));
  }

  lemma RaceEnters(s: State, soft: bool) returns (s': State)
    requires RaceAt(s, [Verify(1, VConclude(soft))], [], Verified, Verifying, 0)
    ensures RaceAt(s', [Verify(1, VConclude(soft))], [Init(0, Enter)], Verified, Verifying, 0)
  {
    hide Inv, Reaches, InitStep, VerifyStep;
    s' := RaceStep(s, CallInit(2, 0));
  }

  lemma RaceTests(s: State, soft: bool) returns (s': State)
    requires RaceAt(s, [Verify(1, VConclude(soft))], [Init(0, Enter)], Verified, Verifying, 0)
    ensures RaceAt(s', [Verify(1, VConclude(soft))], [Init(0, Lock)], Verified, Verifying, 0)
  {
    hide Inv, Reaches, VerifyStep;
    s' := RaceStep(s, Advance(2, FINE));
  }

  lemma RaceLocksToo(s: State, soft: bool) returns (s': State)
    requires RaceAt(s, [Verify(1, VConclude(soft))], [Init(0, Lock)], Verified, Verifying, 0)
    ensures RaceAt(s', [Verify(1, VConclude(soft))], [Init(0, Claim)], Verified, Verifying, 0)
  {
    hide Inv, Reaches, VerifyStep;
    RaceCanLock(s, 2, 1, 0);
    s' := RaceStep(s, Advance(2, FINE));
  }

  lemma RaceClaims(s: State, soft: bool) returns (s': State)
    requires RaceAt(s, [Verify(1, VConclude(soft))], [Init(0, Claim)], Verified, Verifying, 0)
    ensures RaceAt(s', [Verify(1, VConclude(soft))], [Init(0, CheckSuper)], Initializing, Verifying, 2)
  {
    hide Inv, Reaches, VerifyStep;
    s' := RaceStep(s, Advance(2, FINE));
  }

  lemma RaceHasNoSuper(s: State, soft: bool) returns (s': State)
    requires RaceAt(s, [Verify(1, VConclude(soft))], [Init(0, CheckSuper)], Initializing, Verifying, 2)
    ensures RaceAt(s', [Verify(1, VConclude(soft))], [Init(0, Starting)], Initializing, Verifying, 2)
  {
    hide Inv, Reaches, VerifyStep;
    s' := RaceStep(s, Advance(2, FINE));
  }

  lemma RaceStarts(s: State, soft: bool) returns (s': State)
    requires RaceAt(s, [Verify(1, VConclude(soft))], [Init(0, Starting)], Initializing, Verifying, 2)
    ensures RaceAt(s', [Verify(1, VConclude(soft))], [Init(0, Running)], Initializing, Verifying, 2)
  {
    hide Inv, Reaches, VerifyStep;
    s' := RaceStep(s, Advance(2, FINE));
  }

  lemma RaceThrows(s: State, soft: bool) returns (s': State)
    requires RaceAt(s, [Verify(1, VConclude(soft))], [Init(0, Running)], Initializing, Verifying, 2)
    ensures RaceAt(s', [Verify(1, VConclude(soft))], [Init(0, Finishing(true))], Initializing, Verifying, 2)
  {
    hide Inv, Reaches, VerifyStep;
    s' := RaceStep(s, Advance(2, THROWS));
  }

  lemma RaceFails(s: State, soft: bool) returns (s': State)
    requires RaceAt(s, [Verify(1, VConclude(soft))], [Init(0, Finishing(true))], Initializing, Verifying, 2)
    ensures RaceAt(s', [Verify(1, VConclude(soft))], [], Error, Verifying, 2)
  {
    hide Inv, Reaches, VerifyStep;
    RaceCanLock(s, 2, 1, 0);
    s' := RaceStep(s, Advance(2, FINE));
  }

  // The superclass fails while the verification of the subclass waits to be concluded.
  lemma RaceGoesOn(soft: bool) returns (s: State)
    ensures RaceAt(s, [Verify(1, VConclude(soft))], [], Error, Verifying, 2)
  {
    hide RaceAt;
    s := RaceBegins();
    s := RaceCalls(s);
    s := RaceLocks(s);
    s := RaceLocksSuper(s);
    s := RaceLooksAtSuper(s);
    s := RaceIsJudged(s, soft);
    s := RaceEnters(s, soft);
    s := RaceTests(s, soft);
    s := RaceLocksToo(s, soft);
    s := RaceClaims(s, soft);
    s := RaceHasNoSuper(s, soft);
    s := RaceStarts(s, soft);
    s := RaceThrows(s, soft);
    s := RaceFails(s, soft);
  }

  /** The check at 2487 can fail: a superclass that was verified when its subclass looked at it under
      its monitor is erroneous when the subclass looks again without it. */
  lemma TheSuperStatusCheckCanFail()
    ensures exists run: seq<State>, acts: seq<Action> ::
              Run(RACE_WORLD, run, acts) && run[|acts|].fatal == SuperStatusRace(1)
  {
    hide Run, RaceAt, Inv;
    var s := RaceGoesOn(false);
    s := RaceCompares(s);
  }

  lemma RaceCompares(s: State) returns (s': State)
    requires RaceAt(s, [Verify(1, VConclude(false))], [], Error, Verifying, 2)
    ensures Reaches(s') && s'.fatal == SuperStatusRace(1)
  {
    hide Inv, Reaches, InitStep;
    s' := RaceStep(s, Advance(1, FINE));
  }

  /** After a soft failure it is not even asked: a class becomes verified below a superclass that has failed. */
  lemma AClassIsVerifiedBelowAFailedOne()
    ensures exists run: seq<State>, acts: seq<Action> ::
              && Run(RACE_WORLD, run, acts) && |acts| > 0
              && run[|acts| - 1].status == map[0 := Error, 1 := Verifying]
              && run[|acts|].status == map[0 := Error, 1 := Verified]
  {
    hide Inv, Reaches, Run, RaceAt;
    var s := RaceGoesOn(true);
    var s' := RaceAccepts(s);
    var run, acts := RunTo(s);
    LastStep(run, acts, s, Advance(1, FINE));
  }

  lemma RaceAccepts(s: State) returns (s': State)
    requires RaceAt(s, [Verify(1, VConclude(true))], [], Error, Verifying, 2)
    ensures Reaches(s) && WellFormed(RACE_WORLD, s) && Enabled(RACE_WORLD, s, Advance(1, FINE))
    ensures s' == Step(RACE_WORLD, s, Advance(1, FINE))
    ensures s.status == map[0 := Error, 1 := Verifying] && s'.status == map[0 := Error, 1 := Verified]
  {
    hide Inv, Reaches, InitStep;
    s' := RaceStep(s, Advance(1, FINE));
  }
}
