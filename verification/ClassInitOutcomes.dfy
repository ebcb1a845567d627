/** What decides how a class ends: initialised or erroneous. */
module ClassInitOutcomes {
  import opened ClassInit
  import opened ClassInitSafety
  import opened ClassInitRuns

  predicate TopIs(s: State, t: ThreadId, f: Frame) {
    t in s.stacks && s.stacks[t] != [] && s.stacks[t][|s.stacks[t]| - 1] == f
  }

  predicate Acts(s: State, a: Action, f: Frame) { a.Advance? && TopIs(s, a.t, f) }

  // The verification of k ends with a hard failure, at run time or as the oat file recorded it.
  predicate Rejects(s: State, a: Action, k: ClassId) {
    Acts(s, a, Verify(k, VVerdict)) && (a.c.verdict.OatError? || a.c.verdict.HardFailure?)
  }

  // k is found to share a descriptor with a superclass or interface that another loader defines otherwise.
  predicate RefusesDescriptors(s: State, a: Action, k: ClassId) {
    Acts(s, a, Init(k, Claim)) && k in s.status && s.status[k] != Initializing && !a.c.descriptorsValid
  }

  // Verification or initialisation of k finds its superclass erroneous.
  predicate FindsSuperErroneous(w: World, s: State, a: Action, k: ClassId) {
    && k in w.superOf && w.superOf[k] in s.status && s.status[w.superOf[k]] == Error
    && (Acts(s, a, Verify(k, VSuperDone)) || Acts(s, a, Init(k, SuperDone(false))))
  }

  // The initialiser of k ends, with an exception or without.
  predicate InitializerReturns(s: State, a: Action, k: ClassId, threw: bool) {
    Acts(s, a, Init(k, Running)) && a.c.threw == threw
  }

  // One of the four things that make a class erroneous.
  predicate Spoils(w: World, s: State, a: Action, k: ClassId) {
    || Rejects(s, a, k) || RefusesDescriptors(s, a, k) || FindsSuperErroneous(w, s, a, k)
    || InitializerReturns(s, a, k, true)
  }

  // ---- one step ------------------------------------------------------------------------------------

  // What a step, as it records the end of an initialiser or before, makes of the status of k.
  ghost predicate EndsAs(w: World, s: State, a: Action, s': State, k: ClassId)
    requires k in s.status && k in s'.status
  {
    && (s.status[k] != Error ==>
          (s'.status[k] == Error <==>
             || Rejects(s, a, k) || RefusesDescriptors(s, a, k) || FindsSuperErroneous(w, s, a, k)
             || Acts(s, a, Init(k, Finishing(true)))))
    && (s.status[k] != Initialized ==> (s'.status[k] == Initialized <==> Acts(s, a, Init(k, Finishing(false)))))
  }

  lemma StatusAfter(s: State, t: ThreadId, k: ClassId, new_: Status, ok: bool)
    requires t in s.stacks && s.stacks[t] != [] && k in s.status
    ensures Return(s, t, ok).status == s.status
    ensures ReturnError(s, t, k).status == SetStatus(s, k, Error).status
    ensures FinishVerify(s, t, k, new_).status == SetStatus(s, k, new_).status
  {
  }

  // The activation on top and what is known of its class.
  predicate Known(w: World, s: State, t: ThreadId, f: Frame) {
    && TopIs(s, t, f)
    && f.klass in s.status && f.klass in s.clinitThread && f.klass in s.started
    && (f.klass in w.superOf ==> w.superOf[f.klass] in s.status)
  }

  // Elsewhere in `InitializeClass` the status does not change to one of these.
  lemma InitGoesOnAs(w: World, s: State, t: ThreadId, k: ClassId, pc: InitPc, c: Choice)
    requires Known(w, s, t, Init(k, pc)) && !pc.Claim? && !pc.SuperDone? && !pc.Finishing?
    ensures k in InitStep(w, s, t, k, pc, c).status
    ensures EndsAs(w, s, Advance(t, c), InitStep(w, s, t, k, pc, c), k)
  {
    hide Return, World.InitsSuper;
    StatusAfter(s, t, k, Initialized, true);
    StatusAfter(s, t, k, Initialized, false);
  }

  lemma ClaimEndsAs(w: World, s: State, t: ThreadId, k: ClassId, c: Choice)
    requires Known(w, s, t, Init(k, Claim)) && (s.status[k] == Verified || s.status[k] == Initializing)
    ensures k in InitStep(w, s, t, k, Claim, c).status
    ensures EndsAs(w, s, Advance(t, c), InitStep(w, s, t, k, Claim, c), k)
  {
    hide Return, ReturnError;
    StatusAfter(s, t, k, Initialized, true);
  }

  lemma SuperEndsAs(w: World, s: State, t: ThreadId, k: ClassId, ok: bool, c: Choice)
    requires Known(w, s, t, Init(k, SuperDone(ok))) && s.status[k] == Initializing
    requires !ok ==> k in w.superOf && s.status[w.superOf[k]] == Error
    ensures k in InitStep(w, s, t, k, SuperDone(ok), c).status
    ensures EndsAs(w, s, Advance(t, c), InitStep(w, s, t, k, SuperDone(ok), c), k)
  {
    hide Return, ReturnError;
    StatusAfter(s, t, k, Initialized, true);
  }

  lemma FinishEndsAs(w: World, s: State, t: ThreadId, k: ClassId, threw: bool, c: Choice)
    requires Known(w, s, t, Init(k, Finishing(threw))) && s.status[k] == Initializing
    ensures k in InitStep(w, s, t, k, Finishing(threw), c).status
    ensures EndsAs(w, s, Advance(t, c), InitStep(w, s, t, k, Finishing(threw), c), k)
  {
    hide Return, ReturnError;
    StatusAfter(s, t, k, Initialized, true);
    StatusAfter(SetStatus(s, k, Initialized), t, k, Initialized, true);
  }

  lemma InitEndsAs(w: World, s: State, t: ThreadId, k: ClassId, pc: InitPc, c: Choice)
    requires Before(w, s, t, Init(k, pc)) && WellFormed(w, s) && k in w.classes
    ensures k in InitStep(w, s, t, k, pc, c).status
    ensures EndsAs(w, s, Advance(t, c), InitStep(w, s, t, k, pc, c), k)
  {
    hide Inv, Needs, CanLock, HasOwner, HasVerifier, Under, InitStep, EndsAs;
    TopFacts(w, s, t, Init(k, pc));
    match pc {
      case Claim => ClaimEndsAs(w, s, t, k, c);
      case SuperDone(ok) => SuperEndsAs(w, s, t, k, ok, c);
      case Finishing(threw) => FinishEndsAs(w, s, t, k, threw, c);
      case _ => InitGoesOnAs(w, s, t, k, pc, c);
    }
  }

  lemma VerdictEndsAs(w: World, s: State, t: ThreadId, k: ClassId, pc: VerifyPc, c: Choice)
    requires Known(w, s, t, Verify(k, pc)) && (pc.VVerdict? || pc.VSuperDone?) && InVerification(s.status[k])
    requires pc.VSuperDone? ==> k in w.superOf && Settled(w, s.status[w.superOf[k]])
    ensures k in VerifyStep(w, s, t, k, pc, c).status
    ensures EndsAs(w, s, Advance(t, c), VerifyStep(w, s, t, k, pc, c), k)
  {
    hide Return, ReturnError;
    StatusAfter(s, t, k, Verified, true);
  }

  // Elsewhere in `VerifyClass` the status does not change to one of these.
  lemma VerifyGoesOnAs(w: World, s: State, t: ThreadId, k: ClassId, pc: VerifyPc, c: Choice)
    requires Known(w, s, t, Verify(k, pc)) && !pc.VVerdict? && !pc.VSuperDone?
    ensures k in VerifyStep(w, s, t, k, pc, c).status
    ensures EndsAs(w, s, Advance(t, c), VerifyStep(w, s, t, k, pc, c), k)
  {
    hide Return, ReturnError, FinishVerify;
    StatusAfter(s, t, k, Verified, true);
    StatusAfter(s, t, k, RetryVerificationAtRuntime, true);
  }

  lemma VerifyEndsAs(w: World, s: State, t: ThreadId, k: ClassId, pc: VerifyPc, c: Choice)
    requires Before(w, s, t, Verify(k, pc)) && WellFormed(w, s) && k in w.classes
    ensures k in VerifyStep(w, s, t, k, pc, c).status
    ensures EndsAs(w, s, Advance(t, c), VerifyStep(w, s, t, k, pc, c), k)
  {
    hide Inv, Needs, CanLock, HasOwner, HasVerifier, Under, VerifyStep, EndsAs;
    TopFacts(w, s, t, Verify(k, pc));
    if pc.VVerdict? || pc.VSuperDone? { VerdictEndsAs(w, s, t, k, pc, c); } else { VerifyGoesOnAs(w, s, t, k, pc, c); }
  }

  lemma StepEndsAs(w: World, s: State, a: Action, s': State, k: ClassId)
    requires Inv(w, s) && Enabled(w, s, a) && s' == Step(w, s, a) && k in w.classes
    ensures WellFormed(w, s) && WellFormed(w, s') && EndsAs(w, s, a, s', k)
  {
    hide Inv, InitStep, VerifyStep, HasOwner, HasVerifier, Holds, CanLock, EndsAs;
    StepKeeps(w, s, a);
    InvMutex(w, s);
    InvMutex(w, s');
    if a.Advance? {
      var f := s.stacks[a.t][|s.stacks[a.t]| - 1];
      assert Before(w, s, a.t, f);
      match f {
        case Init(q, pc) =>
          InitStepFacts(w, s, a.t, q, pc, a.c);
          if q == k { InitEndsAs(w, s, a.t, k, pc, a.c); } else { OthersEndAs(w, s, a, s', k); }
        case Verify(q, pc) =>
          VerifyStepFacts(w, s, a.t, q, pc, a.c);
          if q == k { VerifyEndsAs(w, s, a.t, k, pc, a.c); } else { OthersEndAs(w, s, a, s', k); }
      }
    } else {
      OthersEndAs(w, s, a, s', k);
    }
  }

  // A step on another class.
  lemma OthersEndAs(w: World, s: State, a: Action, s': State, k: ClassId)
    requires k in s.status && k in s'.status && s'.status[k] == s.status[k]
    requires a.Advance? ==>
               a.t in s.stacks && s.stacks[a.t] != [] && s.stacks[a.t][|s.stacks[a.t]| - 1].klass != k
    ensures EndsAs(w, s, a, s', k)
  {
  }

  // ---- from the end of an initialiser to the status -------------------------------------------------

  function Outcome(threw: bool): Status { if threw then Error else Initialized }

  // The initialiser has ended, and this is to be recorded.
  predicate Pending(s: State, t: ThreadId, k: ClassId, threw: bool) { TopIs(s, t, Init(k, Finishing(threw))) }

  lemma PendingIsInitializing(w: World, s: State, t: ThreadId, k: ClassId, threw: bool)
    requires Inv(w, s) && Pending(s, t, k, threw)
    ensures k in s.status && s.status[k] == Initializing
  {
    hide Inv;
    InvAt(w, s, t, |s.stacks[t]| - 1);
  }

  lemma OtherStackStays(w: World, s: State, a: Action, t: ThreadId)
    requires WellFormed(w, s) && Enabled(w, s, a) && a.t != t
    ensures SameStack(s, Step(w, s, a), t)
  {
    hide InitStep, VerifyStep, CanLock, Needs;
    if a.Advance? {
      match s.stacks[a.t][|s.stacks[a.t]| - 1] {
        case Init(q, pc) => InitOnOtherStack(w, s, a.t, q, pc, a.c, t);
        case Verify(q, pc) => VerifyOnOtherStack(w, s, a.t, q, pc, a.c, t);
      }
    }
  }

  lemma PendingStep(w: World, s: State, a: Action, s': State, t: ThreadId, k: ClassId, threw: bool)
    requires Inv(w, s) && Enabled(w, s, a) && s' == Step(w, s, a) && k in w.classes && Pending(s, t, k, threw)
    ensures WellFormed(w, s') && (Pending(s', t, k, threw) || s'.status[k] == Outcome(threw))
  {
    hide Inv, Step, EndsAs;
    PendingIsInitializing(w, s, t, k, threw);
    StepEndsAs(w, s, a, s', k);
    if a.t == t {
      assert a.Advance?;
      EndsPending(w, s, a, s', k, threw);
    } else {
      OtherStackStays(w, s, a, t);
    }
  }

  lemma EndsPending(w: World, s: State, a: Action, s': State, k: ClassId, threw: bool)
    requires k in s.status && k in s'.status && EndsAs(w, s, a, s', k) && s.status[k] == Initializing
    requires Acts(s, a, Init(k, Finishing(threw)))
    ensures s'.status[k] == Outcome(threw)
  {
  }

  // The step puts no activation of `InitializeClass` at its end on top of t's stack.
  predicate NoneFinishes(s: State, t: ThreadId) {
    t in s.stacks && s.stacks[t] != [] ==>
      var f := s.stacks[t][|s.stacks[t]| - 1]; !(f.Init? && f.pc.Finishing?)
  }

  // A caller that is returned to is not at its end.
  lemma ReturnsToNoEnd(w: World, s: State, s1: State, t: ThreadId, ok: bool)
    requires Inv(w, s) && t in s.stacks && s.stacks[t] != [] && s1.stacks == s.stacks
    ensures NoneFinishes(Return(s1, t, ok), t)
  {
    hide Inv, FrameInv;
    if |s.stacks[t]| > 1 { InvAt(w, s, t, |s.stacks[t]| - 2); }
  }

  lemma InitReachesEnd(w: World, s: State, t: ThreadId, k: ClassId, pc: InitPc, c: Choice)
    requires Before(w, s, t, Init(k, pc)) && WellFormed(w, s) && k in w.classes
    ensures var s' := InitStep(w, s, t, k, pc, c);
            || s'.stacks == s.stacks || NoneFinishes(s', t)
            || (pc == Running && TopIs(s', t, Init(k, Finishing(c.threw))))
  {
    hide Inv, Holds, HeldBy, CanLock, Under, HasOwner, HasVerifier, SuperReady, Needs, Resume, Return;
    ReturnsToNoEnd(w, s, s, t, true);
    ReturnsToNoEnd(w, s, s, t, false);
    ReturnsToNoEnd(w, s, SetStatus(s, k, Error), t, false);
    ReturnsToNoEnd(w, s, SetStatus(s, k, Initialized), t, true);
  }

  lemma VerifyReachesNoEnd(w: World, s: State, t: ThreadId, k: ClassId, pc: VerifyPc, c: Choice)
    requires Before(w, s, t, Verify(k, pc)) && WellFormed(w, s) && k in w.classes
    ensures NoneFinishes(VerifyStep(w, s, t, k, pc, c), t)
  {
    hide Inv, Holds, HeldBy, CanLock, Under, Needs, Resume, Return, ReturnError, FinishVerify;
    ReturnsToNoEnd(w, s, s, t, true);
    EndsWithoutEnd(w, s, t, k, Verified);
    EndsWithoutEnd(w, s, t, k, RetryVerificationAtRuntime);
  }

  lemma EndsWithoutEnd(w: World, s: State, t: ThreadId, k: ClassId, new_: Status)
    requires Inv(w, s) && t in s.stacks && s.stacks[t] != [] && k in s.status
    requires NoneFinishes(s, t)
    ensures NoneFinishes(ReturnError(s, t, k), t) && NoneFinishes(FinishVerify(s, t, k, new_), t)
  {
    hide Inv, Resume, Return;
    ReturnsToNoEnd(w, s, SetStatus(s, k, Error), t, false);
    ReturnsToNoEnd(w, s, SetStatus(s, k, new_), t, true);
  }

  // Only the end of the initialiser leads there.
  lemma PendingComesFrom(w: World, s: State, a: Action, s': State, t: ThreadId, k: ClassId, threw: bool)
    requires Inv(w, s) && Enabled(w, s, a) && s' == Step(w, s, a) && Pending(s', t, k, threw)
    ensures Pending(s, t, k, threw) || InitializerReturns(s, a, k, threw)
  {
    hide Inv, InitStep, VerifyStep, Holds, CanLock;
    InvMutex(w, s);
    if a.t != t {
      OtherStackStays(w, s, a, t);
    } else if a.Advance? {
      var f := s.stacks[t][|s.stacks[t]| - 1];
      assert Before(w, s, t, f);
      match f {
        case Init(q, pc) => InitReachesEnd(w, s, t, q, pc, a.c);
        case Verify(q, pc) => VerifyReachesNoEnd(w, s, t, q, pc, a.c);
      }
    }
  }

  // ---- runs --------------------------------------------------------------------------------------------

  // The class is what the end of its initialiser makes it, or is about to become it.
  predicate Decided(s: State, t: ThreadId, k: ClassId, threw: bool) {
    k in s.status &&
    (s.status[k] == Outcome(threw) || (s.status[k] == Initializing && Pending(s, t, k, threw)))
  }

  /** How its initialiser ends decides what a class becomes: erroneous if it ends with an exception, and
      initialised otherwise. Until that is recorded the class is being initialised; it is never anything
      else again. */
  lemma {:induction false} InitializerDecides(w: World, run: seq<State>, acts: seq<Action>, i: nat, j: nat,
                                              k: ClassId, threw: bool)
    requires Run(w, run, acts) && i < j < |run| && k in w.classes
    requires InitializerReturns(run[i], acts[i], k, threw)
    ensures WellFormed(w, run[j])
    ensures Decided(run[j], acts[i].t, k, threw)
    decreases j
  {
    hide Inv, Step, Decided, Enabled, Initial, WellFormed, InitializerReturns;
    RunStep(w, run, acts, j - 1);
    if j == i + 1 {
      ReturnDecides(w, run[i], acts[i], run[j], k, threw);
    } else {
      InitializerDecides(w, run, acts, i, j - 1, k, threw);
      DecidedStays(w, run[j - 1], acts[j - 1], run[j], acts[i].t, k, threw);
    }
  }

  lemma RunStep(w: World, run: seq<State>, acts: seq<Action>, i: nat)
    requires Run(w, run, acts) && i < |acts|
    ensures |run| == |acts| + 1 && Inv(w, run[i]) && WellFormed(w, run[i])
    ensures Inv(w, run[i + 1]) && WellFormed(w, run[i + 1])
    ensures Enabled(w, run[i], acts[i]) && run[i + 1] == Step(w, run[i], acts[i])
  {
    hide Inv, Step, Enabled, Initial;
    RunKeeps(w, run, acts, i);
    RunKeeps(w, run, acts, i + 1);
    InvMutex(w, run[i + 1]);
  }

  lemma DecidedStays(w: World, s: State, a: Action, s': State, t: ThreadId, k: ClassId, threw: bool)
    requires Inv(w, s) && Enabled(w, s, a) && s' == Step(w, s, a) && k in w.classes && Decided(s, t, k, threw)
    ensures Decided(s', t, k, threw)
  {
    hide Inv, Step, Pending, Enabled;
    StepKeeps(w, s, a);
    StepIsMonotone(w, s, a, k);
    if Pending(s, t, k, threw) {
      PendingStep(w, s, a, s', t, k, threw);
      if Pending(s', t, k, threw) { PendingIsInitializing(w, s', t, k, threw); }
    }
  }

  lemma ReturnDecides(w: World, s: State, a: Action, s': State, k: ClassId, threw: bool)
    requires Inv(w, s) && Enabled(w, s, a) && s' == Step(w, s, a) && InitializerReturns(s, a, k, threw)
    ensures Decided(s', a.t, k, threw)
  {
    hide Inv, Step, Pending, Enabled, InitializerReturns;
    StepKeeps(w, s, a);
    InvMutex(w, s);
    ReturnIsPending(w, s, a, s', k, threw);
    PendingIsInitializing(w, s', a.t, k, threw);
  }

  lemma ReturnIsPending(w: World, s: State, a: Action, s': State, k: ClassId, threw: bool)
    requires WellFormed(w, s) && Enabled(w, s, a) && s' == Step(w, s, a) && InitializerReturns(s, a, k, threw)
    ensures Pending(s', a.t, k, threw)
  {
  }

  lemma {:induction false} PendingHasRun(w: World, run: seq<State>, acts: seq<Action>, i: nat, t: ThreadId,
                                         k: ClassId, threw: bool)
    returns (h: nat)
    requires Run(w, run, acts) && i < |run| && Pending(run[i], t, k, threw)
    ensures h < i && InitializerReturns(run[h], acts[h], k, threw)
    decreases i
  {
    hide Inv, Step, InitializerReturns, Enabled, WellFormed, Pending, Initial;
    NoneAtStart(w, run[0], t, k, threw);
    RunStep(w, run, acts, i - 1);
    PendingComesFrom(w, run[i - 1], acts[i - 1], run[i], t, k, threw);
    h := i - 1;
    if Pending(run[i - 1], t, k, threw) { h := PendingHasRun(w, run, acts, i - 1, t, k, threw); }
  }

  lemma NoneAtStart(w: World, s: State, t: ThreadId, k: ClassId, threw: bool)
    requires Initial(w, s)
    ensures !Pending(s, t, k, threw)
  {
    hide WellFormed;
  }

  // What makes the class erroneous, in the step that does or before.
  lemma {:induction false} WhatSpoiled(w: World, run: seq<State>, acts: seq<Action>, i: nat, k: ClassId)
    returns (h: nat)
    requires Run(w, run, acts) && i < |run| && k in w.classes
    requires WellFormed(w, run[0]) && run[0].status[k] != Error
    requires WellFormed(w, run[i]) && run[i].status[k] == Error
    ensures h < i && Spoils(w, run[h], acts[h], k)
    decreases i
  {
    hide Inv, Step, Acts, Enabled, Initial;
    RunStep(w, run, acts, i - 1);
    StepEndsAs(w, run[i - 1], acts[i - 1], run[i], k);
    if run[i - 1].status[k] == Error {
      h := WhatSpoiled(w, run, acts, i - 1, k);
    } else if Acts(run[i - 1], acts[i - 1], Init(k, Finishing(true))) {
      ActsIsPending(run[i - 1], acts[i - 1], k, true);
      h := PendingHasRun(w, run, acts, i - 1, acts[i - 1].t, k, true);
    } else {
      h := i - 1;
    }
  }

  lemma ActsIsPending(s: State, a: Action, k: ClassId, threw: bool)
    requires Acts(s, a, Init(k, Finishing(threw)))
    ensures Pending(s, a.t, k, threw)
  {
  }

  lemma {:induction false} WhatInitialized(w: World, run: seq<State>, acts: seq<Action>, i: nat, k: ClassId)
    returns (h: nat)
    requires Run(w, run, acts) && i < |run| && k in w.classes
    requires WellFormed(w, run[0]) && run[0].status[k] != Initialized
    requires WellFormed(w, run[i]) && run[i].status[k] == Initialized
    ensures h < i && InitializerReturns(run[h], acts[h], k, false)
    decreases i
  {
    hide Inv, Step, Acts, Enabled, Initial;
    RunStep(w, run, acts, i - 1);
    StepEndsAs(w, run[i - 1], acts[i - 1], run[i], k);
    if run[i - 1].status[k] == Initialized {
      h := WhatInitialized(w, run, acts, i - 1, k);
    } else {
      ActsIsPending(run[i - 1], acts[i - 1], k, false);
      h := PendingHasRun(w, run, acts, i - 1, acts[i - 1].t, k, false);
    }
  }

  /** A class whose verification fails hard is erroneous from then on, and so is one whose descriptors are
      refused or whose superclass is found erroneous. */
  lemma RejectedEndsErroneous(w: World, run: seq<State>, acts: seq<Action>, i: nat, j: nat, k: ClassId)
    requires Run(w, run, acts) && i < j < |run| && k in w.classes
    requires Rejects(run[i], acts[i], k) || RefusesDescriptors(run[i], acts[i], k) ||
             FindsSuperErroneous(w, run[i], acts[i], k)
    ensures WellFormed(w, run[j]) && run[j].status[k] == Error
  {
    hide Inv, Step, Rejects, RefusesDescriptors, FindsSuperErroneous;
    RunKeeps(w, run, acts, i);
    StepEndsAs(w, run[i], acts[i], run[i + 1], k);
    StepIsMonotone(w, run[i], acts[i], k);
    RunIsMonotone(w, run, acts, i + 1, j, k);
  }

  /** A class becomes erroneous exactly when its verification has failed hard, its descriptors have been
      refused, its superclass has been found erroneous, or its initialiser has thrown and this is recorded. */
  lemma ErroneousExactly(w: World, run: seq<State>, acts: seq<Action>, i: nat, k: ClassId)
    requires Run(w, run, acts) && i < |run| && k in w.classes
    ensures WellFormed(w, run[0]) && WellFormed(w, run[i])
    ensures run[0].status[k] != Error ==>
              (run[i].status[k] == Error <==>
                 run[i].status[k] != Initializing && exists h :: 0 <= h < i && Spoils(w, run[h], acts[h], k))
  {
    hide Inv, Step, Rejects, RefusesDescriptors, FindsSuperErroneous, InitializerReturns, Enabled;
    RunIsMonotone(w, run, acts, 0, i, k);
    if run[0].status[k] != Error && run[i].status[k] == Error {
      var h := WhatSpoiled(w, run, acts, i, k);
    }
    if h :| 0 <= h < i && Spoils(w, run[h], acts[h], k) {
      if InitializerReturns(run[h], acts[h], k, true) {
        InitializerDecides(w, run, acts, h, i, k, true);
      } else {
        RejectedEndsErroneous(w, run, acts, h, i, k);
      }
    }
  }

  /** And it becomes initialised exactly when its initialiser has ended without an exception and this is
      recorded. */
  lemma InitializedExactly(w: World, run: seq<State>, acts: seq<Action>, i: nat, k: ClassId)
    requires Run(w, run, acts) && i < |run| && k in w.classes
    ensures WellFormed(w, run[0]) && WellFormed(w, run[i])
    ensures run[0].status[k] != Initialized ==>
              (run[i].status[k] == Initialized <==>
                 run[i].status[k] != Initializing &&
                 exists h :: 0 <= h < i && InitializerReturns(run[h], acts[h], k, false))
  {
    hide Inv, Step, InitializerReturns, Enabled, Initial;
    RunIsMonotone(w, run, acts, 0, i, k);
    if run[0].status[k] != Initialized && run[i].status[k] == Initialized {
      var h := WhatInitialized(w, run, acts, i, k);
    }
    if h :| 0 <= h < i && InitializerReturns(run[h], acts[h], k, false) {
      InitializerDecides(w, run, acts, h, i, k, false);
    }
  }

  // ---- from the verdict to the status -------------------------------------------------------------------

  // The verifier judges k without a hard failure; it is soft or there is none.
  predicate Judges(s: State, a: Action, k: ClassId, soft: bool) {
    Acts(s, a, Verify(k, VVerdict)) && (if soft then a.c.verdict.SoftFailure?
                                        else a.c.verdict.NoFailure? || a.c.verdict.Preverified?)
  }

  // What a judged class becomes.
  function Conclusion(w: World, s: State, k: ClassId, soft: bool): Status
    requires k in w.superOf ==> w.superOf[k] in s.status
  {
    if soft then (if w.isCompiler then RetryVerificationAtRuntime else Verified)
    else if k !in w.superOf || s.status[w.superOf[k]].IsVerified() then Verified
    else RetryVerificationAtRuntime
  }

  predicate Concludes(s: State, t: ThreadId, k: ClassId, soft: bool) { TopIs(s, t, Verify(k, VConclude(soft))) }

  // Thread t is not about to conclude a verification.
  predicate NoneConcludes(s: State, t: ThreadId) {
    t in s.stacks && s.stacks[t] != [] ==>
      var f := s.stacks[t][|s.stacks[t]| - 1]; !(f.Verify? && f.vpc.VConclude?)
  }

  lemma ReturnsToNoConclusion(w: World, s: State, s1: State, t: ThreadId, ok: bool)
    requires Inv(w, s) && t in s.stacks && s.stacks[t] != [] && s1.stacks == s.stacks
    ensures NoneConcludes(Return(s1, t, ok), t)
  {
    hide Inv, FrameInv;
    if |s.stacks[t]| > 1 { InvAt(w, s, t, |s.stacks[t]| - 2); }
  }

  lemma ReturnsConcludeNothing(w: World, s: State, t: ThreadId, k: ClassId, new_: Status)
    requires Inv(w, s) && t in s.stacks && s.stacks[t] != [] && k in s.status
    ensures NoneConcludes(Return(s, t, true), t) && NoneConcludes(Return(s, t, false), t)
    ensures ReturnError(s, t, k).stacks == s.stacks || NoneConcludes(ReturnError(s, t, k), t)
    ensures FinishVerify(s, t, k, new_).stacks == s.stacks || NoneConcludes(FinishVerify(s, t, k, new_), t)
  {
    hide Inv, Resume, Return;
    ReturnsToNoConclusion(w, s, s, t, true);
    ReturnsToNoConclusion(w, s, s, t, false);
    ReturnsToNoConclusion(w, s, SetStatus(s, k, Error), t, false);
    ReturnsToNoConclusion(w, s, SetStatus(s, k, new_), t, true);
  }

  lemma InitConcludesNothing(w: World, s: State, t: ThreadId, k: ClassId, pc: InitPc, c: Choice)
    requires Inv(w, s) && Known(w, s, t, Init(k, pc))
    ensures NoneConcludes(InitStep(w, s, t, k, pc, c), t)
  {
    hide Inv, Return, ReturnError, World.InitsSuper;
    ReturnsConcludeNothing(w, s, t, k, Initialized);
    ReturnsToNoConclusion(w, s, SetStatus(s, k, Initialized), t, true);
  }

  lemma VerifyConcludesFrom(w: World, s: State, t: ThreadId, k: ClassId, pc: VerifyPc, c: Choice, soft: bool)
    requires Inv(w, s) && Known(w, s, t, Verify(k, pc))
    requires TopIs(VerifyStep(w, s, t, k, pc, c), t, Verify(k, VConclude(soft)))
    ensures pc == VConclude(soft) || Judges(s, Advance(t, c), k, soft)
  {
    hide Inv, Return, ReturnError, FinishVerify, Status.IsVerified, Status.IsCompileTimeVerified;
    ReturnsConcludeNothing(w, s, t, k, Verified);
    ReturnsConcludeNothing(w, s, t, k, RetryVerificationAtRuntime);
  }

  lemma VerifyConcludesItsOwn(w: World, s: State, t: ThreadId, q: ClassId, pc: VerifyPc, c: Choice, k: ClassId,
                              soft: bool)
    requires Inv(w, s) && Known(w, s, t, Verify(q, pc))
    requires TopIs(VerifyStep(w, s, t, q, pc, c), t, Verify(k, VConclude(soft)))
    ensures q == k
  {
    hide Inv, Return, ReturnError, FinishVerify, Status.IsVerified, Status.IsCompileTimeVerified;
    ReturnsConcludeNothing(w, s, t, q, Verified);
    ReturnsConcludeNothing(w, s, t, q, RetryVerificationAtRuntime);
  }

  lemma TopIsKnown(w: World, s: State, t: ThreadId, f: Frame)
    requires Before(w, s, t, f)
    ensures Known(w, s, t, f) && WellFormed(w, s)
  {
    hide Inv, FrameInv, ClassInv, Under, CanLock;
    TopFacts(w, s, t, f);
  }

  // Only the judgement leads there.
  lemma ConcludesAfterJudging(w: World, s: State, a: Action, s': State, t: ThreadId, k: ClassId, soft: bool)
    requires Inv(w, s) && Enabled(w, s, a) && s' == Step(w, s, a) && Concludes(s', t, k, soft)
    ensures Concludes(s, t, k, soft) || (a.t == t && Judges(s, a, k, soft))
  {
    hide Inv, InitStep, VerifyStep, Holds, CanLock;
    InvMutex(w, s);
    if a.t != t {
      OtherStackStays(w, s, a, t);
    } else if a.Advance? {
      var f := s.stacks[t][|s.stacks[t]| - 1];
      assert Before(w, s, t, f);
      TopIsKnown(w, s, t, f);
      hide Before, Known, Judges;
      match f {
        case Init(q, pc) => InitConcludesNothing(w, s, t, q, pc, a.c);
        case Verify(q, pc) =>
          VerifyConcludesItsOwn(w, s, t, q, pc, a.c, k, soft);
          VerifyConcludesFrom(w, s, t, q, pc, a.c, soft);
      }
    }
  }

  // The step ends the verification of k, and not with a failure.
  predicate EndsVerification(s: State, s': State, k: ClassId)
    requires k in s.status && k in s'.status
  {
    InVerification(s.status[k]) && (s'.status[k] == Verified || s'.status[k] == RetryVerificationAtRuntime)
  }

  lemma SameStatusEndsNothing(s: State, s': State, k: ClassId)
    requires k in s.status && k in s'.status && s'.status[k] == s.status[k]
    ensures !EndsVerification(s, s', k)
  {
  }

  // A class leaves verification by a conclusion, or becomes erroneous.
  lemma VerifyConcludesAs(w: World, s: State, t: ThreadId, k: ClassId, pc: VerifyPc, c: Choice)
    requires Known(w, s, t, Verify(k, pc))
    ensures var s' := VerifyStep(w, s, t, k, pc, c);
            && k in s'.status
            && (EndsVerification(s, s', k) ==> pc.VConclude? && s'.status[k] == Conclusion(w, s, k, pc.soft))
  {
    hide Return, ReturnError;
    StatusAfter(s, t, k, Verified, true);
    StatusAfter(s, t, k, RetryVerificationAtRuntime, true);
  }

  lemma InitConcludesNoStatus(w: World, s: State, t: ThreadId, k: ClassId, pc: InitPc, c: Choice)
    requires Known(w, s, t, Init(k, pc))
    ensures var s' := InitStep(w, s, t, k, pc, c);
            k in s'.status && !EndsVerification(s, s', k)
  {
    hide Return, ReturnError, World.InitsSuper;
    StatusAfter(s, t, k, Initialized, true);
    StatusAfter(s, t, k, Initialized, false);
    if pc.Finishing? { StatusAfter(SetStatus(s, k, Initialized), t, k, Initialized, true); }
  }

  lemma StepConcludes(w: World, s: State, a: Action, s': State, k: ClassId) returns (soft: bool)
    requires Inv(w, s) && Enabled(w, s, a) && s' == Step(w, s, a) && k in w.classes
    ensures WellFormed(w, s) && WellFormed(w, s') && (k in w.superOf ==> w.superOf[k] in s.status)
    ensures EndsVerification(s, s', k) ==> Concludes(s, a.t, k, soft) && s'.status[k] == Conclusion(w, s, k, soft)
  {
    hide Inv, InitStep, VerifyStep, HasOwner, HasVerifier, Holds, CanLock, EndsVerification, Conclusion;
    StepKeeps(w, s, a);
    InvMutex(w, s);
    InvMutex(w, s');
    soft := false;
    if a.Advance? {
      var f := s.stacks[a.t][|s.stacks[a.t]| - 1];
      assert Before(w, s, a.t, f);
      TopIsKnown(w, s, a.t, f);
      match f {
        case Init(q, pc) =>
          InitStepFacts(w, s, a.t, q, pc, a.c);
          if q == k { InitConcludesNoStatus(w, s, a.t, q, pc, a.c); } else { SameStatusEndsNothing(s, s', k); }
        case Verify(q, pc) =>
          VerifyStepFacts(w, s, a.t, q, pc, a.c);
          if q == k { VerifyConcludesAs(w, s, a.t, k, pc, a.c); } else { SameStatusEndsNothing(s, s', k); }
          soft := pc.VConclude? && pc.soft;
      }
    } else {
      SameStatusEndsNothing(s, s', k);
    }
  }

  // The judgement that thread t is about to conclude; it has done nothing else since.
  lemma {:induction false} JudgedBefore(w: World, run: seq<State>, acts: seq<Action>, i: nat, t: ThreadId, k: ClassId,
                                        soft: bool)
    returns (h: nat)
    requires Run(w, run, acts) && i < |run| && Concludes(run[i], t, k, soft)
    ensures h < i && acts[h].t == t && Judges(run[h], acts[h], k, soft)
    ensures forall m :: h < m <= i ==> Concludes(run[m], t, k, soft)
    decreases i
  {
    hide Inv, Step, Judges, Enabled, WellFormed, Concludes, Initial;
    NothingConcluded(w, run[0], t, k, soft);
    RunStep(w, run, acts, i - 1);
    ConcludesAfterJudging(w, run[i - 1], acts[i - 1], run[i], t, k, soft);
    h := i - 1;
    if Concludes(run[i - 1], t, k, soft) { h := JudgedBefore(w, run, acts, i - 1, t, k, soft); }
  }

  lemma NothingConcluded(w: World, s: State, t: ThreadId, k: ClassId, soft: bool)
    requires Initial(w, s)
    ensures !Concludes(s, t, k, soft)
  {
    hide WellFormed;
  }

  /** A class whose verification ends without a failure has been judged by the same thread just before. After a
      soft failure it is verified, or in the compiler left to run-time verification; without one it is verified
      when its superclass is, or when it has none, and otherwise left to run-time verification like that. */
  lemma VerdictDecides(w: World, run: seq<State>, acts: seq<Action>, i: nat, k: ClassId)
    returns (h: nat, soft: bool)
    requires Run(w, run, acts) && i < |acts| && k in w.classes
    ensures WellFormed(w, run[i]) && WellFormed(w, run[i + 1])
    ensures k in w.superOf ==> w.superOf[k] in run[i].status
    ensures EndsVerification(run[i], run[i + 1], k) ==>
              && h < i && acts[h].t == acts[i].t && Judges(run[h], acts[h], k, soft)
              && (forall m :: h < m <= i ==> Concludes(run[m], acts[i].t, k, soft))
              && run[i + 1].status[k] == Conclusion(w, run[i], k, soft)
  {
    hide Inv, Step, Judges, Enabled, Concludes, Initial, Conclusion;
    RunStep(w, run, acts, i);
    soft := StepConcludes(w, run[i], acts[i], run[i + 1], k);
    h := 0;
    if EndsVerification(run[i], run[i + 1], k) { h := JudgedBefore(w, run, acts, i, acts[i].t, k, soft); }
  }

  // ---- what monitors are for --------------------------------------------------------------------------------

  // Only these steps change the status of their class, and each of them has its monitor.
  lemma InitChangesLocked(w: World, s: State, t: ThreadId, k: ClassId, pc: InitPc, c: Choice)
    requires Before(w, s, t, Init(k, pc)) && Known(w, s, t, Init(k, pc))
    ensures k in InitStep(w, s, t, k, pc, c).status
    ensures InitStep(w, s, t, k, pc, c).status[k] != s.status[k] ==> CanLock(w, s, t, k)
  {
    hide Inv, FrameInv, ClassInv, WellFormed, CanLock, Return, ReturnError, SetStatus, World.InitsSuper, Under;
    TopFacts(w, s, t, Init(k, pc));
    StatusAfter(s, t, k, Initialized, true);
    StatusAfter(s, t, k, Initialized, false);
    StatusKnown(s, k);
    StatusKnown(s.(clinitThread := s.clinitThread[k := t]), k);
    if pc.Finishing? { StatusAfter(SetStatus(s, k, Initialized), t, k, Initialized, true); }
  }

  lemma StatusKnown(s: State, k: ClassId)
    requires k in s.status
    ensures forall new_ :: k in SetStatus(s, k, new_).status && SetStatus(s, k, new_).stacks == s.stacks
  {
  }

  lemma VerifyChangesLocked(w: World, s: State, t: ThreadId, k: ClassId, pc: VerifyPc, c: Choice)
    requires Before(w, s, t, Verify(k, pc)) && Known(w, s, t, Verify(k, pc))
    ensures k in VerifyStep(w, s, t, k, pc, c).status
    ensures VerifyStep(w, s, t, k, pc, c).status[k] != s.status[k] ==> CanLock(w, s, t, k)
  {
    hide Inv, FrameInv, ClassInv, WellFormed, CanLock, Return, ReturnError, FinishVerify, SetStatus, Under;
    TopFacts(w, s, t, Verify(k, pc));
    StatusAfter(s, t, k, Verified, true);
    StatusAfter(s, t, k, RetryVerificationAtRuntime, true);
    StatusKnown(s, k);
  }

  lemma StepChangesLocked(w: World, s: State, a: Action, s': State, k: ClassId)
    requires Inv(w, s) && Enabled(w, s, a) && s' == Step(w, s, a) && k in w.classes
    ensures WellFormed(w, s) && WellFormed(w, s')
    ensures s'.status[k] != s.status[k] ==> CanLock(w, s, a.t, k)
  {
    hide Inv, InitStep, VerifyStep, HasOwner, HasVerifier, Holds, CanLock;
    StepKeeps(w, s, a);
    InvMutex(w, s);
    InvMutex(w, s');
    if a.Advance? {
      var f := s.stacks[a.t][|s.stacks[a.t]| - 1];
      assert Before(w, s, a.t, f);
      TopIsKnown(w, s, a.t, f);
      match f {
        case Init(q, pc) =>
          InitStepFacts(w, s, a.t, q, pc, a.c);
          InitChangesLocked(w, s, a.t, q, pc, a.c);
        case Verify(q, pc) =>
          VerifyStepFacts(w, s, a.t, q, pc, a.c);
          VerifyChangesLocked(w, s, a.t, q, pc, a.c);
      }
    }
  }

  // The activation relies on the status of k: it is verifying k, or about to claim it, or it is looking at it as
  // the superclass of what it is verifying.
  predicate ReliesOn(w: World, f: Frame, k: ClassId) {
    match f
    case Init(q, pc) => q == k && (pc.AwaitVerify? || pc.AfterVerify? || pc.Claim?)
    case Verify(q, pc) =>
      || (q == k && !pc.VLock?)
      || (q in w.superOf && w.superOf[q] == k && (pc.VAwaitSuper? || pc.VSuperDone?))
  }

  /** No other thread changes the status that an activation relies on. */
  lemma NobodyElseChanges(w: World, run: seq<State>, acts: seq<Action>, i: nat, t: ThreadId, j: nat, k: ClassId)
    requires Run(w, run, acts) && i < |acts| && acts[i].t != t && k in w.classes
    requires At(run[i], t, j) && ReliesOn(w, run[i].stacks[t][j], k)
    ensures WellFormed(w, run[i]) && WellFormed(w, run[i + 1])
    ensures run[i + 1].status[k] == run[i].status[k]
  {
    hide Inv, Step, Initial, Enabled, ReliesOn;
    RunStep(w, run, acts, i);
    StepChangesLocked(w, run[i], acts[i], run[i + 1], k);
    ReliesUnderMonitor(w, run[i], t, j, k);
  }

  lemma ReliesUnderMonitor(w: World, s: State, t: ThreadId, j: nat, k: ClassId)
    requires At(s, t, j) && ReliesOn(w, s.stacks[t][j], k)
    ensures Holds(w, s, t, k)
  {
  }

  /** Only a class that is no interface waits for its superclass to be initialised. */
  lemma OnlyClassesAwaitSuper(w: World, run: seq<State>, acts: seq<Action>, i: nat, t: ThreadId, j: nat, k: ClassId)
    requires Run(w, run, acts) && i < |run| && At(run[i], t, j)
    requires run[i].stacks[t][j] == Init(k, AwaitSuper)
    ensures k !in w.interfaces && k in w.superOf
  {
    hide Inv, Step, Initial;
    RunKeeps(w, run, acts, i);
    InvAt(w, run[i], t, j);
  }
}
