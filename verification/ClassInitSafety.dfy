/** What every interleaving of verification and initialisation keeps. */
module ClassInitSafety {
  import opened ClassInit

  predicate At(s: State, t: ThreadId, i: int) { t in s.stacks && 0 <= i < |s.stacks[t]| }

  // From the claim to the last critical section, an activation is responsible for its class.
  predicate Owning(pc: InitPc) {
    pc.CheckSuper? || pc.AwaitSuper? || pc.SuperDone? || pc.Starting? || pc.Running? || pc.Finishing?
  }

  predicate Owner(f: Frame, k: ClassId) { f.Init? && f.klass == k && Owning(f.pc) }

  predicate Verifier(f: Frame, k: ClassId) { f.Verify? && f.klass == k && !f.vpc.VLock? }

  // Nothing but initialisation can happen to the class any more.
  predicate Settled(w: World, st: Status) {
    st.IsVerified() || st == Error || (w.isCompiler && st == RetryVerificationAtRuntime)
  }

  predicate InVerification(st: Status) { st == Verifying || st == VerifyingAtRuntime }

  // The superclass is initialised, or this thread is initialising it further down its stack.
  ghost predicate SuperReady(w: World, s: State, t: ThreadId, i: nat, k: ClassId)
    requires WellFormed(w, s) && At(s, t, i) && k in w.superOf
  {
    || s.status[w.superOf[k]] == Initialized
    || exists j :: 0 <= j < i && Owner(s.stacks[t][j], w.superOf[k])
  }

  ghost predicate FrameInv(w: World, s: State, t: ThreadId, i: nat)
    requires WellFormed(w, s) && At(s, t, i)
  {
    match s.stacks[t][i]
    case Init(k, pc) =>
      && k in w.classes
      && (Owning(pc) ==>
            && s.status[k] == Initializing && s.clinitThread[k] == t
            && forall j :: 0 <= j < i ==> !Owner(s.stacks[t][j], k))
      && (match pc
          case Enter => true
          case Lock => true
          case AwaitVerify => s.status[k].Value() < 8
          case AfterVerify => s.status[k].Value() < 8 && Settled(w, s.status[k])
          case Claim => s.status[k] == Verified || s.status[k] == Initializing
          case Waiting => s.status[k].Value() >= 8 || s.status[k] == Error
          case CheckSuper => s.started[k] == 0
          case AwaitSuper => s.started[k] == 0 && w.InitsSuper(k)
          case SuperDone(ok) =>
            && s.started[k] == 0 && w.InitsSuper(k)
            && (if ok then SuperReady(w, s, t, i, k) else s.status[w.superOf[k]] == Error)
          case Starting => s.started[k] == 0 && (w.InitsSuper(k) ==> SuperReady(w, s, t, i, k))
          case Running => s.started[k] == 1 && (w.InitsSuper(k) ==> SuperReady(w, s, t, i, k))
          case Finishing(_) => s.started[k] == 1 && (w.InitsSuper(k) ==> SuperReady(w, s, t, i, k)))
    case Verify(k, pc) =>
      && k in w.classes
      && (!pc.VLock? ==> InVerification(s.status[k]))
      && (pc.VLockSuper? || pc.VAwaitSuper? || pc.VSuperDone? ==> k in w.superOf)
      && (pc.VSuperDone? || pc.VVerdict? || pc.VConclude? ==>
            k in w.superOf ==> Settled(w, s.status[w.superOf[k]]))
  }

  ghost predicate HasOwner(s: State, k: ClassId)
    requires k in s.clinitThread
  {
    exists i :: At(s, s.clinitThread[k], i) && Owner(s.stacks[s.clinitThread[k]][i], k)
  }

  ghost predicate HasVerifier(s: State, k: ClassId) {
    exists t, i :: At(s, t, i) && Verifier(s.stacks[t][i], k)
  }

  ghost predicate ClassCore(w: World, s: State, k: ClassId)
    requires WellFormed(w, s) && k in w.classes
  {
    && s.started[k] <= 1
    && (0 <= s.status[k].Value() < 8 ==> s.started[k] == 0)
    && (s.status[k] == Initialized ==> s.started[k] == 1)
    && (s.status[k].IsVerified() && k in w.superOf ==>
          s.status[w.superOf[k]].IsVerified() || s.status[w.superOf[k]] == Error)
    && (s.status[k] == VerifyingAtRuntime ==> !w.isCompiler)
  }

  ghost predicate ClassInv(w: World, s: State, k: ClassId)
    requires WellFormed(w, s) && k in w.classes
  {
    && ClassCore(w, s, k)
    && (s.status[k] == Initializing ==> HasOwner(s, k))
    && (InVerification(s.status[k]) ==> HasVerifier(s, k))
  }

  // g may stand directly on f.
  predicate Under(w: World, f: Frame, g: Frame) {
    match f
    case Init(k, AwaitVerify) => g.Verify? && g.klass == k
    case Init(k, AwaitSuper) => k in w.superOf && g.Init? && g.klass == w.superOf[k]
    case Init(k, Running) => true
    case Verify(k, VAwaitSuper) => k in w.superOf && g.Verify? && g.klass == w.superOf[k]
    case _ => false
  }

  predicate Awaiting(f: Frame) {
    match f
    case Init(_, pc) => pc.AwaitVerify? || pc.AwaitSuper?
    case Verify(_, pc) => pc.VAwaitSuper?
  }

  ghost predicate Shape(w: World, st: seq<Frame>) {
    && (forall i :: 0 < i < |st| ==> Under(w, st[i - 1], st[i]))
    && (st != [] ==> !Awaiting(st[|st| - 1]))
  }

  ghost predicate Mutex(w: World, s: State) {
    forall t, u, k :: t in s.stacks && u in s.stacks && t != u && Holds(w, s, t, k) ==> !Holds(w, s, u, k)
  }

  ghost predicate FatalInv(w: World, s: State)
    requires WellFormed(w, s)
  {
    match s.fatal
    case NoFatal => true
    case SuperStatusRace(k) => k in w.superOf && s.status[w.superOf[k]] == Error
    case CheckFailed => false
  }

  ghost predicate Inv(w: World, s: State) {
    && WellFormed(w, s)
    && Mutex(w, s)
    && (forall t :: t in s.stacks ==> Shape(w, s.stacks[t]))
    && (forall t, i :: At(s, t, i) ==> FrameInv(w, s, t, i))
    && (forall k :: k in w.classes ==> ClassInv(w, s, k))
    && FatalInv(w, s)
  }

  // The parts of the invariant, one at a time, so that a proof can hide the rest.
  lemma InvAt(w: World, s: State, t: ThreadId, i: nat)
    requires Inv(w, s) && At(s, t, i)
    ensures WellFormed(w, s) && FrameInv(w, s, t, i) && s.stacks[t][i].klass in w.classes
    ensures !Awaiting(s.stacks[t][|s.stacks[t]| - 1])
    ensures i + 1 < |s.stacks[t]| ==> Under(w, s.stacks[t][i], s.stacks[t][i + 1])
    ensures 0 < i ==> Under(w, s.stacks[t][i - 1], s.stacks[t][i])
  {
    hide FrameInv, ClassInv, FatalInv, Mutex, Awaiting, Under;
    assert Shape(w, s.stacks[t]);
    if i + 1 < |s.stacks[t]| { assert Under(w, s.stacks[t][(i + 1) - 1], s.stacks[t][i + 1]); }
  }

  lemma InvOf(w: World, s: State, k: ClassId)
    requires Inv(w, s) && k in w.classes
    ensures WellFormed(w, s) && ClassInv(w, s, k)
  {
    hide FrameInv, ClassInv, FatalInv, Mutex, Shape;
  }

  lemma InvMutex(w: World, s: State)
    requires Inv(w, s)
    ensures WellFormed(w, s) && Mutex(w, s) && FatalInv(w, s)
    ensures forall t :: t in s.stacks ==> Shape(w, s.stacks[t])
  {
    hide FrameInv, ClassInv, FatalInv, Mutex, Shape;
  }

  // ---- one step ------------------------------------------------------------------------------

  // The step is by thread t, keeps the lowest n activations of t, and touches class k0 only.
  ghost predicate Local(w: World, s: State, s': State, t: ThreadId, n: nat, k0: ClassId) {
    && WellFormed(w, s) && WellFormed(w, s')
    && t in s.stacks && n <= |s.stacks[t]| && n <= |s'.stacks[t]| && s'.stacks[t][..n] == s.stacks[t][..n]
    && (forall u :: u in s.stacks && u != t ==> s'.stacks[u] == s.stacks[u])
    && k0 in w.classes
    && (forall k :: k in w.classes && k != k0 ==>
          s'.status[k] == s.status[k] && s'.clinitThread[k] == s.clinitThread[k] && s'.started[k] == s.started[k])
  }

  // What may happen to the class of the top activation: nothing,
  ghost predicate Same(s: State, s': State, k0: ClassId)
    requires k0 in s.status && k0 in s'.status && k0 in s.clinitThread && k0 in s'.clinitThread
    requires k0 in s.started && k0 in s'.started
  {
    s'.status[k0] == s.status[k0] && s'.clinitThread[k0] == s.clinitThread[k0] && s'.started[k0] == s.started[k0]
  }

  // a change of status under the monitor before initialisation,
  ghost predicate Early(w: World, s: State, s': State, t: ThreadId, n: nat, k0: ClassId)
    requires Local(w, s, s', t, n, k0)
  {
    var a, b := s.status[k0], s'.status[k0];
    && CanLock(w, s, t, k0) && s'.started[k0] == s.started[k0] && s'.clinitThread[k0] == s.clinitThread[k0]
    && !Settled(w, a) && a.Value() < 7 && b.Value() < 8
    && forall i :: 0 <= i < n ==> !Verifier(s.stacks[t][i], k0)
  }

  // the claim or its refusal,
  ghost predicate Claims(w: World, s: State, s': State, t: ThreadId, n: nat, k0: ClassId)
    requires Local(w, s, s', t, n, k0)
  {
    var a, b := s.status[k0], s'.status[k0];
    && CanLock(w, s, t, k0) && s'.started[k0] == s.started[k0]
    && a == Verified && (b == Error || (b == Initializing && s'.clinitThread[k0] == t))
    && (b == Error ==> s'.clinitThread[k0] == s.clinitThread[k0])
    && forall i :: 0 <= i < n ==> k0 !in HeldBy(w, s.stacks[t][i])
  }

  // or the start or the end of the initialiser, by the owner on top.
  ghost predicate Owned(w: World, s: State, s': State, t: ThreadId, n: nat, k0: ClassId)
    requires Local(w, s, s', t, n, k0)
  {
    var a, b := s.status[k0], s'.status[k0];
    && n < |s.stacks[t]| && Owner(s.stacks[t][|s.stacks[t]| - 1], k0)
    && a == Initializing && s'.clinitThread[k0] == s.clinitThread[k0]
    && (|| (b == a && s'.started[k0] == s.started[k0] + 1)
        || (CanLock(w, s, t, k0) && (b == Error || b == Initialized) && s'.started[k0] == s.started[k0]))
  }

  ghost predicate Change(w: World, s: State, s': State, t: ThreadId, n: nat, k0: ClassId)
    requires Local(w, s, s', t, n, k0)
  {
    Same(s, s', k0) || Early(w, s, s', t, n, k0) || Claims(w, s, s', t, n, k0) || Owned(w, s, s', t, n, k0)
  }

  lemma SameIsChange(w: World, s: State, s': State, t: ThreadId, n: nat, k0: ClassId)
    requires Local(w, s, s', t, n, k0) && Same(s, s', k0)
    ensures Change(w, s, s', t, n, k0)
  {}

  // The superclass condition of an untouched activation survives.
  lemma KeptSuperReady(w: World, s: State, s': State, t: ThreadId, n: nat, k0: ClassId, u: ThreadId, i: nat, k: ClassId)
    requires Inv(w, s) && Local(w, s, s', t, n, k0) && Change(w, s, s', t, n, k0)
    requires At(s', u, i) && (u != t || i < n) && k in w.superOf
    requires At(s, u, i) && SuperReady(w, s, u, i, k)
    ensures SuperReady(w, s', u, i, k)
  {
    hide Inv, FatalInv;
    var p := w.superOf[k];
    if Owned(w, s, s', t, n, k0) { InvAt(w, s, t, |s.stacks[t]| - 1); }
    if s.status[p] == Initialized {
    } else {
      var j :| 0 <= j < i && Owner(s.stacks[u][j], p);
      InvAt(w, s, u, j);
      assert s'.stacks[u][j] == s.stacks[u][j];
    }
  }

  lemma NotHeld(w: World, s: State, t: ThreadId, k: ClassId, u: ThreadId, i: nat)
    requires CanLock(w, s, t, k) && u != t && At(s, u, i)
    ensures k !in HeldBy(w, s.stacks[u][i])
  {
    assert !Holds(w, s, u, k);
  }

  // Activations the step does not touch, one kind of change at a time.
  ghost predicate Kept(w: World, s: State, s': State, t: ThreadId, n: nat, k0: ClassId, u: ThreadId, i: nat) {
    && Inv(w, s) && Local(w, s, s', t, n, k0) && At(s', u, i) && (u != t || i < n)
    && At(s, u, i) && s'.stacks[u][i] == s.stacks[u][i] && s.stacks[u][i].klass in w.classes
    && (forall j :: 0 <= j < i ==> s'.stacks[u][j] == s.stacks[u][j])
    && FrameInv(w, s, u, i)
    && (s.stacks[u][i].klass in w.superOf && SuperReady(w, s, u, i, s.stacks[u][i].klass) ==>
          SuperReady(w, s', u, i, s.stacks[u][i].klass))
    && (CanLock(w, s, t, k0) && u != t ==> k0 !in HeldBy(w, s.stacks[u][i]))
    && (u == t && i + 1 < |s.stacks[t]| ==> Under(w, s.stacks[t][i], s.stacks[t][i + 1]))
  }

  lemma KeptFrameSame(w: World, s: State, s': State, t: ThreadId, n: nat, k0: ClassId, u: ThreadId, i: nat)
    requires Kept(w, s, s', t, n, k0, u, i) && Same(s, s', k0)
    ensures FrameInv(w, s', u, i)
  {
    hide Inv, SuperReady, CanLock, HeldBy, Under;
  }

  lemma KeptFrameEarly(w: World, s: State, s': State, t: ThreadId, n: nat, k0: ClassId, u: ThreadId, i: nat)
    requires Kept(w, s, s', t, n, k0, u, i) && Early(w, s, s', t, n, k0)
    ensures FrameInv(w, s', u, i)
  {
    hide Inv, SuperReady, CanLock, Under;
  }

  lemma KeptFrameClaims(w: World, s: State, s': State, t: ThreadId, n: nat, k0: ClassId, u: ThreadId, i: nat)
    requires Kept(w, s, s', t, n, k0, u, i) && Claims(w, s, s', t, n, k0)
    ensures FrameInv(w, s', u, i)
  {
    hide Inv, SuperReady, CanLock, Under;
  }

  lemma KeptFrameOwned(w: World, s: State, s': State, t: ThreadId, n: nat, k0: ClassId, u: ThreadId, i: nat)
    requires Kept(w, s, s', t, n, k0, u, i) && Owned(w, s, s', t, n, k0)
    ensures FrameInv(w, s', u, i)
  {
    hide Inv, SuperReady, CanLock;
    InvAt(w, s, t, |s.stacks[t]| - 1);
  }

  lemma KeptFrame(w: World, s: State, s': State, t: ThreadId, n: nat, k0: ClassId, u: ThreadId, i: nat)
    requires Inv(w, s) && Local(w, s, s', t, n, k0) && Change(w, s, s', t, n, k0)
    requires At(s', u, i) && (u != t || i < n)
    ensures FrameInv(w, s', u, i)
  {
    hide Inv, FrameInv, CanLock, SuperReady, HeldBy, Under, Same, Early, Claims, Owned;
    InvAt(w, s, u, i);
    var f := s.stacks[u][i];
    if CanLock(w, s, t, k0) && u != t { NotHeld(w, s, t, k0, u, i); }
    if f.klass in w.superOf && SuperReady(w, s, u, i, f.klass) {
      KeptSuperReady(w, s, s', t, n, k0, u, i, f.klass);
    }
    assert Kept(w, s, s', t, n, k0, u, i);
    if Same(s, s', k0) { KeptFrameSame(w, s, s', t, n, k0, u, i); }
    else if Early(w, s, s', t, n, k0) { KeptFrameEarly(w, s, s', t, n, k0, u, i); }
    else if Claims(w, s, s', t, n, k0) { KeptFrameClaims(w, s, s', t, n, k0, u, i); }
    else { KeptFrameOwned(w, s, s', t, n, k0, u, i); }
  }

  lemma KeptSettled(w: World, s: State, s': State, t: ThreadId, n: nat, k0: ClassId, k: ClassId)
    requires Inv(w, s) && Local(w, s, s', t, n, k0) && Change(w, s, s', t, n, k0) && k in w.classes
    requires s.status[k].IsVerified() || s.status[k] == Error
    ensures s'.status[k].IsVerified() || s'.status[k] == Error
  {
    hide Inv;
  }

  // The activations of t from n on that own or verify k still do.
  predicate StillWitnessed(s: State, s': State, t: ThreadId, n: nat, k: ClassId)
    requires t in s.stacks && t in s'.stacks
  {
    forall i :: n <= i < |s.stacks[t]| ==>
      && (Owner(s.stacks[t][i], k) ==> i < |s'.stacks[t]| && Owner(s'.stacks[t][i], k))
      && (Verifier(s.stacks[t][i], k) ==> i < |s'.stacks[t]| && Verifier(s'.stacks[t][i], k))
  }

  // Ownership and verification of every class stay witnessed.
  lemma KeptClass(w: World, s: State, s': State, t: ThreadId, n: nat, k0: ClassId, k: ClassId)
    requires Inv(w, s) && Local(w, s, s', t, n, k0) && Change(w, s, s', t, n, k0)
    requires k in w.classes && k != k0
    requires StillWitnessed(s, s', t, n, k)
    ensures ClassInv(w, s', k)
  {
    hide Inv, Change, Owner, Verifier;
    InvOf(w, s, k);
    if s.status[k].IsVerified() && k in w.superOf { KeptSettled(w, s, s', t, n, k0, w.superOf[k]); }
    if s.status[k] == Initializing {
      var i :| At(s, s.clinitThread[k], i) && Owner(s.stacks[s.clinitThread[k]][i], k);
      assert At(s', s'.clinitThread[k], i) && Owner(s'.stacks[s'.clinitThread[k]][i], k);
    }
    if InVerification(s.status[k]) {
      var u, i :| At(s, u, i) && Verifier(s.stacks[u][i], k);
      assert At(s', u, i) && Verifier(s'.stacks[u][i], k);
    }
  }

  // A thread's new activations hold only monitors it held or could take.
  lemma KeptMutex(w: World, s: State, s': State, t: ThreadId, n: nat, k0: ClassId)
    requires Inv(w, s) && Local(w, s, s', t, n, k0)
    requires forall i, k :: n <= i < |s'.stacks[t]| && k in HeldBy(w, s'.stacks[t][i]) ==>
                              Holds(w, s, t, k) || CanLock(w, s, t, k)
    ensures Mutex(w, s')
  {
    hide Inv, HeldBy;
    InvMutex(w, s);
    forall u, v, k | u in s'.stacks && v in s'.stacks && u != v && Holds(w, s', u, k)
      ensures !Holds(w, s', v, k)
    {
      assert forall x :: x in s.stacks && Holds(w, s', x, k) ==>
             Holds(w, s, x, k) || (x == t && CanLock(w, s, t, k)) by {
        forall x | x in s.stacks && Holds(w, s', x, k)
          ensures Holds(w, s, x, k) || (x == t && CanLock(w, s, t, k))
        {
          var i :| 0 <= i < |s'.stacks[x]| && k in HeldBy(w, s'.stacks[x][i]);
          if x != t || i < n { assert s'.stacks[x][i] == s.stacks[x][i]; }
        }
      }
    }
  }

  // What a step has to establish: the rest is kept.
  lemma Assemble(w: World, s: State, s': State, t: ThreadId, n: nat, k0: ClassId)
    requires Inv(w, s) && Local(w, s, s', t, n, k0) && Change(w, s, s', t, n, k0)
    requires Shape(w, s'.stacks[t])
    requires forall i :: n <= i < |s'.stacks[t]| ==> FrameInv(w, s', t, i)
    requires ClassInv(w, s', k0)
    requires forall k :: k in w.classes && k != k0 ==> StillWitnessed(s, s', t, n, k)
    requires forall i, k :: n <= i < |s'.stacks[t]| && k in HeldBy(w, s'.stacks[t][i]) ==>
                              Holds(w, s, t, k) || CanLock(w, s, t, k)
    requires FatalInv(w, s')
    ensures Inv(w, s')
  {
    hide FrameInv, ClassInv, FatalInv, Mutex, Shape, Change, HeldBy, StillWitnessed;
    KeptMutex(w, s, s', t, n, k0);
    forall u | u in s'.stacks ensures Shape(w, s'.stacks[u]) {
      if u != t { assert Shape(w, s.stacks[u]); }
    }
    forall u, i | At(s', u, i) ensures FrameInv(w, s', u, i) {
      if u != t || i < n { KeptFrame(w, s, s', t, n, k0, u, i); }
    }
    forall k | k in w.classes ensures ClassInv(w, s', k) {
      if k != k0 { KeptClass(w, s, s', t, n, k0, k); }
    }
  }

  // ---- steps that replace the top activation ---------------------------------------------------

  // s' is s with t's top activation replaced by f, and possibly g pushed on it.
  ghost predicate Replaces(w: World, s: State, s': State, t: ThreadId, f: Frame, g: seq<Frame>) {
    && WellFormed(w, s) && WellFormed(w, s')
    && t in s.stacks && s.stacks[t] != []
    && |g| <= 1
    && s'.stacks[t] == s.stacks[t][..|s.stacks[t]| - 1] + [f] + g
    && f.klass == s.stacks[t][|s.stacks[t]| - 1].klass
    && s'.fatal == s.fatal == NoFatal
  }

  lemma HoldsAt(w: World, s: State, t: ThreadId, i: nat, k: ClassId)
    requires At(s, t, i) && k in HeldBy(w, s.stacks[t][i])
    ensures Holds(w, s, t, k)
  {}

  lemma NoFatalInv(w: World, s: State)
    requires WellFormed(w, s) && s.fatal == NoFatal
    ensures FatalInv(w, s)
  {}

  lemma ReplaceShape(w: World, s: State, s': State, t: ThreadId, f: Frame, g: seq<Frame>)
    requires Inv(w, s) && Replaces(w, s, s', t, f, g)
    requires s.stacks[t][|s.stacks[t]| - 1].Init? <==> f.Init?
    requires if g == [] then !Awaiting(f) else Under(w, f, g[0]) && !Awaiting(g[0])
    ensures Shape(w, s'.stacks[t])
  {
    hide Inv;
    InvMutex(w, s);
    var st, st' := s.stacks[t], s'.stacks[t];
    assert Shape(w, st);
    forall i | 0 < i < |st'| ensures Under(w, st'[i - 1], st'[i]) {
      if i < |st| { assert Under(w, st[i - 1], st[i]); }
    }
  }

  lemma ReplaceMonitors(w: World, s: State, s': State, t: ThreadId, f: Frame, g: seq<Frame>)
    requires Replaces(w, s, s', t, f, g) && (g != [] ==> HeldBy(w, g[0]) == {})
    requires forall k :: k in HeldBy(w, f) ==> k in HeldBy(w, s.stacks[t][|s.stacks[t]| - 1]) || CanLock(w, s, t, k)
    ensures forall i, k :: |s.stacks[t]| - 1 <= i < |s'.stacks[t]| && k in HeldBy(w, s'.stacks[t][i]) ==>
                             Holds(w, s, t, k) || CanLock(w, s, t, k)
  {
    hide CanLock, HeldBy;
    var n, st, st' := |s.stacks[t]| - 1, s.stacks[t], s'.stacks[t];
    forall i, k | n <= i < |st'| && k in HeldBy(w, st'[i]) ensures Holds(w, s, t, k) || CanLock(w, s, t, k) {
      if k in HeldBy(w, st[n]) { HoldsAt(w, s, t, n, k); }
    }
  }

  lemma ReplaceFrames(w: World, s: State, s': State, t: ThreadId, f: Frame, g: seq<Frame>)
    requires Replaces(w, s, s', t, f, g)
    requires var n := |s.stacks[t]| - 1; FrameInv(w, s', t, n) && (g != [] ==> FrameInv(w, s', t, n + 1))
    ensures forall i :: |s.stacks[t]| - 1 <= i < |s'.stacks[t]| ==> FrameInv(w, s', t, i)
    ensures forall k :: k in w.classes && k != f.klass ==> StillWitnessed(s, s', t, |s.stacks[t]| - 1, k)
  {
    hide WellFormed, FrameInv;
  }

  lemma ReplaceKeeps(w: World, s: State, s': State, t: ThreadId, f: Frame, g: seq<Frame>)
    requires Inv(w, s) && Replaces(w, s, s', t, f, g)
    requires var n := |s.stacks[t]| - 1; var k0 := f.klass;
             && Local(w, s, s', t, n, k0) && Change(w, s, s', t, n, k0)
             && (s.stacks[t][n].Init? <==> f.Init?)
             && (g == [] ==> !Awaiting(f))
             && (g != [] ==> Under(w, f, g[0]) && HeldBy(w, g[0]) == {} && !Awaiting(g[0]))
             && FrameInv(w, s', t, n) && (g != [] ==> FrameInv(w, s', t, n + 1))
             && ClassInv(w, s', k0)
             && (forall k :: k in HeldBy(w, f) ==> k in HeldBy(w, s.stacks[t][n]) || CanLock(w, s, t, k))
    ensures Inv(w, s')
  {
    hide Inv, FrameInv, ClassInv, Change, FatalInv, CanLock, HeldBy, Under, Awaiting, Holds, StillWitnessed, Local;
    NoFatalInv(w, s');
    ReplaceShape(w, s, s', t, f, g);
    ReplaceMonitors(w, s, s', t, f, g);
    ReplaceFrames(w, s, s', t, f, g);
    Assemble(w, s, s', t, |s.stacks[t]| - 1, f.klass);
  }

  // The next state when no class changes.
  function Next(s: State, t: ThreadId, f: Frame, g: seq<Frame>): State
    requires t in s.stacks && s.stacks[t] != [] && |g| <= 1
  {
    if g == [] then SetTop(s, t, f) else Push(SetTop(s, t, f), t, g[0])
  }

  lemma NextWellFormed(w: World, s: State, t: ThreadId, old_: Frame, f: Frame, g: seq<Frame>)
    requires WellFormed(w, s) && s.fatal == NoFatal && t in s.stacks && s.stacks[t] != [] &&
             s.stacks[t][|s.stacks[t]| - 1] == old_
    requires f.klass == old_.klass && |g| <= 1 && (g != [] ==> g[0].klass in w.classes)
    ensures WellFormed(w, Next(s, t, f, g)) && Replaces(w, s, Next(s, t, f, g), t, f, g)
    ensures Local(w, s, Next(s, t, f, g), t, |s.stacks[t]| - 1, f.klass)
    ensures Same(s, Next(s, t, f, g), f.klass)
    ensures forall j :: 0 <= j < |s.stacks[t]| - 1 ==> Next(s, t, f, g).stacks[t][j] == s.stacks[t][j]
    ensures Next(s, t, f, g).stacks[t][|s.stacks[t]| - 1] == f
  {
    var s', n := Next(s, t, f, g), |s.stacks[t]| - 1;
    assert s'.stacks[t] == s.stacks[t][..n] + [f] + g;
    assert s'.stacks.Keys == s.stacks.Keys;
    forall u, i | u in s'.stacks && 0 <= i < |s'.stacks[u]| ensures s'.stacks[u][i].klass in w.classes {
      if u != t || i < n { assert s'.stacks[u][i] == s.stacks[u][i]; }
    }
    assert s'.stacks[t][..n] == s.stacks[t][..n];
  }

  // The witnesses about the class of the top activation, when no class changes.
  lemma NextClass(w: World, s: State, t: ThreadId, old_: Frame, f: Frame, g: seq<Frame>)
    requires Inv(w, s) && WellFormed(w, s) && t in s.stacks && s.stacks[t] != [] &&
             s.stacks[t][|s.stacks[t]| - 1] == old_
    requires f.klass == old_.klass && f.klass in w.classes && |g| <= 1 && WellFormed(w, Next(s, t, f, g))
    requires (Owner(old_, f.klass) ==> Owner(f, f.klass)) && (Verifier(old_, f.klass) ==> Verifier(f, f.klass))
    ensures ClassInv(w, Next(s, t, f, g), f.klass)
  {
    hide Inv;
    var k, s' := f.klass, Next(s, t, f, g);
    InvOf(w, s, k);
    if s.status[k] == Initializing {
      var i :| At(s, s.clinitThread[k], i) && Owner(s.stacks[s.clinitThread[k]][i], k);
      assert At(s', s'.clinitThread[k], i) && Owner(s'.stacks[s'.clinitThread[k]][i], k);
    }
    if InVerification(s.status[k]) {
      var u, i :| At(s, u, i) && Verifier(s.stacks[u][i], k);
      assert At(s', u, i) && Verifier(s'.stacks[u][i], k);
    }
  }

  // A step that changes the top activation and no class.
  lemma NextKeeps(w: World, s: State, t: ThreadId, old_: Frame, f: Frame, g: seq<Frame>)
    requires Inv(w, s) && WellFormed(w, s) && s.fatal == NoFatal
    requires t in s.stacks && s.stacks[t] != [] && s.stacks[t][|s.stacks[t]| - 1] == old_
    requires f.klass == old_.klass && f.klass in w.classes && (old_.Init? <==> f.Init?)
    requires |g| <= 1 && (g != [] ==> g[0].klass in w.classes)
    requires WellFormed(w, Next(s, t, f, g)) && FrameInv(w, Next(s, t, f, g), t, |s.stacks[t]| - 1)
    requires (Owner(old_, f.klass) ==> Owner(f, f.klass)) && (Verifier(old_, f.klass) ==> Verifier(f, f.klass))
    requires g == [] ==> !Awaiting(f)
    requires g != [] ==> Under(w, f, g[0]) && !Awaiting(g[0])
    requires g != [] ==> g[0] == Init(g[0].klass, Enter) || g[0] == Verify(g[0].klass, VLock)
    requires forall k :: k in HeldBy(w, f) ==> k in HeldBy(w, old_) || CanLock(w, s, t, k)
    ensures Inv(w, Next(s, t, f, g))
  {
    hide Inv, FrameInv, ClassInv, CanLock, Under, Awaiting, Local, Change, Owner, Verifier;
    var s', n := Next(s, t, f, g), |s.stacks[t]| - 1;
    NextWellFormed(w, s, t, old_, f, g);
    SameIsChange(w, s, s', t, n, f.klass);
    NextClass(w, s, t, old_, f, g);
    if g != [] { EnteredFrame(w, s', t, n + 1, g[0]); }
    ReplaceKeeps(w, s, s', t, f, g);
  }

  lemma EnteredFrame(w: World, s: State, t: ThreadId, i: nat, f: Frame)
    requires WellFormed(w, s) && At(s, t, i) && s.stacks[t][i] == f
    requires f == Init(f.klass, Enter) || f == Verify(f.klass, VLock)
    ensures FrameInv(w, s, t, i)
  {
    hide Shape;
  }

  // ---- steps that return ------------------------------------------------------------------------

  // What a call of `InitializeClass` promises when it returns ok, and of `VerifyClass`.
  ghost predicate Promise(w: World, s: State, t: ThreadId, i: nat, ok: bool)
    requires WellFormed(w, s) && At(s, t, i)
  {
    match s.stacks[t][i]
    case Init(k, _) =>
      if ok then
        || s.status[k] == Initialized
        || (s.status[k] == Initializing && s.clinitThread[k] == t
            && exists j :: 0 <= j < i && Owner(s.stacks[t][j], k))
      else s.status[k] == Error || (w.isCompiler && s.status[k] == RetryVerificationAtRuntime)
    case Verify(k, _) => s.status[k].Value() < 8 ==> Settled(w, s.status[k])
  }

  // s1 is s with at most the class of t's top activation changed, and t may return from it.
  ghost predicate MayReturn(w: World, s: State, s1: State, t: ThreadId, ok: bool) {
    && WellFormed(w, s) && WellFormed(w, s1)
    && t in s.stacks && s.stacks[t] != [] && s1.stacks == s.stacks && s1.fatal == s.fatal == NoFatal
    && var n := |s.stacks[t]| - 1; var k0 := s.stacks[t][n].klass;
    && Local(w, s, s1, t, n, k0) && Change(w, s, s1, t, n, k0)
    && Promise(w, s1, t, n, ok)
    && (!Owner(s.stacks[t][n], k0) || s1.status[k0] != Initializing)
    && (!Verifier(s.stacks[t][n], k0) || !InVerification(s1.status[k0]))
  }

  // The superclass the caller waited for is ready.
  lemma ResumedSuper(w: World, s: State, s1: State, t: ThreadId, c: ClassId)
    requires Inv(w, s) && MayReturn(w, s, s1, t, true) && |s.stacks[t]| >= 2
    requires s.stacks[t][|s.stacks[t]| - 2] == Init(c, AwaitSuper)
    requires c in w.superOf && s.stacks[t][|s.stacks[t]| - 1].klass == w.superOf[c]
    requires s.stacks[t][|s.stacks[t]| - 1].Init?
    requires WellFormed(w, Return(s1, t, true)) && At(Return(s1, t, true), t, |s.stacks[t]| - 2)
    ensures SuperReady(w, Return(s1, t, true), t, |s.stacks[t]| - 2, c)
  {
    hide Inv, Change, Local;
    var st, s' := s.stacks[t], Return(s1, t, true);
    var n, k0 := |st| - 1, w.superOf[c];
    if s1.status[k0] != Initialized {
      var j :| 0 <= j < n && Owner(st[j], k0);
      assert j < n - 1 && s'.stacks[t][j] == st[j];
    }
  }

  lemma StandsOn(w: World, s: State, t: ThreadId)
    requires Inv(w, s) && t in s.stacks && |s.stacks[t]| >= 2
    ensures Under(w, s.stacks[t][|s.stacks[t]| - 2], s.stacks[t][|s.stacks[t]| - 1])
  {
    hide Inv, Under;
    InvAt(w, s, t, |s.stacks[t]| - 1);
  }

  // The superclass of a class that is being initialised has failed, and not only at compile time.
  lemma PromisesError(w: World, s1: State, t: ThreadId, n: nat, c: ClassId)
    requires WellFormed(w, s1) && At(s1, t, n) && s1.stacks[t][n].Init? && Promise(w, s1, t, n, false)
    requires c in w.superOf && s1.stacks[t][n].klass == w.superOf[c] && c in w.classes
    requires ClassInv(w, s1, c) && s1.status[c] == Initializing
    ensures s1.status[w.superOf[c]] == Error
  {
  }

  lemma ResumedAwaitSuper(w: World, s: State, s1: State, t: ThreadId, ok: bool)
    requires Inv(w, s) && MayReturn(w, s, s1, t, ok) && |s.stacks[t]| >= 2
    requires WellFormed(w, Return(s1, t, ok))
    requires s.stacks[t][|s.stacks[t]| - 2].Init? && s.stacks[t][|s.stacks[t]| - 2].pc == AwaitSuper
    ensures FrameInv(w, Return(s1, t, ok), t, |s.stacks[t]| - 2)
  {
    hide Inv, Change, Local, HeldBy, Verifier, CanLock, Holds, Settled, Owner, SuperReady, Promise, ClassInv;
    var st, s' := s.stacks[t], Return(s1, t, ok);
    var n, m := |st| - 1, |st| - 2;
    var k0 := st[n].klass;
    InvAt(w, s, t, n);
    KeptFrame(w, s, s1, t, n, k0, t, m);
    assert At(s', t, m);
    assert forall j :: 0 <= j < m ==> s'.stacks[t][j] == st[j];
    var c := st[m].klass;
    KeptClass(w, s, s1, t, n, k0, c);
    StandsOn(w, s, t);
    if ok { ResumedSuper(w, s, s1, t, c); }
    else { PromisesError(w, s1, t, n, c); }
  }

  lemma ResumedInit(w: World, s: State, s1: State, t: ThreadId, ok: bool)
    requires Inv(w, s) && MayReturn(w, s, s1, t, ok) && |s.stacks[t]| >= 2
    requires WellFormed(w, Return(s1, t, ok))
    requires s.stacks[t][|s.stacks[t]| - 2].Init? && s.stacks[t][|s.stacks[t]| - 2].pc != AwaitSuper
    ensures FrameInv(w, Return(s1, t, ok), t, |s.stacks[t]| - 2)
  {
    hide Inv, Change, Local, HeldBy, Verifier, CanLock, Holds;
    var st, s' := s.stacks[t], Return(s1, t, ok);
    var n, m := |st| - 1, |st| - 2;
    var k0 := st[n].klass;
    InvAt(w, s, t, n);
    KeptFrame(w, s, s1, t, n, k0, t, m);
    assert At(s', t, m);
    assert forall j :: 0 <= j < m ==> s'.stacks[t][j] == st[j];
  }

  lemma ResumedVerify(w: World, s: State, s1: State, t: ThreadId, ok: bool)
    requires Inv(w, s) && MayReturn(w, s, s1, t, ok) && |s.stacks[t]| >= 2
    requires WellFormed(w, Return(s1, t, ok)) && s.stacks[t][|s.stacks[t]| - 2].Verify?
    ensures FrameInv(w, Return(s1, t, ok), t, |s.stacks[t]| - 2)
  {
    hide Inv, Change, Local, HeldBy, Verifier, CanLock, Holds;
    var st, s' := s.stacks[t], Return(s1, t, ok);
    var n, m := |st| - 1, |st| - 2;
    var k0 := st[n].klass;
    InvAt(w, s, t, n);
    KeptFrame(w, s, s1, t, n, k0, t, m);
    assert At(s', t, m);
    assert forall j :: 0 <= j < m ==> s'.stacks[t][j] == st[j];
  }

  // The activation below goes on as it may.
  lemma ResumedFrame(w: World, s: State, s1: State, t: ThreadId, ok: bool)
    requires Inv(w, s) && MayReturn(w, s, s1, t, ok) && |s.stacks[t]| >= 2
    requires WellFormed(w, Return(s1, t, ok))
    ensures FrameInv(w, Return(s1, t, ok), t, |s.stacks[t]| - 2)
    ensures Under(w, s.stacks[t][|s.stacks[t]| - 2], s.stacks[t][|s.stacks[t]| - 1])
  {
    hide Inv, FrameInv, Under, Return, Local, Change, Promise, Owner, Verifier;
    StandsOn(w, s, t);
    if s.stacks[t][|s.stacks[t]| - 2].Init? && s.stacks[t][|s.stacks[t]| - 2].pc == AwaitSuper {
      ResumedAwaitSuper(w, s, s1, t, ok);
    } else if s.stacks[t][|s.stacks[t]| - 2].Init? {
      ResumedInit(w, s, s1, t, ok);
    } else {
      ResumedVerify(w, s, s1, t, ok);
    }
  }

  // How many activations a return leaves alone.
  function Below(st: seq<Frame>): nat { if |st| <= 1 then 0 else |st| - 2 }

  // A return changes the stack only, by one activation and the resumed one below it.
  ghost predicate Returned(w: World, s: State, s1: State, s': State, t: ThreadId, ok: bool) {
    && t in s.stacks && t in s'.stacks && s.stacks[t] != []
    && var st, st' := s.stacks[t], s'.stacks[t]; var n := Below(st);
    && |st'| == |st| - 1
    && (forall i :: 0 <= i < n ==> st'[i] == st[i])
    && (|st'| > 0 ==> |st'| == n + 1 && st'[n] == Resume(st[n], ok))
    && s'.stacks.Keys == s.stacks.Keys && (forall u :: u in s.stacks && u != t ==> s'.stacks[u] == s.stacks[u])
    && s'.status == s1.status && s'.clinitThread == s1.clinitThread && s'.started == s1.started && s'.fatal == s1.fatal
  }

  lemma ReturnStack(w: World, s: State, s1: State, t: ThreadId, ok: bool)
    requires Inv(w, s) && MayReturn(w, s, s1, t, ok)
    ensures Returned(w, s, s1, Return(s1, t, ok), t, ok)
    ensures WellFormed(w, Return(s1, t, ok))
    ensures Local(w, s, Return(s1, t, ok), t, Below(s.stacks[t]), s.stacks[t][|s.stacks[t]| - 1].klass)
  {
    hide Inv, Promise, Change, Owner, Verifier;
    var st, s' := s.stacks[t], Return(s1, t, ok);
    assert s'.stacks.Keys == s.stacks.Keys;
    forall u, i | u in s'.stacks && 0 <= i < |s'.stacks[u]| ensures s'.stacks[u][i].klass in w.classes {
      assert s'.stacks[u][i].klass == s.stacks[u][i].klass;
    }
  }

  lemma ReturnShape(w: World, s: State, s1: State, s': State, t: ThreadId, ok: bool)
    requires Inv(w, s) && Returned(w, s, s1, s', t, ok)
    ensures Shape(w, s'.stacks[t])
  {
    hide Inv;
    InvMutex(w, s);
    var st, st' := s.stacks[t], s'.stacks[t];
    var n := Below(st);
    assert Shape(w, st);
    forall i | 0 < i < |st'| ensures Under(w, st'[i - 1], st'[i]) {
      assert Under(w, st[i - 1], st[i]);
    }
    if n < |st'| { assert Under(w, st[(n + 1) - 1], st[n + 1]); }
  }

  // The class of the returning activation is as it has to be, but for its owners.
  ghost predicate ReturnsClass(w: World, s: State, s1: State, s': State, t: ThreadId, ok: bool)
    requires WellFormed(w, s1) && t in s.stacks && s.stacks[t] != []
  {
    var top := s.stacks[t][|s.stacks[t]| - 1];
    var k0 := top.klass;
    && k0 in w.classes && ClassCore(w, s1, k0) && k0 in s.status && k0 in s.clinitThread && k0 in s.started
    && (s1.status[k0] == Initializing || InVerification(s1.status[k0]) ==> Same(s, s1, k0))
    && (!Owner(top, k0) || s1.status[k0] != Initializing)
    && (!Verifier(top, k0) || !InVerification(s1.status[k0]))
  }

  lemma ReturnVerifier(w: World, s: State, s1: State, s': State, t: ThreadId, ok: bool)
    requires Inv(w, s) && Returned(w, s, s1, s', t, ok) && WellFormed(w, s1) && WellFormed(w, s')
    requires ReturnsClass(w, s, s1, s', t, ok)
    requires InVerification(s1.status[s.stacks[t][|s.stacks[t]| - 1].klass])
    ensures HasVerifier(s', s.stacks[t][|s.stacks[t]| - 1].klass)
  {
    hide Inv, InVerification, Owner;
    var k0 := s.stacks[t][|s.stacks[t]| - 1].klass;
    InvOf(w, s, k0);
    var u, i :| At(s, u, i) && Verifier(s.stacks[u][i], k0);
    assert At(s', u, i) && Verifier(s'.stacks[u][i], k0);
  }

  lemma ReturnOwner(w: World, s: State, s1: State, s': State, t: ThreadId, ok: bool)
    requires Inv(w, s) && Returned(w, s, s1, s', t, ok) && WellFormed(w, s1) && WellFormed(w, s')
    requires ReturnsClass(w, s, s1, s', t, ok)
    requires s1.status[s.stacks[t][|s.stacks[t]| - 1].klass] == Initializing
    ensures HasOwner(s', s.stacks[t][|s.stacks[t]| - 1].klass)
  {
    hide Inv, InVerification, Verifier;
    var k0 := s.stacks[t][|s.stacks[t]| - 1].klass;
    InvOf(w, s, k0);
    var i :| At(s, s.clinitThread[k0], i) && Owner(s.stacks[s.clinitThread[k0]][i], k0);
    assert At(s', s'.clinitThread[k0], i) && Owner(s'.stacks[s'.clinitThread[k0]][i], k0);
  }

  lemma ReturnClass(w: World, s: State, s1: State, s': State, t: ThreadId, ok: bool)
    requires Inv(w, s) && Returned(w, s, s1, s', t, ok) && WellFormed(w, s1) && WellFormed(w, s')
    requires ReturnsClass(w, s, s1, s', t, ok)
    ensures ClassInv(w, s', s.stacks[t][|s.stacks[t]| - 1].klass)
  {
    hide Inv, HasOwner, HasVerifier;
    var k0 := s.stacks[t][|s.stacks[t]| - 1].klass;
    if InVerification(s1.status[k0]) { ReturnVerifier(w, s, s1, s', t, ok); }
    if s1.status[k0] == Initializing { ReturnOwner(w, s, s1, s', t, ok); }
  }

  lemma ReturnWitnesses(w: World, s: State, s1: State, s': State, t: ThreadId, ok: bool, k: ClassId)
    requires Returned(w, s, s1, s', t, ok) && k != s.stacks[t][|s.stacks[t]| - 1].klass
    ensures StillWitnessed(s, s', t, Below(s.stacks[t]), k)
  {
  }

  lemma ReturnMonitors(w: World, s: State, s1: State, s': State, t: ThreadId, ok: bool)
    requires Returned(w, s, s1, s', t, ok)
    ensures forall i, k :: Below(s.stacks[t]) <= i < |s'.stacks[t]| && k in HeldBy(w, s'.stacks[t][i]) ==>
            Holds(w, s, t, k)
  {
    var n, st' := Below(s.stacks[t]), s'.stacks[t];
    forall i, k | n <= i < |st'| && k in HeldBy(w, st'[i]) ensures Holds(w, s, t, k) {
      assert i == n && k in HeldBy(w, s.stacks[t][n]);
    }
  }

  lemma ReturnKeeps(w: World, s: State, s1: State, t: ThreadId, ok: bool)
    requires Inv(w, s) && MayReturn(w, s, s1, t, ok)
    requires var k0 := s.stacks[t][|s.stacks[t]| - 1].klass;
             && ClassCore(w, s1, k0)
             && (s1.status[k0] == Initializing || InVerification(s1.status[k0]) ==> Same(s, s1, k0))
    ensures Inv(w, Return(s1, t, ok))
  {
    hide Inv, Promise, FrameInv, ClassInv, ClassCore, HeldBy, StillWitnessed, Shape, Return;
    var s', n := Return(s1, t, ok), Below(s.stacks[t]);
    var k0 := s.stacks[t][|s.stacks[t]| - 1].klass;
    ReturnStack(w, s, s1, t, ok);
    ReturnShape(w, s, s1, s', t, ok);
    ReturnClass(w, s, s1, s', t, ok);
    ReturnMonitors(w, s, s1, s', t, ok);
    forall k | k in w.classes && k != k0 ensures StillWitnessed(s, s', t, n, k) {
      ReturnWitnesses(w, s, s1, s', t, ok, k);
    }
    forall i | n <= i < |s'.stacks[t]| ensures FrameInv(w, s', t, i) { ResumedFrame(w, s, s1, t, ok); }
    NoFatalInv(w, s');
    assert Change(w, s, s', t, n, k0);
    Assemble(w, s, s', t, n, k0);
  }

  // ---- each step ----------------------------------------------------------------------------------

  // The state before a step of activation f on top of t's stack.
  ghost predicate Before(w: World, s: State, t: ThreadId, f: Frame) {
    && Inv(w, s) && s.fatal == NoFatal
    && t in s.stacks && s.stacks[t] != [] && s.stacks[t][|s.stacks[t]| - 1] == f
    && forall k :: k in Needs(w, f) ==> CanLock(w, s, t, k)
  }

  lemma TopFacts(w: World, s: State, t: ThreadId, f: Frame)
    requires Before(w, s, t, f)
    ensures WellFormed(w, s) && FrameInv(w, s, t, |s.stacks[t]| - 1)
    ensures f.klass in w.classes && ClassInv(w, s, f.klass)
    ensures f.klass in w.superOf ==> w.superOf[f.klass] in w.classes && ClassInv(w, s, w.superOf[f.klass])
    ensures forall k :: k in HeldBy(w, f) ==> CanLock(w, s, t, k)
    ensures !Awaiting(f)
    ensures forall i :: 0 <= i < |s.stacks[t]| - 1 ==> Under(w, s.stacks[t][i], s.stacks[t][i + 1])
  {
    hide Inv, FrameInv, ClassInv;
    InvAt(w, s, t, |s.stacks[t]| - 1);
    InvMutex(w, s);
    InvOf(w, s, f.klass);
    if f.klass in w.superOf { InvOf(w, s, w.superOf[f.klass]); }
    forall k | k in HeldBy(w, f) ensures CanLock(w, s, t, k) { assert Holds(w, s, t, k); }
    forall i | 0 <= i < |s.stacks[t]| - 1 ensures Under(w, s.stacks[t][i], s.stacks[t][i + 1]) {
      assert Under(w, s.stacks[t][(i + 1) - 1], s.stacks[t][i + 1]);
    }
  }

  // Between an activation of `VerifyClass` and one above it lies a chain of superclasses.
  lemma VerifyChain(w: World, st: seq<Frame>, i: nat, j: nat)
    requires w.Valid() && i < j < |st| && st[i].Verify?
    requires forall m :: 0 <= m < |st| - 1 ==> Under(w, st[m], st[m + 1])
    ensures st[j].Verify? && st[j].klass < st[i].klass
    decreases j - i
  {
    assert Under(w, st[j - 1], st[j - 1 + 1]);
    if i + 1 < j { VerifyChain(w, st, i, j - 1); }
  }

  // An activation of `InitializeClass` stands on activations that hold no monitor.
  lemma NothingHeldBelow(w: World, st: seq<Frame>, i: nat, j: nat)
    requires w.Valid() && i < j < |st| && st[j].Init?
    requires forall m :: 0 <= m < |st| - 1 ==> Under(w, st[m], st[m + 1])
    ensures HeldBy(w, st[i]) == {}
  {
    assert Under(w, st[i], st[i + 1]);
    if st[i].Verify? { VerifyChain(w, st, i, j); }
    else if st[i].pc.AwaitVerify? {
      if i + 1 < j { VerifyChain(w, st, i + 1, j); }
    }
  }

  lemma InitKeepsEnter(w: World, s: State, t: ThreadId, k: ClassId, c: Choice)
    requires Before(w, s, t, Init(k, Enter))
    ensures Inv(w, InitStep(w, s, t, k, Enter, c))
  {
    hide Inv, CanLock, HasOwner, HasVerifier;
    TopFacts(w, s, t, Init(k, Enter));
    if s.status[k] == Initialized { ReturnKeeps(w, s, s, t, true); }
    else {
      NextWellFormed(w, s, t, Init(k, Enter), Init(k, Lock), []);
      NextKeeps(w, s, t, Init(k, Enter), Init(k, Lock), []);
    }
  }

  lemma LockReturns(w: World, s: State, t: ThreadId, k: ClassId, c: Choice)
    requires Before(w, s, t, Init(k, Lock)) && k in s.status && (s.status[k] == Initialized || s.status[k] == Error)
    requires WellFormed(w, s)
    ensures Inv(w, InitStep(w, s, t, k, Lock, c))
  {
    hide Inv, CanLock, Under, HasOwner, HasVerifier;
    TopFacts(w, s, t, Init(k, Lock));
    ReturnKeeps(w, s, s, t, s.status[k] == Initialized);
  }

  lemma LockedVerified(w: World, s: State, t: ThreadId, k: ClassId, c: Choice)
    requires Before(w, s, t, Init(k, Lock)) && k in s.status && (s.status[k] == Verified || s.status[k] == Initializing)
    requires WellFormed(w, s)
    ensures Inv(w, InitStep(w, s, t, k, Lock, c))
  {
    hide Inv, CanLock, Under, HasOwner, HasVerifier;
    TopFacts(w, s, t, Init(k, Lock));
    NextWellFormed(w, s, t, Init(k, Lock), Init(k, Claim), []);
    assert k in Needs(w, Init(k, Lock));
    NextKeeps(w, s, t, Init(k, Lock), Init(k, Claim), []);
  }

  lemma LockedUnverified(w: World, s: State, t: ThreadId, k: ClassId, c: Choice)
    requires Before(w, s, t, Init(k, Lock)) && k in s.status && !s.status[k].IsVerified() && s.status[k] != Error
    requires WellFormed(w, s)
    ensures Inv(w, InitStep(w, s, t, k, Lock, c))
  {
    hide Inv, CanLock, HasOwner, HasVerifier;
    TopFacts(w, s, t, Init(k, Lock));
    NextWellFormed(w, s, t, Init(k, Lock), Init(k, AwaitVerify), [Verify(k, VLock)]);
    assert k in Needs(w, Init(k, Lock));
    NextKeeps(w, s, t, Init(k, Lock), Init(k, AwaitVerify), [Verify(k, VLock)]);
  }

  lemma InitKeepsLock(w: World, s: State, t: ThreadId, k: ClassId, c: Choice)
    requires Before(w, s, t, Init(k, Lock))
    ensures Inv(w, InitStep(w, s, t, k, Lock, c))
  {
    hide Inv, Owner, Verifier, HasOwner, HasVerifier, InitStep;
    TopFacts(w, s, t, Init(k, Lock));
    if s.status[k] == Initialized || s.status[k] == Error { LockReturns(w, s, t, k, c); }
    else if s.status[k].IsVerified() { LockedVerified(w, s, t, k, c); }
    else { LockedUnverified(w, s, t, k, c); }
  }

  lemma InitKeepsAfterVerify(w: World, s: State, t: ThreadId, k: ClassId, c: Choice)
    requires Before(w, s, t, Init(k, AfterVerify))
    ensures Inv(w, InitStep(w, s, t, k, AfterVerify, c))
  {
    hide Inv, CanLock, Under, HasOwner, HasVerifier;
    TopFacts(w, s, t, Init(k, AfterVerify));
    if s.status[k].IsVerified() {
      NextWellFormed(w, s, t, Init(k, AfterVerify), Init(k, Claim), []);
      NextKeeps(w, s, t, Init(k, AfterVerify), Init(k, Claim), []);
    } else { ReturnKeeps(w, s, s, t, false); }
  }

  // The rest of the claiming thread's stack neither holds the monitor nor owns the class.
  lemma ClaimAlone(w: World, s: State, t: ThreadId, k: ClassId)
    requires Before(w, s, t, Init(k, Claim)) && k in s.status && s.status[k] == Verified
    ensures forall i :: 0 <= i < |s.stacks[t]| - 1 ==> k !in HeldBy(w, s.stacks[t][i]) && !Owner(s.stacks[t][i], k)
  {
    hide Inv;
    TopFacts(w, s, t, Init(k, Claim));
    forall i | 0 <= i < |s.stacks[t]| - 1 ensures k !in HeldBy(w, s.stacks[t][i]) && !Owner(s.stacks[t][i], k) {
      NothingHeldBelow(w, s.stacks[t], i, |s.stacks[t]| - 1);
      InvAt(w, s, t, i);
    }
  }

  // The class once it is claimed.
  function Claimed(s: State, t: ThreadId, k: ClassId): State
    requires t in s.stacks && s.stacks[t] != [] && k in s.status
  {
    SetTop(SetStatus(s.(clinitThread := s.clinitThread[k := t]), k, Initializing), t, Init(k, CheckSuper))
  }

  lemma ClaimChanges(w: World, s: State, t: ThreadId, k: ClassId)
    requires Before(w, s, t, Init(k, Claim)) && k in s.status && s.status[k] == Verified && k in s.clinitThread
    ensures var s', n := Claimed(s, t, k), |s.stacks[t]| - 1;
            && Local(w, s, s', t, n, k) && Change(w, s, s', t, n, k)
            && Replaces(w, s, s', t, Init(k, CheckSuper), [])
  {
    hide Inv, Holds, Under, HasVerifier, HasOwner, Shape, Early, Owned;
    TopFacts(w, s, t, Init(k, Claim));
    var n := |s.stacks[t]| - 1;
    var s1 := SetStatus(s.(clinitThread := s.clinitThread[k := t]), k, Initializing);
    ClaimAlone(w, s, t, k);
    NextWellFormed(w, s1, t, Init(k, Claim), Init(k, CheckSuper), []);
    assert Local(w, s, Claimed(s, t, k), t, n, k) && Claims(w, s, Claimed(s, t, k), t, n, k);
  }

  lemma ClaimClass(w: World, s: State, t: ThreadId, k: ClassId)
    requires Before(w, s, t, Init(k, Claim)) && k in s.status && s.status[k] == Verified && k in s.clinitThread
    requires WellFormed(w, Claimed(s, t, k))
    ensures var s', n := Claimed(s, t, k), |s.stacks[t]| - 1;
            At(s', t, n) && ClassInv(w, s', k) && FrameInv(w, s', t, n)
  {
    hide Inv, Holds, Under, HasVerifier, Shape, HeldBy, Awaiting;
    TopFacts(w, s, t, Init(k, Claim));
    var s', n := Claimed(s, t, k), |s.stacks[t]| - 1;
    ClaimAlone(w, s, t, k);
    assert At(s', t, n) && Owner(s'.stacks[t][n], k);
    assert forall j :: 0 <= j < n ==> s'.stacks[t][j] == s.stacks[t][j];
  }

  lemma ClaimKeeps(w: World, s: State, t: ThreadId, k: ClassId)
    requires Before(w, s, t, Init(k, Claim)) && k in s.status && s.status[k] == Verified && k in s.clinitThread
    ensures Inv(w, Claimed(s, t, k))
  {
    hide Inv, Under, Change, ClassInv, FrameInv, Claimed, CanLock;
    TopFacts(w, s, t, Init(k, Claim));
    ClaimChanges(w, s, t, k);
    ClaimClass(w, s, t, k);
    ReplaceKeeps(w, s, Claimed(s, t, k), t, Init(k, CheckSuper), []);
  }

  lemma ClaimRefused(w: World, s: State, t: ThreadId, k: ClassId)
    requires Before(w, s, t, Init(k, Claim)) && k in s.status && s.status[k] == Verified
    ensures Inv(w, ReturnError(s, t, k))
  {
    hide Inv, Holds, Under, HasVerifier, HasOwner, Shape;
    TopFacts(w, s, t, Init(k, Claim));
    var n, s1 := |s.stacks[t]| - 1, SetStatus(s, k, Error);
    ClaimAlone(w, s, t, k);
    assert Local(w, s, s1, t, n, k) && Claims(w, s, s1, t, n, k);
    ReturnKeeps(w, s, s1, t, false);
  }

  lemma InitKeepsClaim(w: World, s: State, t: ThreadId, k: ClassId, c: Choice)
    requires Before(w, s, t, Init(k, Claim))
    ensures Inv(w, InitStep(w, s, t, k, Claim, c))
  {
    hide Inv, CanLock, Under, HasVerifier;
    TopFacts(w, s, t, Init(k, Claim));
    if s.status[k] == Initializing {
      if s.clinitThread[k] == t {
        var j :| At(s, t, j) && Owner(s.stacks[t][j], k);
        assert j < |s.stacks[t]| - 1;
        ReturnKeeps(w, s, s, t, true);
      } else {
        NextWellFormed(w, s, t, Init(k, Claim), Init(k, Waiting), []);
        NextKeeps(w, s, t, Init(k, Claim), Init(k, Waiting), []);
      }
    } else if !c.descriptorsValid { ClaimRefused(w, s, t, k); }
    else { ClaimKeeps(w, s, t, k); }
  }

  lemma InitKeepsWaiting(w: World, s: State, t: ThreadId, k: ClassId, c: Choice)
    requires Before(w, s, t, Init(k, Waiting))
    ensures Inv(w, InitStep(w, s, t, k, Waiting, c))
  {
    hide Inv;
    TopFacts(w, s, t, Init(k, Waiting));
    if s.status[k] == Error { ReturnKeeps(w, s, s, t, false); }
    else if s.status[k] == Initialized { ReturnKeeps(w, s, s, t, true); }
  }

  lemma InitKeepsCheckSuper(w: World, s: State, t: ThreadId, k: ClassId, c: Choice)
    requires Before(w, s, t, Init(k, CheckSuper))
    ensures Inv(w, InitStep(w, s, t, k, CheckSuper, c))
  {
    hide Inv, CanLock, HasOwner, HasVerifier;
    TopFacts(w, s, t, Init(k, CheckSuper));
    if w.InitsSuper(k) && s.status[w.superOf[k]] != Initialized {
      var g := [Init(w.superOf[k], Enter)];
      NextWellFormed(w, s, t, Init(k, CheckSuper), Init(k, AwaitSuper), g);
      NextKeeps(w, s, t, Init(k, CheckSuper), Init(k, AwaitSuper), g);
    } else {
      NextWellFormed(w, s, t, Init(k, CheckSuper), Init(k, Starting), []);
      NextKeeps(w, s, t, Init(k, CheckSuper), Init(k, Starting), []);
    }
  }

  // The owner gives up its class.
  lemma OwnerFails(w: World, s: State, t: ThreadId, k: ClassId, pc: InitPc)
    requires Before(w, s, t, Init(k, pc)) && (pc == SuperDone(false) || pc.Finishing?)
    ensures Inv(w, ReturnError(s, t, k))
  {
    hide Inv;
    TopFacts(w, s, t, Init(k, pc));
    var n, s1 := |s.stacks[t]| - 1, SetStatus(s, k, Error);
    assert Local(w, s, s1, t, n, k) && Owned(w, s, s1, t, n, k);
    ReturnKeeps(w, s, s1, t, false);
  }

  lemma InitKeepsSuperDone(w: World, s: State, t: ThreadId, k: ClassId, ok: bool, c: Choice)
    requires Before(w, s, t, Init(k, SuperDone(ok)))
    ensures Inv(w, InitStep(w, s, t, k, SuperDone(ok), c))
  {
    hide Inv, CanLock, HasOwner, HasVerifier;
    TopFacts(w, s, t, Init(k, SuperDone(ok)));
    if ok {
      NextWellFormed(w, s, t, Init(k, SuperDone(ok)), Init(k, Starting), []);
      NextKeeps(w, s, t, Init(k, SuperDone(ok)), Init(k, Starting), []);
    } else { OwnerFails(w, s, t, k, SuperDone(ok)); }
  }

  lemma StartingChanges(w: World, s: State, t: ThreadId, k: ClassId, c: Choice)
    requires Before(w, s, t, Init(k, Starting)) && k in s.status && k in s.clinitThread && k in s.started
    requires k in w.superOf ==> w.superOf[k] in s.status
    ensures var s', n := InitStep(w, s, t, k, Starting, c), |s.stacks[t]| - 1;
            Local(w, s, s', t, n, k) && Change(w, s, s', t, n, k) && Replaces(w, s, s', t, Init(k, Running), [])
  {
    hide Inv, Holds, Under, HasVerifier, HasOwner, Shape, CanLock, Early, Claims;
    TopFacts(w, s, t, Init(k, Starting));
    var s1, n := s.(started := s.started[k := s.started[k] + 1]), |s.stacks[t]| - 1;
    NextWellFormed(w, s1, t, Init(k, Starting), Init(k, Running), []);
    assert Local(w, s, InitStep(w, s, t, k, Starting, c), t, n, k);
    assert Owned(w, s, InitStep(w, s, t, k, Starting, c), t, n, k);
  }

  lemma StartingClass(w: World, s: State, t: ThreadId, k: ClassId, c: Choice)
    requires Before(w, s, t, Init(k, Starting)) && k in s.status && k in s.clinitThread && k in s.started
    requires k in w.superOf ==> w.superOf[k] in s.status
    requires WellFormed(w, InitStep(w, s, t, k, Starting, c))
    ensures var s', n := InitStep(w, s, t, k, Starting, c), |s.stacks[t]| - 1;
            At(s', t, n) && ClassInv(w, s', k) && FrameInv(w, s', t, n)
  {
    hide Inv, Holds, Under, HasVerifier, Shape, CanLock, HeldBy, Awaiting;
    TopFacts(w, s, t, Init(k, Starting));
    var s', n := InitStep(w, s, t, k, Starting, c), |s.stacks[t]| - 1;
    assert At(s', t, n) && Owner(s'.stacks[t][n], k);
    assert forall j :: 0 <= j < n ==> s'.stacks[t][j] == s.stacks[t][j];
  }

  lemma InitKeepsStarting(w: World, s: State, t: ThreadId, k: ClassId, c: Choice)
    requires Before(w, s, t, Init(k, Starting))
    ensures Inv(w, InitStep(w, s, t, k, Starting, c))
  {
    hide Inv, Under, Change, ClassInv, FrameInv, InitStep, CanLock;
    TopFacts(w, s, t, Init(k, Starting));
    StartingChanges(w, s, t, k, c);
    StartingClass(w, s, t, k, c);
    ReplaceKeeps(w, s, InitStep(w, s, t, k, Starting, c), t, Init(k, Running), []);
  }

  lemma InitKeepsRunning(w: World, s: State, t: ThreadId, k: ClassId, c: Choice)
    requires Before(w, s, t, Init(k, Running))
    ensures Inv(w, InitStep(w, s, t, k, Running, c))
  {
    hide Inv, CanLock, HasOwner, HasVerifier;
    TopFacts(w, s, t, Init(k, Running));
    NextWellFormed(w, s, t, Init(k, Running), Init(k, Finishing(c.threw)), []);
    NextKeeps(w, s, t, Init(k, Running), Init(k, Finishing(c.threw)), []);
  }

  lemma InitKeepsFinishing(w: World, s: State, t: ThreadId, k: ClassId, threw: bool, c: Choice)
    requires Before(w, s, t, Init(k, Finishing(threw)))
    ensures Inv(w, InitStep(w, s, t, k, Finishing(threw), c))
  {
    hide Inv;
    TopFacts(w, s, t, Init(k, Finishing(threw)));
    if threw { OwnerFails(w, s, t, k, Finishing(threw)); }
    else {
      var n, s1 := |s.stacks[t]| - 1, SetStatus(s, k, Initialized);
      assert Local(w, s, s1, t, n, k) && Owned(w, s, s1, t, n, k);
      ReturnKeeps(w, s, s1, t, true);
    }
  }

  // Nobody verifies a class twice at once, so the checks at 2419 hold.
  lemma NotInVerification(w: World, s: State, t: ThreadId, k: ClassId)
    requires Before(w, s, t, Verify(k, VLock))
    ensures k in s.status && !InVerification(s.status[k])
    ensures forall i :: 0 <= i < |s.stacks[t]| - 1 ==> !Verifier(s.stacks[t][i], k)
  {
    hide Inv;
    TopFacts(w, s, t, Verify(k, VLock));
    var n := |s.stacks[t]| - 1;
    forall i | 0 <= i < n ensures !Verifier(s.stacks[t][i], k) {
      if s.stacks[t][i].Verify? { VerifyChain(w, s.stacks[t], i, n); }
    }
    if InVerification(s.status[k]) {
      var u, i :| At(s, u, i) && Verifier(s.stacks[u][i], k);
      assert k in Needs(w, Verify(k, VLock)) && CanLock(w, s, t, k);
      NotHeld(w, s, t, k, u, i);
    }
  }

  lemma VerifyKeepsLock(w: World, s: State, t: ThreadId, k: ClassId, c: Choice)
    requires Before(w, s, t, Verify(k, VLock))
    ensures Inv(w, VerifyStep(w, s, t, k, VLock, c))
    ensures VerifyStep(w, s, t, k, VLock, c).fatal == NoFatal
  {
    hide Inv, Holds;
    TopFacts(w, s, t, Verify(k, VLock));
    NotInVerification(w, s, t, k);
    if Settled(w, s.status[k]) { ReturnKeeps(w, s, s, t, true); }
    else { VerifyBegins(w, s, t, k, VerifyStep(w, s, t, k, VLock, c)); }
  }

  lemma VerifyBegins(w: World, s: State, t: ThreadId, k: ClassId, s': State)
    requires Before(w, s, t, Verify(k, VLock)) && k in s.status && !Settled(w, s.status[k])
    requires !InVerification(s.status[k]) && s.status[k].Value() < 7
    requires s' == SetTop(SetStatus(s, k, if s.status[k] == Resolved then Verifying else VerifyingAtRuntime), t,
                          Verify(k, if k in w.superOf then VLockSuper else VVerdict))
    ensures Inv(w, s')
  {
    hide Inv, Holds, Under;
    TopFacts(w, s, t, Verify(k, VLock));
    NotInVerification(w, s, t, k);
    var n := |s.stacks[t]| - 1;
    assert k in Needs(w, Verify(k, VLock));
    assert At(s', t, n) && Verifier(s'.stacks[t][n], k);
    assert Local(w, s, s', t, n, k) && Early(w, s, s', t, n, k);
    ReplaceKeeps(w, s, s', t, Verify(k, if k in w.superOf then VLockSuper else VVerdict), []);
  }

  lemma VerifyKeepsLockSuper(w: World, s: State, t: ThreadId, k: ClassId, c: Choice)
    requires Before(w, s, t, Verify(k, VLockSuper))
    ensures Inv(w, VerifyStep(w, s, t, k, VLockSuper, c))
  {
    hide Inv, CanLock, HasOwner, HasVerifier;
    TopFacts(w, s, t, Verify(k, VLockSuper));
    if !s.status[w.superOf[k]].IsVerified() && s.status[w.superOf[k]] != Error {
      var g := [Verify(w.superOf[k], VLock)];
      NextWellFormed(w, s, t, Verify(k, VLockSuper), Verify(k, VAwaitSuper), g);
      NextKeeps(w, s, t, Verify(k, VLockSuper), Verify(k, VAwaitSuper), g);
    } else {
      NextWellFormed(w, s, t, Verify(k, VLockSuper), Verify(k, VSuperDone), []);
      NextKeeps(w, s, t, Verify(k, VLockSuper), Verify(k, VSuperDone), []);
    }
  }

  lemma VerifierChange(w: World, s: State, t: ThreadId, k: ClassId, pc: VerifyPc, b: Status)
    requires Before(w, s, t, Verify(k, pc)) && (pc.VSuperDone? || pc.VVerdict? || pc.VConclude?)
    requires b == Error || b == Verified || (b == RetryVerificationAtRuntime && w.isCompiler)
    requires WellFormed(w, s)
    ensures var s1 := SetStatus(s, k, b); var n := |s.stacks[t]| - 1;
            s1.fatal == s.fatal && Local(w, s, s1, t, n, k) && Early(w, s, s1, t, n, k) && Change(w, s, s1, t, n, k)
  {
    hide Inv, HasOwner, HasVerifier, Shape, CanLock;
    TopFacts(w, s, t, Verify(k, pc));
    var n := |s.stacks[t]| - 1;
    forall i | 0 <= i < n ensures !Verifier(s.stacks[t][i], k) {
      if s.stacks[t][i].Verify? { VerifyChain(w, s.stacks[t], i, n); }
    }
    assert k in HeldBy(w, s.stacks[t][n]);
  }

  // `VerifyClass` stores its verdict and returns.
  lemma VerifierEnds(w: World, s: State, t: ThreadId, k: ClassId, pc: VerifyPc, b: Status, ok: bool)
    requires Before(w, s, t, Verify(k, pc)) && (pc.VSuperDone? || pc.VVerdict? || pc.VConclude?)
    requires b == Error || b == Verified || (b == RetryVerificationAtRuntime && w.isCompiler)
    requires b == Verified && k in w.superOf ==>
               s.status[w.superOf[k]].IsVerified() || s.status[w.superOf[k]] == Error
    ensures SetStatus(s, k, b).fatal == s.fatal
    ensures Inv(w, Return(SetStatus(s, k, b), t, ok))
  {
    hide Inv, Holds, HasOwner, HasVerifier, Shape, CanLock, Under, Early, Change;
    TopFacts(w, s, t, Verify(k, pc));
    var s1 := SetStatus(s, k, b);
    VerifierChange(w, s, t, k, pc, b);
    ReturnKeeps(w, s, s1, t, ok);
  }

  lemma VerifyKeepsSuperDone(w: World, s: State, t: ThreadId, k: ClassId, c: Choice)
    requires Before(w, s, t, Verify(k, VSuperDone))
    ensures Inv(w, VerifyStep(w, s, t, k, VSuperDone, c))
  {
    hide Inv, CanLock, HasOwner, HasVerifier;
    TopFacts(w, s, t, Verify(k, VSuperDone));
    if !s.status[w.superOf[k]].IsCompileTimeVerified() { VerifierEnds(w, s, t, k, VSuperDone, Error, false); }
    else {
      NextWellFormed(w, s, t, Verify(k, VSuperDone), Verify(k, VVerdict), []);
      NextKeeps(w, s, t, Verify(k, VSuperDone), Verify(k, VVerdict), []);
    }
  }

  lemma VerifyKeepsVerdict(w: World, s: State, t: ThreadId, k: ClassId, c: Choice)
    requires Before(w, s, t, Verify(k, VVerdict))
    ensures Inv(w, VerifyStep(w, s, t, k, VVerdict, c))
  {
    hide Inv, CanLock, HasOwner, HasVerifier;
    TopFacts(w, s, t, Verify(k, VVerdict));
    if c.verdict.OatError? || c.verdict.HardFailure? { VerifierEnds(w, s, t, k, VVerdict, Error, false); }
    else {
      NextWellFormed(w, s, t, Verify(k, VVerdict), Verify(k, VConclude(c.verdict.SoftFailure?)), []);
      NextKeeps(w, s, t, Verify(k, VVerdict), Verify(k, VConclude(c.verdict.SoftFailure?)), []);
    }
  }

  lemma VerifyKeepsConclude(w: World, s: State, t: ThreadId, k: ClassId, soft: bool, c: Choice)
    requires Before(w, s, t, Verify(k, VConclude(soft)))
    ensures Inv(w, VerifyStep(w, s, t, k, VConclude(soft), c))
  {
    hide Inv;
    TopFacts(w, s, t, Verify(k, VConclude(soft)));
    if soft && !w.isCompiler { VerifierEnds(w, s, t, k, VConclude(soft), Verified, true); }
    else if soft { VerifierEnds(w, s, t, k, VConclude(soft), RetryVerificationAtRuntime, true); }
    else if k !in w.superOf || s.status[w.superOf[k]].IsVerified() {
      VerifierEnds(w, s, t, k, VConclude(soft), Verified, true);
    } else if s.status[w.superOf[k]] == RetryVerificationAtRuntime {
      VerifierEnds(w, s, t, k, VConclude(soft), RetryVerificationAtRuntime, true);
    } else {
      var s' := VerifyStep(w, s, t, k, VConclude(soft), c);
      FailKeeps(w, s, SuperStatusRace(k));
    }
  }

  lemma FailKeeps(w: World, s: State, f: Fatal)
    requires Inv(w, s) && FatalInv(w, Fail(s, f))
    ensures Inv(w, Fail(s, f))
  {
    var s' := Fail(s, f);
    forall t, i | At(s', t, i) ensures FrameInv(w, s', t, i) { assert At(s, t, i) && FrameInv(w, s, t, i); }
    forall k | k in w.classes ensures ClassInv(w, s', k) {
      assert ClassInv(w, s, k);
      if InVerification(s.status[k]) {
        var t, i :| At(s, t, i) && Verifier(s.stacks[t][i], k);
        assert At(s', t, i) && Verifier(s'.stacks[t][i], k);
      }
      if s.status[k] == Initializing {
        var i :| At(s, s.clinitThread[k], i) && Owner(s.stacks[s.clinitThread[k]][i], k);
        assert At(s', s'.clinitThread[k], i) && Owner(s'.stacks[s'.clinitThread[k]][i], k);
      }
    }
    forall t, u, k | t in s'.stacks && u in s'.stacks && t != u && Holds(w, s', t, k) ensures !Holds(w, s', u, k) {
      assert Holds(w, s, t, k) && !Holds(w, s, u, k);
    }
  }

  lemma CallShape(w: World, s: State, t: ThreadId, g: Frame)
    requires Inv(w, s) && MayCall(s, t) && t in s.stacks
    requires g == Init(g.klass, Enter) || g == Verify(g.klass, VLock)
    ensures Shape(w, Push(s, t, g).stacks[t])
  {
    hide Inv, FatalInv, Holds, CanLock, WellFormed, Mutex;
    InvMutex(w, s);
    var st, st' := s.stacks[t], Push(s, t, g).stacks[t];
    assert Shape(w, st);
    forall i | 0 < i < |st'| ensures Under(w, st'[i - 1], st'[i]) {
      if i < |st| { assert Under(w, st[i - 1], st[i]); }
    }
  }

  lemma CallKeeps(w: World, s: State, t: ThreadId, g: Frame)
    requires Inv(w, s) && s.fatal == NoFatal && MayCall(s, t)
    requires g.klass in w.classes && (g == Init(g.klass, Enter) || g == Verify(g.klass, VLock))
    ensures Inv(w, Push(s, t, g))
  {
    hide Inv, FatalInv, Holds, CanLock, Shape, Under;
    InvMutex(w, s);
    var st, s' := s.stacks[t], Push(s, t, g);
    var n := |st|;
    assert s'.stacks[t][..n] == st;
    CallWellFormed(w, s, t, g);
    CallShape(w, s, t, g);
    CallClass(w, s, t, g);
    NoFatalInv(w, s');
    Assemble(w, s, s', t, n, g.klass);
  }

  lemma CallWellFormed(w: World, s: State, t: ThreadId, g: Frame)
    requires WellFormed(w, s) && t in s.stacks && g.klass in w.classes
    ensures WellFormed(w, Push(s, t, g)) && Local(w, s, Push(s, t, g), t, |s.stacks[t]|, g.klass)
  {
    var st, s' := s.stacks[t], Push(s, t, g);
    assert s'.stacks[t][..|st|] == st;
    assert s'.stacks.Keys == s.stacks.Keys;
    forall u, i | u in s'.stacks && 0 <= i < |s'.stacks[u]| ensures s'.stacks[u][i].klass in w.classes {
      if u != t || i < |st| { assert s'.stacks[u][i] == s.stacks[u][i]; }
    }
  }

  lemma CallClass(w: World, s: State, t: ThreadId, g: Frame)
    requires Inv(w, s) && t in s.stacks && g.klass in w.classes && WellFormed(w, Push(s, t, g))
    ensures ClassInv(w, Push(s, t, g), g.klass)
  {
    hide Inv;
    var k, s' := g.klass, Push(s, t, g);
    InvOf(w, s, k);
    if s.status[k] == Initializing {
      var i :| At(s, s.clinitThread[k], i) && Owner(s.stacks[s.clinitThread[k]][i], k);
      assert At(s', s'.clinitThread[k], i) && Owner(s'.stacks[s'.clinitThread[k]][i], k);
    }
    if InVerification(s.status[k]) {
      var u, i :| At(s, u, i) && Verifier(s.stacks[u][i], k);
      assert At(s', u, i) && Verifier(s'.stacks[u][i], k);
    }
  }

  /** Every step of every thread keeps the invariant. In particular no fatal check of the source
      fails, with one exception: the status of the superclass read at line 2487, and then the
      superclass has become erroneous. */
  lemma StepKeeps(w: World, s: State, a: Action)
    requires Inv(w, s) && Enabled(w, s, a)
    ensures Inv(w, Step(w, s, a))
  {
    match a
    case CallInit(t, k) => CallKeeps(w, s, t, Init(k, Enter));
    case CallVerify(t, k) => CallKeeps(w, s, t, Verify(k, VLock));
    case Advance(t, c) =>
      var f := s.stacks[t][|s.stacks[t]| - 1];
      assert Before(w, s, t, f);
      TopFacts(w, s, t, f);
      match f {
        case Init(k, Enter) => InitKeepsEnter(w, s, t, k, c);
        case Init(k, Lock) => InitKeepsLock(w, s, t, k, c);
        case Init(k, AwaitVerify) => assert false;
        case Init(k, AfterVerify) => InitKeepsAfterVerify(w, s, t, k, c);
        case Init(k, Claim) => InitKeepsClaim(w, s, t, k, c);
        case Init(k, Waiting) => InitKeepsWaiting(w, s, t, k, c);
        case Init(k, CheckSuper) => InitKeepsCheckSuper(w, s, t, k, c);
        case Init(k, AwaitSuper) => assert false;
        case Init(k, SuperDone(ok)) => InitKeepsSuperDone(w, s, t, k, ok, c);
        case Init(k, Starting) => InitKeepsStarting(w, s, t, k, c);
        case Init(k, Running) => InitKeepsRunning(w, s, t, k, c);
        case Init(k, Finishing(threw)) => InitKeepsFinishing(w, s, t, k, threw, c);
        case Verify(k, VLock) => VerifyKeepsLock(w, s, t, k, c);
        case Verify(k, VLockSuper) => VerifyKeepsLockSuper(w, s, t, k, c);
        case Verify(k, VAwaitSuper) => assert false;
        case Verify(k, VSuperDone) => VerifyKeepsSuperDone(w, s, t, k, c);
        case Verify(k, VVerdict) => VerifyKeepsVerdict(w, s, t, k, c);
        case Verify(k, VConclude(soft)) => VerifyKeepsConclude(w, s, t, k, soft, c);
      }
  }
}
