/** Finding, defining and creating classes by threads that interleave: `FindClass`, `LookupClass`,
    `DefineClass` and `CreateArrayClass` of `ClassLinker`, as far as they use the class table.

    A thread is a stack of calls. A step runs the top call from one access of the shared state to the
    next: each access of the table is under `classlinker_classes_lock_`, but the flag
    `dex_cache_image_class_lookup_required_` is read without it. */
module ClassLookups {
  import opened Options
  import opened ClassTable

  /** The image, its primitive classes, and who has a definition of which class: the boot class path, and
      the class paths of the other loaders (the source's compile-time class paths). */
  datatype Config = Config(image: Image, primitives: map<char, Class>, boot: set<Descriptor>, paths: set<Key>)

  datatype Frame =
    // LookupClass: before the search of the table, before the flag is read, and so on
    | Lookup(d: Descriptor, l: nat)
    | LookupFlag(d: Descriptor, l: nat)
    | LookupImage(d: Descriptor)
    | LookupInsert(d: Descriptor, c: Class)
    | LookupCount(d: Descriptor)
    | LookupMove(d: Descriptor)
    | LookupDone(d: Descriptor, l: nat, answer: Option<Class>)
    // FindClass: at its start, waiting for its LookupClass, waiting for the boot loader's FindClass
    | Find(d: Descriptor, l: nat)
    | FindWaits(d: Descriptor, l: nat)
    | FindDelegates(d: Descriptor, l: nat)
    | FindDone(d: Descriptor, l: nat, answer: Option<Class>)
    // DefineClass: before InsertClass, and after it, when parents are found
    | Define(d: Descriptor, l: nat)
    | Linking(d: Descriptor, l: nat, c: Class)
    // CreateArrayClass: waiting for FindClass, waiting for LookupClass, before InsertClass
    | ArrayWaits(d: Descriptor, l: nat)
    | ArrayLooks(d: Descriptor, l: nat, home: nat)
    | ArrayInsert(d: Descriptor, l: nat, home: nat)
    // a failed CHECK
    | Aborted

  type ThreadId = nat
  type Stack = seq<Frame>

  datatype World = World(state: State, next: nat, threads: map<ThreadId, Stack>)

  // What a step may choose: which class is asked for, and whether linking, or waiting for it, succeeds.
  datatype Choice =
    | Call(d: Descriptor, l: nat)
    | Return(ok: bool)
    // some other use of the table, such as LookupClasses or VisitClasses, moves the image's classes
    | MoveNow

  function StackOf(w: World, t: ThreadId): Stack { if t in w.threads then w.threads[t] else [] }

  predicate Imaged(cfg: Config, d: Descriptor) { ImageFind(cfg.image, d).Some? }

  // What one step makes of the shared state and of the top of a stack.
  datatype Effect = Effect(state: State, next: nat, top: Stack)

  // EnsureResolved: a class of the image is resolved; any other may turn out erroneous.
  function Resolved(cfg: Config, c: Class, choice: Choice): Option<Class> {
    if choice == Return(false) && ImageFind(cfg.image, c.key.descriptor) != Some(c) then None else Some(c)
  }

  function Same(w: World, top: Stack): Effect { Effect(w.state, w.next, top) }

  // InsertClass of a new class: the class that is there afterwards, and whether it is the new one.
  function Publish(s: State, next: nat, k: Key): (State, Class, bool) {
    if k in s.table then (s, s.table[k], false)
    else (s.(table := Put(s.table, Class(next, k))), Class(next, k), true)
  }

  function MoveOr(cfg: Config, w: World, top: Stack): Effect {
    match Move(w.state, cfg.image)
    case Some(s) => Effect(s, w.next, top)
    case None => Same(w, [Aborted])
  }

  // FindClass when the lookup has failed.
  function Miss(cfg: Config, d: Descriptor, l: nat): Stack {
    if d.ArrayOf? then [ArrayWaits(d, l), Find(d.component, l)]
    else if l == 0 then (if d in cfg.boot then [Define(d, 0)] else [FindDone(d, l, None)])
    else if d in cfg.boot then [FindDelegates(d, l), Find(d, 0)]
    else if Key(d, l) in cfg.paths then [Define(d, l)]
    else [FindDone(d, l, None)]
  }

  // A step of a call that is not waiting.
  function TopStep(cfg: Config, w: World, top: Frame, choice: Choice): Effect {
    match top
    case Lookup(d, l) =>
      Same(w,
          if Key(d, l) in w.state.table then [LookupDone(d, l, Some(w.state.table[Key(d, l)]))] else [LookupFlag(d, l)])
    case LookupFlag(d, l) =>
      Same(w, if l != 0 || !w.state.pending then [LookupDone(d, l, None)] else [LookupImage(d)])
    case LookupImage(d) =>
      Same(w, match ImageFind(cfg.image, d) case Some(c) => [LookupInsert(d, c)] case None => [LookupCount(d)])
    case LookupInsert(d, c) =>
      Effect(w.state.(table := Put(w.state.table, c)), w.next, [LookupDone(d, 0, Some(c))])
    case LookupCount(d) =>
      var s := w.state.(failed := w.state.failed + 1);
      Effect(s, w.next, if s.failed > MAX_FAILED_LOOKUPS then [LookupMove(d)] else [LookupDone(d, 0, None)])
    case LookupMove(d) => MoveOr(cfg, w, [LookupDone(d, 0, None)])
    case Find(d, l) =>
      Same(w,
          if d.Primitive? then [FindDone(d, l, if d.kind in cfg.primitives then Some(cfg.primitives[d.kind]) else None)]
          else [FindWaits(d, l), Lookup(d, l)])
    case Define(d, l) =>
      var (s, c, isNew) := Publish(w.state, w.next, Key(d, l));
      Effect(s, w.next + 1, if isNew then [Linking(d, l, c)] else [FindDone(d, l, Resolved(cfg, c, choice))])
    case Linking(d, l, c) =>
      Same(w, match choice
              case Call(e, _) => [top, Find(e, l)]
              case Return(ok) => [FindDone(d, l, if ok then Some(c) else None)]
              case MoveNow => [top])
    case ArrayInsert(d, l, home) =>
      var (s, c, _) := Publish(w.state, w.next, Key(d, home));
      Effect(s, w.next + 1, [FindDone(d, l, Some(c))])
    case _ => Same(w, [top])
  }

  // A step of a call that gets an answer from the one above it.
  function Resume(cfg: Config, w: World, below: Frame, done: Frame, choice: Choice): Stack
    requires done.LookupDone? || done.FindDone?
  {
    match below
    case FindWaits(d, l) =>
      if done.answer.Some? then [FindDone(d, l, Resolved(cfg, done.answer.value, choice))] else Miss(cfg, d, l)
    case ArrayWaits(d, l) =>
      if done.answer.None? then [FindDone(d, l, None)]
      else
        var home := done.answer.value.key.loader;
        if home != l then [ArrayLooks(d, l, home), Lookup(d, home)] else [ArrayInsert(d, l, home)]
    case ArrayLooks(d, l, home) =>
      if done.answer.Some? then [FindDone(d, l, done.answer)] else [ArrayInsert(d, l, home)]
    case FindDelegates(d, l) => if done.answer.Some? then [FindDone(d, l, done.answer)] else [Aborted]
    case Linking(d, l, c) => [below]
    case _ => [below, done]
  }

  predicate IsDone(f: Frame) { f.LookupDone? || f.FindDone? }

  /** One step of thread t. */
  function Step(cfg: Config, w: World, t: ThreadId, choice: Choice): World {
    var stack := StackOf(w, t);
    var n := |stack|;
    if choice.MoveNow? then
      var e := MoveOr(cfg, w, stack);
      World(e.state, e.next, w.threads[t := e.top])
    else if n == 0 then
      if choice.Call? then w.(threads := w.threads[t := [Find(choice.d, choice.l)]]) else w
    else if !IsDone(stack[n - 1]) then
      var e := TopStep(cfg, w, stack[n - 1], choice);
      World(e.state, e.next, w.threads[t := stack[..n - 1] + e.top])
    else if n == 1 then w.(threads := w.threads[t := []])
    else w.(threads := w.threads[t := stack[..n - 2] + Resume(cfg, w, stack[n - 2], stack[n - 1], choice)])
  }

  ghost predicate ConfigOk(cfg: Config) {
    && ImageOk(cfg.image)
    && (forall d :: d in cfg.boot ==> d.Reference?)
    && (forall p :: p in cfg.primitives ==>
         InImage(cfg.image, cfg.primitives[p]) && cfg.primitives[p].key == Key(Primitive(p), 0))
    && forall d :: Imaged(cfg, d) ==> ImageHas(cfg, d)
  }

  // The image is made from the boot class path and has the component classes of its array classes.
  ghost predicate ImageHas(cfg: Config, d: Descriptor) {
    match d
    case Primitive(p) => p in cfg.primitives
    case Reference(_) => d in cfg.boot
    case ArrayOf(e) => Imaged(cfg, e)
  }

  ghost predicate Starts(w: World) { w.state.table == map[] && w.state.pending && w.threads == map[] }

  // ---- what every step keeps -------------------------------------------------------------------------------

  /** The loader a class belongs to when it is found by way of loader l. */
  function Home(cfg: Config, d: Descriptor, l: nat): nat {
    match d
    case Primitive(_) => 0
    case Reference(_) => if d in cfg.boot then 0 else l
    case ArrayOf(e) => Home(cfg, e, l)
  }

  ghost predicate Published(cfg: Config, s: State, c: Class) {
    (c.key in s.table && s.table[c.key] == c) || InImage(cfg.image, c)
  }

  // A lookup of d by the boot loader has failed: d is not in the image, or the image is in the table.
  predicate Missed(cfg: Config, s: State, d: Descriptor, l: nat) { l == 0 && Imaged(cfg, d) ==> !s.pending }

  predicate Fails(cfg: Config, d: Descriptor, l: nat) { !(Home(cfg, d, l) == 0 && Imaged(cfg, d)) }

  ghost predicate FrameOk(cfg: Config, s: State, f: Frame) {
    match f
    case LookupInsert(d, c) => ImageFind(cfg.image, d) == Some(c)
    case LookupCount(d) => !Imaged(cfg, d)
    case LookupMove(d) => !Imaged(cfg, d)
    case LookupDone(d, l, answer) =>
      if answer.Some? then Published(cfg, s, answer.value) && answer.value.key == Key(d, l) else Missed(cfg, s, d, l)
    case FindWaits(d, l) => !d.Primitive?
    case FindDelegates(d, l) => d in cfg.boot
    case FindDone(d, l, answer) =>
      if answer.Some? then Published(cfg, s, answer.value) && answer.value.key == Key(d, Home(cfg, d, l))
      else Fails(cfg, d, l)
    case Define(d, l) => Home(cfg, d, l) == l && Missed(cfg, s, d, l)
    case Linking(d, l, c) => Published(cfg, s, c) && c.key == Key(d, l) && Home(cfg, d, l) == l && Fails(cfg, d, l)
    case ArrayWaits(d, l) => d.ArrayOf? && Missed(cfg, s, d, l)
    case ArrayLooks(d, l, home) => home == Home(cfg, d, l)
    case ArrayInsert(d, l, home) => home == Home(cfg, d, l) && Missed(cfg, s, d, home)
    case _ => true
  }

  predicate IsLookup(f: Frame, d: Descriptor, l: nat) {
    match f
    case Lookup(e, m) => e == d && m == l
    case LookupFlag(e, m) => e == d && m == l
    case LookupImage(e) => e == d && l == 0
    case LookupInsert(e, _) => e == d && l == 0
    case LookupCount(e) => e == d && l == 0
    case LookupMove(e) => e == d && l == 0
    case LookupDone(e, m, _) => e == d && m == l
    case Aborted => true
    case _ => false
  }

  predicate IsFind(f: Frame, d: Descriptor, l: nat) {
    match f
    case Find(e, m) => e == d && m == l
    case FindWaits(e, m) => e == d && m == l
    case FindDelegates(e, m) => e == d && m == l
    case FindDone(e, m, _) => e == d && m == l
    case Define(e, m) => e == d && m == l
    case Linking(e, m, _) => e == d && m == l
    case ArrayWaits(e, m) => e == d && m == l
    case ArrayLooks(e, m, _) => e == d && m == l
    case ArrayInsert(e, m, _) => e == d && m == l
    case Aborted => true
    case _ => false
  }

  // The call above is the one that the call below has made.
  predicate Fits(below: Frame, above: Frame) {
    match below
    case FindWaits(d, l) => IsLookup(above, d, l)
    case FindDelegates(d, l) => IsFind(above, d, 0)
    case ArrayWaits(d, l) => d.ArrayOf? && IsFind(above, d.component, l)
    case ArrayLooks(d, l, home) => IsLookup(above, d, home)
    case Linking(d, l, c) => true
    case _ => false
  }

  ghost predicate StackOk(cfg: Config, s: State, stack: Stack) {
    && (forall i :: 0 <= i < |stack| ==> FrameOk(cfg, s, stack[i]))
    && forall i :: 0 < i < |stack| ==> Fits(stack[i - 1], stack[i])
  }

  // Classes are entered under the loader they belong to.
  ghost predicate SharedOk(cfg: Config, s: State) {
    StateOk(s, cfg.image) && forall k :: k in s.table ==> Home(cfg, k.descriptor, k.loader) == k.loader
  }

  ghost predicate Inv(cfg: Config, w: World) {
    SharedOk(cfg, w.state) && forall t :: t in w.threads ==> StackOk(cfg, w.state, w.threads[t])
  }

  // Entries of the table stay, and the flag is only ever cleared.
  ghost predicate Grows(s: State, s': State) {
    && (forall k :: k in s.table ==> k in s'.table && s'.table[k] == s.table[k])
    && (s'.pending ==> s.pending)
  }

  lemma {:induction false} HomeOfHome(cfg: Config, d: Descriptor, l: nat)
    ensures Home(cfg, d, Home(cfg, d, l)) == Home(cfg, d, l)
    ensures Home(cfg, d, 0) == 0
  {
    if d.ArrayOf? { HomeOfHome(cfg, d.component, l); }
  }

  lemma FrameStays(cfg: Config, s: State, s': State, f: Frame)
    requires FrameOk(cfg, s, f) && Grows(s, s')
    ensures FrameOk(cfg, s', f)
  {
    hide Home, Imaged;
  }

  lemma StackStays(cfg: Config, s: State, s': State, stack: Stack)
    requires StackOk(cfg, s, stack) && Grows(s, s')
    ensures StackOk(cfg, s', stack)
  {
    hide FrameOk, Fits, Grows;
    forall i | 0 <= i < |stack| ensures FrameOk(cfg, s', stack[i]) { FrameStays(cfg, s, s', stack[i]); }
  }

  // The class of the image for a descriptor is the only one, and the only one under its key.
  lemma ImageClass(cfg: Config, s: State, d: Descriptor)
    requires ConfigOk(cfg) && SharedOk(cfg, s) && Imaged(cfg, d)
    ensures var c := ImageFind(cfg.image, d).value;
            && InImage(cfg.image, c) && c.key == Key(d, 0)
            && (forall e :: Published(cfg, s, e) && e.key == Key(d, 0) ==> e == c)
            && (!s.pending ==> Key(d, 0) in s.table)
  {
    ImageFindIs(cfg.image, d);
    hide ImageFind, Home, InImage;
  }

  lemma NotImaged(cfg: Config, c: Class)
    requires ConfigOk(cfg) && InImage(cfg.image, c)
    ensures Imaged(cfg, c.key.descriptor) && c.key.loader == 0
  {
    ImageFindIs(cfg.image, c.key.descriptor);
    hide ImageFind;
  }

  // Entering a class that is not one of the image's, or entering the image's own.
  lemma PutKeeps(cfg: Config, s: State, c: Class)
    requires ConfigOk(cfg) && SharedOk(cfg, s) && Home(cfg, c.key.descriptor, c.key.loader) == c.key.loader
    requires InImage(cfg.image, c) || Missed(cfg, s, c.key.descriptor, c.key.loader)
    ensures SharedOk(cfg, s.(table := Put(s.table, c))) && Grows(s, s.(table := Put(s.table, c)))
  {
    if c.key !in s.table {
      forall e | InImage(cfg.image, e) && e.key == c.key ensures e == c {
        NotImaged(cfg, e);
        hide Home, ImageFind, Imaged;
      }
    }
    hide Home, ImageFind, Imaged, InImage;
  }

  lemma MoveKeeps(cfg: Config, s: State)
    requires ConfigOk(cfg) && SharedOk(cfg, s)
    ensures Move(s, cfg.image).Some? && SharedOk(cfg, Move(s, cfg.image).value) && Grows(s, Move(s, cfg.image).value)
  {
    MoveKeepsAnswers(s, cfg.image);
    hide StateOk, SameAnswers, ConfigOk;
    if s.pending {
      ImageIsOk(cfg, s);
      MoveAddsTheImage(s.table, cfg.image);
      hide MoveImage, InImage, NoClash;
      forall k | k in Move(s, cfg.image).value.table ensures Home(cfg, k.descriptor, k.loader) == k.loader {
        HomeOfHome(cfg, k.descriptor, 0);
      }
    }
  }

  lemma ImageIsOk(cfg: Config, s: State)
    requires SharedOk(cfg, s)
    ensures ImageOk(cfg.image) && NoClash(s.table, cfg.image)
    ensures forall c :: InImage(cfg.image, c) ==> c.key.loader == 0
  {
  }

  // ---- one step --------------------------------------------------------------------------------------------

  // Whatever waits for f may wait for g.
  ghost predicate Replaces(f: Frame, g: Frame) { forall below :: Fits(below, f) ==> Fits(below, g) }

  ghost predicate EffectOk(cfg: Config, s: State, f: Frame, e: Effect) {
    SharedOk(cfg, e.state) && Grows(s, e.state) && StackOk(cfg, e.state, e.top) && e.top != [] && Replaces(f, e.top[0])
  }

  lemma LookupKeeps(cfg: Config, w: World, f: Frame, choice: Choice)
    requires ConfigOk(cfg) && SharedOk(cfg, w.state) && FrameOk(cfg, w.state, f)
    requires f.Lookup? || f.LookupFlag? || f.LookupImage? || f.LookupInsert? || f.LookupCount? || f.LookupMove?
    ensures EffectOk(cfg, w.state, f, TopStep(cfg, w, f, choice))
  {
    match f
    case LookupInsert(d, c) =>
      ImageClass(cfg, w.state, d);
      HomeOfHome(cfg, d, 0);
      PutKeeps(cfg, w.state, c);
      hide Home, ImageFind, InImage, SharedOk, ConfigOk;
    case LookupMove(d) =>
      MoveKeeps(cfg, w.state);
      hide Home, ImageFind, InImage, SharedOk, ConfigOk, Move;
    case _ =>
      hide Home, ImageFind, InImage, ConfigOk;
  }

  // InsertClass of a class that is not known to be in the image.
  lemma PublishKeeps(cfg: Config, s: State, next: nat, k: Key)
    requires ConfigOk(cfg) && SharedOk(cfg, s) && Home(cfg, k.descriptor, k.loader) == k.loader
    requires Missed(cfg, s, k.descriptor, k.loader)
    ensures var (s', c, isNew) := Publish(s, next, k);
            && SharedOk(cfg, s') && Grows(s, s') && Published(cfg, s', c) && c.key == k
            && (k.loader == 0 && Imaged(cfg, k.descriptor) ==> !isNew && ImageFind(cfg.image, k.descriptor) == Some(c))
  {
    PutKeeps(cfg, s, Class(next, k));
    if k.loader == 0 && Imaged(cfg, k.descriptor) { ImageClass(cfg, s, k.descriptor); }
    hide Home, ImageFind, InImage, ConfigOk, NoClash;
  }

  lemma DefineKeeps(cfg: Config, w: World, f: Frame, choice: Choice)
    requires ConfigOk(cfg) && SharedOk(cfg, w.state) && FrameOk(cfg, w.state, f)
    requires f.Define? || f.ArrayInsert? || f.Linking?
    ensures EffectOk(cfg, w.state, f, TopStep(cfg, w, f, choice))
  {
    if !f.Linking? {
      HomeOfHome(cfg, f.d, f.l);
      PublishKeeps(cfg, w.state, w.next, Key(f.d, if f.Define? then f.l else f.home));
    }
    hide Home, ImageFind, InImage, ConfigOk, SharedOk, Publish, Published;
  }

  lemma FindKeeps(cfg: Config, w: World, f: Frame, choice: Choice)
    requires ConfigOk(cfg) && SharedOk(cfg, w.state) && FrameOk(cfg, w.state, f) && f.Find?
    ensures EffectOk(cfg, w.state, f, TopStep(cfg, w, f, choice))
  {
    if f.d.Primitive? && Imaged(cfg, f.d) { assert ImageHas(cfg, f.d); }
    hide ImageFind, InImage, Imaged;
  }

  /** A step of a call that is not waiting. */
  lemma TopStepKeeps(cfg: Config, w: World, f: Frame, choice: Choice)
    requires ConfigOk(cfg) && SharedOk(cfg, w.state) && FrameOk(cfg, w.state, f) && !IsDone(f)
    ensures EffectOk(cfg, w.state, f, TopStep(cfg, w, f, choice))
  {
    hide TopStep, FrameOk, ConfigOk, SharedOk, EffectOk;
    match f
    case Find(_, _) => FindKeeps(cfg, w, f, choice);
    case Define(_, _) => DefineKeeps(cfg, w, f, choice);
    case ArrayInsert(_, _, _) => DefineKeeps(cfg, w, f, choice);
    case Linking(_, _, _) => DefineKeeps(cfg, w, f, choice);
    case Lookup(_, _) => LookupKeeps(cfg, w, f, choice);
    case LookupFlag(_, _) => LookupKeeps(cfg, w, f, choice);
    case LookupImage(_) => LookupKeeps(cfg, w, f, choice);
    case LookupInsert(_, _) => LookupKeeps(cfg, w, f, choice);
    case LookupCount(_) => LookupKeeps(cfg, w, f, choice);
    case LookupMove(_) => LookupKeeps(cfg, w, f, choice);
    case _ => WaitKeeps(cfg, w, f, choice);
  }

  lemma WaitKeeps(cfg: Config, w: World, f: Frame, choice: Choice)
    requires SharedOk(cfg, w.state) && FrameOk(cfg, w.state, f)
    requires f.FindWaits? || f.FindDelegates? || f.ArrayWaits? || f.ArrayLooks? || f.Aborted?
    ensures EffectOk(cfg, w.state, f, TopStep(cfg, w, f, choice))
  {
    hide SharedOk, FrameOk;
  }

  // An answer of LookupClass is a class of its own loader.
  lemma AnswersAtHome(cfg: Config, s: State, c: Class)
    requires ConfigOk(cfg) && SharedOk(cfg, s) && Published(cfg, s, c)
    ensures Home(cfg, c.key.descriptor, c.key.loader) == c.key.loader
    ensures c.key.loader == 0 && Imaged(cfg, c.key.descriptor) ==> ImageFind(cfg.image, c.key.descriptor) == Some(c)
  {
    HomeOfHome(cfg, c.key.descriptor, 0);
    if c.key.loader == 0 && Imaged(cfg, c.key.descriptor) { ImageClass(cfg, s, c.key.descriptor); }
    hide Home, ImageFind, Imaged;
  }

  ghost predicate ResumeOk(cfg: Config, s: State, below: Frame, top: Stack) {
    StackOk(cfg, s, top) && top != [] && Replaces(below, top[0])
  }

  lemma FindResumes(cfg: Config, w: World, below: Frame, done: Frame, choice: Choice)
    requires ConfigOk(cfg) && SharedOk(cfg, w.state) && FrameOk(cfg, w.state, below) && FrameOk(cfg, w.state, done)
    requires below.FindWaits? && done.LookupDone? && Fits(below, done)
    ensures ResumeOk(cfg, w.state, below, Resume(cfg, w, below, done, choice))
  {
    if done.answer.Some? {
      AnswersAtHome(cfg, w.state, done.answer.value);
      hide Home, ImageFind, InImage, ConfigOk, SharedOk, Published;
    } else {
      HomeOfHome(cfg, below.d, below.l);
      if Imaged(cfg, below.d) { assert ImageHas(cfg, below.d); }
      hide ImageFind, InImage, SharedOk, Published, Imaged;
    }
  }

  lemma ArrayResumes(cfg: Config, w: World, below: Frame, done: Frame, choice: Choice)
    requires ConfigOk(cfg) && SharedOk(cfg, w.state) && FrameOk(cfg, w.state, below) && FrameOk(cfg, w.state, done)
    requires below.ArrayWaits? && done.FindDone? && Fits(below, done)
    ensures ResumeOk(cfg, w.state, below, Resume(cfg, w, below, done, choice))
  {
    if Imaged(cfg, below.d) { assert ImageHas(cfg, below.d); }
    assert Home(cfg, below.d, below.l) == Home(cfg, below.d.component, below.l);
    hide ImageFind, InImage, SharedOk, Published, Imaged, Home;
  }

  /** A step of a call that gets its answer. */
  lemma ResumeKeeps(cfg: Config, w: World, below: Frame, done: Frame, choice: Choice)
    requires ConfigOk(cfg) && SharedOk(cfg, w.state) && FrameOk(cfg, w.state, below) && FrameOk(cfg, w.state, done)
    requires IsDone(done) && Fits(below, done)
    ensures ResumeOk(cfg, w.state, below, Resume(cfg, w, below, done, choice))
  {
    match below
    case FindWaits(_, _) => FindResumes(cfg, w, below, done, choice);
    case ArrayWaits(_, _) => ArrayResumes(cfg, w, below, done, choice);
    case FindDelegates(d, _) =>
      HomeOfHome(cfg, d, 0);
      hide ImageFind, InImage, SharedOk, Published, Imaged;
    case _ =>
      hide ImageFind, InImage, SharedOk, Published, Imaged, Home;
  }

  lemma StackGrows(cfg: Config, s: State, s': State, stack: Stack, top: Stack)
    requires StackOk(cfg, s, stack) && stack != [] && Grows(s, s')
    requires StackOk(cfg, s', top) && top != [] && Replaces(stack[|stack| - 1], top[0])
    ensures StackOk(cfg, s', stack[..|stack| - 1] + top)
  {
    StackStays(cfg, s, s', stack);
    hide FrameOk, Fits, Grows;
    var n := |stack| - 1;
    var r := stack[..n] + top;
    forall i | 0 < i < |r| ensures Fits(r[i - 1], r[i]) {
      if i == n { assert Fits(stack[n - 1], stack[n]); }
    }
  }

  // Only thread t has moved.
  lemma ThreadKeeps(cfg: Config, w: World, t: ThreadId, s: State, next: nat, stack: Stack)
    requires Inv(cfg, w) && SharedOk(cfg, s) && Grows(w.state, s) && StackOk(cfg, s, stack)
    ensures Inv(cfg, World(s, next, w.threads[t := stack]))
  {
    hide SharedOk, StackOk, Grows;
    var threads := w.threads[t := stack];
    forall u | u in threads ensures StackOk(cfg, s, threads[u]) {
      if u != t { StackStays(cfg, w.state, s, w.threads[u]); }
    }
  }

  /** Every step of every thread keeps the invariant. */
  lemma StepKeeps(cfg: Config, w: World, t: ThreadId, choice: Choice)
    requires ConfigOk(cfg) && Inv(cfg, w)
    ensures Inv(cfg, Step(cfg, w, t, choice)) && Grows(w.state, Step(cfg, w, t, choice).state)
  {
    var stack := StackOf(w, t);
    var n := |stack|;
    assert StackOk(cfg, w.state, stack);
    hide ConfigOk, SharedOk, FrameOk, Fits, TopStep, Resume, Replaces, Move;
    if choice.MoveNow? {
      MoveKeeps(cfg, w.state);
      StackStays(cfg, w.state, Move(w.state, cfg.image).value, stack);
      ThreadKeeps(cfg, w, t, Move(w.state, cfg.image).value, w.next, stack);
    } else if n == 0 {
      if choice.Call? {
        NewCall(cfg, w.state, choice.d, choice.l);
        ThreadKeeps(cfg, w, t, w.state, w.next, [Find(choice.d, choice.l)]);
      }
    } else if !IsDone(stack[n - 1]) {
      TopStepKeeps(cfg, w, stack[n - 1], choice);
      var e := TopStep(cfg, w, stack[n - 1], choice);
      StackGrows(cfg, w.state, e.state, stack, e.top);
      ThreadKeeps(cfg, w, t, e.state, e.next, stack[..n - 1] + e.top);
    } else if n == 1 {
      ThreadKeeps(cfg, w, t, w.state, w.next, []);
    } else {
      ResumeKeeps(cfg, w, stack[n - 2], stack[n - 1], choice);
      StackGrows(cfg, w.state, w.state, stack[..n - 1], Resume(cfg, w, stack[n - 2], stack[n - 1], choice));
      assert stack[..n - 1][..n - 2] == stack[..n - 2];
      ThreadKeeps(cfg, w, t, w.state, w.next, stack[..n - 2] + Resume(cfg, w, stack[n - 2], stack[n - 1], choice));
    }
  }

  lemma NewCall(cfg: Config, s: State, d: Descriptor, l: nat)
    ensures StackOk(cfg, s, [Find(d, l)])
  {
  }

  // ---- runs ------------------------------------------------------------------------------------------------

  ghost predicate IsStep(cfg: Config, w: World, t: ThreadId, choice: Choice, w': World)
  {
    w' == Step(cfg, w, t, choice)
  }

  ghost predicate StepsTo(cfg: Config, w: World, w': World) { exists t, choice :: IsStep(cfg, w, t, choice, w') }

  ghost predicate IsRun(cfg: Config, run: seq<World>) {
    && run != [] && Starts(run[0])
    && forall i :: 0 < i < |run| ==> StepsTo(cfg, run[i - 1], run[i])
  }

  lemma {:induction false} RunKeeps(cfg: Config, run: seq<World>, i: nat)
    requires ConfigOk(cfg) && IsRun(cfg, run) && i < |run|
    ensures Inv(cfg, run[i])
  {
    hide Inv, ConfigOk, Step;
    if i == 0 {
      StartIsOk(cfg, run[0]);
    } else {
      RunKeeps(cfg, run, i - 1);
      var t, choice :| IsStep(cfg, run[i - 1], t, choice, run[i]);
      StepKeeps(cfg, run[i - 1], t, choice);
    }
  }

  lemma StartIsOk(cfg: Config, w: World)
    requires ConfigOk(cfg) && Starts(w)
    ensures Inv(cfg, w)
  {
  }

  lemma {:induction false} RunGrows(cfg: Config, run: seq<World>, i: nat, j: nat)
    requires ConfigOk(cfg) && IsRun(cfg, run) && i <= j < |run|
    ensures Grows(run[i].state, run[j].state)
    decreases j
  {
    hide Inv, ConfigOk, Step;
    if i < j {
      RunGrows(cfg, run, i, j - 1);
      RunKeeps(cfg, run, j - 1);
      var t, choice :| IsStep(cfg, run[j - 1], t, choice, run[j]);
      StepKeeps(cfg, run[j - 1], t, choice);
    }
  }

  /** At most one class is ever published for a descriptor and a loader, and it stays published. */
  lemma PublishedOnce(cfg: Config, run: seq<World>, i: nat, j: nat, c: Class, e: Class)
    requires ConfigOk(cfg) && IsRun(cfg, run) && i <= j < |run| && c.key == e.key
    requires Published(cfg, run[i].state, c) && Published(cfg, run[j].state, e)
    ensures c == e && Published(cfg, run[j].state, c)
  {
    RunKeeps(cfg, run, j);
    RunGrows(cfg, run, i, j);
    hide Step, InImage, IsRun, StackOk, Home;
  }

  // Thread t is about to return c from FindClass for d by way of loader l.
  ghost predicate Returns(w: World, t: ThreadId, d: Descriptor, l: nat, answer: Option<Class>) {
    var stack := StackOf(w, t);
    stack != [] && stack[|stack| - 1] == FindDone(d, l, answer)
  }

  /** A successful FindClass returns a published class with the descriptor, of the loader it belongs to. */
  lemma FindReturnsItsClass(cfg: Config, run: seq<World>, i: nat, t: ThreadId, d: Descriptor, l: nat, c: Class)
    requires ConfigOk(cfg) && IsRun(cfg, run) && i < |run| && Returns(run[i], t, d, l, Some(c))
    ensures c.key == Key(d, Home(cfg, d, l)) && Published(cfg, run[i].state, c)
  {
    RunKeeps(cfg, run, i);
    hide Step, IsRun, Home, Published, SharedOk, ConfigOk, IsRun, Fits;
    var stack := StackOf(run[i], t);
    assert FrameOk(cfg, run[i].state, stack[|stack| - 1]);
  }

  /** So any two successful calls for the same class return the same one, whichever threads made them and
      whenever they return. */
  lemma FindsAgree(cfg: Config, run: seq<World>, i: nat, j: nat, t: ThreadId, u: ThreadId,
                   d: Descriptor, l: nat, m: nat, c: Class, e: Class)
    requires ConfigOk(cfg) && IsRun(cfg, run) && i <= j < |run| && Home(cfg, d, l) == Home(cfg, d, m)
    requires Returns(run[i], t, d, l, Some(c)) && Returns(run[j], u, d, m, Some(e))
    ensures c == e
  {
    hide IsRun, ConfigOk, Home, Returns, Published;
    FindReturnsItsClass(cfg, run, i, t, d, l, c);
    FindReturnsItsClass(cfg, run, j, u, d, m, e);
    PublishedOnce(cfg, run, i, j, c, e);
  }

  /** A class of the image is found by every FindClass for it, even when its lookup has missed it. */
  lemma ImageClassesAreFound(cfg: Config, run: seq<World>, i: nat, t: ThreadId, d: Descriptor, l: nat,
                             answer: Option<Class>)
    requires ConfigOk(cfg) && IsRun(cfg, run) && i < |run| && Returns(run[i], t, d, l, answer)
    requires Imaged(cfg, d) && Home(cfg, d, l) == 0
    ensures answer == ImageFind(cfg.image, d)
  {
    RunKeeps(cfg, run, i);
    var stack := StackOf(run[i], t);
    assert FrameOk(cfg, run[i].state, stack[|stack| - 1]);
    ImageClass(cfg, run[i].state, d);
    hide Step, IsRun, Home, InImage, SharedOk, ConfigOk, Fits, StackOk, Inv;
  }

  // ---- the flag is read without the lock -------------------------------------------------------------------

  // What thread t does in the next step of a run, which is not a move.
  ghost predicate Takes(cfg: Config, w: World, t: ThreadId, w': World) {
    exists choice: Choice :: !choice.MoveNow? && IsStep(cfg, w, t, choice, w')
  }

  /** The boot loader's lookup of a class of the image searches the table in state i of a run and reads the
      flag in state j, the thread having done nothing in between. It answers NULL if and only if the class
      was not in the table at i and the image's classes have been moved at j: by another thread, after the
      search. Otherwise the class is found, in the table or in the image. */
  lemma MissesOnlyAcrossAMove(cfg: Config, run: seq<World>, i: nat, j: nat, t: ThreadId, below: Stack, d: Descriptor)
    requires ConfigOk(cfg) && IsRun(cfg, run) && i < j && j + 1 < |run| && Imaged(cfg, d)
    requires StackOf(run[i], t) == below + [Lookup(d, 0)] && Takes(cfg, run[i], t, run[i + 1])
    requires StackOf(run[j], t) == StackOf(run[i + 1], t) && Takes(cfg, run[j], t, run[j + 1])
    ensures var missed := Key(d, 0) !in run[i].state.table && !run[j].state.pending;
            && (StackOf(run[j + 1], t) == below + [LookupDone(d, 0, None)] <==> missed)
            && (missed ==> run[i].state.pending && Key(d, 0) in run[j].state.table)
            && (!missed ==>
                  || StackOf(run[j], t) == below + [LookupDone(d, 0, ImageFind(cfg.image, d))]
                  || StackOf(run[j + 1], t) == below + [LookupImage(d)])
  {
    hide *;
    ImageFacts(cfg, run, i, d);
    ImageFacts(cfg, run, j, d);
    var x := Taken(cfg, run[i], t, run[i + 1]);
    var y := Taken(cfg, run[j], t, run[j + 1]);
    SearchStep(cfg, run[i], t, x, below, d);
    if Key(d, 0) in run[i].state.table {
      LastDiffers(below, LookupFlag(d, 0), LookupDone(d, 0, None));
      AnsweredStep(cfg, run[j], t, y, below, d, run[i].state.table[Key(d, 0)]);
    } else {
      LastDiffers(below, LookupImage(d), LookupDone(d, 0, None));
      FlagStep(cfg, run[j], t, y, below, d);
    }
  }

  lemma LastDiffers(below: Stack, f: Frame, g: Frame)
    ensures f != g ==> below + [f] != below + [g]
  {
    assert (below + [f])[|below|] == f && (below + [g])[|below|] == g;
  }

  lemma Taken(cfg: Config, w: World, t: ThreadId, w': World) returns (choice: Choice)
    requires Takes(cfg, w, t, w')
    ensures !choice.MoveNow? && w' == Step(cfg, w, t, choice)
  {
    hide Step;
    choice :| !choice.MoveNow? && IsStep(cfg, w, t, choice, w');
  }

  // Where the image's class for d is, in a state of a run.
  lemma ImageFacts(cfg: Config, run: seq<World>, i: nat, d: Descriptor)
    requires ConfigOk(cfg) && IsRun(cfg, run) && i < |run| && Imaged(cfg, d)
    ensures var s := run[i].state;
            && (if Key(d, 0) in s.table then Some(s.table[Key(d, 0)]) == ImageFind(cfg.image, d) else s.pending)
  {
    RunKeeps(cfg, run, i);
    ImageClass(cfg, run[i].state, d);
    hide Step, IsRun, Home, InImage, ConfigOk, ImageFind, StackOk;
  }

  lemma SearchStep(cfg: Config, w: World, t: ThreadId, choice: Choice, below: Stack, d: Descriptor)
    requires StackOf(w, t) == below + [Lookup(d, 0)] && !choice.MoveNow?
    ensures StackOf(Step(cfg, w, t, choice), t) ==
            below + [if Key(d, 0) in w.state.table then LookupDone(d, 0, Some(w.state.table[Key(d, 0)]))
                else LookupFlag(d, 0)]
  {
    assert StackOf(w, t)[..|below|] == below;
  }

  lemma FlagStep(cfg: Config, w: World, t: ThreadId, choice: Choice, below: Stack, d: Descriptor)
    requires StackOf(w, t) == below + [LookupFlag(d, 0)] && !choice.MoveNow?
    ensures StackOf(Step(cfg, w, t, choice), t) ==
            below + [if w.state.pending then LookupImage(d) else LookupDone(d, 0, None)]
  {
    assert StackOf(w, t)[..|below|] == below;
  }

  // An answer that is a class is not turned into NULL.
  lemma AnsweredStep(cfg: Config, w: World, t: ThreadId, choice: Choice, below: Stack, d: Descriptor, c: Class)
    requires StackOf(w, t) == below + [LookupDone(d, 0, Some(c))] && !choice.MoveNow?
    ensures StackOf(Step(cfg, w, t, choice), t) != below + [LookupDone(d, 0, None)]
  {
    var stack := StackOf(w, t);
    if below != [] {
      var n := |below|;
      var top := Resume(cfg, w, below[n - 1], stack[n], choice);
      assert stack[..n - 1] == below[..n - 1];
      assert StackOf(Step(cfg, w, t, choice), t) == below[..n - 1] + top;
      assert top[|top| - 1] != LookupDone(d, 0, None);
      assert (below[..n - 1] + top)[n - 1 + |top| - 1] == top[|top| - 1];
    }
  }

  function TheImage(): Image { [[Some(Class(0, Key(Reference("Ljava/lang/Object;"), 0)))]] }

  function TheConfig(): Config { Config(TheImage(), map[], {Reference("Ljava/lang/Object;")}, {}) }

  // A step of a call that leaves the shared state alone.
  lemma Advances(cfg: Config, w: World, t: ThreadId, choice: Choice, below: Stack, f: Frame, top: Stack)
    requires StackOf(w, t) == below + [f] && !IsDone(f) && !choice.MoveNow? &&
             TopStep(cfg, w, f, choice) == Same(w, top)
    ensures StepsTo(cfg, w, w.(threads := w.threads[t := below + top]))
  {
    var stack := StackOf(w, t);
    assert stack[..|stack| - 1] == below;
    assert IsStep(cfg, w, t, choice, w.(threads := w.threads[t := below + top]));
  }

  /** It does happen: another thread moves the classes between the two reads, and a lookup misses a class
      that was in the image all the time. */
  lemma LookupCanMiss() returns (run: seq<World>)
    ensures ConfigOk(TheConfig()) && IsRun(TheConfig(), run) && |run| > 0
    ensures Imaged(TheConfig(), Reference("Ljava/lang/Object;"))
    ensures StackOf(run[|run| - 1], 1) ==
            [FindWaits(Reference("Ljava/lang/Object;"), 0)] + [LookupDone(Reference("Ljava/lang/Object;"), 0, None)]
  {
    hide ConfigOk, TheConfig, Step, StepsTo, Inv, SharedOk, ImageFind;
    TheConfigIsOk();
    var cfg, d := TheConfig(), Reference("Ljava/lang/Object;");
    var w0, w1, w2, w3 := ReachesFlag(cfg, d);
    StartIsShared(cfg, w0);
    var w4 := Step(cfg, w3, 2, MoveNow);
    Moves(cfg, w3, 2);
    Advances(cfg, w4, 1, Return(true), [FindWaits(d, 0)], LookupFlag(d, 0), [LookupDone(d, 0, None)]);
    var w5 := w4.(threads := w4.threads[1 := [FindWaits(d, 0)] + [LookupDone(d, 0, None)]]);
    run := [w0, w1, w2, w3, w4, w5];
  }

  // From the start to the point between the two reads.
  lemma ReachesFlag(cfg: Config, d: Descriptor) returns (w0: World, w1: World, w2: World, w3: World)
    requires d.Reference?
    ensures Starts(w0) && StepsTo(cfg, w0, w1) && StepsTo(cfg, w1, w2) && StepsTo(cfg, w2, w3)
    ensures w3.state == w0.state && StackOf(w3, 1) == [FindWaits(d, 0)] + [LookupFlag(d, 0)]
  {
    hide Step, StepsTo;
    var wait := [FindWaits(d, 0)];
    w0 := World(State(map[], true, 0), 1, map[]);
    w1 := w0.(threads := w0.threads[1 := [Find(d, 0)]]);
    Calls(cfg, w0, 1, d, 0);
    Advances(cfg, w1, 1, Return(true), [], Find(d, 0), [FindWaits(d, 0), Lookup(d, 0)]);
    w2 := w1.(threads := w1.threads[1 := [] + [FindWaits(d, 0), Lookup(d, 0)]]);
    assert StackOf(w2, 1) == wait + [Lookup(d, 0)];
    Advances(cfg, w2, 1, Return(true), wait, Lookup(d, 0), [LookupFlag(d, 0)]);
    w3 := w2.(threads := w2.threads[1 := wait + [LookupFlag(d, 0)]]);
  }

  lemma StartIsShared(cfg: Config, w: World)
    requires ConfigOk(cfg) && Starts(w)
    ensures SharedOk(cfg, w.state)
  {
    StartIsOk(cfg, w);
  }

  lemma Calls(cfg: Config, w: World, t: ThreadId, d: Descriptor, l: nat)
    requires t !in w.threads
    ensures StepsTo(cfg, w, w.(threads := w.threads[t := [Find(d, l)]]))
  {
    assert IsStep(cfg, w, t, Call(d, l), w.(threads := w.threads[t := [Find(d, l)]]));
  }

  lemma Moves(cfg: Config, w: World, t: ThreadId)
    requires ConfigOk(cfg) && SharedOk(cfg, w.state)
    ensures StepsTo(cfg, w, Step(cfg, w, t, MoveNow)) && !Step(cfg, w, t, MoveNow).state.pending
    ensures forall u :: u != t ==> StackOf(Step(cfg, w, t, MoveNow), u) == StackOf(w, u)
  {
    MoveKeeps(cfg, w.state);
    assert IsStep(cfg, w, t, MoveNow, Step(cfg, w, t, MoveNow));
  }

  lemma TheConfigIsOk()
    ensures ConfigOk(TheConfig()) && Imaged(TheConfig(), Reference("Ljava/lang/Object;"))
  {
    var image := TheImage();
    forall c ensures InImage(image, c) <==> c == Class(0, Key(Reference("Ljava/lang/Object;"), 0)) {
      assert InImage(image, c) ==> Some(c) in image[0];
      assert image[0][0] in image[0];
    }
    forall d | Imaged(TheConfig(), d) ensures ImageHas(TheConfig(), d) { ImageFindIs(image, d); }
    assert CacheFind(image[0], Reference("Ljava/lang/Object;")).Some?;
  }
}
