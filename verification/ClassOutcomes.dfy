/** How calls of `FindClass` end when threads interleave as in `ClassLookups`: with a class or with nothing,
    by what the class paths define. */
module ClassOutcomes {
  import opened Options
  import opened ClassTable
  import opened ClassLookups

  // What the elements of an array of arrays are in the end.
  function Element(d: Descriptor): Descriptor { if d.ArrayOf? then Element(d.component) else d }

  /** There is such a class for the loader: a primitive one, one on the boot class path, or one on the
      loader's own class path; or an array of such elements. */
  predicate Defined(cfg: Config, d: Descriptor, l: nat) {
    match Element(d)
    case Primitive(p) => p in cfg.primitives
    case e => e in cfg.boot || (l != 0 && Key(e, l) in cfg.paths)
  }

  function ElementKey(cfg: Config, d: Descriptor, l: nat): Key { Key(Element(d), Home(cfg, d, l)) }

  // ---- what a turn may refuse --------------------------------------------------------------------------------

  datatype Turn = Turn(t: ThreadId, choice: Choice)

  // The turn decides that linking a class fails, or that a class found in the table turns out erroneous.
  predicate Erroneous(cfg: Config, c: Class, choice: Choice) {
    choice == Return(false) && ImageFind(cfg.image, c.key.descriptor) != Some(c)
  }

  predicate RefusesAtTop(cfg: Config, s: State, f: Frame, choice: Choice) {
    match f
    case Linking(_, _, _) => choice == Return(false)
    case Define(d, l) => Key(d, l) in s.table && Erroneous(cfg, s.table[Key(d, l)], choice)
    case _ => false
  }

  predicate RefusesBelow(cfg: Config, below: Frame, done: Frame, choice: Choice) {
    below.FindWaits? && done.LookupDone? && done.answer.Some? && Erroneous(cfg, done.answer.value, choice)
  }

  // The class whose linking, or waiting for it, fails in the turn.
  function Refused(cfg: Config, w: World, turn: Turn): Option<Key> {
    var stack := StackOf(w, turn.t);
    var n := |stack|;
    if n > 0 && RefusesAtTop(cfg, w.state, stack[n - 1], turn.choice) then
      Some(ElementKey(cfg, stack[n - 1].d, stack[n - 1].l))
    else if n > 1 && RefusesBelow(cfg, stack[n - 2], stack[n - 1], turn.choice) then
      Some(ElementKey(cfg, stack[n - 2].d, stack[n - 2].l))
    else None
  }

  // The run in which the given turns are taken.
  ghost predicate IsRunBy(cfg: Config, run: seq<World>, turns: seq<Turn>) {
    && |run| == |turns| + 1 && Starts(run[0])
    && forall i :: 0 <= i < |turns| ==> run[i + 1] == Step(cfg, run[i], turns[i].t, turns[i].choice)
  }

  // The classes refused in the first i turns.
  ghost function Failed(cfg: Config, run: seq<World>, turns: seq<Turn>, i: nat): iset<Key>
    requires IsRunBy(cfg, run, turns) && i <= |turns|
  {
    iset k | exists j :: 0 <= j < i && Refused(cfg, run[j], turns[j]) == Some(k)
  }

  // ---- what every step keeps ---------------------------------------------------------------------------------

  ghost predicate Told(cfg: Config, failed: iset<Key>, f: Frame) {
    match f
    case FindDone(d, l, answer) => answer.None? ==> !Defined(cfg, d, l) || ElementKey(cfg, d, l) in failed
    case Define(d, l) => Defined(cfg, d, l)
    case ArrayLooks(d, l, _) => Defined(cfg, d, l)
    case ArrayInsert(d, l, _) => Defined(cfg, d, l)
    case Aborted => failed != iset{}
    case _ => true
  }

  ghost predicate AllTold(cfg: Config, failed: iset<Key>, stack: Stack) {
    forall i :: 0 <= i < |stack| ==> Told(cfg, failed, stack[i])
  }

  // Only what is defined is in the table.
  ghost predicate TableDefined(cfg: Config, s: State) {
    forall k :: k in s.table ==> Defined(cfg, k.descriptor, k.loader)
  }

  ghost predicate Accounted(cfg: Config, failed: iset<Key>, w: World) {
    TableDefined(cfg, w.state) && forall t :: t in w.threads ==> AllTold(cfg, failed, w.threads[t])
  }

  lemma {:induction false} ElementHome(cfg: Config, d: Descriptor, l: nat)
    ensures Home(cfg, d, l) == Home(cfg, Element(d), l) && !Element(d).ArrayOf?
    ensures Defined(cfg, d, Home(cfg, d, l)) <==> Defined(cfg, d, l)
  {
    if d.ArrayOf? { ElementHome(cfg, d.component, l); }
  }

  lemma {:induction false} ImagedIsDefined(cfg: Config, d: Descriptor, l: nat)
    requires ConfigOk(cfg) && Imaged(cfg, d)
    ensures Defined(cfg, d, l)
  {
    assert ImageHas(cfg, d);
    hide ImageFind, Home, ImageOk, InImage, Imaged;
    if d.ArrayOf? { ImagedIsDefined(cfg, d.component, l); }
  }

  lemma PublishedIsDefined(cfg: Config, s: State, c: Class)
    requires ConfigOk(cfg) && TableDefined(cfg, s) && Published(cfg, s, c)
    ensures Defined(cfg, c.key.descriptor, c.key.loader)
  {
    hide ConfigOk, Defined, Imaged;
    if InImage(cfg.image, c) {
      NotImaged(cfg, c);
      ImagedIsDefined(cfg, c.key.descriptor, c.key.loader);
    }
  }

  lemma MoveIsDefined(cfg: Config, s: State)
    requires ConfigOk(cfg) && SharedOk(cfg, s) && TableDefined(cfg, s)
    ensures Move(s, cfg.image).Some? && TableDefined(cfg, Move(s, cfg.image).value)
  {
    MoveKeeps(cfg, s);
    if s.pending {
      ImageIsOk(cfg, s);
      MoveAddsTheImage(s.table, cfg.image);
      hide MoveImage, InImage, NoClash, ConfigOk, Defined, SharedOk, Imaged;
      forall k | k in Move(s, cfg.image).value.table ensures Defined(cfg, k.descriptor, k.loader) {
        if k !in s.table {
          PublishedIsDefined(cfg, s, Move(s, cfg.image).value.table[k]);
        }
      }
    }
  }

  // A step of a call that is not waiting.
  lemma TopTells(cfg: Config, w: World, failed: iset<Key>, f: Frame, choice: Choice)
    requires ConfigOk(cfg) && SharedOk(cfg, w.state) && TableDefined(cfg, w.state)
    requires FrameOk(cfg, w.state, f) && Told(cfg, failed, f) && !IsDone(f)
    requires RefusesAtTop(cfg, w.state, f, choice) ==> ElementKey(cfg, f.d, f.l) in failed
    ensures TableDefined(cfg, TopStep(cfg, w, f, choice).state)
    ensures AllTold(cfg, failed, TopStep(cfg, w, f, choice).top)
  {
    hide ConfigOk, SharedOk, Defined, Home, ImageFind, Move, StateOk;
    match f
    case LookupInsert(d, c) =>
      assert Imaged(cfg, d);
      ImageClass(cfg, w.state, d);
      ImagedIsDefined(cfg, d, 0);
    case LookupMove(d) => MoveIsDefined(cfg, w.state);
    case Find(d, l) => PrimitiveDefined(cfg, d, l);
    case ArrayInsert(d, l, home) => ElementHome(cfg, d, l);
    case _ =>
  }

  lemma PrimitiveDefined(cfg: Config, d: Descriptor, l: nat)
    ensures d.Primitive? ==> (Defined(cfg, d, l) <==> d.kind in cfg.primitives)
  {
  }

  // A call that has missed goes where the class is defined, if it is.
  lemma MissTells(cfg: Config, failed: iset<Key>, d: Descriptor, l: nat)
    requires !d.Primitive?
    ensures AllTold(cfg, failed, Miss(cfg, d, l))
  {
  }

  // A step of a call that gets an answer.
  lemma ResumeTells(cfg: Config, w: World, failed: iset<Key>, below: Frame, done: Frame, choice: Choice)
    requires ConfigOk(cfg) && SharedOk(cfg, w.state) && TableDefined(cfg, w.state)
    requires FrameOk(cfg, w.state, below) && Told(cfg, failed, below)
    requires FrameOk(cfg, w.state, done) && Told(cfg, failed, done)
    requires IsDone(done) && ClassLookups.Fits(below, done)
    requires RefusesBelow(cfg, below, done, choice) ==> ElementKey(cfg, below.d, below.l) in failed
    ensures AllTold(cfg, failed, Resume(cfg, w, below, done, choice))
  {
    hide ConfigOk, SharedOk, Defined, Home, ImageFind, Imaged, Published;
    match below
    case FindWaits(d, l) => MissTells(cfg, failed, d, l);
    case ArrayWaits(d, l) => ArrayTells(cfg, w.state, failed, d, l, done);
    case FindDelegates(d, l) => if done.answer.None? { BootIsDefined(cfg, d, 0); }
    case _ =>
  }

  lemma BootIsDefined(cfg: Config, d: Descriptor, l: nat)
    requires ConfigOk(cfg) && d in cfg.boot
    ensures Defined(cfg, d, l)
  {
  }

  lemma ArrayTells(cfg: Config, s: State, failed: iset<Key>, d: Descriptor, l: nat, done: Frame)
    requires ConfigOk(cfg) && TableDefined(cfg, s) && d.ArrayOf? && done.FindDone?
    requires FrameOk(cfg, s, done) && Told(cfg, failed, done) && done.d == d.component && done.l == l
    ensures done.answer.Some? ==> Defined(cfg, d, l)
    ensures done.answer.None? ==> !Defined(cfg, d, l) || ElementKey(cfg, d, l) in failed
  {
    hide ConfigOk, Imaged, InImage, Published;
    if done.answer.Some? {
      PublishedIsDefined(cfg, s, done.answer.value);
      ElementHome(cfg, d.component, l);
    }
  }

  lemma ToldMore(cfg: Config, failed: iset<Key>, more: iset<Key>, stack: Stack)
    requires AllTold(cfg, failed, stack) && failed <= more
    ensures AllTold(cfg, more, stack)
  {
    hide Defined;
  }

  lemma AccountedMore(cfg: Config, failed: iset<Key>, more: iset<Key>, w: World)
    requires Accounted(cfg, failed, w) && failed <= more
    ensures Accounted(cfg, more, w)
  {
    hide AllTold, TableDefined;
    var threads := w.threads;
    forall t | t in threads ensures AllTold(cfg, more, threads[t]) { ToldMore(cfg, failed, more, threads[t]); }
  }

  // Only thread t has moved.
  lemma ThreadTells(cfg: Config, w: World, failed: iset<Key>, t: ThreadId, s: State, next: nat, stack: Stack)
    requires Accounted(cfg, failed, w) && TableDefined(cfg, s) && AllTold(cfg, failed, stack)
    ensures Accounted(cfg, failed, World(s, next, w.threads[t := stack]))
  {
    hide AllTold, TableDefined;
  }

  lemma ToldReplaced(cfg: Config, failed: iset<Key>, stack: Stack, n: nat, top: Stack)
    requires AllTold(cfg, failed, stack) && n <= |stack| && AllTold(cfg, failed, top)
    ensures AllTold(cfg, failed, stack[..n] + top)
  {
    hide Told;
  }

  lemma StepTells(cfg: Config, w: World, failed: iset<Key>, turn: Turn)
    requires ConfigOk(cfg) && Inv(cfg, w) && Accounted(cfg, failed, w)
    requires Refused(cfg, w, turn).Some? ==> Refused(cfg, w, turn).value in failed
    ensures Accounted(cfg, failed, Step(cfg, w, turn.t, turn.choice))
  {
    var t, choice := turn.t, turn.choice;
    var stack := StackOf(w, t);
    var n := |stack|;
    assert StackOk(cfg, w.state, stack) && AllTold(cfg, failed, stack);
    hide ConfigOk, SharedOk, FrameOk, ClassLookups.Fits, TopStep, Resume, Move, Told, TableDefined;
    hide RefusesAtTop, RefusesBelow, ElementKey;
    if choice.MoveNow? {
      MoveIsDefined(cfg, w.state);
      ThreadTells(cfg, w, failed, t, Move(w.state, cfg.image).value, w.next, stack);
    } else if n == 0 {
      if choice.Call? {
        NewTells(cfg, failed, choice.d, choice.l);
        ThreadTells(cfg, w, failed, t, w.state, w.next, [Find(choice.d, choice.l)]);
      }
    } else if !IsDone(stack[n - 1]) {
      TopTells(cfg, w, failed, stack[n - 1], choice);
      var e := TopStep(cfg, w, stack[n - 1], choice);
      ToldReplaced(cfg, failed, stack, n - 1, e.top);
      ThreadTells(cfg, w, failed, t, e.state, e.next, stack[..n - 1] + e.top);
    } else if n == 1 {
      ThreadTells(cfg, w, failed, t, w.state, w.next, []);
    } else {
      DoneRefusesNothing(cfg, w.state, stack[n - 1], choice);
      ResumeTells(cfg, w, failed, stack[n - 2], stack[n - 1], choice);
      var top := Resume(cfg, w, stack[n - 2], stack[n - 1], choice);
      ToldReplaced(cfg, failed, stack, n - 2, top);
      ThreadTells(cfg, w, failed, t, w.state, w.next, stack[..n - 2] + top);
    }
  }

  lemma DoneRefusesNothing(cfg: Config, s: State, f: Frame, choice: Choice)
    requires IsDone(f)
    ensures !RefusesAtTop(cfg, s, f, choice)
  {
  }

  lemma NewTells(cfg: Config, failed: iset<Key>, d: Descriptor, l: nat)
    ensures AllTold(cfg, failed, [Find(d, l)])
  {
  }

  // ---- runs ----------------------------------------------------------------------------------------------------

  lemma RunByIsRun(cfg: Config, run: seq<World>, turns: seq<Turn>)
    requires IsRunBy(cfg, run, turns)
    ensures IsRun(cfg, run)
  {
    hide Step;
    forall i | 0 < i < |run| ensures StepsTo(cfg, run[i - 1], run[i]) {
      assert IsStep(cfg, run[i - 1], turns[i - 1].t, turns[i - 1].choice, run[i]);
    }
  }

  // Every run is one of some turns.
  lemma {:induction false} TurnsOf(cfg: Config, run: seq<World>) returns (turns: seq<Turn>)
    requires IsRun(cfg, run)
    ensures IsRunBy(cfg, run, turns)
  {
    hide Step;
    var n := |run| - 1;
    if n == 0 {
      turns := [];
    } else {
      turns := TurnsOf(cfg, run[..n]);
      assert StepsTo(cfg, run[n - 1], run[n]);
      var t, choice :| IsStep(cfg, run[n - 1], t, choice, run[n]);
      turns := turns + [Turn(t, choice)];
    }
  }

  lemma {:induction false} RunTells(cfg: Config, run: seq<World>, turns: seq<Turn>, i: nat)
    requires ConfigOk(cfg) && IsRunBy(cfg, run, turns) && i <= |turns|
    ensures Inv(cfg, run[i]) && Accounted(cfg, Failed(cfg, run, turns, i), run[i])
  {
    hide Inv, ConfigOk, Step, Refused, IsRun, AllTold, TableDefined;
    RunByIsRun(cfg, run, turns);
    RunKeeps(cfg, run, i);
    if i == 0 {
      StartTells(cfg, run[0]);
      assert Failed(cfg, run, turns, 0) == iset{};
    } else {
      RunTells(cfg, run, turns, i - 1);
      var before, failed := Failed(cfg, run, turns, i - 1), Failed(cfg, run, turns, i);
      RunKeeps(cfg, run, i - 1);
      assert before <= failed;
      AccountedMore(cfg, before, failed, run[i - 1]);
      StepTells(cfg, run[i - 1], failed, turns[i - 1]);
    }
  }

  lemma StartTells(cfg: Config, w: World)
    requires Starts(w)
    ensures Accounted(cfg, iset{}, w)
  {
  }

  /** Every class in the table has a definition where its loader looks for one: a class that is no array is
      a primitive one, or on the boot class path and the boot loader's, or on the class path of its loader. */
  lemma OnlyDefinedArePublished(cfg: Config, run: seq<World>, i: nat, k: Key)
    requires ConfigOk(cfg) && IsRun(cfg, run) && i < |run| && k in run[i].state.table
    ensures match Element(k.descriptor)
            case Primitive(p) => p in cfg.primitives && k.loader == 0
            case e => if k.loader == 0 then e in cfg.boot else e !in cfg.boot && Key(e, k.loader) in cfg.paths
  {
    hide Inv, ConfigOk, Step, IsRun, AllTold;
    var turns := TurnsOf(cfg, run);
    RunTells(cfg, run, turns, i);
    HomeInTable(cfg, run[i], k);
    ElementHome(cfg, k.descriptor, k.loader);
  }

  lemma HomeInTable(cfg: Config, w: World, k: Key)
    requires Inv(cfg, w) && k in w.state.table
    ensures Home(cfg, k.descriptor, k.loader) == k.loader
  {
  }

  lemma TopIsTold(cfg: Config, w: World, failed: iset<Key>, t: ThreadId, i: nat)
    requires Accounted(cfg, failed, w) && i < |StackOf(w, t)|
    ensures Told(cfg, failed, StackOf(w, t)[i])
  {
    hide Told;
  }

  /** FindClass ends with nothing only for a class that is not defined, or when a turn before has decided
      that linking it, or its elements, fails. */
  lemma NothingOnlyIfUndefined(cfg: Config, run: seq<World>, turns: seq<Turn>, i: nat, t: ThreadId,
                               d: Descriptor, l: nat)
    requires ConfigOk(cfg) && IsRunBy(cfg, run, turns) && i <= |turns| && Returns(run[i], t, d, l, None)
    ensures !Defined(cfg, d, l) || ElementKey(cfg, d, l) in Failed(cfg, run, turns, i)
  {
    hide Step, Failed, Defined, ElementKey, Accounted, Inv, ConfigOk;
    RunTells(cfg, run, turns, i);
    TopIsTold(cfg, run[i], Failed(cfg, run, turns, i), t, |StackOf(run[i], t)| - 1);
  }

  /** FindClass ends with a class only if the class is defined. */
  lemma SomethingOnlyIfDefined(cfg: Config, run: seq<World>, i: nat, t: ThreadId, d: Descriptor, l: nat, c: Class)
    requires ConfigOk(cfg) && IsRun(cfg, run) && i < |run| && Returns(run[i], t, d, l, Some(c))
    ensures Defined(cfg, d, l)
  {
    hide Step, Defined, Inv, ConfigOk, IsRun, AllTold, Returns, Published, TableDefined, Home;
    var turns := TurnsOf(cfg, run);
    RunTells(cfg, run, turns, i);
    FindReturnsItsClass(cfg, run, i, t, d, l, c);
    PublishedIsDefined(cfg, run[i].state, c);
    ElementHome(cfg, d, l);
  }

  /** When no linking fails, FindClass finds exactly the classes that are defined, and no CHECK fails. */
  lemma FindsExactlyTheDefined(cfg: Config, run: seq<World>, turns: seq<Turn>, i: nat, t: ThreadId,
                               d: Descriptor, l: nat, answer: Option<Class>)
    requires ConfigOk(cfg) && IsRunBy(cfg, run, turns) && i <= |turns| && Returns(run[i], t, d, l, answer)
    requires forall j :: 0 <= j < i ==> turns[j].choice != Return(false)
    ensures answer.Some? <==> Defined(cfg, d, l)
    ensures forall u :: Aborted !in StackOf(run[i], u)
  {
    hide Step, Defined, ConfigOk, Returns, Refused;
    forall u ensures Aborted !in StackOf(run[i], u) {
      if Aborted in StackOf(run[i], u) { AbortsOnlyAfterAFailure(cfg, run, turns, i, u); }
    }
    NothingFails(cfg, run, turns, i);
    RunByIsRun(cfg, run, turns);
    match answer
    case Some(c) => SomethingOnlyIfDefined(cfg, run, i, t, d, l, c);
    case None => NothingOnlyIfUndefined(cfg, run, turns, i, t, d, l);
  }

  lemma NothingFails(cfg: Config, run: seq<World>, turns: seq<Turn>, i: nat)
    requires IsRunBy(cfg, run, turns) && i <= |turns|
    requires forall j :: 0 <= j < i ==> turns[j].choice != Return(false)
    ensures Failed(cfg, run, turns, i) == iset{}
  {
    hide Step, ImageFind;
  }

  /** A CHECK fails only when some linking has failed. */
  lemma AbortsOnlyAfterAFailure(cfg: Config, run: seq<World>, turns: seq<Turn>, i: nat, t: ThreadId)
    requires ConfigOk(cfg) && IsRunBy(cfg, run, turns) && i <= |turns| && Aborted in StackOf(run[i], t)
    ensures exists j :: 0 <= j < i && turns[j].choice == Return(false)
  {
    hide Step, Failed, Defined, ElementKey, Accounted, Inv, ConfigOk;
    RunTells(cfg, run, turns, i);
    var k :| 0 <= k < |StackOf(run[i], t)| && StackOf(run[i], t)[k] == Aborted;
    TopIsTold(cfg, run[i], Failed(cfg, run, turns, i), t, k);
    if forall j :: 0 <= j < i ==> turns[j].choice != Return(false) {
      NothingFails(cfg, run, turns, i);
    }
  }

  // The call by way of another loader learns that the boot loader's call has ended with nothing.
  predicate LearnsOfFailure(w: World, turn: Turn) {
    var stack := StackOf(w, turn.t);
    var n := |stack|;
    !turn.choice.MoveNow? && n > 1 && stack[n - 2].FindDelegates? && stack[n - 1].FindDone? && stack[n - 1].answer.None?
  }

  /** The CHECK fails exactly when a class of the boot class path is asked for by way of another loader and the boot
      loader's call for it has ended with nothing. */
  lemma AbortsExactly(cfg: Config, w: World, turn: Turn)
    requires ConfigOk(cfg) && Inv(cfg, w) && Aborted !in StackOf(w, turn.t)
    ensures Aborted in StackOf(Step(cfg, w, turn.t, turn.choice), turn.t) <==> LearnsOfFailure(w, turn)
  {
    var t, choice := turn.t, turn.choice;
    var stack := StackOf(w, t);
    var n := |stack|;
    assert StackOk(cfg, w.state, stack);
    hide ConfigOk, SharedOk, FrameOk, TopStep, Resume, Move;
    MoveKeeps(cfg, w.state);
    if !choice.MoveNow? && n > 0 {
      if !IsDone(stack[n - 1]) {
        TopDoesNotAbort(cfg, w, stack[n - 1], choice);
      } else if n > 1 {
        ResumeAborts(cfg, w, stack[n - 2], stack[n - 1], choice);
        var top := Resume(cfg, w, stack[n - 2], stack[n - 1], choice);
        assert Aborted in top ==> Aborted in stack[..n - 2] + top;
      }
    }
  }

  lemma TopDoesNotAbort(cfg: Config, w: World, f: Frame, choice: Choice)
    requires ConfigOk(cfg) && SharedOk(cfg, w.state) && f != Aborted && !IsDone(f)
    ensures Aborted !in TopStep(cfg, w, f, choice).top
  {
    hide ConfigOk, SharedOk, ImageFind, Move;
    MoveKeeps(cfg, w.state);
  }

  lemma ResumeAborts(cfg: Config, w: World, below: Frame, done: Frame, choice: Choice)
    requires IsDone(done) && ClassLookups.Fits(below, done) && below != Aborted
    ensures Aborted in Resume(cfg, w, below, done, choice) <==>
              below.FindDelegates? && done.FindDone? && done.answer.None?
  {
    hide ImageFind;
  }

  // ---- a lookup that nothing interrupts ------------------------------------------------------------------------

  // n steps of thread t.
  function Alone(cfg: Config, w: World, t: ThreadId, n: nat): World {
    if n == 0 then w else Step(cfg, Alone(cfg, w, t, n - 1), t, Return(true))
  }

  ghost predicate At(w: World, s: State, t: ThreadId, below: Stack, f: Frame) {
    w.state == s && StackOf(w, t) == below + [f]
  }

  lemma OneAlone(cfg: Config, w: World, s: State, t: ThreadId, below: Stack, f: Frame, n: nat)
    returns (s': State, g: Frame)
    requires At(Alone(cfg, w, t, n), s, t, below, f) && (f.LookupMove? ==> Move(s, cfg.image).Some?)
    requires f.Lookup? || f.LookupFlag? || f.LookupImage? || f.LookupInsert? || f.LookupCount? || f.LookupMove?
    ensures At(Alone(cfg, w, t, n + 1), s', t, below, g)
    ensures var e := TopStep(cfg, World(s, w.next, map[]), f, Return(true)); s' == e.state && e.top == [g]
  {
    hide ImageFind, Move;
    var v := Alone(cfg, w, t, n);
    var e := TopStep(cfg, v, f, Return(true));
    assert StackOf(v, t)[..|below|] == below;
    s', g := e.state, e.top[0];
  }

  /** The steps of a lookup, taken one after the other, answer and leave behind what `ClassTable` says a
      lookup does: it counts the misses, and moves the image's classes after the last one allowed. */
  lemma LookupAlone(cfg: Config, w: World, t: ThreadId, below: Stack, d: Descriptor, l: nat) returns (n: nat)
    requires ConfigOk(cfg) && SharedOk(cfg, w.state) && StackOf(w, t) == below + [Lookup(d, l)]
    ensures var s, k := w.state, Key(d, l);
            && AfterLookup(s, cfg.image, k).Some?
            && At(Alone(cfg, w, t, n), AfterLookup(s, cfg.image, k).value, t, below,
                 LookupDone(d, l, Answer(s.table, s.pending, cfg.image, k)))
  {
    hide Alone, At, ConfigOk, StateOk, ImageFind, Move, Home, Step, StackOf;
    var s, k := w.state, Key(d, l);
    StartsAlone(cfg, w, t, below, Lookup(d, l));
    var s1, f := OneAlone(cfg, w, s, t, below, Lookup(d, l), 0);
    n := 1;
    if k !in s.table {
      s1, f := OneAlone(cfg, w, s, t, below, f, 1);
      n := 2;
      if l == 0 && s.pending {
        s1, f := OneAlone(cfg, w, s, t, below, f, 2);
        s1, f := OneAlone(cfg, w, s, t, below, f, 3);
        n := 4;
        if f.LookupMove? {
          CountedMoves(cfg, s, s1);
          s1, f := OneAlone(cfg, w, s1, t, below, f, 4);
          n := 5;
        }
      }
    }
  }

  lemma StartsAlone(cfg: Config, w: World, t: ThreadId, below: Stack, f: Frame)
    requires StackOf(w, t) == below + [f]
    ensures At(Alone(cfg, w, t, 0), w.state, t, below, f)
  {
  }

  lemma CountedMoves(cfg: Config, s: State, counted: State)
    requires ConfigOk(cfg) && SharedOk(cfg, s) && counted == s.(failed := counted.failed)
    ensures Move(counted, cfg.image).Some?
  {
    hide Home;
    assert SharedOk(cfg, counted);
    MoveKeeps(cfg, counted);
  }
}
