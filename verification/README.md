# A verified model of the ART class linker, image and oat writers, dex reader and JDWP spy

This Dafny project models the parts of the vendored ART runtime (KitKat MR1.1, under
`jni/art-kitkat-mr1.1-release`) that decide what is correct about loaded classes and written files, and
proves properties of them for all inputs, all runs and all interleavings.
`dafny verify dfyconfig.toml` checks the whole project.

| module | what it models |
|---|---|
| `ClassInit`, `ClassInitSafety`, `ClassInitRuns`, `ClassInitOutcomes` | `VerifyClass`, `InitializeClass` and `WaitForInitializeClass` as a state machine: threads with stacks of activations, monitors scoped to activations, steps that interleave freely |
| `LoadingSpec`, `ClassLoading` | single-threaded `FindClass` with its recursion through `DefineClass` and `CreateArrayClass` |
| `ClassTable`, `ClassLookups`, `ClassOutcomes` | `class_table_` as a multimap behind a hash function, the image's classes beside it, and threads that look up, define and create classes |
| `FieldLayout`, `ReferenceOffsets`, `InstanceLayout` | `LinkFields` and `SizeOfClass`, the bitmaps of reference offsets, and the image writer's walk over the references of an instance |
| `MethodTables`, `InterfaceTables` | vtables, interface tables and miranda methods |
| `OutputStreams` | the file, buffered and vector output streams |
| `OatLayout`, `OatBlobs`, `OatPieces`, `OatWriter` | the two passes of `OatWriter`: offsets first, bytes afterwards |
| `OatFile`, `OatReadBack` | the reader of oat files, `OatFile::Setup` and its lookups, and what it finds in a written file |
| `HeapObjects`, `ImageWriter` | slots of the image, string interning, copying, and relocation by the hierarchies of the objects' classes |
| `ElfStripper` | moving the kept sections together inside the mapped file |
| `DexSignatures`, `TryBlocks` | binary searches, method signatures, try items and catch handlers |
| `Leb128`, `DebugInfo` | LEB128 numbers and the byte-coded line program |
| `JdwpProxy` | the forwarding loop of the JDWP spy |
| `Sequences`, `Alignment`, `Bytes`, `Options` | shared definitions |

Code that changes things in place is modelled by classes, arrays and loops, each method being proved against
a specification function or a stated property; pure code by functions; concurrent code by functions from
state to state, one per step. The lemmas then say what the specifications are for.

## Where the code falls short of its purpose

The model follows the code. Where a property that one would expect is false, a lemma gives the exact
condition under which it holds, or an input that shows that it fails.

- Loading a cyclic hierarchy does not end with erroneous classes: `EnsureResolved` makes the class on which
  the cycle closes erroneous, then the frame of `DefineClass` that was loading it does so again, and the
  CHECK in `SetStatus` (`runtime/mirror/class.cc:69`) ends the process. `ClassLoading.ClassLinker.Load` says
  exactly when (the causes run in a cycle); `CyclicHierarchyAborts` runs the smallest example.
- `VerifyClass` compares the status of the superclass (line 2487) without its monitor. If the superclass
  fails its initialisation meanwhile, the CHECK fails: `OnlyTheSuperStatusCheckFails` (exactly then) and
  `TheSuperStatusCheckCanFail` (a run).
- A class may become verified although its superclass is not any more: outside the compiler a class with a soft
  verifier failure is marked verified (line 2500) without another look at the superclass, which may have failed
  its initialisation meanwhile: `VerifiedAfterSuper` (if and only if), `AClassIsVerifiedBelowAFailedOne` (a run).
  Everywhere else the superclass is verified: `VerifiedOnlyAfterSuper`.
- `LookupClass` reads `dex_cache_image_class_lookup_required_` without the lock, so a move by another thread
  makes it answer NULL for a class of the image: `MissesOnlyAcrossAMove` (exactly when) and `LookupCanMiss`
  (a run). `FindClass` is not affected, because `InsertClass` finds the class afterwards:
  `ImageClassesAreFound`.
- When a class of the boot class path is asked for by way of another loader and fails to link, `FindClass` does not
  return NULL but fails a CHECK: `ClassOutcomes.AbortsExactly`, `AbortsOnlyAfterAFailure`.
- `FixupFields` looks for the field `referent` by name and type from the instance's class upwards. A subclass
  of `java.lang.ref.Reference` with its own `referent` of type `Object` hides the real one, whose word is
  then not relocated: `ReferenceInstances` (if and only if), `ReferentCanBeMissed` (such a hierarchy), and
  `ImageIsRight` for the finished image.
- Strings with the same text share a slot of the image, and each of them is copied to it; the last one stays:
  `LastAtIsLast`, `SlotHoldsEqual`.
- A seek from the end leads to different places in a file and in a vector once a position has been beyond the
  end of the file: `SeeksAgree`, `SeeksDisagree`. A large write through the buffered stream reports success
  although flushing the pending bytes has failed: `BufferedOutputStream.WriteFully`, `LargeWriteLosesBytes`.
- `CreateTypeList` accepts several closing parentheses in a row: `AcceptedTexts`, `PrintsParsed`.
- `FindStringId` for UTF-16 text compares with a function that never advances in it, and finds nothing but
  the empty string: `FindStringIdUtf16`.
- The operand that the Dalvik Executable format gives DBG_SET_FILE (section "debug_info_item") is not skipped:
  it is run as an instruction, which is right if and only if it does nothing: `OperandIsRun`. Programs without
  other operands follow the format (`TableFollowsFormat`); what other ones lose or add is `ActingOperand`, and
  `SetFileOperandIsRun` is an input. With an address overflow the early exit of the line search misses entries:
  `EarlyExitIsExact` (exactly when), `OverflowHidesAnEntry`.

## Model

| member | source | states |
|---|---|---|
| ClassInitSafety.StepKeeps | jni/art-kitkat-mr1.1-release/runtime/class_linker.cc:2398-3132 | every step of every thread, in `VerifyClass`, `InitializeClass` or `WaitForInitializeClass`, keeps the invariant on statuses, monitors and activation stacks; no fatal check fails but the one on line 2487 |
| ClassInitRuns.RunKeeps | jni/art-kitkat-mr1.1-release/runtime/class_linker.cc:2398-3132 | so the invariant holds in every state of every interleaving that begins with resolved classes and idle threads |
| ClassInitRuns.RunIsMonotone | jni/art-kitkat-mr1.1-release/runtime/class_linker.cc:2938-3132 | an initialised class stays initialised and an erroneous one erroneous |
| ClassInitRuns.InitializerStartsOnce | jni/art-kitkat-mr1.1-release/runtime/class_linker.cc:2983-3063 | each class's initialiser is started at most once in a run |
| ClassInitRuns.TrueOnlyIfReady | jni/art-kitkat-mr1.1-release/runtime/class_linker.cc:2934-3132 | `InitializeClass` returns true only if the class is initialised or is being initialised by the same thread, and false only if it is erroneous or, in the compiler, left to run-time verification |
| ClassInitRuns.SuperclassFirst | jni/art-kitkat-mr1.1-release/runtime/class_linker.cc:3013-3063 | when the initialiser of a class that is not an interface starts, its superclass is initialised, or is being initialised by the same thread |
| ClassInitRuns.OneInitializer | jni/art-kitkat-mr1.1-release/runtime/class_linker.cc:2952-3011 | no two activations, on any threads, initialise the same class at the same time |
| ClassInitRuns.VerifyEndsSettled | jni/art-kitkat-mr1.1-release/runtime/class_linker.cc:2398-2520 | `VerifyClass` leaves the class verified (or later) or erroneous; only the compiler may leave it to run-time verification |
| ClassInitRuns.VerifiedAfterSuper | jni/art-kitkat-mr1.1-release/runtime/class_linker.cc:2428-2502 | when a class becomes verified its superclass is, or has been at an earlier state of the run, at least verified; it is not so any more if and only if the step accepts a soft failure outside the compiler and the superclass has become erroneous |
| ClassInitRuns.VerifiedOnlyAfterSuper | jni/art-kitkat-mr1.1-release/runtime/class_linker.cc:2481-2501 | so in the compiler, and wherever no soft failure is accepted, the superclass is at least verified when the class becomes verified |
| ClassInitRuns.AClassIsVerifiedBelowAFailedOne | jni/art-kitkat-mr1.1-release/runtime/class_linker.cc:2492-2501 | a two-thread run in which a class with a soft failure becomes verified below an erroneous superclass |
| ClassInitRuns.OnlyTheSuperStatusCheckFails | jni/art-kitkat-mr1.1-release/runtime/class_linker.cc:2398-2520 | of all fatal checks on these paths only the one on line 2487 can fail, and it fails exactly when the superclass has become erroneous since it was looked at under its monitor |
| ClassInitRuns.TheSuperStatusCheckCanFail | jni/art-kitkat-mr1.1-release/runtime/class_linker.cc:2481-2491 | a two-thread run in which that check fails |
| ClassInitRuns.OneThreadNeverFails | jni/art-kitkat-mr1.1-release/runtime/class_linker.cc:2398-3132 | with a single thread no fatal check ever fails |
| ClassInitOutcomes.RejectedEndsErroneous | jni/art-kitkat-mr1.1-release/runtime/class_linker.cc:2428-2511 | a class whose verification fails hard, or was recorded in the oat file as failing, is erroneous from then on; so is one whose descriptors are refused, or whose superclass is found erroneous |
| ClassInitOutcomes.InitializerDecides | jni/art-kitkat-mr1.1-release/runtime/class_linker.cc:3048-3100 | once its initialiser has ended a class is only ever erroneous, if there was an exception, or initialised, if there was none; until that is recorded it is being initialised |
| ClassInitOutcomes.ErroneousExactly | jni/art-kitkat-mr1.1-release/runtime/class_linker.cc:2398-3132 | in every run a class becomes erroneous if and only if its verification has failed hard, its descriptors have been refused, its superclass has been found erroneous, or its initialiser has thrown and this is recorded |
| ClassInitOutcomes.InitializedExactly | jni/art-kitkat-mr1.1-release/runtime/class_linker.cc:3013-3100 | and initialised if and only if its initialiser has ended without an exception and this is recorded |
| ClassInitOutcomes.VerdictDecides | jni/art-kitkat-mr1.1-release/runtime/class_linker.cc:2455-2502 | a verification that ends without a failure was judged by the same thread just before: after a soft failure the class is verified, or in the compiler left to run-time verification; without one it is verified when its superclass is, and otherwise left to run-time verification like that |
| ClassInitOutcomes.NobodyElseChanges | jni/art-kitkat-mr1.1-release/runtime/class_linker.cc:2398-2511 | while a thread verifies a class, or is about to claim it, or looks at it as the superclass of what it verifies, no other thread changes the status of that class |
| ClassInitOutcomes.OnlyClassesAwaitSuper | jni/art-kitkat-mr1.1-release/runtime/class_linker.cc:3013-3018 | an interface never waits for its superclass to be initialised |
| LoadingSpec.LoadableUnfolds | jni/art-kitkat-mr1.1-release/runtime/class_linker.cc:1300-1462 | a class can be loaded exactly when it has a definition that links, and everything it is made from is accessible and can be loaded |
| LoadingSpec.LoadableExactly | jni/art-kitkat-mr1.1-release/runtime/class_linker.cc:1300-1462 | a class can be loaded if and only if every class on every chain of dependencies from it passes its own checks (it is present, links, and its supers are accessible) and no such chain meets a class twice |
| LoadingSpec.LoadableIsAcyclic | jni/art-kitkat-mr1.1-release/runtime/class_linker.cc:3273-3314 | everything on a chain of dependencies of a loadable class can be loaded, and no two places of the chain hold the same class |
| LoadingSpec.CauseIsBad | jni/art-kitkat-mr1.1-release/runtime/class_linker.cc:3273-3314 | the first class that a class needs and that cannot be loaded is the cause of its failure, and is itself not loadable |
| LoadingSpec.CyclesDoNotEnd | jni/art-kitkat-mr1.1-release/runtime/class_linker.cc:1270-1277 | causes that run in a cycle never end: a failure has one of two kinds |
| ClassLoading.ClassLinker.Load | jni/art-kitkat-mr1.1-release/runtime/class_linker.cc:1300-1462 | single-threaded loading terminates over every class path; it finds the class exactly when everything it depends on is present, sound and free of cycles, fails exactly when the causes end, with every class on the way erroneous, and aborts exactly when they run in a cycle |
| ClassLoading.ClassLinker.FindClass | jni/art-kitkat-mr1.1-release/runtime/class_linker.cc:1300-1342 | the same for the nested calls: what is being loaded stays so, or is the class on which the cycle closes |
| ClassLoading.ClassLinker.EnsureResolved | jni/art-kitkat-mr1.1-release/runtime/class_linker.cc:1264-1289 | a class met while it is being loaded closes a cycle and is made erroneous |
| ClassLoading.ClassLinker.CreateArrayClass | jni/art-kitkat-mr1.1-release/runtime/class_linker.cc:2043-2163 | an array class is found exactly when its component is |
| ClassLoading.ClassLinker.DefineClass | jni/art-kitkat-mr1.1-release/runtime/class_linker.cc:1382-1462 | the class enters the table before its superclass and interfaces are looked for, and ends resolved or erroneous, or the process aborts |
| ClassLoading.ClassLinker.LoadSuperAndInterfaces | jni/art-kitkat-mr1.1-release/runtime/class_linker.cc:3273-3314 | succeeds exactly when superclass and interfaces are loadable and accessible; otherwise says which class is the cause |
| ClassLoading.Outcomes | jni/art-kitkat-mr1.1-release/runtime/class_linker.cc:1264-1289 | failing and aborting exclude each other and cover everything that is not loadable |
| ClassLoading.CyclicHierarchyAborts | jni/art-kitkat-mr1.1-release/runtime/mirror/class.cc:53-107 | two classes that extend each other: loading either of them aborts, since `SetStatus` refuses to make a class erroneous twice |
| ClassTable.MoveAddsTheImage | jni/art-kitkat-mr1.1-release/runtime/class_linker.cc:2303-2336 | moving the image's classes fails on a clash exactly when there is one; otherwise the table gains all of them and nothing else |
| ClassTable.MoveKeepsAnswers | jni/art-kitkat-mr1.1-release/runtime/class_linker.cc:2303-2336 | moving the image's classes changes the answer of no lookup |
| ClassTable.LookupKeepsAnswers | jni/art-kitkat-mr1.1-release/runtime/class_linker.cc:2240-2268 | nor does any lookup, whatever it finds and however many have failed before it |
| ClassTable.InsertionHolds | jni/art-kitkat-mr1.1-release/runtime/class_linker.cc:2193-2222 | after an insertion the multimap still has each class once, under its own hash code, and one class for a key |
| ClassTable.ClassMap.LookupClassFromTableLocked | jni/art-kitkat-mr1.1-release/runtime/class_linker.cc:2270-2293 | the search of one bucket answers for the whole multimap |
| ClassTable.ClassMap.InsertClass | jni/art-kitkat-mr1.1-release/runtime/class_linker.cc:2193-2222 | returns the class that is there already, or enters the new one |
| ClassTable.ClassMap.LookupClassFromImage | jni/art-kitkat-mr1.1-release/runtime/class_linker.cc:2338-2378 | the first resolved class with the descriptor in the image's dex caches |
| ClassTable.ClassMap.MoveImageClassesToClassTable | jni/art-kitkat-mr1.1-release/runtime/class_linker.cc:2303-2336 | moves class by class; does not succeed exactly when the table holds another class for one of them |
| ClassTable.ClassMap.LookupClass | jni/art-kitkat-mr1.1-release/runtime/class_linker.cc:2240-2268 | answer and new state of an undisturbed lookup, at every count of failed ones |
| ClassLookups.StepKeeps | jni/art-kitkat-mr1.1-release/runtime/class_linker.cc:2043-2378 | every step of every thread in `FindClass`, `LookupClass`, `DefineClass` and `CreateArrayClass`, and a move at any time, keeps the invariant; entries of the table stay |
| ClassLookups.RunKeeps | jni/art-kitkat-mr1.1-release/runtime/class_linker.cc:1300-1462 | the invariant holds in every state of every run |
| ClassLookups.PublishedOnce | jni/art-kitkat-mr1.1-release/runtime/class_linker.cc:1417-1430 | at most one class is ever published for a descriptor and a loader, and it stays published |
| ClassLookups.FindReturnsItsClass | jni/art-kitkat-mr1.1-release/runtime/class_linker.cc:1300-1380 | a successful `FindClass` returns a published class with the descriptor asked for, of the loader it belongs to |
| ClassLookups.FindsAgree | jni/art-kitkat-mr1.1-release/runtime/class_linker.cc:2240-2268 | any two successful calls for the same class, by any threads at any times, return the same one |
| ClassLookups.ImageClassesAreFound | jni/art-kitkat-mr1.1-release/runtime/class_linker.cc:2338-2378 | every `FindClass` for a class of the image ends with it, even if its lookup has missed it |
| ClassLookups.MissesOnlyAcrossAMove | jni/art-kitkat-mr1.1-release/runtime/class_linker.cc:2240-2268 | in any run, of a lookup that searches the table in one state and reads the flag in a later one: it misses a class of the image if and only if the class was not in the table at the search and the flag is down at the reading; then the move came between the two. Otherwise it finds the class in the table or goes on to the image |
| ClassLookups.LookupCanMiss | jni/art-kitkat-mr1.1-release/runtime/class_linker.cc:2250-2252 | a run in which that happens |
| ClassOutcomes.OnlyDefinedArePublished | jni/art-kitkat-mr1.1-release/runtime/class_linker.cc:1322-1345 | in every state of every run, each class in the table, or its element class, is a primitive one, is on the boot class path and belongs to the boot loader, or is not on it and is on the class path of its loader |
| ClassOutcomes.NothingOnlyIfUndefined | jni/art-kitkat-mr1.1-release/runtime/class_linker.cc:1300-1380 | `FindClass` ends with nothing only for a class that has no such definition, or of which an earlier turn has decided that linking it (or its elements), or waiting for it, fails |
| ClassOutcomes.SomethingOnlyIfDefined | jni/art-kitkat-mr1.1-release/runtime/class_linker.cc:1300-1380 | it ends with a class only if there is such a definition |
| ClassOutcomes.FindsExactlyTheDefined | jni/art-kitkat-mr1.1-release/runtime/class_linker.cc:1300-1380 | so when nothing fails, the calls that end with a class are exactly those for a class that is defined, and no CHECK fails |
| ClassOutcomes.AbortsOnlyAfterAFailure | jni/art-kitkat-mr1.1-release/runtime/class_linker.cc:1334-1337 | the CHECK on the boot loader's class fails only if some linking has failed before |
| ClassOutcomes.AbortsExactly | jni/art-kitkat-mr1.1-release/runtime/class_linker.cc:1334-1337 | and it fails exactly when a class of the boot class path is asked for by way of another loader and the boot loader's call for it has ended with nothing |
| ClassOutcomes.LookupAlone | jni/art-kitkat-mr1.1-release/runtime/class_linker.cc:2240-2268 | the steps of a lookup that nothing interrupts end with the answer and the state that `ClassTable` gives for it, with the count of misses |
| FieldLayout.SlotsAreDisjoint | jni/art-kitkat-mr1.1-release/runtime/class_linker.cc:3753-3903 | laid out in order, fields are apart, aligned to their size, behind the superclass's fields and within the object |
| FieldLayout.OrderIsStable | jni/art-kitkat-mr1.1-release/runtime/class_linker.cc:3720-3751 | the order does not depend on the order in the dex file unless two fields of a group share a name |
| FieldLayout.SortedByName | jni/art-kitkat-mr1.1-release/runtime/class_linker.cc:3742-3747 | the references, the 64-bit and the 32-bit fields are each in the order of their names: the smaller character at the first difference, or the beginning of the other name, comes first |
| FieldLayout.ReferentEndsTheOrder | jni/art-kitkat-mr1.1-release/runtime/class_linker.cc:3845-3854 | the checks on java.lang.ref.Reference pass if and only if all its fields are references and none has a name behind `referent`, which is one of them |
| FieldLayout.ReferenceFieldsAreFine | jni/art-kitkat-mr1.1-release/runtime/class_linker.cc:3845-3854 | they pass for fields named `pendingNext`, `queue`, `queueNext` and `referent` |
| FieldLayout.LayoutIsTight | jni/art-kitkat-mr1.1-release/runtime/class_linker.cc:3785-3843 | references come first; the only gap is one of four bytes behind them, exactly when they end off an 8-byte boundary, a 64-bit field follows and no 32-bit field can fill it; the end is what counting the kinds gives |
| FieldLayout.LinkFields | jni/art-kitkat-mr1.1-release/runtime/class_linker.cc:3753-3903 | in place: a sorted permutation of the fields, one 32-bit field pulled forward when needed, each with its offset, the object's size and the number of references; it ends well for java.lang.ref.Reference exactly when `referent` is the last of its names |
| FieldLayout.PlaceReferences | jni/art-kitkat-mr1.1-release/runtime/class_linker.cc:3785-3800 | the loop over the references |
| FieldLayout.PullNarrow | jni/art-kitkat-mr1.1-release/runtime/class_linker.cc:3802-3822 | the search for the 32-bit field that fills the gap |
| FieldLayout.PlaceRest | jni/art-kitkat-mr1.1-release/runtime/class_linker.cc:3824-3843 | the loop over the remaining fields |
| FieldLayout.SizeOfClass | jni/art-kitkat-mr1.1-release/runtime/class_linker.cc:1464-1503 | the size of a class object, by counting the descriptors of its static fields |
| FieldLayout.StaticSizesAgree | jni/art-kitkat-mr1.1-release/runtime/class_linker.cc:1464-1503 | laying the static fields out ends at that size, for every mix of fields |
| FieldLayout.LinkStaticFields | jni/art-kitkat-mr1.1-release/runtime/class_linker.cc:3712-3718 | so the check of the class size never fails |
| ReferenceOffsets.BitmapMeansWalk | jni/art-kitkat-mr1.1-release/runtime/class_linker.cc:3925-3955 | decoding an inherited bitmap bit by bit visits the offsets that walking the superclasses visits, each once, unless it is the walk marker |
| ReferenceOffsets.OverflowIsInherited | jni/art-kitkat-mr1.1-release/runtime/class_linker.cc:3907-3919 | the walk marker is inherited by every subclass |
| ReferenceOffsets.OverflowsExactly | jni/art-kitkat-mr1.1-release/runtime/mirror/class.h:30-56 | a class has the walk marker exactly when one of its references is at or beyond byte 128, or its only ones are those whose bits form the marker |
| ReferenceOffsets.FieldsAreApart | jni/art-kitkat-mr1.1-release/runtime/class_linker.cc:3707-3710 | along every hierarchy the fields of all classes are apart, aligned, in the order of the classes, and within the object |
| ReferenceOffsets.PlainInstances | jni/art-kitkat-mr1.1-release/compiler/image_writer.cc:603-647 | in an instance of a class that is no `java.lang.ref.Reference` every word that holds a reference is rewritten exactly once, and no other word |
| ReferenceOffsets.ReferenceInstances | jni/art-kitkat-mr1.1-release/compiler/image_writer.cc:632-646 | in an instance of a subclass of `java.lang.ref.Reference` the same holds if and only if no class below it declares a field `referent` of type `Object` |
| ReferenceOffsets.ReferenceVisits | jni/art-kitkat-mr1.1-release/compiler/image_writer.cc:603-647 | whether or not there is such a field, every reference is rewritten but the hidden referent |
| ReferenceOffsets.ReferentCanBeMissed | jni/art-kitkat-mr1.1-release/compiler/image_writer.cc:638-645 | a hierarchy of three classes in which the referent is missed |
| InstanceLayout.LinkInstanceFields | jni/art-kitkat-mr1.1-release/runtime/class_linker.cc:3707-3710 | the fields of a class are laid out behind its superclass's, along every chain of superclasses |
| InstanceLayout.CreateReferenceOffsets | jni/art-kitkat-mr1.1-release/runtime/class_linker.cc:3925-3955 | the loop that sets the bits, and stops with the walk marker |
| InstanceLayout.CreateReferenceInstanceOffsets | jni/art-kitkat-mr1.1-release/runtime/class_linker.cc:3907-3919 | a class's word is the bitmap of the references of its whole chain |
| InstanceLayout.FixupByBitmap | jni/art-kitkat-mr1.1-release/compiler/image_writer.cc:608-618 | the loop over the bits, from the highest |
| InstanceLayout.FixupByWalk | jni/art-kitkat-mr1.1-release/compiler/image_writer.cc:619-631 | the loops over the superclasses and their fields |
| InstanceLayout.FindInstanceField | jni/art-kitkat-mr1.1-release/runtime/mirror/class.cc:455-499 | the field that is found is the one of the lowest class that declares it |
| InstanceLayout.FixupFields | jni/art-kitkat-mr1.1-release/compiler/image_writer.cc:603-647 | rewrites in the image exactly the words listed by `ReferenceOffsets.Visits`, each as the original word relocated; nothing where there is no bitmap |
| InstanceLayout.ClassObjectVisits | jni/art-kitkat-mr1.1-release/compiler/image_writer.cc:510-513 | in the object of a class the instance fields of `java.lang.Class` and the static fields of the class together list every word that holds a reference once, and no other word |
| MethodTables.SlotsKeepSignatures | jni/art-kitkat-mr1.1-release/runtime/class_linker.cc:3412-3443 | an inherited slot keeps name and signature; its method changes only to a declared one that may access what it replaces |
| MethodTables.FinalMethodsStay | jni/art-kitkat-mr1.1-release/runtime/class_linker.cc:3419-3430 | in a link that succeeds no final method is displaced |
| MethodTables.EachMethodHasOneSlot | jni/art-kitkat-mr1.1-release/runtime/class_linker.cc:3412-3443 | every declared virtual method occupies exactly one slot |
| MethodTables.FindOverridden | jni/art-kitkat-mr1.1-release/runtime/class_linker.cc:3415-3436 | the loop finds the first accessible slot with the signature |
| MethodTables.LinkVirtualMethods | jni/art-kitkat-mr1.1-release/runtime/class_linker.cc:3396-3479 | fails exactly when a final method would be overridden or the table gets too long; otherwise the method in slot j has index j |
| InterfaceTables.FlattenedTable | jni/art-kitkat-mr1.1-release/runtime/class_linker.cc:3519-3577 | the table of interfaces keeps the superclass's as a prefix, lists none twice, and lists exactly the superinterfaces of the class, direct and inherited |
| InterfaceTables.FlattenInterfaces | jni/art-kitkat-mr1.1-release/runtime/class_linker.cc:3519-3577 | the loops that build it; they fail exactly on a class that is no interface |
| InterfaceTables.ResolveMethod | jni/art-kitkat-mr1.1-release/runtime/class_linker.cc:3605-3657 | an interface method gets the last method of the table with its signature, or a miranda, one for a signature, which is a copy of it |
| InterfaceTables.ResolveInterfaces | jni/art-kitkat-mr1.1-release/runtime/class_linker.cc:3593-3659 | all entries of all interfaces are resolved, or the first method that is not accessible is reported |
| InterfaceTables.AppendMirandas | jni/art-kitkat-mr1.1-release/runtime/class_linker.cc:3660-3695 | the mirandas follow the table, each with the index of its slot |
| InterfaceTables.LinkInterfaceMethods | jni/art-kitkat-mr1.1-release/runtime/class_linker.cc:3481-3705 | fails exactly when an interface is none or an implementation is not public; otherwise every table of entries is right for the final table |
| InterfaceTables.EntriesAreInTheTable | jni/art-kitkat-mr1.1-release/runtime/class_linker.cc:3593-3695 | every entry is a method of the final table with the same name and signature: the last one |
| InterfaceTables.MirandasAreUnique | jni/art-kitkat-mr1.1-release/runtime/class_linker.cc:3632-3656 | a miranda is the only method of the final table with its signature |
| InterfaceTables.MirandasAreOpen | jni/art-kitkat-mr1.1-release/runtime/class_linker.cc:3644-3650 | when the methods of the interfaces are public, abstract and not final, so are the mirandas |
| InterfaceTables.MirandaIsImplemented | jni/art-kitkat-mr1.1-release/runtime/class_linker.cc:3412-3443 | then a subclass that declares a public method of the signature takes the miranda's slot, displaces no final method there, and its method is the one the interface finds, and may be called through it |
| InterfaceTables.LinkMethods | jni/art-kitkat-mr1.1-release/runtime/class_linker.cc:3375-3394 | fails exactly when one of the parts does; otherwise a class linked after its superclass and interfaces has the superclass's table overridden, its own methods and its mirandas, which are copies of methods of its interfaces, and is linked like them |
| OutputStreams.BufferedOutputStream.WriteFully | jni/art-kitkat-mr1.1-release/compiler/buffered_output_stream.cc:26-41 | a write appends to the stream, except that one larger than the buffer does not see that flushing failed: exactly then the pending bytes are lost |
| OutputStreams.BufferedOutputStream.Flush | jni/art-kitkat-mr1.1-release/compiler/buffered_output_stream.cc:43-50 | what was pending is written, or lost |
| OutputStreams.BufferedOutputStream.SeekTo | jni/art-kitkat-mr1.1-release/compiler/buffered_output_stream.cc:52-57 | flushes first, so the position it reports is the one in the stream |
| OutputStreams.ReplayBuffered | jni/art-kitkat-mr1.1-release/compiler/buffered_output_stream.cc:26-57 | every sequence of writes and seeks over a file that does not fail reports the positions of unbuffered writing, and ends with the same bytes when it ends with a seek |
| OutputStreams.VectorOutputStream.WriteFully | jni/art-kitkat-mr1.1-release/compiler/vector_output_stream.h:34-55 | appends at the end of the vector, overwrites and extends elsewhere |
| OutputStreams.VectorOutputStream.SeekTo | jni/art-kitkat-mr1.1-release/compiler/vector_output_stream.cc:26-46 | extends the vector with zeros up to the new position, and goes where it is told, even before the start |
| OutputStreams.ReplayVector | jni/art-kitkat-mr1.1-release/compiler/vector_output_stream.h:34-55 | every sequence of writes and seeks in which no seek leads before the start or counts from the end of a file with positions beyond it leaves the bytes of the file, with skipped ranges zero, and reports the same positions |
| OutputStreams.SeeksAgree | jni/art-kitkat-mr1.1-release/compiler/vector_output_stream.cc:26-46 | a seek aims at the same place in file and vector if and only if it is not one from the end after a position beyond the end of the file; and exactly when they end up in the same place, a file refusing to go before its start |
| OutputStreams.SeeksDisagree | jni/art-kitkat-mr1.1-release/compiler/vector_output_stream.cc:26-46 | two seeks after which file and vector are at different places |
| OutputStreams.LargeWriteLosesBytes | jni/art-kitkat-mr1.1-release/compiler/buffered_output_stream.cc:26-41 | a large write that succeeds although the pending byte has been lost |
| OutputStreams.SameContents | jni/art-kitkat-mr1.1-release/compiler/buffered_output_stream.cc:26-57 | after the operations that any steady writer has done on a vector, and a final seek, a buffered file holds what the vector holds, but for zeros behind the last write |
| OatBlobs.LaysKnown | jni/art-kitkat-mr1.1-release/compiler/oat_writer.cc:274-396 | after any number of methods the four maps describe places before the offset, and the places are aligned |
| OatBlobs.MapsGrow | jni/art-kitkat-mr1.1-release/compiler/oat_writer.cc:302-396 | places once recorded do not change |
| OatBlobs.SkipsWrittenCode | jni/art-kitkat-mr1.1-release/compiler/oat_writer.cc:695-716 | comparing positions skips a method's code exactly when it was laid out for an earlier method |
| OatBlobs.SkipsWrittenTables | jni/art-kitkat-mr1.1-release/compiler/oat_writer.cc:720-789 | and a table exactly when it was laid out for an earlier method or is empty |
| OatBlobs.BlobsLieApart | jni/art-kitkat-mr1.1-release/compiler/oat_writer.cc:302-396 | no two distinct blobs of the file overlap, however methods share them |
| OatPieces.BlobsGrow | jni/art-kitkat-mr1.1-release/compiler/oat_writer.cc:663-794 | emitting a blob where it was first met, and nothing elsewhere, puts every blob where it is recorded |
| OatPieces.ListGrows | jni/art-kitkat-mr1.1-release/compiler/oat_writer.cc:663-794 | an entry for a blob met for the first time keeps the list of what was emitted complete and without repetition |
| OatPieces.FilledMore | jni/art-kitkat-mr1.1-release/compiler/oat_writer.cc:663-794 | and the bytes behind the trampolines remain the contents of that list in order, with zeros between them |
| OatWriter.OatWriter.constructor | jni/art-kitkat-mr1.1-release/compiler/oat_writer.cc:38-85 | the layout pass: every offset, and the size |
| OatWriter.OatWriter.InitOatClasses | jni/art-kitkat-mr1.1-release/compiler/oat_writer.cc:134-171 | the places of the class records, in the order of dex files and classes |
| OatWriter.OatWriter.InitOatCode | jni/art-kitkat-mr1.1-release/compiler/oat_writer.cc:173-208 | code starts on a page, with the trampolines if there are any |
| OatWriter.OatWriter.InitOatCodeMethod | jni/art-kitkat-mr1.1-release/compiler/oat_writer.cc:274-396 | the offsets of one method, with what is shared found in the maps |
| OatWriter.OatWriter.WriteDexFiles | jni/art-kitkat-mr1.1-release/compiler/oat_writer.cc:509-540 | copies of dex files begin where their records say |
| OatWriter.OatWriter.WriteOatDexFile | jni/art-kitkat-mr1.1-release/compiler/oat_writer.cc:823-855 | the record of a dex file, at its recorded offset |
| OatWriter.OatWriter.WriteOatClass | jni/art-kitkat-mr1.1-release/compiler/oat_writer.cc:884-905 | the record of a class, at its recorded offset |
| OatWriter.OatWriter.WriteCode | jni/art-kitkat-mr1.1-release/compiler/oat_writer.cc:542-580 | padding and trampolines, each at its recorded offset |
| OatWriter.OatWriter.WriteCodeMethod | jni/art-kitkat-mr1.1-release/compiler/oat_writer.cc:663-794 | writes those blobs of a method that are not in the file, at the offset the layout recorded |
| OatWriter.OatWriter.WriteCodeDexFiles | jni/art-kitkat-mr1.1-release/compiler/oat_writer.cc:582-611 | every method of every class in the order of the layout |
| OatWriter.OatWriter.Write | jni/art-kitkat-mr1.1-release/compiler/oat_writer.cc:432-507 | no test fails; the file ends at the computed size, every object is where the layout recorded it, behind the trampolines lie exactly the blobs that are not empty, each of them once and with zeros between them, the byte counters sum to the size, and the operations are such that every stream ends with the same bytes (`OutputStreams.SameContents`) |
| OatWriter.MethodReadsBack | jni/art-kitkat-mr1.1-release/compiler/oat_writer.cc:663-794 | the offsets recorded for a method lead to exactly its own code, preceded by its length, and to its own mapping, vmap and GC tables |
| OatWriter.RecordedIsFinal | jni/art-kitkat-mr1.1-release/compiler/oat_writer.cc:302-396 | what is recorded for a method is what the maps say at the end |
| OatBlobs.CodeIsPlaced | jni/art-kitkat-mr1.1-release/compiler/oat_writer.cc:313-337 | in the layout every method's code is aligned for its instruction set, behind the four bytes of its length |
| OatFile.Setup | jni/art-kitkat-mr1.1-release/runtime/oat_file.cc:165-285 | walks the records of the dex files; takes the file exactly when every one of them has a location and lies, like the start of its dex file, within the file |
| OatReadBack.HeaderIsRead | jni/art-kitkat-mr1.1-release/runtime/oat.h:84-103 | the header in the file holds what the reader takes from it, word for word: the offsets of the executable code and of the trampolines, and the counts |
| OatReadBack.MethodIsRead | jni/art-kitkat-mr1.1-release/runtime/oat.h:121-127 | the seven words of a method's record in the file are, in the order in which the reader takes them, the offsets of its code, its frame size and spill masks, and the offsets of its mapping, vmap and GC tables |
| OatReadBack.AllIsFound | jni/art-kitkat-mr1.1-release/runtime/oat_file.cc:375-470 | the reader, starting from the bytes that `Write` leaves, finds for every method of every class exactly its own code and length, frame size, spill masks, mapping, vmap and GC tables (0 where a table is empty), for every class its status, and every dex file, trampoline and header word |
| OatReadBack.WriteAndRead | jni/art-kitkat-mr1.1-release/compiler/oat_writer.cc:38-905 | the file that the writer leaves behind what the stream held before is so read; `Setup` takes it exactly when no dex file has an empty location, and returns an entry for each dex file through which all its classes and methods are found |
| ImageWriter.SlotsAreShared | jni/art-kitkat-mr1.1-release/compiler/image_writer.cc:342-368 | slots are 8-aligned, lie between the header and the end, do not overlap, and two objects share one if and only if they are the same or strings with the same text |
| ImageWriter.ImageWriter.AssignImageOffset | jni/art-kitkat-mr1.1-release/compiler/image_writer.h:65-83 | the object gets the end of the image, which moves on by its rounded size |
| ImageWriter.ImageWriter.AssignObject | jni/art-kitkat-mr1.1-release/compiler/image_writer.cc:342-368 | a string gets the slot of its interned representative, which is placed first if need be |
| ImageWriter.ImageWriter.CalculateNewObjectOffsets | jni/art-kitkat-mr1.1-release/compiler/image_writer.cc:408-434 | every live object has an offset, and the slots tile the range behind the header up to the end |
| HeapObjects.VisitedMeans | jni/art-kitkat-mr1.1-release/compiler/image_writer.cc:493-647 | the words `FixupObject` rewrites, by kind of object, are exactly those that hold references by the declarations of the hierarchy or as elements of the array, but for a hidden referent; the monitor is not one of them |
| HeapObjects.FixedAt | jni/art-kitkat-mr1.1-release/compiler/image_writer.cc:475-647 | in the copy every reference is relocated but a hidden referent, which keeps its address of the heap; the monitor is cleared and everything else stays |
| ImageWriter.ImageWriter.FixupObjectArray | jni/art-kitkat-mr1.1-release/compiler/image_writer.cc:576-581 | the loop over the elements |
| ImageWriter.ImageWriter.FixupInstanceFields | jni/art-kitkat-mr1.1-release/compiler/image_writer.cc:583-592 | the words that the hierarchy of the object's class lists; none in an array of data |
| ImageWriter.ImageWriter.FixupStaticFields | jni/art-kitkat-mr1.1-release/compiler/image_writer.cc:594-601 | the words that the static fields of the class list |
| ImageWriter.ImageWriter.FixupObject | jni/art-kitkat-mr1.1-release/compiler/image_writer.cc:493-507 | the class pointer, and then by kind of object, with the bitmaps and walks of `InstanceLayout` |
| ImageWriter.ImageWriter.CopyAndFixupObject | jni/art-kitkat-mr1.1-release/compiler/image_writer.cc:475-491 | the object's words, monitor cleared and visited words relocated, replace whatever its slot held |
| ImageWriter.ImageWriter.CopyAndFixupObjects | jni/art-kitkat-mr1.1-release/compiler/image_writer.cc:461-491 | in any order of the heap: each slot ends with the object copied to it last, fixed up |
| ImageWriter.ImageIsRight | jni/art-kitkat-mr1.1-release/compiler/image_writer.cc:461-647 | in the finished image, whatever the order of copying: the references of the object that a slot holds all lead to the slots of their targets, or are null, if and only if the object has no hidden referent that should have moved |
| ImageWriter.LastAtIsLast | jni/art-kitkat-mr1.1-release/compiler/image_writer.cc:475-491 | which object a slot ends with |
| ImageWriter.SlotHoldsEqual | jni/art-kitkat-mr1.1-release/compiler/image_writer.cc:342-368 | an object whose slot is not shared is in the image as itself; equal strings are there as the one copied last |
| ElfStripper.SectionsMoveForward | jni/art-kitkat-mr1.1-release/compiler/elf_stripper.cc:95-117 | every kept section moves to an earlier place or stays, behind the one before it, and before any old byte of the one after it is overwritten |
| ElfStripper.MovesOn | jni/art-kitkat-mr1.1-release/compiler/elf_stripper.cc:95-117 | one overlapping move keeps the sections moved before, moves the next one intact and touches nothing behind it |
| ElfStripper.KeptAscend | jni/art-kitkat-mr1.1-release/compiler/elf_stripper.cc:72-92 | the kept sections are exactly those that are not dropped, in their old order |
| ElfStripper.CollectSections | jni/art-kitkat-mr1.1-release/compiler/elf_stripper.cc:72-92 | the first loop: the headers to keep and their numbers |
| ElfStripper.OldHeaderIntact | jni/art-kitkat-mr1.1-release/compiler/elf_stripper.cc:99-101 | no move has reached an old header before it is read |
| ElfStripper.MoveSection | jni/art-kitkat-mr1.1-release/compiler/elf_stripper.cc:98-116 | one round of the second loop |
| ElfStripper.MoveSections | jni/art-kitkat-mr1.1-release/compiler/elf_stripper.cc:95-117 | the second loop: every kept section is intact at its new place, which is aligned as its header demands, and the header says the new place and otherwise what it said |
| ElfStripper.HeaderInTable | jni/art-kitkat-mr1.1-release/compiler/elf_stripper.cc:119-123 | header i of the new table is the one of the i-th kept section |
| ElfStripper.SectionHeaderIsRead | jni/art-kitkat-mr1.1-release/compiler/elf_stripper.cc:72-92 | name, type, offset, size and alignment are read from where the ELF specification has these fields of a section header |
| ElfStripper.FileHeaderIsRead | jni/art-kitkat-mr1.1-release/compiler/elf_stripper.cc:72-73 | so are the place and the number of the section headers and the number of the name section |
| ElfStripper.TextIsRead | jni/art-kitkat-mr1.1-release/compiler/elf_stripper.cc:74-75 | a name is the text up to the zero byte |
| ElfStripper.UsualSections | jni/art-kitkat-mr1.1-release/compiler/elf_stripper.cc:82-86 | of the usual sections those for debugging and static linking are dropped, and the others kept |
| ElfStripper.MovedHeader | jni/art-kitkat-mr1.1-release/compiler/elf_stripper.cc:115-116 | in the header of a moved section only the offset changes |
| ElfStripper.NewFileHeader | jni/art-kitkat-mr1.1-release/compiler/elf_stripper.cc:119-125 | the finished file begins with the old ELF header in which only the place and the number of the section headers have changed |
| ElfStripper.Strip | jni/art-kitkat-mr1.1-release/compiler/elf_stripper.cc:66-127 | the finished file: kept sections intact at their new, aligned places, the new header table with these places behind them and announced by the ELF header, everything before them untouched, and no byte longer |
| DexSignatures.CompareIs | jni/art-kitkat-mr1.1-release/runtime/utf.cc:105-120 | the comparison says which of two strings comes first in a dictionary: the one that begins the other, or has the smaller code unit where they first differ; the tables are sorted in this order |
| DexSignatures.CompareListsIs | jni/art-kitkat-mr1.1-release/runtime/dex_file.cc:503-518 | the same for lists of parameters |
| DexSignatures.FindStringId | jni/art-kitkat-mr1.1-release/runtime/dex_file.cc:438-456 | finds a string exactly when the table has it |
| DexSignatures.FindTypeId | jni/art-kitkat-mr1.1-release/runtime/dex_file.cc:478-493 | finds a type exactly when the table has it |
| DexSignatures.FindProtoId | jni/art-kitkat-mr1.1-release/runtime/dex_file.cc:495-528 | finds a prototype exactly when the table has it |
| DexSignatures.FindStringIdUtf16 | jni/art-kitkat-mr1.1-release/runtime/dex_file.cc:458-476 | finds nothing but the empty string, and that only in a table of at most two strings, because the comparison (`runtime/utf.cc`) never advances in its second text |
| DexSignatures.CreateMethodSignature | jni/art-kitkat-mr1.1-release/runtime/dex_file.cc:588-614 | prints the descriptors between parentheses and then the return type; the length it reports is that of the text |
| DexSignatures.CreateTypeList | jni/art-kitkat-mr1.1-release/runtime/dex_file.cc:531-583 | parses or refuses, as `Parse` says |
| DexSignatures.DescriptorIsToken | jni/art-kitkat-mr1.1-release/runtime/dex_file.cc:545-567 | a text that starts with a well-formed descriptor is scanned up to its end: descriptors are a prefix code |
| DexSignatures.ParsesPrinted | jni/art-kitkat-mr1.1-release/runtime/dex_file.cc:531-614 | parsing a printed prototype gives the prototype back |
| DexSignatures.AcceptedTexts | jni/art-kitkat-mr1.1-release/runtime/dex_file.cc:531-583 | accepted are exactly the printed texts and those with further closing parentheses behind the first |
| DexSignatures.PrintsParsed | jni/art-kitkat-mr1.1-release/runtime/dex_file.cc:541-544 | printing what was parsed gives the text back if and only if it has no two adjacent closing parentheses |
| DexSignatures.PrintParseFind | jni/art-kitkat-mr1.1-release/runtime/dex_file.cc:495-614 | printing a prototype, parsing the text and searching for the types finds the same prototype |
| Leb128.DecodeUnsignedLeb128 | jni/art-kitkat-mr1.1-release/runtime/leb128.h:27-50 | the nested reads compute the number of up to five bytes, of which the fifth counts four bits |
| Leb128.DecodesEncoded | jni/art-kitkat-mr1.1-release/runtime/leb128.h:27-50 | decoding finds an encoded number wherever it stands, and what follows it |
| Leb128.DecodeSignedLeb128 | jni/art-kitkat-mr1.1-release/runtime/leb128.h:63-94 | the same for signed numbers, the sign being the highest bit that was read |
| Leb128.DecodesSigned | jni/art-kitkat-mr1.1-release/runtime/leb128.h:63-94 | decoding finds an encoded signed 32-bit number |
| Leb128.UnsignedLeb128Size | jni/art-kitkat-mr1.1-release/runtime/leb128.h:96-104 | the size is the length of the encoding |
| TryBlocks.FindTryItem | jni/art-kitkat-mr1.1-release/runtime/dex_file.cc:633-655 | finds a try item that covers the address, unless there is none; of items in order it is the only one |
| TryBlocks.FindCatchHandlerOffset | jni/art-kitkat-mr1.1-release/runtime/dex_file.cc:657-664 | the handler offset of the item that covers the address, or -1 |
| TryBlocks.CatchHandlerIterator.constructor | jni/art-kitkat-mr1.1-release/runtime/dex_file.cc:1087-1101 | the handlers still to visit are those of the encoded list |
| TryBlocks.CatchHandlerIterator.Next | jni/art-kitkat-mr1.1-release/runtime/dex_file.cc:1103-1121 | visits one handler |
| TryBlocks.Collect | jni/art-kitkat-mr1.1-release/runtime/dex_file.h:1163-1202 | the iterator visits all handlers of the list in their order, and no more |
| TryBlocks.DecodesHandlers | jni/art-kitkat-mr1.1-release/runtime/dex_file.cc:1087-1121 | decoding the list that the format describes for typed handlers, and perhaps one for everything, gives them back, that one last |
| DebugInfo.Execute | jni/art-kitkat-mr1.1-release/runtime/dex_file.cc:720-824 | one instruction of the line program |
| DebugInfo.DecodeDebugInfo0 | jni/art-kitkat-mr1.1-release/runtime/dex_file.cc:666-826 | with the callback, the decoder ends with the line that a scan of the whole table ends with |
| DebugInfo.LineNumFromPcContext.LineNumForPc | jni/art-kitkat-mr1.1-release/runtime/dex_file.cc:843-857 | one position: go on with the rest of the table, or stop with the answer |
| DebugInfo.MarksPassBy | jni/art-kitkat-mr1.1-release/runtime/dex_file.cc:739-806 | an instruction about a local variable, the prologue or the epilogue, encoded with the operands that the format lists, leaves address and line as they are, and the program goes on behind it, unless it names a register that the method does not have |
| DebugInfo.DecodesProgram | jni/art-kitkat-mr1.1-release/runtime/dex_file.cc:720-824 | decoding the line program that the format describes for ascending entries, with special opcodes for small differences and with any such instructions between them, gives the entries back, up to an instruction on a register that the method does not have |
| DebugInfo.DecodesItem | jni/art-kitkat-mr1.1-release/runtime/dex_file.cc:666-826 | so for every method, every list of parameter names and every such program there is an item from which the entries are decoded and whose addresses fit; nothing is decoded if the parameters do not fit into the registers |
| DebugInfo.EarlyExitIsExact | jni/art-kitkat-mr1.1-release/runtime/dex_file.cc:843-857 | the early exit finds the entry that answers for a pc (the first at it, else the last before it, else none) if and only if no entry at or before the pc comes after one beyond it, unless the pc has come before |
| DebugInfo.TableAscends | jni/art-kitkat-mr1.1-release/runtime/dex_file.cc:720-824 | without address overflow the table ascends |
| DebugInfo.EarlyExitAnswers | jni/art-kitkat-mr1.1-release/runtime/dex_file.cc:616-857 | so for every such stream and every pc the early exit gives the answer of the full table |
| DebugInfo.OverflowHidesAnEntry | jni/art-kitkat-mr1.1-release/runtime/dex_file.cc:731-733 | a stream with overflow for which it does not |
| DebugInfo.OperandIsRun | jni/art-kitkat-mr1.1-release/runtime/dex_file.cc:805-808 | running the operand of a DBG_SET_FILE, as the decoder does, comes to the same as skipping it, as the format demands, if and only if the operand is one byte that does nothing as an instruction: 7, 8 or 9 |
| DebugInfo.HarmlessFollowsFormat | jni/art-kitkat-mr1.1-release/runtime/dex_file.cc:720-824 | so every program that meets no other complete operand of DBG_SET_FILE is decoded as the format says |
| DebugInfo.TableFollowsFormat | jni/art-kitkat-mr1.1-release/runtime/dex_file.cc:666-826 | and the table of such a method is the one the format gives it |
| DebugInfo.ActingOperand | jni/art-kitkat-mr1.1-release/runtime/dex_file.cc:805-824 | the last other operand, if it is 0 or a special opcode: 0 loses all later entries, a special opcode adds exactly one, and decoder and format agree if and only if there was no later entry to lose, or the stream is cut short for both |
| DebugInfo.SetFileOperandIsRun | jni/art-kitkat-mr1.1-release/runtime/dex_file.cc:805-808 | a program to which the format gives an entry and the decoder none |
| DebugInfo.GetLineNumFromPC | jni/art-kitkat-mr1.1-release/runtime/dex_file.cc:616-631 | -2 for a native method, -1 without an entry, else the line of the entry that answers |
| JdwpProxy.ReceiveKeeps | jni/art-kitkat-mr1.1-release/jdwpspy/Net.cpp:617-666 | receiving a chunk of any size keeps the relation of received, sent and buffered bytes |
| JdwpProxy.ForwardKeeps | jni/art-kitkat-mr1.1-release/jdwpspy/Net.cpp:525-550 | passing on a whole packet or the handshake keeps it, and what has been sent ends at a boundary |
| JdwpProxy.WaitingHasSentAll | jni/art-kitkat-mr1.1-release/jdwpspy/Net.cpp:417-429 | while the proxy waits it has sent everything up to the last boundary |
| JdwpProxy.WholePacketsAreSent | jni/art-kitkat-mr1.1-release/jdwpspy/Net.cpp:525-675 | when a peer has sent the handshake, any number of packets encoded as the JDWP specification says, and the beginning of another one, the waiting proxy has sent exactly the handshake and these packets, and has the beginning in its buffer |
| JdwpProxy.SameWhateverTheChunks | jni/art-kitkat-mr1.1-release/jdwpspy/Net.cpp:589-675 | two ways of cutting the same bytes into chunks lead to the same bytes sent and the same bytes kept |
| JdwpProxy.Peer.ConsumeBytes | jni/art-kitkat-mr1.1-release/jdwpspy/Net.cpp:437-450 | the rest of the buffer moves to its front |
| JdwpProxy.HandleIncoming | jni/art-kitkat-mr1.1-release/jdwpspy/Net.cpp:525-581 | sends one whole packet or the handshake, if there is one; aborts exactly on a packet that claims to be empty, and stops exactly when the write falls short |
| JdwpProxy.Await | jni/art-kitkat-mr1.1-release/jdwpspy/Net.cpp:596-667 | reads until something is whole on one side, what select and read report deciding what is read and how it ends; gives up on a full buffer only when the packet does not fit |
| JdwpProxy.ProcessIncoming | jni/art-kitkat-mr1.1-release/jdwpspy/Net.cpp:589-675 | while the connection is open, what was sent to each peer, followed by what is buffered, is what the other one has sent, cut at a boundary; something is passed on in every call that ends well; whatever happens, what was sent is in order and from the start |
| JdwpProxy.Relay | jni/art-kitkat-mr1.1-release/jdwpspy/Net.cpp:734-743 | the same for every number of calls: each is made and passes something on, and all that they read has been received; the connection is given up only when select, a read or a write fails, a peer closes it, or a message does not fit |

## Left out

- ClassInitRuns.TrueOnlyIfReady: allocation failure, interrupts that throw in `WaitForInitializeClass`, and calls without permission to run initialisers (`CanWeInitializeClass`) are not modelled; the verifier's verdict, the answer of `ValidateSuperClassDescriptors` and whether an initialiser throws are arbitrary choices.
- ClassLoading.ClassLinker.Load: one loader over one class path; whether `LinkClass` succeeds and which supers are accessible are given with the class path.
- ClassLookups.FindsAgree: loaders are the boot loader and loaders with a compile-time class path; a loader written in Java, which may answer with anything, is not modelled. The time before the runtime has started (`init_done_`) is left out.
- ClassLookups.ImageClassesAreFound: takes for granted that the image's class definitions are on the boot class path, and that with an array class the image has its component class.
- ClassTable.ClassMap.InsertClass: the additional comparison with the image in debug builds and the removal of classes by the image writer are left out.
- Deadlock freedom of loading and initialisation: the language rules allow deadlock on cycles across threads.
- FieldLayout.LinkFields: descriptors and names are Dafny strings, whose characters stand for the bytes of modified UTF-8; `std::sort` is any method that returns a sorted permutation.
- InstanceLayout.FixupFields: the fields of a class are those of its `Klass`; how the source reads them out of the class object in the heap is left out. `CreateReferenceStaticOffsets` is `CreateReferenceInstanceOffsets` for a class without a superclass.
- MethodTables.LinkVirtualMethods: whether a class may access a method is an arbitrary predicate; a class is taken to declare no two virtual methods with the same signature, as the dex format demands.
- InterfaceTables.LinkMethods: the method in slot j has index j modulo 65536, since the source masks the indices of mirandas without a check, so it is j only as long as the final table has at most 65536 slots; the interface list of a proxy class is left out.
- OutputStreams.VectorOutputStream.WriteFully: not after a seek to a negative position, where the source would write outside the vector.
- OutputStreams.ReplayVector: covers the sequences in which the two streams stay together; `SeeksAgree` says exactly which seek parts them.
- OutputStreams.ReplayBuffered: a failing write leaves the file as it is; a partial write is not modelled. Only a run that ends with a seek has all its bytes in the file, since the destructor does not flush.
- OatWriter.OatWriter.Write: writes to a vector stream that does not fail (`OutputStreams.SameContents` carries the result over to a buffered file); the Quick build only; checksums, the fields written back into methods, and failure messages are left out. The counters of the seven trampolines are added into one, and the records of dex files and classes are values.
- OatLayout: numbers are not cut to 32 bits; an oat file is taken to be smaller than 4 GB.
- OatFile.Setup: how many classes a dex file has is given, instead of being read from its header; a `size_t` has four bytes, as in the 32-bit runtime; checking the magic numbers, the ELF file around the oat file and the table by location are left out.
- OatReadBack.AllIsFound: numbers that are given to the writer (checksums, masks, frame sizes) fit into words.
- ImageWriter.ImageWriter.CalculateNewObjectOffsets: the image's header and roots and the computation of dirty strings are left out; objects are made of 32-bit words.
- ImageWriter.ImageWriter.FixupObject: the code pointers and tables that `FixupMethod` sets in a method are left out; a method is an instance. Each object is given with its hierarchy of classes, instead of finding them through its class pointer.
- HeapObjects.VisitedMeans: an array's class is given the object size that its superclass has, where `CreateArrayClass` leaves the size unset; an array class declares no fields, and nothing that is proved depends on it.
- ElfStripper.Strip: claims nothing about `e_shstrndx` and `sh_link`, which the source does not rewrite, nor about sections without file contents (SHT_NOBITS), nor about the result of `ftruncate`; opening and mapping the file is left out.
- DexSignatures.FindStringId: a table has so few entries that `hi + lo` does not exceed 32 bits; strings are sequences of UTF-16 code units, and decoding modified UTF-8 is left out.
- DexSignatures.CreateTypeList: the parameters pushed before a refusal are not described.
- DebugInfo.DecodeDebugInfo0: the callbacks for local variables are left out, and with them the one error that only they can meet; a stream must not end before its program does, where the source would read on behind it.
- DebugInfo.ActingOperand: operands of DBG_SET_FILE that are instructions with operands of their own, or longer than a byte, put the decoder out of step with the instructions; after them it agrees with the format only by accident.
- JdwpProxy.HandleIncoming: the length of a packet is compared as a 64-bit number (`long` of a 64-bit host); printing packets is left out.
- JdwpProxy.ProcessIncoming: what `select`, `read` and `write` do is given as data; accepting and opening connections is left out.
- TryBlocks.FindTryItem: says nothing about try items that overlap or whose end overflows.
- TryBlocks.CatchHandlerIterator.constructor: a list must not end early, and its size is a 32-bit number other than the smallest one.
- `elf_fixup.cc`, `elf_writer_quick.cc`, `elf_writer_mclinker.cc`, `dex2oat.cc`, `oatdump.cc`, `check_jni.cc` and the repository's own JNI sources: glue, printing, command lines, or arithmetic without branches.
