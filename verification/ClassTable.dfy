/** The table of loaded classes, `class_table_` of `ClassLinker`: a multimap from the hash codes of
    descriptors to classes, beside the classes of the image, which are found through its dex caches until
    they are moved into the table. */
module ClassTable {

  import opened Options

  datatype Descriptor = Primitive(kind: char) | Reference(name: string) | ArrayOf(component: Descriptor)

  // Loader 0 is the boot class loader, NULL in the source.
  datatype Key = Key(descriptor: Descriptor, loader: nat)

  // A class object: which one it is, and what it is the class of.
  datatype Class = Class(id: nat, key: Key)

  // The resolved types of a dex cache.
  type Cache = seq<Option<Class>>
  type Image = seq<Cache>

  const MAX_FAILED_LOOKUPS: nat := 1000

  // ---- what the table is for: at most one class for a key -----------------------------------------------

  type Table = map<Key, Class>

  ghost predicate TableOk(t: Table) { forall k :: k in t ==> t[k].key == k }

  function Get(t: Table, k: Key): Option<Class> { if k in t then Some(t[k]) else None }

  function Put(t: Table, c: Class): Table { if c.key in t then t else t[c.key := c] }

  // The first class of the cache, or of the image, with the descriptor.
  function CacheFind(cache: Cache, d: Descriptor): Option<Class> {
    if cache == [] then None
    else if cache[0].Some? && cache[0].value.key.descriptor == d then cache[0]
    else CacheFind(cache[1..], d)
  }

  function ImageFind(image: Image, d: Descriptor): Option<Class> {
    if image == [] then None
    else if CacheFind(image[0], d).Some? then CacheFind(image[0], d)
    else ImageFind(image[1..], d)
  }

  // Classes are moved one by one; None stands for the failed CHECK when the table has another class.
  function MoveOne(t: Option<Table>, c: Option<Class>): Option<Table> {
    if t.None? || c.None? then t
    else if c.value.key in t.value && t.value[c.value.key] != c.value then None
    else Some(Put(t.value, c.value))
  }

  function MoveCache(t: Option<Table>, cache: Cache): Option<Table> {
    if cache == [] then t else MoveOne(MoveCache(t, cache[..|cache| - 1]), cache[|cache| - 1])
  }

  function MoveImage(t: Option<Table>, image: Image): Option<Table> {
    if image == [] then t else MoveCache(MoveImage(t, image[..|image| - 1]), image[|image| - 1])
  }

  ghost predicate InImage(image: Image, c: Class) { exists i :: 0 <= i < |image| && Some(c) in image[i] }

  /** The classes of the image are the boot loader's, and each of them has one class object. */
  ghost predicate ImageOk(image: Image) {
    && (forall c :: InImage(image, c) ==> c.key.loader == 0)
    && forall c, e :: InImage(image, c) && InImage(image, e) && c.key == e.key ==> c == e
  }

  // The table has no other class in place of one of the image.
  ghost predicate NoClash(t: Table, image: Image) { forall c :: InImage(image, c) && c.key in t ==> t[c.key] == c }

  lemma {:induction false} CacheFindIs(cache: Cache, d: Descriptor)
    ensures match CacheFind(cache, d)
            case Some(c) => Some(c) in cache && c.key.descriptor == d
            case None => forall c :: Some(c) in cache ==> c.key.descriptor != d
  {
    if cache != [] {
      CacheFindIs(cache[1..], d);
      assert cache == [cache[0]] + cache[1..];
    }
  }

  lemma {:induction false} ImageFindIs(image: Image, d: Descriptor)
    ensures match ImageFind(image, d)
            case Some(c) => InImage(image, c) && c.key.descriptor == d
            case None => forall c :: InImage(image, c) ==> c.key.descriptor != d
  {
    if image != [] {
      CacheFindIs(image[0], d);
      ImageFindIs(image[1..], d);
      assert forall c :: InImage(image, c) <==> Some(c) in image[0] || InImage(image[1..], c);
    }
  }

  // t' has the entries of t and, besides, just the classes in `added`.
  ghost predicate Adds(t: Table, t': Table, added: set<Class>) {
    && (forall k :: k in t ==> k in t' && t'[k] == t[k])
    && (forall c :: c in added ==> c.key in t' && t'[c.key] == c)
    && forall k :: k in t' && k !in t ==> t'[k] in added && t'[k].key == k
  }

  function Classes(cache: Cache): set<Class> { set i | 0 <= i < |cache| && cache[i].Some? :: cache[i].value }

  lemma ClassesAre(cache: Cache, c: Class)
    ensures c in Classes(cache) <==> Some(c) in cache
  {
  }

  function ImageClasses(image: Image): set<Class> {
    set i, j | 0 <= i < |image| && 0 <= j < |image[i]| && image[i][j].Some? :: image[i][j].value
  }

  lemma ImageClassesAre(image: Image, c: Class)
    ensures c in ImageClasses(image) <==> InImage(image, c)
  {
    if InImage(image, c) {
      var i :| 0 <= i < |image| && Some(c) in image[i];
      var j :| 0 <= j < |image[i]| && image[i][j] == Some(c);
      assert image[i][j].value == c;
    }
  }

  // Moving succeeds just when no class clashes with the table or with another one.
  ghost predicate Fits(t: Table, added: set<Class>) {
    && (forall c :: c in added && c.key in t ==> t[c.key] == c)
    && forall c, e :: c in added && e in added && c.key == e.key ==> c == e
  }

  lemma MoveOneAdds(t: Table, t1: Option<Table>, added: set<Class>, c: Class)
    requires t1.Some? <==> Fits(t, added)
    requires t1.Some? ==> Adds(t, t1.value, added)
    ensures MoveOne(t1, Some(c)).Some? <==> Fits(t, added + {c})
    ensures MoveOne(t1, Some(c)).Some? ==> Adds(t, MoveOne(t1, Some(c)).value, added + {c})
  {
    if t1.Some? {
      if MoveOne(t1, Some(c)).Some? {
        assert Fits(t, added + {c});
      } else {
        var e := t1.value[c.key];
        assert c.key in t || e in added;
      }
    } else {
      assert !Fits(t, added + {c}) by { if Fits(t, added + {c}) { assert Fits(t, added); } }
    }
  }

  lemma {:induction false} MoveCacheAdds(t: Table, t1: Option<Table>, added: set<Class>, cache: Cache)
    requires t1.Some? <==> Fits(t, added)
    requires t1.Some? ==> Adds(t, t1.value, added)
    ensures MoveCache(t1, cache).Some? <==> Fits(t, added + Classes(cache))
    ensures MoveCache(t1, cache).Some? ==> Adds(t, MoveCache(t1, cache).value, added + Classes(cache))
  {
    if cache == [] {
      assert added + Classes(cache) == added;
    } else {
      var n := |cache| - 1;
      MoveCacheAdds(t, t1, added, cache[..n]);
      assert forall i :: 0 <= i < n ==> cache[..n][i] == cache[i];
      if cache[n].Some? {
        assert Classes(cache) == Classes(cache[..n]) + {cache[n].value};
        assert added + Classes(cache) == (added + Classes(cache[..n])) + {cache[n].value};
        MoveOneAdds(t, MoveCache(t1, cache[..n]), added + Classes(cache[..n]), cache[n].value);
      } else {
        assert Classes(cache) == Classes(cache[..n]);
      }
    }
  }

  lemma {:induction false} MoveImageAdds(t: Table, image: Image)
    ensures MoveImage(Some(t), image).Some? <==> Fits(t, ImageClasses(image))
    ensures MoveImage(Some(t), image).Some? ==> Adds(t, MoveImage(Some(t), image).value, ImageClasses(image))
  {
    if image != [] {
      var n := |image| - 1;
      MoveImageAdds(t, image[..n]);
      MoveCacheAdds(t, MoveImage(Some(t), image[..n]), ImageClasses(image[..n]), image[n]);
      forall c ensures c in ImageClasses(image) <==> c in ImageClasses(image[..n]) + Classes(image[n]) {
        ImageClassesAre(image, c);
        ImageClassesAre(image[..n], c);
        ClassesAre(image[n], c);
        assert forall i :: 0 <= i < n ==> image[..n][i] == image[i];
      }
      assert ImageClasses(image) == ImageClasses(image[..n]) + Classes(image[n]);
    }
  }

  /** Moving the image's classes into the table meets no clash exactly when there is none, and adds them
      all and nothing else. */
  lemma MoveAddsTheImage(t: Table, image: Image)
    requires ImageOk(image)
    ensures MoveImage(Some(t), image).Some? <==> NoClash(t, image)
    ensures NoClash(t, image) ==>
              var t' := MoveImage(Some(t), image).value;
              && (forall k :: k in t ==> k in t' && t'[k] == t[k])
              && (forall c :: InImage(image, c) ==> c.key in t' && t'[c.key] == c)
              && forall k :: k in t' && k !in t ==> InImage(image, t'[k]) && t'[k].key == k
  {
    MoveImageAdds(t, image);
    forall c ensures c in ImageClasses(image) <==> InImage(image, c) { ImageClassesAre(image, c); }
    hide MoveImage, ImageClasses, InImage;
  }

  // ---- looking a class up ---------------------------------------------------------------------------------

  /** What `LookupClass` answers when nothing happens meanwhile; `pending` says that classes of the image
      need not be in the table. */
  function Answer(t: Table, pending: bool, image: Image, k: Key): Option<Class> {
    if k in t then Some(t[k]) else if k.loader == 0 && pending then ImageFind(image, k.descriptor) else None
  }

  // The state of the table: `class_table_`, `dex_cache_image_class_lookup_required_` and
  // `failed_dex_cache_class_lookups_`.
  datatype State = State(table: Table, pending: bool, failed: nat)

  function Move(s: State, image: Image): Option<State> {
    if !s.pending then Some(s)
    else match MoveImage(Some(s.table), image)
         case Some(t) => Some(s.(table := t, pending := false))
         case None => None
  }

  // What `LookupClass` leaves behind.
  function AfterLookup(s: State, image: Image, k: Key): Option<State> {
    if k in s.table || k.loader != 0 || !s.pending then Some(s)
    else match ImageFind(image, k.descriptor)
         case Some(c) => Some(s.(table := Put(s.table, c)))
         case None =>
           var counted := s.(failed := s.failed + 1);
           if counted.failed > MAX_FAILED_LOOKUPS then Move(counted, image) else Some(counted)
  }

  ghost predicate StateOk(s: State, image: Image) {
    && ImageOk(image) && TableOk(s.table) && NoClash(s.table, image)
    && (!s.pending ==> forall c :: InImage(image, c) ==> c.key in s.table)
  }

  ghost predicate SameAnswers(s: State, s': State, image: Image) {
    forall k :: Answer(s.table, s.pending, image, k) == Answer(s'.table, s'.pending, image, k)
  }

  /** Moving the image's classes changes no answer. */
  lemma MoveKeepsAnswers(s: State, image: Image)
    requires StateOk(s, image)
    ensures Move(s, image).Some? && StateOk(Move(s, image).value, image)
    ensures SameAnswers(s, Move(s, image).value, image)
  {
    if s.pending {
      MoveAddsTheImage(s.table, image);
      forall k
        ensures Answer(s.table, true, image, k) == Answer(MoveImage(Some(s.table), image).value, false, image, k)
      {
        ImageFindIs(image, k.descriptor);
        hide MoveImage, ImageFind, InImage;
      }
    }
  }

  /** Nor does a lookup, whatever it finds and however many have failed before it. */
  lemma LookupKeepsAnswers(s: State, image: Image, k: Key)
    requires StateOk(s, image)
    ensures AfterLookup(s, image, k).Some? && StateOk(AfterLookup(s, image, k).value, image)
    ensures SameAnswers(s, AfterLookup(s, image, k).value, image)
  {
    hide MoveImage;
    if !(k in s.table || k.loader != 0 || !s.pending) {
      ImageFindIs(image, k.descriptor);
      var found := ImageFind(image, k.descriptor);
      if found.Some? {
        forall e ensures Answer(s.table, true, image, e) == Answer(Put(s.table, found.value), true, image, e) {
          ImageFindIs(image, e.descriptor);
          hide ImageFind, InImage;
        }
      } else {
        MoveKeepsAnswers(s.(failed := s.failed + 1), image);
      }
    }
  }

  // ---- the multimap ---------------------------------------------------------------------------------------

  type Buckets = map<nat, seq<Class>>

  function BucketIn(buckets: Buckets, h: nat): seq<Class> { if h in buckets then buckets[h] else [] }

  /** The multimap has exactly the classes of the table, each once and under its own hash code. */
  ghost predicate Holds(hash: Descriptor -> nat, buckets: Buckets, t: Table) {
    && TableOk(t)
    && (forall h :: h in buckets ==> BucketOk(hash, buckets[h], h, t))
    && forall k :: k in t ==> t[k] in BucketIn(buckets, hash(k.descriptor))
  }

  ghost predicate BucketOk(hash: Descriptor -> nat, bucket: seq<Class>, h: nat, t: Table) {
    && (forall i :: 0 <= i < |bucket| ==>
          hash(bucket[i].key.descriptor) == h && bucket[i].key in t && t[bucket[i].key] == bucket[i])
    && forall i, j :: 0 <= i < j < |bucket| ==> bucket[i] != bucket[j]
  }

  lemma BucketGrows(hash: Descriptor -> nat, bucket: seq<Class>, h: nat, t: Table, c: Class)
    requires BucketOk(hash, bucket, h, t) && c.key !in t
    ensures BucketOk(hash, bucket, h, t[c.key := c])
    ensures hash(c.key.descriptor) == h ==> BucketOk(hash, bucket + [c], h, t[c.key := c])
  {
  }

  lemma EntriesStay(hash: Descriptor -> nat, buckets: Buckets, t: Table, c: Class, k: Key)
    requires k in t && k != c.key && t[k] in BucketIn(buckets, hash(k.descriptor))
    ensures t[k] in BucketIn(buckets[hash(c.key.descriptor) := BucketIn(buckets, hash(c.key.descriptor)) + [c]],
            hash(k.descriptor))
  {
  }

  lemma InsertionHolds(hash: Descriptor -> nat, buckets: Buckets, t: Table, c: Class)
    requires Holds(hash, buckets, t) && c.key !in t
    ensures var h := hash(c.key.descriptor);
            Holds(hash, buckets[h := BucketIn(buckets, h) + [c]], t[c.key := c])
  {
    hide BucketOk;
    var h := hash(c.key.descriptor);
    var b, t' := buckets[h := BucketIn(buckets, h) + [c]], t[c.key := c];
    NoBucket(hash, h, t);
    forall g | g in b ensures BucketOk(hash, b[g], g, t') {
      assert BucketOk(hash, BucketIn(buckets, g), g, t);
      BucketGrows(hash, BucketIn(buckets, g), g, t, c);
    }
    forall k | k in t' ensures t'[k] in BucketIn(b, hash(k.descriptor)) {
      if k == c.key { assert b[h][|b[h]| - 1] == c; } else { EntriesStay(hash, buckets, t, c, k); }
    }
    hide BucketIn;
  }

  lemma NoBucket(hash: Descriptor -> nat, h: nat, t: Table)
    ensures BucketOk(hash, [], h, t)
  {
  }

  // Where a search of the right bucket ends.
  lemma BucketHas(hash: Descriptor -> nat, buckets: Buckets, t: Table, k: Key)
    requires Holds(hash, buckets, t)
    ensures var bucket := BucketIn(buckets, hash(k.descriptor));
            && (forall i :: 0 <= i < |bucket| && bucket[i].key == k ==> Get(t, k) == Some(bucket[i]))
            && ((forall i :: 0 <= i < |bucket| ==> bucket[i].key != k) ==> k !in t)
  {
    var h := hash(k.descriptor);
    if h in buckets { assert BucketOk(hash, buckets[h], h, t); }
  }

  class ClassMap {
    const hash: Descriptor -> nat
    const image: Image
    var buckets: map<nat, seq<Class>>
    var pending: bool
    var failed: nat
    // What the multimap holds.
    ghost var contents: Table

    ghost predicate Valid()
      reads this
    {
      Holds(hash, buckets, contents)
    }

    function Bucket(h: nat): seq<Class>
      reads this
    {
      BucketIn(buckets, h)
    }

    ghost function Current(): State
      reads this
    {
      State(contents, pending, failed)
    }

    constructor (hash: Descriptor -> nat, image: Image)
      ensures Valid() && this.hash == hash && this.image == image && Current() == State(map[], true, 0)
    {
      this.hash, this.image := hash, image;
      buckets, pending, failed, contents := map[], true, 0, map[];
    }

    /** `LookupClassFromTableLocked` */
    method LookupClassFromTableLocked(k: Key) returns (found: Option<Class>)
      requires Valid()
      ensures found == Get(contents, k)
    {
      hide Holds;
      var bucket := Bucket(hash(k.descriptor));
      BucketHas(hash, buckets, contents, k);
      for i := 0 to |bucket|
        invariant forall j :: 0 <= j < i ==> bucket[j].key != k
      {
        if bucket[i].key == k { return Some(bucket[i]); }
      }
      return None;
    }

    // Multimap insertion, behind the classes with the same hash code.
    method Insert(c: Class)
      requires Valid() && c.key !in contents
      modifies this`buckets, this`contents
      ensures Valid() && contents == old(contents)[c.key := c]
    {
      hide Holds;
      InsertionHolds(hash, buckets, contents, c);
      var h := hash(c.key.descriptor);
      buckets := buckets[h := Bucket(h) + [c]];
      contents := contents[c.key := c];
    }

    /** `InsertClass`: the class that is there already, or None. */
    method InsertClass(c: Class) returns (existing: Option<Class>)
      requires Valid()
      modifies this`buckets, this`contents
      ensures Valid() && existing == Get(old(contents), c.key) && contents == Put(old(contents), c)
    {
      hide Holds;
      existing := LookupClassFromTableLocked(c.key);
      if existing.None? { Insert(c); }
    }

    /** `LookupClassFromImage` */
    method LookupClassFromImage(d: Descriptor) returns (found: Option<Class>)
      ensures found == ImageFind(image, d)
    {
      for i := 0 to |image|
        invariant ImageFind(image, d) == ImageFind(image[i..], d)
      {
        var cache := image[i];
        assert image[i..][1..] == image[i + 1..];
        for j := 0 to |cache|
          invariant CacheFind(cache, d) == CacheFind(cache[j..], d)
        {
          assert cache[j..][1..] == cache[j + 1..];
          if cache[j].Some? && cache[j].value.key.descriptor == d { return cache[j]; }
        }
      }
      return None;
    }

    /** `MoveImageClassesToClassTable`; not ok: the CHECK that the table has no other class failed. */
    method MoveImageClassesToClassTable() returns (ok: bool)
      requires Valid()
      modifies this`buckets, this`contents, this`pending
      ensures Valid() && ok == Move(old(Current()), image).Some?
      ensures ok ==> Current() == Move(old(Current()), image).value
    {
      hide Holds, MoveCache;
      if !pending { return true; }
      ghost var start := Some(contents);
      for i := 0 to |image|
        invariant Valid() && pending
        invariant Some(contents) == MoveImage(start, image[..i])
      {
        assert image[..i + 1][..i] == image[..i];
        ok := MoveTypes(image[i]);
        if !ok {
          MoveImageStops(start, image, i + 1);
          return;
        }
      }
      assert image[..|image|] == image;
      pending := false;
      return true;
    }

    // The inner loop, over the resolved types of one dex cache.
    method MoveTypes(types: Cache) returns (ok: bool)
      requires Valid()
      modifies this`buckets, this`contents
      ensures Valid() && ok == MoveCache(Some(old(contents)), types).Some?
      ensures ok ==> Some(contents) == MoveCache(Some(old(contents)), types)
    {
      hide Holds;
      ghost var start := Some(contents);
      for j := 0 to |types|
        invariant Valid()
        invariant Some(contents) == MoveCache(start, types[..j])
      {
        assert types[..j + 1][..j] == types[..j];
        if types[j].Some? {
          var klass := types[j].value;
          var existing := LookupClassFromTableLocked(klass.key);
          if existing.None? {
            Insert(klass);
          } else if existing.value != klass {
            MoveStops(start, types, j + 1);
            return false;
          }
        }
      }
      assert types[..|types|] == types;
      return true;
    }

    /** `LookupClass`, undisturbed */
    method LookupClass(k: Key) returns (found: Option<Class>, ok: bool)
      requires Valid() && ImageOk(image)
      modifies this`buckets, this`contents, this`pending, this`failed
      ensures Valid() && found == Answer(old(contents), old(pending), image, k)
      ensures ok == AfterLookup(old(Current()), image, k).Some?
      ensures ok ==> Current() == AfterLookup(old(Current()), image, k).value
    {
      hide Holds, MoveImage;
      found := LookupClassFromTableLocked(k);
      ok := true;
      if found.Some? || k.loader != 0 || !pending { return; }
      found := LookupClassFromImage(k.descriptor);
      ImageFindIs(image, k.descriptor);
      if found.Some? {
        var _ := InsertClass(found.value);
      } else {
        failed := failed + 1;
        if failed > MAX_FAILED_LOOKUPS { ok := MoveImageClassesToClassTable(); }
      }
    }
  }

  lemma {:induction false} MoveStops(t: Option<Table>, cache: Cache, j: nat)
    requires j <= |cache| && MoveCache(t, cache[..j]).None?
    ensures MoveCache(t, cache).None?
    decreases |cache|
  {
    if j < |cache| {
      assert cache[..|cache| - 1][..j] == cache[..j];
      MoveStops(t, cache[..|cache| - 1], j);
    } else {
      assert cache[..j] == cache;
    }
  }

  lemma {:induction false} MoveNothing(cache: Cache)
    ensures MoveCache(None, cache).None?
  {
    if cache != [] { MoveNothing(cache[..|cache| - 1]); }
  }

  lemma {:induction false} MoveImageStops(t: Option<Table>, image: Image, i: nat)
    requires i <= |image| && MoveImage(t, image[..i]).None?
    ensures MoveImage(t, image).None?
    decreases |image|
  {
    if i < |image| {
      assert image[..|image| - 1][..i] == image[..i];
      MoveImageStops(t, image[..|image| - 1], i);
      MoveNothing(image[|image| - 1]);
    } else {
      assert image[..i] == image;
    }
  }
}
