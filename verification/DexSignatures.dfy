/** Method signatures of a dex file: `CreateMethodSignature` prints a prototype, `CreateTypeList` parses
    the text, and the binary searches `FindStringId`, `FindTypeId` and `FindProtoId` find what it names. */
module DexSignatures {

  import opened Options
  import opened Sequences

  // The types of a prototype, by their indices.
  datatype Proto = Proto(returnType: nat, parameters: seq<nat>)

  // Strings are sequences of UTF-16 code units; a type is given by the index of its descriptor.
  datatype DexFile = DexFile(strings: seq<string>, types: seq<nat>, protos: seq<Proto>)

  // ---- order -----------------------------------------------------------------------------------------

  // CompareModifiedUtf8ToModifiedUtf8AsUtf16CodePointValues
  function Compare(a: string, b: string): int {
    if a == "" then (if b == "" then 0 else -1)
    else if b == "" then 1
    else if a[0] != b[0] then (if a[0] > b[0] then 1 else -1)
    else Compare(a[1..], b[1..])
  }

  // How FindProtoId compares parameter lists.
  function CompareLists(a: seq<nat>, b: seq<nat>): int {
    if a == [] then (if b == [] then 0 else -1)
    else if b == [] then 1
    else if a[0] != b[0] then a[0] - b[0]
    else CompareLists(a[1..], b[1..])
  }

  function CompareProtos(p: Proto, q: Proto): int {
    if p.returnType != q.returnType then p.returnType - q.returnType else CompareLists(p.parameters, q.parameters)
  }

  /** The comparison says which of two strings comes first in a dictionary, */
  lemma {:induction false} CompareIs(a: string, b: string)
    ensures Compare(a, b) < 0 <==> Precedes(a, b, CharLess)
  {
    hide Precedes;
    if a == "" || b == "" { EmptyPrecedes(a, b, CharLess); }
    else if a[0] == b[0] {
      PrecedesLater(a, b, CharLess);
      CompareIs(a[1..], b[1..]);
    } else {
      PrecedesAtOnce(a, b, CharLess);
    }
  }

  /** and so for lists of parameters. */
  lemma {:induction false} CompareListsIs(a: seq<nat>, b: seq<nat>)
    ensures CompareLists(a, b) < 0 <==> Precedes(a, b, NatLess)
  {
    hide Precedes;
    if a == [] || b == [] { EmptyPrecedes(a, b, NatLess); }
    else if a[0] == b[0] {
      PrecedesLater(a, b, NatLess);
      CompareListsIs(a[1..], b[1..]);
    } else {
      PrecedesAtOnce(a, b, NatLess);
    }
  }

  lemma {:induction false} CompareZero(a: string, b: string)
    ensures Compare(a, b) == 0 <==> a == b
  {
    if a != "" && b != "" && a[0] == b[0] {
      CompareZero(a[1..], b[1..]);
      assert a == [a[0]] + a[1..] && b == [b[0]] + b[1..];
    }
  }

  lemma {:induction false} CompareListsZero(a: seq<nat>, b: seq<nat>)
    ensures CompareLists(a, b) == 0 <==> a == b
  {
    if a != [] && b != [] && a[0] == b[0] {
      CompareListsZero(a[1..], b[1..]);
      assert a == [a[0]] + a[1..] && b == [b[0]] + b[1..];
    }
  }

  lemma CompareProtosZero(p: Proto, q: Proto)
    ensures CompareProtos(p, q) == 0 <==> p == q
  {
    CompareListsZero(p.parameters, q.parameters);
  }

  // ---- well-formed dex files --------------------------------------------------------------------------

  // TypeDescriptor of the Dalvik Executable format.
  predicate IsDescriptor(d: string) {
    if d == "" then false
    else if d[0] == '[' then IsDescriptor(d[1..])
    else if d[0] == 'L' then
      |d| >= 2 && d[|d| - 1] == ';' && forall i :: 0 < i < |d| - 1 ==> d[i] != ';' && d[i] != ')'
    else |d| == 1 && d[0] in "VZBSCIJFD"
  }

  // By UTF-16 code units, as in a dictionary.
  ghost predicate StringsSorted(dex: DexFile) {
    forall i, j :: 0 <= i < j < |dex.strings| ==> Precedes(dex.strings[i], dex.strings[j], CharLess)
  }

  predicate TypesSorted(dex: DexFile) {
    forall i, j :: 0 <= i < j < |dex.types| ==> dex.types[i] < dex.types[j]
  }

  // By return type, and then by the parameters.
  ghost predicate ProtoPrecedes(p: Proto, q: Proto) {
    p.returnType < q.returnType || (p.returnType == q.returnType && Precedes(p.parameters, q.parameters, NatLess))
  }

  ghost predicate ProtosSorted(dex: DexFile) {
    forall i, j :: 0 <= i < j < |dex.protos| ==> ProtoPrecedes(dex.protos[i], dex.protos[j])
  }

  predicate HasTypes(dex: DexFile, p: Proto) {
    p.returnType < |dex.types| && forall i :: 0 <= i < |p.parameters| ==> p.parameters[i] < |dex.types|
  }

  /** Sorted unique tables, indices in range, and descriptors for types. */
  ghost predicate WellFormed(dex: DexFile) {
    && StringsSorted(dex) && TypesSorted(dex) && ProtosSorted(dex)
    && |dex.types| <= 0x1_0000
    && (forall i :: 0 <= i < |dex.types| ==> dex.types[i] < |dex.strings| && IsDescriptor(dex.strings[dex.types[i]]))
    && forall i :: 0 <= i < |dex.protos| ==> HasTypes(dex, dex.protos[i])
  }

  lemma StringsCompare(dex: DexFile)
    ensures StringsSorted(dex) ==>
              forall i, j :: 0 <= i < j < |dex.strings| ==> Compare(dex.strings[i], dex.strings[j]) < 0
  {
    hide Compare, Precedes;
    if StringsSorted(dex) {
      forall i, j | 0 <= i < j < |dex.strings| ensures Compare(dex.strings[i], dex.strings[j]) < 0 {
        CompareIs(dex.strings[i], dex.strings[j]);
      }
    }
  }

  lemma ProtosCompare(dex: DexFile)
    ensures ProtosSorted(dex) ==>
              forall i, j :: 0 <= i < j < |dex.protos| ==> CompareProtos(dex.protos[i], dex.protos[j]) < 0
  {
    hide CompareLists, Precedes;
    if ProtosSorted(dex) {
      forall i, j | 0 <= i < j < |dex.protos| ensures CompareProtos(dex.protos[i], dex.protos[j]) < 0 {
        CompareListsIs(dex.protos[i].parameters, dex.protos[j].parameters);
      }
    }
  }

  // StringByTypeIdx
  function Descriptor(dex: DexFile, i: nat): string
    requires i < |dex.types| && dex.types[i] < |dex.strings|
  {
    dex.strings[dex.types[i]]
  }

  // ---- searching --------------------------------------------------------------------------------------

  /** The index of the string, or -1. */
  method FindStringId(dex: DexFile, s: string) returns (r: int)
    ensures -1 <= r < |dex.strings| && (r >= 0 ==> dex.strings[r] == s)
    ensures StringsSorted(dex) ==> (r < 0 <==> s !in dex.strings)
  {
    hide Precedes, Compare;
    CompareZero(s, s);
    StringsCompare(dex);
    var lo, hi := 0, |dex.strings| - 1;
    while hi >= lo
      invariant 0 <= lo && hi < |dex.strings|
      invariant StringsSorted(dex) ==> forall i :: 0 <= i < |dex.strings| && (i < lo || hi < i) ==> dex.strings[i] != s
    {
      var mid := (hi + lo) / 2;
      var compare := Compare(s, dex.strings[mid]);
      CompareZero(s, dex.strings[mid]);
      CompareFlips(s, dex.strings[mid]);
      if compare > 0 {
        lo := mid + 1;
      } else if compare < 0 {
        hi := mid - 1;
      } else {
        return mid;
      }
    }
    return -1;
  }

  lemma {:induction false} CompareFlips(a: string, b: string)
    ensures Compare(a, b) < 0 <==> Compare(b, a) > 0
  {
    if a != "" && b != "" && a[0] == b[0] { CompareFlips(a[1..], b[1..]); }
  }

  method FindTypeId(dex: DexFile, stringIdx: nat) returns (r: int)
    ensures -1 <= r < |dex.types| && (r >= 0 ==> dex.types[r] == stringIdx)
    ensures TypesSorted(dex) ==> (r < 0 <==> stringIdx !in dex.types)
  {
    var lo, hi := 0, |dex.types| - 1;
    while hi >= lo
      invariant 0 <= lo && hi < |dex.types|
      invariant TypesSorted(dex) ==>
                  forall i :: 0 <= i < |dex.types| && (i < lo || hi < i) ==> dex.types[i] != stringIdx
    {
      var mid := (hi + lo) / 2;
      if stringIdx > dex.types[mid] {
        lo := mid + 1;
      } else if stringIdx < dex.types[mid] {
        hi := mid - 1;
      } else {
        return mid;
      }
    }
    return -1;
  }

  // The loop over the parameters in FindProtoId.
  method CompareParameters(signature: seq<nat>, parameters: seq<nat>) returns (compare: int)
    ensures compare == CompareLists(signature, parameters)
  {
    compare := 0;
    var i: nat := 0;
    while i < |parameters| && i < |signature| && compare == 0
      invariant i <= |parameters| && i <= |signature|
      invariant compare == 0 ==> CompareLists(signature, parameters) == CompareLists(signature[i..], parameters[i..])
      invariant compare != 0 ==> compare == CompareLists(signature, parameters)
    {
      compare := signature[i] as int - parameters[i];
      i := i + 1;
      assert signature[i - 1..][1..] == signature[i..] && parameters[i - 1..][1..] == parameters[i..];
    }
    if compare == 0 {
      if i < |parameters| {
        compare := -1;
      } else if i < |signature| {
        compare := 1;
      }
    }
  }

  method FindProtoId(dex: DexFile, returnType: nat, signature: seq<nat>) returns (r: int)
    ensures -1 <= r < |dex.protos| && (r >= 0 ==> dex.protos[r] == Proto(returnType, signature))
    ensures ProtosSorted(dex) ==> (r < 0 <==> Proto(returnType, signature) !in dex.protos)
  {
    var p := Proto(returnType, signature);
    hide Precedes, CompareLists;
    CompareProtosZero(p, p);
    ProtosCompare(dex);
    var lo, hi := 0, |dex.protos| - 1;
    while hi >= lo
      invariant 0 <= lo && hi < |dex.protos|
      invariant ProtosSorted(dex) ==> forall i :: 0 <= i < |dex.protos| && (i < lo || hi < i) ==> dex.protos[i] != p
    {
      var mid := (hi + lo) / 2;
      var proto := dex.protos[mid];
      var compare: int := returnType as int - proto.returnType;
      if compare == 0 { compare := CompareParameters(signature, proto.parameters); }
      assert compare == CompareProtos(p, proto);
      CompareProtosZero(p, proto);
      CompareProtosFlips(p, proto);
      if compare > 0 {
        lo := mid + 1;
      } else if compare < 0 {
        hi := mid - 1;
      } else {
        return mid;
      }
    }
    return -1;
  }

  lemma {:induction false} CompareListsFlips(a: seq<nat>, b: seq<nat>)
    ensures CompareLists(a, b) < 0 <==> CompareLists(b, a) > 0
  {
    if a != [] && b != [] && a[0] == b[0] { CompareListsFlips(a[1..], b[1..]); }
  }

  lemma CompareProtosFlips(p: Proto, q: Proto)
    ensures CompareProtos(p, q) < 0 <==> CompareProtos(q, p) > 0
  {
    CompareListsFlips(p.parameters, q.parameters);
  }

  // ---- printing ---------------------------------------------------------------------------------------

  predicate InRange(dex: DexFile, ps: seq<nat>) { forall i :: 0 <= i < |ps| ==> ps[i] < |dex.types| }

  function Descriptors(dex: DexFile, ps: seq<nat>): string
    requires WellFormed(dex) && InRange(dex, ps)
  {
    if ps == [] then "" else Descriptor(dex, ps[0]) + Descriptors(dex, ps[1..])
  }

  function Signature(dex: DexFile, p: Proto): string
    requires WellFormed(dex) && HasTypes(dex, p)
  {
    "(" + Descriptors(dex, p.parameters) + ")" + Descriptor(dex, p.returnType)
  }

  lemma {:induction false} DescriptorsAppend(dex: DexFile, ps: seq<nat>, i: nat)
    requires WellFormed(dex) && InRange(dex, ps) && i < |dex.types|
    ensures Descriptors(dex, ps + [i]) == Descriptors(dex, ps) + Descriptor(dex, i)
  {
    hide StringsSorted, TypesSorted, ProtosSorted, IsDescriptor;
    if ps == [] {
      assert [i][1..] == [];
    } else {
      DescriptorsAppend(dex, ps[1..], i);
      assert (ps + [i])[1..] == ps[1..] + [i];
    }
  }

  /** `CreateMethodSignature`, with the length of the text in UTF-16 code units. */
  method CreateMethodSignature(dex: DexFile, protoIdx: nat) returns (descriptor: string, unicodeLength: nat)
    requires WellFormed(dex) && protoIdx < |dex.protos|
    ensures descriptor == Signature(dex, dex.protos[protoIdx]) && unicodeLength == |descriptor|
  {
    var proto := dex.protos[protoIdx];
    assert HasTypes(dex, proto);
    descriptor := "(";
    var parameterLength := 0;
    hide WellFormed;
    for i := 0 to |proto.parameters|
      invariant InRange(dex, proto.parameters[..i])
      invariant descriptor == "(" + Descriptors(dex, proto.parameters[..i])
      invariant parameterLength + 1 == |descriptor|
    {
      DescriptorsAppend(dex, proto.parameters[..i], proto.parameters[i]);
      assert proto.parameters[..i + 1] == proto.parameters[..i] + [proto.parameters[i]];
      InStrings(dex, proto.parameters[i]);
      var name := Descriptor(dex, proto.parameters[i]);
      parameterLength := parameterLength + |name|;
      descriptor := descriptor + name;
    }
    assert proto.parameters[..|proto.parameters|] == proto.parameters;
    descriptor := descriptor + ")";
    InStrings(dex, proto.returnType);
    var name := Descriptor(dex, proto.returnType);
    descriptor := descriptor + name;
    unicodeLength := parameterLength + |name| + 2;
  }

  lemma InStrings(dex: DexFile, i: nat)
    requires WellFormed(dex) && i < |dex.types|
    ensures dex.types[i] < |dex.strings| && IsDescriptor(Descriptor(dex, i))
  {
  }

  // ---- parsing ----------------------------------------------------------------------------------------

  // How far the descriptor at the start of a text goes, as CreateTypeList scans it.
  function TokenLength(t: string): Option<nat>
    requires t != ""
  {
    if t[0] == '[' then
      if |t| == 1 then None
      else match TokenLength(t[1..]) case Some(n) => Some(n + 1) case None => None
    else if t[0] == 'L' then ClassEnd(t, 1)
    else Some(1)
  }

  // The end of the class name, behind its semicolon.
  function ClassEnd(t: string, i: nat): Option<nat>
    decreases |t| - i
  {
    if i >= |t| then None else if t[i] == ';' then Some(i + 1) else ClassEnd(t, i + 1)
  }

  lemma {:induction false} TokenFits(t: string)
    requires t != ""
    ensures TokenLength(t).Some? ==> 0 < TokenLength(t).value <= |t|
  {
    if t[0] == '[' {
      if |t| > 1 { TokenFits(t[1..]); }
    } else if t[0] == 'L' {
      ClassEndFits(t, 1);
    }
  }

  lemma {:induction false} ClassEndFits(t: string, i: nat)
    requires i > 0
    ensures ClassEnd(t, i).Some? ==> i < ClassEnd(t, i).value <= |t|
    decreases |t| - i
  {
    if i < |t| && t[i] != ';' { ClassEndFits(t, i + 1); }
  }

  ghost predicate IsType(dex: DexFile, d: string, i: nat) {
    i < |dex.types| && dex.types[i] < |dex.strings| && dex.strings[dex.types[i]] == d
  }

  ghost function TypeIndex(dex: DexFile, d: string): Option<nat> {
    if exists i: nat :: IsType(dex, d, i) then var i: nat :| IsType(dex, d, i); Some(i) else None
  }

  lemma TypeIndexIs(dex: DexFile, d: string, i: nat)
    requires WellFormed(dex) && IsType(dex, d, i)
    ensures TypeIndex(dex, d) == Some(i)
  {
    var j := TypeIndex(dex, d).value;
    assert IsType(dex, d, j);
    SameString(dex, dex.types[i], dex.types[j]);
  }

  lemma SameString(dex: DexFile, m: nat, n: nat)
    requires StringsSorted(dex) && m < |dex.strings| && n < |dex.strings| && dex.strings[m] == dex.strings[n]
    ensures m == n
  {
    CompareZero(dex.strings[m], dex.strings[n]);
    if m < n { StringsIncrease(dex, m, n); } else if n < m { StringsIncrease(dex, n, m); }
  }

  lemma StringsIncrease(dex: DexFile, m: nat, n: nat)
    requires StringsSorted(dex) && m < n < |dex.strings|
    ensures Compare(dex.strings[m], dex.strings[n]) < 0
  {
    StringsCompare(dex);
  }

  /** What the loop of `CreateTypeList` makes of the rest of a text; `process` says that a closing
      parenthesis has been read. */
  ghost function ParseFrom(dex: DexFile, t: string, process: bool): Option<Proto>
    decreases |t|
  {
    if t == "" then None
    else if t[0] == ')' then ParseFrom(dex, t[1..], true)
    else
      TokenFits(t);
      match TokenLength(t)
      case None => None
      case Some(n) =>
        match TypeIndex(dex, t[..n])
        case None => None
        case Some(i) =>
          if process then (if n == |t| then Some(Proto(i, [])) else None)
          else Prepend(i, ParseFrom(dex, t[n..], false))
  }

  function Prepend(i: nat, p: Option<Proto>): Option<Proto> {
    match p case None => None case Some(q) => Some(q.(parameters := [i] + q.parameters))
  }

  ghost function Parse(dex: DexFile, s: string): Option<Proto> {
    if s == "" || s[0] != '(' then None else ParseFrom(dex, s[1..], false)
  }

  // The two inner loops: the descriptor that starts at an offset.
  method ScanDescriptor(signature: string, start: nat) returns (ok: bool, offset: nat, descriptor: string)
    requires start < |signature|
    ensures ok == TokenLength(signature[start..]).Some?
    ensures ok ==> offset == start + TokenLength(signature[start..]).value <= |signature|
    ensures ok ==> descriptor == signature[start..offset]
  {
    TokenFits(signature[start..]);
    var c := signature[start];
    offset := start + 1;
    descriptor := [c];
    ok := true;
    while c == '['
      invariant start < offset <= |signature| && c == signature[offset - 1] && descriptor == signature[start..offset]
      invariant TokenLength(signature[start..]) == Shift(TokenLength(signature[offset - 1..]), offset - 1 - start)
      decreases |signature| - offset
    {
      if offset >= |signature| { return false, offset, descriptor; }
      assert signature[offset - 1..][1..] == signature[offset..];
      c := signature[offset];
      offset := offset + 1;
      descriptor := descriptor + [c];
    }
    if c == 'L' {
      ghost var t := signature[offset - 1..];
      ghost var from := offset - 1;
      var first := true;
      while first || c != ';'
        invariant from < offset <= |signature| && c == signature[offset - 1] && descriptor == signature[start..offset]
        invariant !first && c == ';' ==> ClassEnd(t, 1) == Some(offset - from)
        invariant first || c != ';' ==> ClassEnd(t, 1) == ClassEnd(t, offset - from)
        decreases |signature| - offset
      {
        first := false;
        if offset >= |signature| { return false, offset, descriptor; }
        c := signature[offset];
        offset := offset + 1;
        descriptor := descriptor + [c];
      }
    }
  }

  function Shift(n: Option<nat>, k: nat): Option<nat> {
    match n case None => None case Some(m) => Some(m + k)
  }

  /** `CreateTypeList` */
  method CreateTypeList(dex: DexFile, signature: string) returns (ok: bool, returnType: nat, parameters: seq<nat>)
    requires WellFormed(dex)
    ensures Parse(dex, signature) == if ok then Some(Proto(returnType, parameters)) else None
  {
    hide WellFormed, StringsSorted, TypesSorted, TokenLength;
    TablesSorted(dex);
    ok, returnType, parameters := false, 0, [];
    if signature == "" || signature[0] != '(' { return; }
    PrependNone(ParseFrom(dex, signature[1..], false));
    var offset, process := 1, false;
    while offset < |signature|
      invariant 1 <= offset <= |signature|
      invariant Parse(dex, signature) == PrependAll(parameters, ParseFrom(dex, signature[offset..], process))
      decreases |signature| - offset
    {
      assert signature[offset..][1..] == signature[offset + 1..];
      if signature[offset] == ')' {
        offset, process := offset + 1, true;
        continue;
      }
      ghost var t := signature[offset..];
      TokenFits(t);
      var scanned, end, descriptor := ScanDescriptor(signature, offset);
      if !scanned { return; }
      assert t[..end - offset] == descriptor && t[end - offset..] == signature[end..];
      var stringIdx := FindStringId(dex, descriptor);
      if stringIdx < 0 { NoString(dex, descriptor); return; }
      var typeIdx := FindTypeId(dex, stringIdx);
      if typeIdx < 0 { NoType(dex, descriptor, stringIdx); return; }
      TypeIndexIs(dex, descriptor, typeIdx);
      offset := end;
      if !process {
        PrependOne(parameters, typeIdx, ParseFrom(dex, signature[offset..], false));
        parameters := parameters + [typeIdx];
      } else {
        returnType := typeIdx;
        assert parameters + [] == parameters;
        ok := offset == |signature|;
        return;
      }
    }
    assert signature[offset..] == "";
  }

  function PrependAll(ps: seq<nat>, p: Option<Proto>): Option<Proto> {
    match p case None => None case Some(q) => Some(q.(parameters := ps + q.parameters))
  }

  lemma PrependOne(ps: seq<nat>, i: nat, p: Option<Proto>)
    ensures PrependAll(ps, Prepend(i, p)) == PrependAll(ps + [i], p)
  {
    if p.Some? { assert ps + ([i] + p.value.parameters) == (ps + [i]) + p.value.parameters; }
  }

  lemma PrependNone(p: Option<Proto>)
    ensures PrependAll([], p) == p
  {
    if p.Some? { assert [] + p.value.parameters == p.value.parameters; }
  }

  lemma TablesSorted(dex: DexFile)
    requires WellFormed(dex)
    ensures StringsSorted(dex) && TypesSorted(dex) && ProtosSorted(dex)
  {
  }

  lemma NoString(dex: DexFile, d: string)
    requires d !in dex.strings
    ensures TypeIndex(dex, d).None?
  {
  }

  lemma NoType(dex: DexFile, d: string, n: nat)
    requires WellFormed(dex) && n < |dex.strings| && dex.strings[n] == d && n !in dex.types
    ensures TypeIndex(dex, d).None?
  {
    forall i: nat ensures !IsType(dex, d, i) {
      if IsType(dex, d, i) { SameString(dex, dex.types[i], n); }
    }
  }

  // ---- parsing undoes printing -------------------------------------------------------------------------

  lemma {:induction false} ClassEndAt(t: string, i: nat, n: nat)
    requires i < n <= |t| && t[n - 1] == ';' && forall j :: i <= j < n - 1 ==> t[j] != ';'
    ensures ClassEnd(t, i) == Some(n)
    decreases n - i
  {
    if i < n - 1 { ClassEndAt(t, i + 1, n); }
  }

  // Descriptors are a prefix code: a text that starts with one is scanned up to its end.
  lemma {:induction false} DescriptorIsToken(d: string, rest: string)
    requires IsDescriptor(d)
    ensures d != "" && d[0] != ')' && TokenLength(d + rest) == Some(|d|)
  {
    if d[0] == '[' {
      DescriptorIsToken(d[1..], rest);
      assert (d + rest)[1..] == d[1..] + rest;
    } else if d[0] == 'L' {
      ClassEndAt(d + rest, 1, |d|);
    }
  }

  function Parens(k: nat): string { if k == 0 then "" else ")" + Parens(k - 1) }

  lemma ParseDescriptor(dex: DexFile, i: nat, rest: string, process: bool)
    requires WellFormed(dex) && i < |dex.types|
    ensures ParseFrom(dex, Descriptor(dex, i) + rest, process) ==
            if process then (if rest == "" then Some(Proto(i, [])) else None)
                else Prepend(i, ParseFrom(dex, rest, false))
  {
    InStrings(dex, i);
    var d := Descriptor(dex, i);
    DescriptorIsToken(d, rest);
    TypeIndexIs(dex, d, i);
    assert (d + rest)[..|d|] == d && (d + rest)[|d|..] == rest;
    hide WellFormed, TokenLength, IsDescriptor;
  }

  lemma {:induction false} ParseDescriptors(dex: DexFile, ps: seq<nat>, rest: string)
    requires WellFormed(dex) && InRange(dex, ps)
    ensures ParseFrom(dex, Descriptors(dex, ps) + rest, false) == PrependAll(ps, ParseFrom(dex, rest, false))
  {
    hide WellFormed, ParseFrom;
    if ps == [] {
      assert Descriptors(dex, ps) + rest == rest;
      PrependNone(ParseFrom(dex, rest, false));
    } else {
      ParseDescriptors(dex, ps[1..], rest);
      InStrings(dex, ps[0]);
      ParseDescriptor(dex, ps[0], Descriptors(dex, ps[1..]) + rest, false);
      assert Descriptors(dex, ps) + rest == Descriptor(dex, ps[0]) + (Descriptors(dex, ps[1..]) + rest);
      PrependFirst(ps, ParseFrom(dex, rest, false));
    }
  }

  lemma PrependFirst(ps: seq<nat>, p: Option<Proto>)
    requires ps != []
    ensures Prepend(ps[0], PrependAll(ps[1..], p)) == PrependAll(ps, p)
  {
    if p.Some? { assert [ps[0]] + (ps[1..] + p.value.parameters) == ps + p.value.parameters; }
  }

  lemma {:induction false} ParseParens(dex: DexFile, k: nat, rest: string, process: bool)
    ensures ParseFrom(dex, Parens(k) + rest, process) == ParseFrom(dex, rest, process || k > 0)
  {
    if k == 0 {
      assert Parens(0) + rest == rest;
    } else {
      ParseParens(dex, k - 1, rest, true);
      assert (Parens(k) + rest)[1..] == Parens(k - 1) + rest;
    }
  }

  // A text with k closing parentheses.
  function Text(dex: DexFile, p: Proto, k: nat): string
    requires WellFormed(dex) && HasTypes(dex, p)
  {
    "(" + Descriptors(dex, p.parameters) + Parens(k) + Descriptor(dex, p.returnType)
  }

  lemma TextParses(dex: DexFile, p: Proto, k: nat)
    requires WellFormed(dex) && HasTypes(dex, p) && k >= 1
    ensures Parse(dex, Text(dex, p, k)) == Some(p)
  {
    hide StringsSorted, TypesSorted, ProtosSorted, IsDescriptor, ParseFrom, Parens, Descriptors;
    var last := Descriptor(dex, p.returnType);
    ParseDescriptors(dex, p.parameters, Parens(k) + last);
    ParseParens(dex, k, last, false);
    ParseDescriptor(dex, p.returnType, "", true);
    assert last + "" == last;
    hide WellFormed, Descriptor;
    assert Text(dex, p, k)[1..] == Descriptors(dex, p.parameters) + (Parens(k) + last);
    assert p.parameters + [] == p.parameters;
  }

  lemma {:induction false} ParsedText(dex: DexFile, t: string, process: bool) returns (k: nat)
    requires WellFormed(dex) && ParseFrom(dex, t, process).Some?
    ensures HasTypes(dex, ParseFrom(dex, t, process).value)
    ensures var p := ParseFrom(dex, t, process).value;
            && t == Descriptors(dex, p.parameters) + Parens(k) + Descriptor(dex, p.returnType)
            && (if process then p.parameters == [] else k >= 1)
    decreases |t|
  {
    hide WellFormed, TokenLength, IsDescriptor;
    if t[0] == ')' {
      k := ParsedText(dex, t[1..], true);
      k := k + 1;
      assert t == ")" + t[1..];
    } else {
      TokenFits(t);
      var n := TokenLength(t).value;
      var i := TypeIndex(dex, t[..n]).value;
      assert IsType(dex, t[..n], i);
      assert t == t[..n] + t[n..];
      if process {
        k := 0;
      } else {
        k := ParsedText(dex, t[n..], false);
        var q := ParseFrom(dex, t[n..], false).value;
        assert ([i] + q.parameters)[1..] == q.parameters;
      }
    }
  }

  /** `CreateTypeList` accepts exactly the texts that `CreateMethodSignature` prints, and those with further
      closing parentheses behind the first. */
  lemma AcceptedTexts(dex: DexFile, s: string, p: Proto)
    requires WellFormed(dex)
    ensures Parse(dex, s) == Some(p) <==> HasTypes(dex, p) && exists k :: k >= 1 && s == Text(dex, p, k)
  {
    if Parse(dex, s) == Some(p) {
      var k := ParsedText(dex, s[1..], false);
      hide WellFormed, ParseFrom, Parens;
      assert s == "(" + s[1..];
      assert s == Text(dex, p, k);
    }
    if HasTypes(dex, p) {
      forall k | k >= 1 && s == Text(dex, p, k) ensures Parse(dex, s) == Some(p) { TextParses(dex, p, k); }
    }
  }

  lemma PrintedIsText(dex: DexFile, p: Proto)
    requires WellFormed(dex) && HasTypes(dex, p)
    ensures Signature(dex, p) == Text(dex, p, 1)
  {
    assert Parens(1) == ")";
  }

  /** Parsing a printed prototype gives the prototype. */
  lemma ParsesPrinted(dex: DexFile, p: Proto)
    requires WellFormed(dex) && HasTypes(dex, p)
    ensures Parse(dex, Signature(dex, p)) == Some(p)
  {
    PrintedIsText(dex, p);
    TextParses(dex, p, 1);
  }

  // A closing parenthesis directly behind another.
  predicate DoubleParen(s: string) { exists i :: 0 <= i < |s| - 1 && s[i] == s[i + 1] == ')' }

  lemma {:induction false} NoParens(d: string)
    requires IsDescriptor(d)
    ensures ')' !in d
  {
    if d[0] == '[' {
      NoParens(d[1..]);
      assert d == [d[0]] + d[1..];
    }
  }

  lemma {:induction false} NoParensIn(dex: DexFile, ps: seq<nat>)
    requires WellFormed(dex) && InRange(dex, ps)
    ensures ')' !in Descriptors(dex, ps)
  {
    if ps != [] {
      NoParensIn(dex, ps[1..]);
      InStrings(dex, ps[0]);
      NoParens(Descriptor(dex, ps[0]));
      hide WellFormed;
    }
  }

  /** Printing what was parsed gives the text back if and only if no two closing parentheses are adjacent
      in it. */
  lemma PrintsParsed(dex: DexFile, s: string, p: Proto)
    requires WellFormed(dex) && Parse(dex, s) == Some(p)
    ensures HasTypes(dex, p) && (Signature(dex, p) == s <==> !DoubleParen(s))
  {
    AcceptedTexts(dex, s, p);
    var k :| k >= 1 && s == Text(dex, p, k);
    PrintedIsText(dex, p);
    var ds, last := Descriptors(dex, p.parameters), Descriptor(dex, p.returnType);
    NoParensIn(dex, p.parameters);
    InStrings(dex, p.returnType);
    NoParens(last);
    hide WellFormed, IsDescriptor, Descriptors, Descriptor, HasTypes;
    ParensLength(k);
    if k == 1 {
      assert s == "(" + ds + ")" + last;
      assert forall i :: 0 <= i < |s| && s[i] == ')' ==> i == |ds| + 1;
    } else {
      assert Parens(k) == ")" + (")" + Parens(k - 2));
      assert s[|ds| + 1] == ')' && s[|ds| + 2] == ')';
    }
  }

  lemma {:induction false} ParensLength(k: nat)
    ensures |Parens(k)| == k
  {
    if k > 0 { ParensLength(k - 1); }
  }

  /** Printing a prototype, parsing the text and searching for the types finds the same prototype. */
  method PrintParseFind(dex: DexFile, protoIdx: nat) returns (r: int)
    requires WellFormed(dex) && protoIdx < |dex.protos|
    ensures r == protoIdx
  {
    var p := dex.protos[protoIdx];
    HasProto(dex, protoIdx);
    var signature, _ := CreateMethodSignature(dex, protoIdx);
    ParsesPrinted(dex, p);
    var ok, returnType, parameters := CreateTypeList(dex, signature);
    r := FindProtoId(dex, returnType, parameters);
    TablesSorted(dex);
    ProtosAreUnique(dex, protoIdx, r);
  }

  lemma HasProto(dex: DexFile, i: nat)
    requires WellFormed(dex) && i < |dex.protos|
    ensures HasTypes(dex, dex.protos[i])
  {
  }

  lemma ProtosAreUnique(dex: DexFile, i: nat, j: int)
    requires ProtosSorted(dex) && i < |dex.protos| && -1 <= j < |dex.protos|
    requires if j < 0 then dex.protos[i] !in dex.protos else dex.protos[j] == dex.protos[i]
    ensures i == j
  {
    hide Precedes, CompareLists;
    CompareProtosZero(dex.protos[i], dex.protos[i]);
    ProtosCompare(dex);
    assert dex.protos[i] in dex.protos;
  }

  // ---- the search for UTF-16 text -----------------------------------------------------------------------

  // CompareModifiedUtf8ToUtf16AsCodePointValues: its second text never advances.
  function CompareUtf16(a: string, b: string): int {
    if a == "" then (if b == "" then 0 else -1)
    else if b == "" then 1
    else if a[0] != b[0] then (if a[0] > b[0] then 1 else -1)
    else CompareUtf16(a[1..], b)
  }

  lemma {:induction false} CompareUtf16Zero(a: string, b: string)
    ensures CompareUtf16(a, b) == 0 <==> a == b == ""
    ensures b == "" && a != "" ==> CompareUtf16(a, b) == 1
  {
    if a != "" && b != "" && a[0] == b[0] { CompareUtf16Zero(a[1..], b); }
  }

  /** `FindStringId` for UTF-16 text. It should find every string of the table; it finds only the empty
      one, and that only in a table of at most two strings. */
  method FindStringIdUtf16(dex: DexFile, s: string) returns (r: int)
    ensures -1 <= r < |dex.strings| && (r >= 0 ==> dex.strings[r] == s)
    ensures StringsSorted(dex) ==> (r >= 0 <==> s == "" && s in dex.strings && |dex.strings| <= 2)
  {
    var lo, hi := 0, |dex.strings| - 1;
    EmptyIsFirst(dex);
    while hi >= lo
      invariant 0 <= lo && hi < |dex.strings|
      invariant s == "" ==> hi == |dex.strings| - 1
      invariant StringsSorted(dex) && s == "" && lo > 0 ==> |dex.strings| > 2 || "" !in dex.strings
    {
      var mid := (hi + lo) / 2;
      var compare := CompareUtf16(dex.strings[mid], s);
      CompareUtf16Zero(dex.strings[mid], s);
      if compare > 0 {
        lo := mid + 1;
      } else if compare < 0 {
        hi := mid - 1;
      } else {
        return mid;
      }
    }
    return -1;
  }

  lemma EmptyIsFirst(dex: DexFile)
    ensures StringsSorted(dex) ==> forall i :: 0 <= i < |dex.strings| && dex.strings[i] == "" ==> i == 0
  {
    if StringsSorted(dex) {
      forall i | 0 < i < |dex.strings| ensures dex.strings[i] != "" { StringsIncrease(dex, 0, i); }
    }
  }
}
