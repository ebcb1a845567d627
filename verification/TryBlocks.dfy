/** Try items and catch handlers of a code item: `FindTryItem` and `CatchHandlerIterator`. */
module TryBlocks {
  import opened Bytes
  import opened Options
  import opened Leb128

  const NO_INDEX_16: nat := 0xffff

  datatype TryItem = TryItem(startAddr: nat, insnCount: nat, handlerOff: nat)

  // ---- which try item covers an address ---------------------------------------------------------------

  // The end is computed as a 32-bit number.
  function End(t: TryItem): nat { (t.startAddr + t.insnCount) % UINT32 }

  predicate Covers(t: TryItem, address: nat) { t.startAddr <= address < End(t) }

  // Sorted, without overlap, and without overflow.
  predicate TriesSorted(tries: seq<TryItem>) {
    && (forall i :: 0 <= i < |tries| ==> tries[i].startAddr + tries[i].insnCount < UINT32)
    && forall i, j :: 0 <= i < j < |tries| ==> End(tries[i]) <= tries[j].startAddr
  }

  /** The one item that covers the address; -1 only if there is none. */
  method FindTryItem(tries: seq<TryItem>, address: nat) returns (r: int)
    ensures -1 <= r < |tries| && (r >= 0 ==> Covers(tries[r], address))
    ensures TriesSorted(tries) ==> forall i :: 0 <= i < |tries| ==> (Covers(tries[i], address) <==> i == r)
  {
    var min, max := 0, |tries| - 1;
    while min <= max
      invariant 0 <= min && max < |tries|
      invariant TriesSorted(tries) ==>
                  forall i :: 0 <= i < |tries| && (i < min || max < i) ==> !Covers(tries[i], address)
    {
      var mid := min + (max - min) / 2;
      if address < tries[mid].startAddr {
        max := mid - 1;
      } else if address >= End(tries[mid]) {
        min := mid + 1;
      } else {
        return mid;
      }
    }
    return -1;
  }

  /** `FindCatchHandlerOffset` */
  method FindCatchHandlerOffset(tries: seq<TryItem>, address: nat) returns (r: int)
    ensures TriesSorted(tries) ==>
              && (forall i :: 0 <= i < |tries| && Covers(tries[i], address) ==> r == tries[i].handlerOff)
              && ((forall i :: 0 <= i < |tries| ==> !Covers(tries[i], address)) ==> r == -1)
  {
    var tryItem := FindTryItem(tries, address);
    return if tryItem == -1 then -1 else tries[tryItem].handlerOff;
  }

  // ---- catch handlers ----------------------------------------------------------------------------------

  datatype Handler = Handler(typeIdx: nat, address: nat)

  // The handlers that are encoded from pos on: n typed ones, and perhaps one for everything.
  function HandlersFrom(s: seq<Byte>, pos: nat, n: nat, catchAll: bool): Option<seq<Handler>>
    decreases n
  {
    if n > 0 then
      match UnsignedLeb(s, pos)
      case None => None
      case Some(t) =>
        match UnsignedLeb(s, t.next)
        case None => None
        case Some(a) =>
          match HandlersFrom(s, a.next, n - 1, catchAll)
          case None => None
          case Some(hs) => Some([Handler(t.value % 0x1_0000, a.value)] + hs)
    else if catchAll then
      match UnsignedLeb(s, pos) case None => None case Some(a) => Some([Handler(NO_INDEX_16, a.value)])
    else Some([])
  }

  /** The handlers of an encoded list: its size is the number of typed ones, negated when one for
      everything follows them. */
  function Handlers(s: seq<Byte>): Option<seq<Handler>> {
    match UnsignedLeb(s, 0)
    case None => None
    case Some(r) =>
      var size := Signed(r.value, r.next);
      HandlersFrom(s, r.next, if size <= 0 then -size else size, size <= 0)
  }

  class CatchHandlerIterator {
    const data: seq<Byte>
    var pos: nat
    var remaining: int
    var catchAll: bool
    var handler: Handler
    // The handlers that are left, the current one first.
    ghost var rest: seq<Handler>

    ghost predicate Valid()
      reads this
    {
      if rest == [] then remaining == -1 && !catchAll
      else remaining >= 0 && handler == rest[0] && HandlersFrom(data, pos, remaining, catchAll) == Some(rest[1..])
    }

    constructor (data: seq<Byte>)
      requires Handlers(data).Some?
      ensures Valid() && rest == Handlers(data).value && this.data == data
    {
      this.data := data;
      handler, rest := Handler(NO_INDEX_16, 0), [];
      new;
      var size;
      size, pos := DecodeSignedLeb128(data, 0);
      if size <= 0 {
        catchAll, remaining := true, -size;
      } else {
        catchAll, remaining := false, size;
      }
      NotEmpty(data, pos, remaining, catchAll);
      Advance(HandlersFrom(data, pos, remaining, catchAll).value);
    }

    predicate HasNext()
      reads this
    {
      remaining != -1 || catchAll
    }

    lemma HasNextIs()
      requires Valid()
      ensures HasNext() <==> rest != []
    {
    }

    /** `Next`: the handlers that are left, without the current one. */
    method Next()
      requires Valid() && rest != []
      modifies this`pos, this`remaining, this`catchAll, this`handler, this`rest
      ensures Valid() && rest == old(rest[1..])
    {
      Advance(rest[1..]);
    }

    method Advance(ghost left: seq<Handler>)
      requires remaining >= 0 && HandlersFrom(data, pos, remaining, catchAll) == Some(left)
      modifies this`pos, this`remaining, this`catchAll, this`handler, this`rest
      ensures Valid() && rest == left
    {
      rest := left;
      assert forall h: Handler, hs: seq<Handler> :: ([h] + hs)[1..] == hs;
      if remaining > 0 {
        var typeIdx, address;
        typeIdx, pos := DecodeUnsignedLeb128(data, pos);
        address, pos := DecodeUnsignedLeb128(data, pos);
        handler := Handler(typeIdx % 0x1_0000, address);
        remaining := remaining - 1;
        return;
      }
      if catchAll {
        var address;
        address, pos := DecodeUnsignedLeb128(data, pos);
        handler := Handler(NO_INDEX_16, address);
        assert left == [handler] && left[1..] == [];
        catchAll := false;
        return;
      }
      remaining := -1;
    }
  }

  lemma NotEmpty(s: seq<Byte>, pos: nat, n: nat, catchAll: bool)
    requires n > 0 || catchAll
    ensures HandlersFrom(s, pos, n, catchAll) != Some([])
  {
  }

  lemma Moves(a: seq<Handler>, b: seq<Handler>)
    requires b != []
    ensures a + b == a + [b[0]] + b[1..]
  {
  }

  /** The loop that clients write over the iterator visits the handlers in their order. */
  method Collect(data: seq<Byte>) returns (handlers: seq<Handler>)
    requires Handlers(data).Some?
    ensures handlers == Handlers(data).value
  {
    hide Handlers;
    handlers := [];
    var it := new CatchHandlerIterator(data);
    it.HasNextIs();
    while it.HasNext()
      invariant it.Valid() && handlers + it.rest == Handlers(data).value
      invariant it.HasNext() <==> it.rest != []
      decreases |it.rest|
    {
      Moves(handlers, it.rest);
      handlers := handlers + [it.handler];
      it.Next();
      it.HasNextIs();
    }
  }

  // ---- encoding a list -------------------------------------------------------------------------------------

  function EncodeTyped(hs: seq<Handler>): seq<Byte> {
    if hs == [] then []
    else EncodeUnsigned(hs[0].typeIdx) + (EncodeUnsigned(hs[0].address) + EncodeTyped(hs[1..]))
  }

  /** A list as the Dalvik Executable format describes it. */
  function EncodeHandlers(typed: seq<Handler>, catchAll: Option<nat>): seq<Byte> {
    match catchAll
    case None => EncodeSigned(|typed|) + (EncodeTyped(typed) + [])
    case Some(address) => EncodeSigned(-|typed|) + (EncodeTyped(typed) + EncodeUnsigned(address))
  }

  function AllHandlers(typed: seq<Handler>, catchAll: Option<nat>): seq<Handler> {
    typed + match catchAll case None => [] case Some(address) => [Handler(NO_INDEX_16, address)]
  }

  predicate InRange(typed: seq<Handler>)
  {
    forall i :: 0 <= i < |typed| ==> typed[i].typeIdx < 0x1_0000 && typed[i].address < UINT32
  }

  lemma {:induction false} DecodesTyped(s: seq<Byte>, pos: nat, typed: seq<Handler>, catchAll: Option<nat>)
    requires InRange(typed) && (catchAll.Some? ==> catchAll.value < UINT32) && pos <= |s|
    requires s[pos..] == EncodeTyped(typed) + if catchAll.Some? then EncodeUnsigned(catchAll.value) else []
    ensures HandlersFrom(s, pos, |typed|, catchAll.Some?) == Some(AllHandlers(typed, catchAll))
    decreases |typed|
  {
    hide EncodeUnsigned, UnsignedLeb, HandlersFrom, InRange, AllHandlers;
    var last := if catchAll.Some? then EncodeUnsigned(catchAll.value) else [];
    if typed == [] {
      assert EncodeTyped([]) + last == last;
      DecodesLast(s, pos, catchAll);
    } else {
      TypedUnfolds(typed, last);
      var t, a, others := EncodeUnsigned(typed[0].typeIdx), EncodeUnsigned(typed[0].address), EncodeTyped(typed[1..]);
      hide EncodeTyped;
      NumberAt(s, pos, typed[0].typeIdx, a + (others + last));
      NumberAt(s, pos + |t|, typed[0].address, others + last);
      DecodesTyped(s, pos + |t| + |a|, typed[1..], catchAll);
      OneHandler(s, pos, typed, catchAll);
    }
  }

  lemma TypedUnfolds(typed: seq<Handler>, last: seq<Byte>)
    requires InRange(typed) && typed != []
    ensures InRange(typed[1..]) && typed[0].typeIdx < 0x1_0000 && typed[0].address < UINT32
    ensures EncodeTyped(typed) + last ==
            EncodeUnsigned(typed[0].typeIdx) + (EncodeUnsigned(typed[0].address) + (EncodeTyped(typed[1..]) + last))
  {
    hide EncodeUnsigned;
  }

  lemma DecodesLast(s: seq<Byte>, pos: nat, catchAll: Option<nat>)
    requires (catchAll.Some? ==> catchAll.value < UINT32) && pos <= |s|
    requires s[pos..] == if catchAll.Some? then EncodeUnsigned(catchAll.value) else []
    ensures HandlersFrom(s, pos, 0, catchAll.Some?) == Some(AllHandlers([], catchAll))
  {
    if catchAll.Some? {
      assert s[pos..] == EncodeUnsigned(catchAll.value) + [];
      NumberAt(s, pos, catchAll.value, []);
      assert [] + [Handler(NO_INDEX_16, catchAll.value)] == [Handler(NO_INDEX_16, catchAll.value)];
    } else {
      assert AllHandlers([], catchAll) == [];
    }
    hide UnsignedLeb, EncodeUnsigned;
  }

  lemma OneHandler(s: seq<Byte>, pos: nat, typed: seq<Handler>, catchAll: Option<nat>)
    requires typed != [] && typed[0].typeIdx < 0x1_0000
    requires var t := UnsignedLeb(s, pos);
             && t.Some? && t.value.value == typed[0].typeIdx
             && var a := UnsignedLeb(s, t.value.next);
                && a.Some? && a.value.value == typed[0].address
                && HandlersFrom(s, a.value.next, |typed| - 1, catchAll.Some?) == Some(AllHandlers(typed[1..], catchAll))
    ensures HandlersFrom(s, pos, |typed|, catchAll.Some?) == Some(AllHandlers(typed, catchAll))
  {
    hide UnsignedLeb, AllHandlers;
    assert typed[0] == Handler(typed[0].typeIdx % 0x1_0000, typed[0].address);
    FirstOfAll(typed, catchAll);
    var t := UnsignedLeb(s, pos).value;
    var a := UnsignedLeb(s, t.next).value;
    assert HandlersFrom(s, pos, |typed|, catchAll.Some?) ==
           Some([Handler(t.value % 0x1_0000, a.value)] + HandlersFrom(s, a.next, |typed| - 1, catchAll.Some?).value);
  }

  lemma FirstOfAll(typed: seq<Handler>, catchAll: Option<nat>)
    requires typed != []
    ensures [typed[0]] + AllHandlers(typed[1..], catchAll) == AllHandlers(typed, catchAll)
  {
    assert typed == [typed[0]] + typed[1..];
  }

  /** Decoding an encoded list gives its handlers, the one for everything last; only the empty list has no
      encoding, since its size means one for everything. */
  lemma DecodesHandlers(typed: seq<Handler>, catchAll: Option<nat>)
    requires InRange(typed) && (catchAll.Some? ==> catchAll.value < UINT32) && |typed| < 0x8000_0000
    requires typed != [] || catchAll.Some?
    ensures Handlers(EncodeHandlers(typed, catchAll)) == Some(AllHandlers(typed, catchAll))
  {
    hide *;
    var s := EncodeHandlers(typed, catchAll);
    var size: int := if catchAll.Some? then -|typed| else |typed|;
    var rest := EncodeTyped(typed) + if catchAll.Some? then EncodeUnsigned(catchAll.value) else [];
    SizeFirst(typed, catchAll);
    assert s[0..] == s;
    Splits(s, 0, EncodeSigned(size), rest);
    DecodesSigned(s, 0, size);
    DecodesTyped(s, |EncodeSigned(size)|, typed, catchAll);
    SizeSays(s, size);
  }

  lemma SizeFirst(typed: seq<Handler>, catchAll: Option<nat>)
    ensures EncodeHandlers(typed, catchAll) ==
            EncodeSigned(if catchAll.Some? then -|typed| else |typed|) +
            (EncodeTyped(typed) + if catchAll.Some? then EncodeUnsigned(catchAll.value) else [])
  {
  }

  lemma SizeSays(s: seq<Byte>, size: int)
    requires var r := UnsignedLeb(s, 0); r.Some? && Signed(r.value.value, r.value.next) == size
    ensures Handlers(s) == HandlersFrom(s, UnsignedLeb(s, 0).value.next, if size <= 0 then -size else size, size <= 0)
  {
    hide UnsignedLeb, Signed, HandlersFrom;
  }
}
