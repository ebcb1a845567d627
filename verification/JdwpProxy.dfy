/** The JDWP proxy: `jdwpProcessIncoming` reads what a debugger and a VM send in chunks of any size, and
    passes the handshake and then whole packets on to the other one. */
module JdwpProxy {
  import opened Bytes
  import opened Sequences

  const BUFFER_SIZE: nat := 256 * 1024
  const HANDSHAKE_LENGTH: nat := 14

  // ---- packets -------------------------------------------------------------------------------------------

  // The first field of a packet is its length.
  function Get4BE(b: seq<Byte>): nat
    requires |b| >= 4
  {
    b[0] as nat * 0x100_0000 + b[1] as nat * 0x1_0000 + b[2] as nat * 0x100 + b[3] as nat
  }

  // There is a whole packet at the start of the bytes.
  predicate HasPacket(b: seq<Byte>) { |b| >= 4 && |b| >= Get4BE(b) }

  /** Whole packets lead from `start` to `end` in what a peer has sent. */
  predicate PacketsLead(r: seq<Byte>, start: nat, end: nat)
    decreases end - start
  {
    if start >= end then start == end
    else
      && end <= |r| && HasPacket(r[start..])
      && var length := Get4BE(r[start..]);
         length > 0 && start + length <= end && PacketsLead(r, start + length, end)
  }

  /** A place in what a peer has sent where nothing is cut: its start, the end of the handshake, or the end
      of a packet behind it. */
  predicate Boundary(r: seq<Byte>, end: nat) {
    end == 0 || (HANDSHAKE_LENGTH <= end <= |r| && PacketsLead(r, HANDSHAKE_LENGTH, end))
  }

  // What has been received from one peer, sent to the other, and is still in the buffer.
  predicate Relays(received: seq<Byte>, sent: seq<Byte>, buffered: seq<Byte>, awaitingHandshake: bool) {
    received == sent + buffered && Boundary(received, |sent|) && (awaitingHandshake <==> sent == [])
  }

  // `haveFullPacket`
  predicate IsFull(buffered: seq<Byte>, awaitingHandshake: bool) {
    if awaitingHandshake then |buffered| >= HANDSHAKE_LENGTH else HasPacket(buffered)
  }

  function FullLength(buffered: seq<Byte>, awaitingHandshake: bool): nat
    requires IsFull(buffered, awaitingHandshake)
  {
    if awaitingHandshake then HANDSHAKE_LENGTH else Get4BE(buffered)
  }

  lemma {:induction false} PacketsStay(r: seq<Byte>, x: seq<Byte>, start: nat, end: nat)
    requires PacketsLead(r, start, end)
    ensures PacketsLead(r + x, start, end)
    decreases end - start
  {
    if start < end {
      assert (r + x)[start..] == r[start..] + x;
      PacketsStay(r, x, start + Get4BE(r[start..]), end);
    }
  }

  lemma {:induction false} OnePacketMore(r: seq<Byte>, start: nat, end: nat)
    requires PacketsLead(r, start, end) && end <= |r| && HasPacket(r[end..]) && Get4BE(r[end..]) > 0
    ensures PacketsLead(r, start, end + Get4BE(r[end..]))
    decreases end - start
  {
    if start < end {
      OnePacketMore(r, start + Get4BE(r[start..]), end);
    } else {
      assert PacketsLead(r, start + Get4BE(r[start..]), start + Get4BE(r[start..]));
    }
  }

  /** Receiving keeps the relation, however the bytes are cut into chunks. */
  lemma ReceiveKeeps(received: seq<Byte>, sent: seq<Byte>, buffered: seq<Byte>, awaiting: bool, chunk: seq<Byte>)
    requires Relays(received, sent, buffered, awaiting)
    ensures Relays(received + chunk, sent, buffered + chunk, awaiting)
  {
    if sent != [] { PacketsStay(received, chunk, HANDSHAKE_LENGTH, |sent|); }
  }

  /** So does passing on what is complete, unless it is a packet that claims to be empty. */
  lemma ForwardKeeps(received: seq<Byte>, sent: seq<Byte>, buffered: seq<Byte>, awaiting: bool)
    requires Relays(received, sent, buffered, awaiting) && IsFull(buffered, awaiting) &&
             FullLength(buffered, awaiting) > 0
    ensures var n := FullLength(buffered, awaiting);
            Relays(received, sent + buffered[..n], buffered[n..], false)
  {
    var n := FullLength(buffered, awaiting);
    assert received[|sent|..] == buffered;
    assert sent + buffered[..n] + buffered[n..] == received;
    if !awaiting { OnePacketMore(received, HANDSHAKE_LENGTH, |sent|); }
  }

  // ---- everything complete has been sent -------------------------------------------------------------------

  lemma {:induction false} BoundariesMeet(r: seq<Byte>, start: nat, a: nat, b: nat)
    requires PacketsLead(r, start, a) && PacketsLead(r, start, b) && a < b
    ensures a + 4 <= |r| && HasPacket(r[a..])
    decreases a - start
  {
    if start < a { BoundariesMeet(r, start + Get4BE(r[start..]), a, b); }
  }

  /** While the proxy waits for more, it has sent everything up to the last boundary: what it has passed on
      depends on what it has received and not on how that was cut. */
  lemma WaitingHasSentAll(received: seq<Byte>, sent: seq<Byte>, buffered: seq<Byte>, awaiting: bool, end: nat)
    requires Relays(received, sent, buffered, awaiting) && !IsFull(buffered, awaiting)
    requires Boundary(received, end)
    ensures end <= |sent|
  {
    assert received[|sent|..] == buffered;
    if end > |sent| && !awaiting { BoundariesMeet(received, HANDSHAKE_LENGTH, |sent|, end); }
  }

  // A packet, as the JDWP specification describes it: its length, the highest byte first, and the rest.
  function EncodePacket(rest: seq<Byte>): (packet: seq<Byte>)
    requires 4 + |rest| < 0x1_0000_0000
    ensures |packet| == 4 + |rest|
  {
    var n := 4 + |rest|;
    [n / 0x100_0000, n / 0x1_0000 % 0x100, n / 0x100 % 0x100, n % 0x100] + rest
  }

  ghost predicate PacketsFit(packets: seq<seq<Byte>>) { forall p :: p in packets ==> 4 + |p| < 0x1_0000_0000 }

  function EncodePackets(packets: seq<seq<Byte>>): seq<Byte>
    requires PacketsFit(packets)
  {
    if packets == [] then [] else EncodePacket(packets[0]) + EncodePackets(packets[1..])
  }

  // The beginning of a packet that has not come completely.
  ghost predicate IsPartial(b: seq<Byte>) {
    exists rest: seq<Byte> :: 4 + |rest| < 0x1_0000_0000 && b < EncodePacket(rest)
  }

  lemma LengthIsRead(b: seq<Byte>, rest: seq<Byte>)
    requires 4 + |rest| < 0x1_0000_0000 && |b| >= 4 && b[..4] == EncodePacket(rest)[..4]
    ensures Get4BE(b) == 4 + |rest|
  {
    var p, n := EncodePacket(rest), 4 + |rest|;
    assert b[0] == b[..4][0] == p[0] && b[1] == b[..4][1] == p[1] && b[2] == b[..4][2] == p[2];
    assert b[3] == b[..4][3] == p[3];
    ByteByByte(n);
  }

  lemma ByteByByte(n: nat)
    ensures n == n / 0x100_0000 * 0x100_0000 + n / 0x1_0000 % 0x100 * 0x1_0000 + n / 0x100 % 0x100 * 0x100 + n % 0x100
  {
    var a, b, c := n / 0x100, n / 0x1_0000, n / 0x100_0000;
    assert n == 0x100 * a + n % 0x100 && a == 0x100 * b + a % 0x100 && b == 0x100 * c + b % 0x100;
  }

  lemma PartialIsNoPacket(b: seq<Byte>)
    requires IsPartial(b)
    ensures !HasPacket(b)
  {
    var rest: seq<Byte> :| 4 + |rest| < 0x1_0000_0000 && b < EncodePacket(rest);
    if |b| >= 4 {
      assert b[..4] == EncodePacket(rest)[..4];
      LengthIsRead(b, rest);
    }
  }

  lemma {:induction false} EncodedPacketsLead(r: seq<Byte>, start: nat, packets: seq<seq<Byte>>, tail: seq<Byte>)
    requires PacketsFit(packets) && start <= |r| && r[start..] == EncodePackets(packets) + tail
    ensures start + |EncodePackets(packets)| <= |r| && r[start + |EncodePackets(packets)|..] == tail
    ensures PacketsLead(r, start, start + |EncodePackets(packets)|)
    decreases |packets|
  {
    hide EncodePacket, EncodePackets, HasPacket, PacketsLead, Get4BE;
    if packets == [] {
      NoPackets(r, start);
    } else {
      assert packets[0] in packets;
      PacketsUnfold(packets, tail);
      FirstPacket(r[start..], packets[0], EncodePackets(packets[1..]) + tail);
      var next := start + 4 + |packets[0]|;
      assert r[start..][4 + |packets[0]|..] == r[next..];
      EncodedPacketsLead(r, next, packets[1..], tail);
      LeadsOn(r, start, start + |EncodePackets(packets)|);
    }
  }

  lemma NoPackets(r: seq<Byte>, start: nat)
    ensures EncodePackets([]) == [] && PacketsLead(r, start, start)
  {
  }

  lemma PacketsUnfold(packets: seq<seq<Byte>>, tail: seq<Byte>)
    requires PacketsFit(packets) && packets != []
    ensures packets[0] in packets && PacketsFit(packets[1..])
    ensures |EncodePackets(packets)| == 4 + |packets[0]| + |EncodePackets(packets[1..])|
    ensures EncodePackets(packets) + tail == EncodePacket(packets[0]) + (EncodePackets(packets[1..]) + tail)
  {
    assert packets[0] in packets;
    Associates(EncodePacket(packets[0]), EncodePackets(packets[1..]), tail);
    hide EncodePacket;
  }

  lemma FirstPacket(b: seq<Byte>, rest: seq<Byte>, more: seq<Byte>)
    requires 4 + |rest| < 0x1_0000_0000 && b == EncodePacket(rest) + more
    ensures HasPacket(b) && Get4BE(b) == 4 + |rest| <= |b| && b[4 + |rest|..] == more
  {
    hide EncodePacket;
    assert b[..4] == EncodePacket(rest)[..4];
    LengthIsRead(b, rest);
  }

  lemma LeadsOn(r: seq<Byte>, start: nat, end: nat)
    requires start <= end <= |r| && HasPacket(r[start..]) && 0 < Get4BE(r[start..]) && start + Get4BE(r[start..]) <= end
    requires PacketsLead(r, start + Get4BE(r[start..]), end)
    ensures PacketsLead(r, start, end)
  {
  }

  /** What has come from a peer is the handshake, some packets and the beginning of one more: while the proxy
      waits it has sent the handshake and all these packets, and has the beginning in its buffer. */
  lemma WholePacketsAreSent(handshake: seq<Byte>, packets: seq<seq<Byte>>, tail: seq<Byte>, sent: seq<Byte>,
                            buffered: seq<Byte>, awaiting: bool)
    requires |handshake| == HANDSHAKE_LENGTH && PacketsFit(packets) && IsPartial(tail)
    requires Relays(handshake + EncodePackets(packets) + tail, sent, buffered, awaiting) && !IsFull(buffered, awaiting)
    ensures sent == handshake + EncodePackets(packets) && buffered == tail
  {
    hide IsPartial, HasPacket, PacketsLead;
    var received := handshake + EncodePackets(packets) + tail;
    var end := |handshake| + |EncodePackets(packets)|;
    assert received[HANDSHAKE_LENGTH..] == EncodePackets(packets) + tail;
    EncodedPacketsLead(received, HANDSHAKE_LENGTH, packets, tail);
    WaitingHasSentAll(received, sent, buffered, awaiting, end);
    PartialIsNoPacket(tail);
    if end < |sent| { BoundariesMeet(received, HANDSHAKE_LENGTH, end, |sent|); }
    assert received[..end] == handshake + EncodePackets(packets) && received[end..] == tail;
    assert received[..|sent|] == sent && received[|sent|..] == buffered;
  }

  lemma SameWhateverTheChunks(received: seq<Byte>, sent: seq<Byte>, buffered: seq<Byte>, awaiting: bool,
                              sent': seq<Byte>, buffered': seq<Byte>, awaiting': bool)
    requires Relays(received, sent, buffered, awaiting) && !IsFull(buffered, awaiting)
    requires Relays(received, sent', buffered', awaiting') && !IsFull(buffered', awaiting')
    ensures sent == sent' && buffered == buffered'
  {
    WaitingHasSentAll(received, sent, buffered, awaiting, |sent'|);
    WaitingHasSentAll(received, sent', buffered', awaiting', |sent|);
    hide Boundary, IsFull;
    assert sent == received[..|sent|] && sent' == received[..|sent'|];
    assert buffered == received[|sent|..] && buffered' == received[|sent'|..];
  }

  // ---- peers -------------------------------------------------------------------------------------------------

  class Peer {
    const inputBuffer: array<Byte>
    var inputCount: nat
    var awaitingHandshake: bool
    // what has been written to its socket
    var sent: seq<Byte>
    // what has been read from it
    ghost var received: seq<Byte>

    constructor ()
      ensures Valid() && fresh(inputBuffer) && sent == received == Buffered() == [] && awaitingHandshake
    {
      inputBuffer := new Byte[BUFFER_SIZE];
      inputCount, awaitingHandshake, sent, received := 0, true, [], [];
    }

    ghost predicate Valid()
      reads this
    {
      inputBuffer.Length == BUFFER_SIZE && inputCount <= BUFFER_SIZE
    }

    function Buffered(): seq<Byte>
      requires Valid()
      reads this, inputBuffer
    {
      inputBuffer[..inputCount]
    }

    /** `haveFullPacket` */
    predicate HaveFullPacket()
      requires Valid()
      reads this, inputBuffer
    {
      IsFull(Buffered(), awaitingHandshake)
    }

    /** `consumeBytes` */
    method ConsumeBytes(count: nat)
      requires Valid() && 0 < count <= inputCount
      modifies this`inputCount, inputBuffer
      ensures Valid() && Buffered() == old(Buffered())[count..]
    {
      if count == inputCount {
        inputCount := 0;
        return;
      }
      ghost var was := Buffered();
      var rest := inputCount - count;
      for i := 0 to rest
        invariant inputCount == |was| == rest + count
        invariant forall p :: i <= p < |was| ==> inputBuffer[p] == was[p]
        invariant forall p :: 0 <= p < i ==> inputBuffer[p] == was[p + count]
      {
        var next := inputBuffer[i + count];
        assert next == was[i + count];
        inputBuffer[i] := next;
      }
      inputCount := inputCount - count;
    }

    // read() from the socket: no more than there is room for
    method Read(data: seq<Byte>) returns (cc: nat)
      requires Valid()
      modifies this`inputCount, this`received, inputBuffer
      ensures Valid() && cc == if |data| < BUFFER_SIZE - old(inputCount) then |data| else BUFFER_SIZE - old(inputCount)
      ensures Buffered() == old(Buffered()) + data[..cc] && received == old(received) + data[..cc]
    {
      var room := BUFFER_SIZE - inputCount;
      cc := if |data| < room then |data| else room;
      var count := inputCount;
      ghost var was := Buffered();
      for i := 0 to cc
        invariant inputCount == count && received == old(received)
        invariant forall p :: 0 <= p < count + i ==> inputBuffer[p] == (was + data)[p]
      {
        inputBuffer[count + i] := data[i];
      }
      inputCount := count + cc;
      assert Buffered() == (was + data)[..count + cc];
      received := received + data[..cc];
    }

    // write() to the socket, which may accept fewer bytes
    method Write(bytes: seq<Byte>, accepted: nat) returns (ok: bool)
      modifies this`sent
      ensures ok <==> accepted >= |bytes|
      ensures sent == old(sent) + if ok then bytes else bytes[..accepted]
    {
      ok := accepted >= |bytes|;
      sent := sent + if ok then bytes else bytes[..accepted];
    }
  }

  // Stopped: the connection is closed. Aborted: an assertion has failed.
  datatype Outcome = Handled | Blocked | Stopped | HugeMessage | Aborted

  // What comes from src goes to dst.
  ghost predicate Forwards(src: Peer, dst: Peer)
    reads src, src.inputBuffer, dst
  {
    src.Valid() && Relays(src.received, dst.sent, src.Buffered(), src.awaitingHandshake)
  }

  // What has been read from a socket and not passed on.
  datatype Side = Side(buffered: seq<Byte>, awaitingHandshake: bool)

  function SideOf(p: Peer): Side
    requires p.Valid()
    reads p, p.inputBuffer
  {
    Side(p.Buffered(), p.awaitingHandshake)
  }

  // The length of what can be passed on, if something can.
  function WholeLength(s: Side): nat {
    if IsFull(s.buffered, s.awaitingHandshake) then FullLength(s.buffered, s.awaitingHandshake) else 0
  }

  // What is left when that has been passed on.
  function Passed(s: Side): (left: Side) {
    if IsFull(s.buffered, s.awaitingHandshake) then
      Side(s.buffered[FullLength(s.buffered, s.awaitingHandshake)..], false)
    else s
  }

  // A packet claims to be empty.
  ghost predicate EmptyPacket(src: Peer)
    reads src, src.inputBuffer
  {
    src.Valid() && !src.awaitingHandshake && src.HaveFullPacket() && Get4BE(src.Buffered()) == 0
  }

  /** `handleIncoming`, with `handlePacket` */
  method HandleIncoming(dst: Peer, src: Peer, accepted: nat) returns (outcome: Outcome)
    requires src != dst && src.inputBuffer != dst.inputBuffer && Forwards(src, dst)
    modifies src`inputCount, src`awaitingHandshake, src.inputBuffer, dst`sent
    ensures outcome in {Handled, Stopped, Aborted}
    ensures outcome == Handled ==> Forwards(src, dst)
    ensures outcome == Handled && old(src.HaveFullPacket()) ==> |dst.sent| > old(|dst.sent|)
    ensures outcome == Handled && !old(src.HaveFullPacket()) ==>
            dst.sent == old(dst.sent) && src.Buffered() == old(src.Buffered())
    ensures outcome == Stopped ==> src.Valid() && dst.sent <= src.received
    ensures outcome == Aborted ==> EmptyPacket(src) && Forwards(src, dst)
    ensures outcome == Aborted <==> old(EmptyPacket(src))
    ensures outcome == Stopped <==> accepted < old(WholeLength(SideOf(src)))
    ensures old(WholeLength(SideOf(src))) <= BUFFER_SIZE
    ensures src.received == old(src.received)
    ensures outcome == Handled ==> src.Valid() && SideOf(src) == old(Passed(SideOf(src)))
  {
    hide Relays, IsFull, FullLength, Get4BE, WholeLength, Passed;
    WholeIs(SideOf(src));
    PassedIs(SideOf(src));
    if !src.HaveFullPacket() { return Handled; }
    ghost var sent, buffered, awaiting := dst.sent, src.Buffered(), src.awaitingHandshake;
    FullFits(buffered, awaiting);
    var length := FullLength(src.Buffered(), src.awaitingHandshake);
    PrefixSent(src.received, sent, buffered, awaiting, length, accepted);
    if length > 0 { ForwardKeeps(src.received, sent, buffered, awaiting); }
    var ok := dst.Write(src.inputBuffer[..length], accepted);
    assert src.inputBuffer[..length] == buffered[..length];
    if !ok { return Stopped; }
    if length == 0 { return Aborted; }
    src.ConsumeBytes(length);
    src.awaitingHandshake := false;
    return Handled;
  }

  lemma PassedIs(s: Side)
    ensures IsFull(s.buffered, s.awaitingHandshake) ==>
              && FullLength(s.buffered, s.awaitingHandshake) <= |s.buffered|
              && Passed(s) == Side(s.buffered[FullLength(s.buffered, s.awaitingHandshake)..], false)
    ensures !IsFull(s.buffered, s.awaitingHandshake) ==> Passed(s) == s
  {
  }

  lemma WholeIs(s: Side)
    ensures IsFull(s.buffered, s.awaitingHandshake) ==>
            WholeLength(s) == FullLength(s.buffered, s.awaitingHandshake) <= |s.buffered|
    ensures !IsFull(s.buffered, s.awaitingHandshake) ==> WholeLength(s) == 0
  {
  }

  lemma FullFits(buffered: seq<Byte>, awaiting: bool)
    requires IsFull(buffered, awaiting)
    ensures FullLength(buffered, awaiting) <= |buffered|
    ensures awaiting ==> FullLength(buffered, awaiting) == HANDSHAKE_LENGTH
    ensures !awaiting ==> |buffered| >= 4 && FullLength(buffered, awaiting) == Get4BE(buffered)
  {
  }

  lemma PrefixSent(received: seq<Byte>, sent: seq<Byte>, buffered: seq<Byte>, awaiting: bool, n: nat, accepted: nat)
    requires Relays(received, sent, buffered, awaiting) && n <= |buffered|
    ensures accepted < n ==> sent + buffered[..n][..accepted] <= received
    ensures sent <= received && sent + buffered[..0] == sent
  {
  }

  // ---- jdwpProcessIncoming --------------------------------------------------------------------------------

  // What select() and read() report: nothing for this socket, data (none at the end of the connection),
  // or an error.
  datatype Input = Nothing | Data(bytes: seq<Byte>) | Interrupted | Broken
  datatype Poll = PollInterrupted | PollFailed | Ready(dbg: Input, vm: Input)

  // A buffer is full, and what it begins with is not complete.
  ghost predicate TooLong(src: Peer)
    reads src, src.inputBuffer
  {
    src.Valid() && src.inputCount == BUFFER_SIZE && !src.awaitingHandshake && Get4BE(src.Buffered()) > BUFFER_SIZE
  }

  // As much as there is room for.
  function Taken(s: Side, input: Input): seq<Byte> {
    if !input.Data? || |s.buffered| > BUFFER_SIZE then []
    else if |input.bytes| <= BUFFER_SIZE - |s.buffered| then input.bytes
    else input.bytes[..BUFFER_SIZE - |s.buffered|]
  }

  function More(s: Side, bytes: seq<Byte>): Side { s.(buffered := s.buffered + bytes) }

  // Blocked: interrupted, try again.
  function ReadResult(s: Side, input: Input): Outcome {
    match input
    case Nothing => Handled
    case Interrupted => Blocked
    case Broken => Stopped
    case Data(_) =>
      if Taken(s, input) != [] then Handled else if |s.buffered| == BUFFER_SIZE then HugeMessage else Stopped
  }

  // One read of the loop.
  method ReadFrom(src: Peer, dst: Peer, input: Input) returns (outcome: Outcome)
    requires src != dst && Forwards(src, dst) && !src.HaveFullPacket()
    modifies src`inputCount, src`received, src.inputBuffer
    ensures Forwards(src, dst) && outcome == ReadResult(old(SideOf(src)), input)
    ensures SideOf(src) == More(old(SideOf(src)), Taken(old(SideOf(src)), input)) &&
            src.received == old(src.received) + Taken(old(SideOf(src)), input)
    ensures outcome == HugeMessage ==> TooLong(src)
  {
    hide Relays;
    ghost var received, buffered := src.received, src.Buffered();
    assert received + [] == received && buffered + [] == buffered;
    match input
    case Nothing => return Handled;
    case Interrupted => return Blocked;
    case Broken => return Stopped;
    case Data(bytes) =>
      var full := src.inputCount == BUFFER_SIZE;
      var cc := src.Read(bytes);
      assert bytes[..|bytes|] == bytes;
      ReceiveKeeps(received, dst.sent, buffered, src.awaitingHandshake, bytes[..cc]);
      return if cc != 0 then Handled else if full then HugeMessage else Stopped;
  }

  ghost predicate Separate(dbg: Peer, vm: Peer) { dbg != vm && dbg.inputBuffer != vm.inputBuffer }

  // Whatever has been sent to a peer has come from the other one, in order and from the start.
  ghost predicate InOrder(dbg: Peer, vm: Peer)
    reads dbg, vm
  {
    vm.sent <= dbg.received && dbg.sent <= vm.received
  }

  lemma ForwardsInOrder(src: Peer, dst: Peer)
    requires Forwards(src, dst)
    ensures dst.sent <= src.received
  {
  }

  // How waiting ends, and what is read from each peer meanwhile.
  datatype Wait = Wait(outcome: Outcome, fromDbg: seq<Byte>, fromVm: seq<Byte>)

  function With(x: seq<Byte>, y: seq<Byte>, w: Wait): Wait { Wait(w.outcome, x + w.fromDbg, y + w.fromVm) }

  // One round of the loop; Handled: it goes on. An interrupted read skips the rest of the round.
  function Round(dbg: Side, vm: Side, poll: Poll): Wait {
    match poll
    case PollInterrupted => Wait(Handled, [], [])
    case PollFailed => Wait(Stopped, [], [])
    case Ready(a, b) =>
      var first, second := ReadResult(dbg, a), ReadResult(vm, b);
      if first == Blocked then Wait(Handled, Taken(dbg, a), [])
      else if first != Handled then Wait(first, Taken(dbg, a), [])
      else Wait(if second == Blocked then Handled else second, Taken(dbg, a), Taken(vm, b))
  }

  /** Reading goes on until one side has something complete. Blocked stands for a select() that does not
      return. */
  function Waiting(dbg: Side, vm: Side, polls: seq<Poll>): Wait
    decreases |polls|
  {
    if IsFull(dbg.buffered, dbg.awaitingHandshake) then Wait(Handled, [], [])
    else if IsFull(vm.buffered, vm.awaitingHandshake) then Wait(Handled, [], [])
    else if polls == [] then Wait(Blocked, [], [])
    else
      var r := Round(dbg, vm, polls[0]);
      if r.outcome != Handled then r
      else With(r.fromDbg, r.fromVm, Waiting(More(dbg, r.fromDbg), More(vm, r.fromVm), polls[1..]))
  }

  // What one step of waiting makes of the rest.
  lemma WaitingUnfolds(dbg: Side, vm: Side, polls: seq<Poll>)
    requires !IsFull(dbg.buffered, dbg.awaitingHandshake) && !IsFull(vm.buffered, vm.awaitingHandshake) && polls != []
    ensures var r := Round(dbg, vm, polls[0]);
            Waiting(dbg, vm, polls) ==
            if r.outcome != Handled then r
            else With(r.fromDbg, r.fromVm, Waiting(More(dbg, r.fromDbg), More(vm, r.fromVm), polls[1..]))
  {
    hide IsFull, Round, With, More;
  }

  method ReadRound(dbg: Peer, vm: Peer, poll: Poll) returns (outcome: Outcome)
    requires Separate(dbg, vm) && Forwards(dbg, vm) && Forwards(vm, dbg) && !dbg.HaveFullPacket() &&
             !vm.HaveFullPacket()
    modifies dbg`inputCount, dbg`received, dbg.inputBuffer, vm`inputCount, vm`received, vm.inputBuffer
    ensures Forwards(dbg, vm) && Forwards(vm, dbg)
    ensures var r := old(Round(SideOf(dbg), SideOf(vm), poll));
            && outcome == r.outcome
            && SideOf(dbg) == More(old(SideOf(dbg)), r.fromDbg) && SideOf(vm) == More(old(SideOf(vm)), r.fromVm)
            && dbg.received == old(dbg.received) + r.fromDbg && vm.received == old(vm.received) + r.fromVm
    ensures outcome == HugeMessage ==> TooLong(dbg) || TooLong(vm)
  {
    hide Relays, IsFull, Get4BE, Taken;
    NothingMore(SideOf(dbg), dbg.received);
    NothingMore(SideOf(vm), vm.received);
    match poll
    case PollInterrupted => return Handled;
    case PollFailed => return Stopped;
    case Ready(fromDbg, fromVm) =>
      outcome := ReadFrom(dbg, vm, fromDbg);
      if outcome == Blocked { return Handled; }
      if outcome != Handled { return; }
      outcome := ReadFrom(vm, dbg, fromVm);
      if outcome == Blocked { return Handled; }
  }

  lemma NothingMore(s: Side, received: seq<Byte>)
    ensures More(s, []) == s && received + [] == received
  {
  }

  /** The loop of `jdwpProcessIncoming` */
  method Await(dbg: Peer, vm: Peer, polls: seq<Poll>) returns (outcome: Outcome)
    requires Separate(dbg, vm) && Forwards(dbg, vm) && Forwards(vm, dbg)
    modifies dbg`inputCount, dbg`received, dbg.inputBuffer, vm`inputCount, vm`received, vm.inputBuffer
    ensures Forwards(dbg, vm) && Forwards(vm, dbg)
    ensures var w := old(Waiting(SideOf(dbg), SideOf(vm), polls));
            && outcome == w.outcome
            && dbg.received == old(dbg.received) + w.fromDbg && vm.received == old(vm.received) + w.fromVm
    ensures outcome == Handled ==> dbg.HaveFullPacket() || vm.HaveFullPacket()
    ensures outcome == Blocked ==> !dbg.HaveFullPacket() && !vm.HaveFullPacket()
    ensures outcome == HugeMessage ==> TooLong(dbg) || TooLong(vm)
    ensures outcome != Aborted
  {
    hide Relays, IsFull, Get4BE, Round, With, More, Forwards, TooLong;
    SidesAreValid(dbg, vm);
    SidesAreValid(vm, dbg);
    ghost var w := Waiting(SideOf(dbg), SideOf(vm), polls);
    ghost var x: seq<Byte>, y: seq<Byte> := [], [];
    NothingRead(w);
    var i := 0;
    assert polls[0..] == polls;
    while !dbg.HaveFullPacket() && !vm.HaveFullPacket()
      invariant 0 <= i <= |polls| && Forwards(dbg, vm) && Forwards(vm, dbg) && dbg.Valid() && vm.Valid()
      invariant dbg.received == old(dbg.received) + x && vm.received == old(vm.received) + y
      invariant w == With(x, y, Waiting(SideOf(dbg), SideOf(vm), polls[i..]))
      decreases |polls| - i
    {
      if i == |polls| { NothingLeft(x, y, Blocked); return Blocked; }
      ghost var r := Round(SideOf(dbg), SideOf(vm), polls[i]);
      NotAborted(SideOf(dbg), SideOf(vm), polls[i]);
      WaitingUnfolds(SideOf(dbg), SideOf(vm), polls[i..]);
      ReadInOrder(x, y, r, Waiting(More(SideOf(dbg), r.fromDbg), More(SideOf(vm), r.fromVm), polls[i + 1..]));
      assert polls[i..][1..] == polls[i + 1..];
      outcome := ReadRound(dbg, vm, polls[i]);
      SidesAreValid(dbg, vm);
      SidesAreValid(vm, dbg);
      x, y, i := x + r.fromDbg, y + r.fromVm, i + 1;
      if outcome != Handled { return; }
    }
    NothingLeft(x, y, Handled);
    return Handled;
  }

  lemma SidesAreValid(src: Peer, dst: Peer)
    requires Forwards(src, dst)
    ensures src.Valid()
  {
  }

  lemma NothingRead(w: Wait)
    ensures With([], [], w) == w
  {
  }

  lemma NothingLeft(x: seq<Byte>, y: seq<Byte>, outcome: Outcome)
    ensures With(x, y, Wait(outcome, [], [])) == Wait(outcome, x, y)
  {
  }

  lemma ReadInOrder(x: seq<Byte>, y: seq<Byte>, r: Wait, w: Wait)
    ensures With(x, y, With(r.fromDbg, r.fromVm, w)) == With(x + r.fromDbg, y + r.fromVm, w)
    ensures With(x, y, r) == Wait(r.outcome, x + r.fromDbg, y + r.fromVm)
  {
  }

  lemma NotAborted(dbg: Side, vm: Side, poll: Poll)
    ensures Round(dbg, vm, poll).outcome in {Handled, Stopped, HugeMessage}
  {
  }

  /** `jdwpProcessIncoming`. As long as the connection is open, what has been sent to each peer, followed by
      what is still buffered, is what the other one has sent, cut at a boundary; and a call that waits has
      sent all that is complete. It gives up only on a message that does not fit, and fails only on one
      that claims to be empty. */
  method ProcessIncoming(dbg: Peer, vm: Peer, polls: seq<Poll>, toDbg: nat, toVm: nat) returns (outcome: Outcome)
    requires Separate(dbg, vm) && Forwards(dbg, vm) && Forwards(vm, dbg)
    modifies dbg, dbg.inputBuffer, vm, vm.inputBuffer
    ensures var w := old(Waiting(SideOf(dbg), SideOf(vm), polls));
            && dbg.received == old(dbg.received) + w.fromDbg && vm.received == old(vm.received) + w.fromVm
            && (w.outcome != Handled ==> outcome == w.outcome)
            && (w.outcome == Handled && toDbg >= BUFFER_SIZE && toVm >= BUFFER_SIZE ==> outcome in {Handled, Aborted})
    ensures outcome in {Handled, Blocked, HugeMessage} ==> Forwards(dbg, vm) && Forwards(vm, dbg)
    ensures InOrder(dbg, vm)
    ensures outcome == Handled ==> |dbg.sent| + |vm.sent| > old(|dbg.sent| + |vm.sent|)
    ensures outcome == Handled ==>
              var w := old(Waiting(SideOf(dbg), SideOf(vm), polls));
              && SideOf(dbg) == Passed(More(old(SideOf(dbg)), w.fromDbg))
              && SideOf(vm) == Passed(More(old(SideOf(vm)), w.fromVm))
    ensures outcome == Blocked ==> !dbg.HaveFullPacket() && !vm.HaveFullPacket()
    ensures outcome == HugeMessage ==> TooLong(dbg) || TooLong(vm)
    ensures outcome == Aborted ==> EmptyPacket(dbg) || EmptyPacket(vm)
  {
    hide Relays, IsFull, Get4BE, Passed, More;
    ghost var w := Waiting(SideOf(dbg), SideOf(vm), polls);
    ForwardsIs(dbg, vm);
    ForwardsIs(vm, dbg);
    outcome := Await(dbg, vm, polls);
    ForwardsIs(dbg, vm);
    ForwardsIs(vm, dbg);
    SideGrows(old(SideOf(dbg)), SideOf(dbg), vm.sent, old(dbg.received), w.fromDbg);
    SideGrows(old(SideOf(vm)), SideOf(vm), dbg.sent, old(vm.received), w.fromVm);
    ForwardsInOrder(dbg, vm);
    ForwardsInOrder(vm, dbg);
    if outcome != Handled { return; }
    outcome := HandleIncoming(dbg, vm, toDbg);
    if outcome == Handled { ForwardsInOrder(vm, dbg); }
    if outcome == Aborted { ForwardsInOrder(vm, dbg); }
    if outcome != Handled { return; }
    outcome := HandleIncoming(vm, dbg, toVm);
    if outcome == Handled { ForwardsInOrder(dbg, vm); }
    if outcome == Aborted { ForwardsInOrder(dbg, vm); }
  }

  lemma ForwardsIs(src: Peer, dst: Peer)
    requires Forwards(src, dst)
    ensures src.Valid() && src.received == dst.sent + src.Buffered()
  {
  }

  // What is received and not sent is in the buffer.
  lemma SideGrows(before: Side, after: Side, sent: seq<Byte>, received: seq<Byte>, x: seq<Byte>)
    requires received == sent + before.buffered && received + x == sent + after.buffered
    requires after.awaitingHandshake == before.awaitingHandshake
    ensures after == More(before, x)
  {
    assert after.buffered == (received + x)[|sent|..] == before.buffered + x;
  }

  // No error, and no end of a connection.
  predicate Calm(poll: Poll) {
    match poll
    case PollInterrupted => true
    case PollFailed => false
    case Ready(a, b) => a != Broken && b != Broken && a != Data([]) && b != Data([])
  }

  lemma {:induction false} CalmDoesNotStop(dbg: Side, vm: Side, polls: seq<Poll>)
    requires |dbg.buffered| <= BUFFER_SIZE && |vm.buffered| <= BUFFER_SIZE && forall p :: p in polls ==> Calm(p)
    ensures Waiting(dbg, vm, polls).outcome != Stopped
    decreases |polls|
  {
    if IsFull(dbg.buffered, dbg.awaitingHandshake) || IsFull(vm.buffered, vm.awaitingHandshake) || polls == [] {
    } else {
      hide IsFull;
      var r := Round(dbg, vm, polls[0]);
      WaitingUnfolds(dbg, vm, polls);
      CalmRound(dbg, vm, polls[0]);
      hide Round;
      if r.outcome == Handled { CalmDoesNotStop(More(dbg, r.fromDbg), More(vm, r.fromVm), polls[1..]); }
    }
  }

  lemma CalmRound(dbg: Side, vm: Side, poll: Poll)
    requires |dbg.buffered| <= BUFFER_SIZE && |vm.buffered| <= BUFFER_SIZE && Calm(poll)
    ensures var r := Round(dbg, vm, poll);
            r.outcome != Stopped && |dbg.buffered| + |r.fromDbg| <= BUFFER_SIZE &&
                |vm.buffered| + |r.fromVm| <= BUFFER_SIZE
  {
  }

  // What a call of jdwpProcessIncoming meets, and how much its two writes accept.
  predicate IsCalm(c: (seq<Poll>, nat, nat))
  {
    (forall p :: p in c.0 ==> Calm(p)) && c.1 >= BUFFER_SIZE && c.2 >= BUFFER_SIZE
  }

  // All that is read from the two connections when every call is handled.
  function Reads(dbg: Side, vm: Side, calls: seq<(seq<Poll>, nat, nat)>): (seq<Byte>, seq<Byte>)
    decreases |calls|
  {
    if calls == [] then ([], [])
    else
      var w := Waiting(dbg, vm, calls[0].0);
      var rest := Reads(Passed(More(dbg, w.fromDbg)), Passed(More(vm, w.fromVm)), calls[1..]);
      (w.fromDbg + rest.0, w.fromVm + rest.1)
  }

  lemma ReadsMore(dbg: Side, vm: Side, calls: seq<(seq<Poll>, nat, nat)>, x: seq<Byte>, y: seq<Byte>)
    requires calls != []
    ensures var w := Waiting(dbg, vm, calls[0].0);
            var rest := Reads(Passed(More(dbg, w.fromDbg)), Passed(More(vm, w.fromVm)), calls[1..]);
            && x + Reads(dbg, vm, calls).0 == (x + w.fromDbg) + rest.0
            && y + Reads(dbg, vm, calls).1 == (y + w.fromVm) + rest.1
  {
    hide Waiting, Passed, More;
  }

  /** The loop around it, for one connection: it makes every call, and every call passes on something, what has
      been read in all of them being in order on the other side or in the buffer. It stops only when select, a read
      or a write fails, or a connection ends. */
  method Relay(dbg: Peer, vm: Peer, calls: seq<(seq<Poll>, nat, nat)>) returns (outcome: Outcome)
    requires Separate(dbg, vm) && Forwards(dbg, vm) && Forwards(vm, dbg)
    modifies dbg, dbg.inputBuffer, vm, vm.inputBuffer
    ensures InOrder(dbg, vm)
    ensures (forall c :: c in calls ==> IsCalm(c)) ==> outcome != Stopped
    ensures outcome == Handled ==>
              && |dbg.sent| + |vm.sent| >= old(|dbg.sent| + |vm.sent|) + |calls|
              && dbg.received == old(dbg.received) + old(Reads(SideOf(dbg), SideOf(vm), calls)).0
              && vm.received == old(vm.received) + old(Reads(SideOf(dbg), SideOf(vm), calls)).1
    ensures outcome in {Handled, Blocked, HugeMessage} ==> Forwards(dbg, vm) && Forwards(vm, dbg)
    ensures outcome == Blocked ==> !dbg.HaveFullPacket() && !vm.HaveFullPacket()
    ensures outcome == HugeMessage ==> TooLong(dbg) || TooLong(vm)
    ensures outcome == Aborted ==> EmptyPacket(dbg) || EmptyPacket(vm)
  {
    hide Relays, IsFull, Get4BE, Waiting, Calm, Reads, Passed, More;
    ForwardsInOrder(dbg, vm);
    ForwardsInOrder(vm, dbg);
    ghost var all := Reads(SideOf(dbg), SideOf(vm), calls);
    outcome := Handled;
    assert calls[0..] == calls;
    for i := 0 to |calls|
      invariant outcome == Handled && Forwards(dbg, vm) && Forwards(vm, dbg) && InOrder(dbg, vm)
      invariant |dbg.sent| + |vm.sent| >= old(|dbg.sent| + |vm.sent|) + i
      invariant dbg.received + Reads(SideOf(dbg), SideOf(vm), calls[i..]).0 == old(dbg.received) + all.0
      invariant vm.received + Reads(SideOf(dbg), SideOf(vm), calls[i..]).1 == old(vm.received) + all.1
    {
      assert calls[i] in calls && calls[i..][1..] == calls[i + 1..];
      ReadsMore(SideOf(dbg), SideOf(vm), calls[i..], dbg.received, vm.received);
      if forall p :: p in calls[i].0 ==> Calm(p) { CalmDoesNotStop(SideOf(dbg), SideOf(vm), calls[i].0); }
      outcome := ProcessIncoming(dbg, vm, calls[i].0, calls[i].1, calls[i].2);
      if outcome != Handled { return; }
    }
    ReadsNothing(SideOf(dbg), SideOf(vm));
  }

  lemma ReadsNothing(dbg: Side, vm: Side)
    ensures Reads(dbg, vm, []) == ([], [])
  {
  }
}
