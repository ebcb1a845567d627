/** Line numbers from the byte-coded `debug_info_item` of a method: `DecodeDebugInfo0` runs the line
    program and hands each position to a callback; `LineNumForPcCb` stops it early. */
module DebugInfo {
  import opened Bytes
  import opened Options
  import opened Leb128
  import opened Sequences

  const UINT16: nat := 0x1_0000

  // ---- the line program ------------------------------------------------------------------------------------

  datatype Position = Position(address: nat, line: nat)

  // What matters here of a code item, a method and its prototype: which parameters are 64 bits wide.
  datatype CodeItem =
    CodeItem(registersSize: nat, insSize: nat, isStatic: bool, wide: seq<bool>, debugInfo: Option<seq<Byte>>)

  // One instruction: the program ends, the stream ends within it, or it goes on and may emit a position.
  datatype Effect = Stop | Cut | Go(pos: nat, address: nat, line: nat, emits: bool)

  function SkipLebs(s: seq<Byte>, pos: nat, n: nat): (r: Option<nat>)
    ensures r.Some? ==> pos <= r.value && (pos <= |s| ==> r.value <= |s|)
    decreases n
  {
    if n == 0 then Some(pos)
    else match UnsignedLeb(s, pos) case None => None case Some(r) => SkipLebs(s, r.next, n - 1)
  }

  // An instruction on a register, with n further operands.
  function Local(s: seq<Byte>, pos: nat, address: nat, line: nat, registersSize: nat, n: nat): Effect {
    match UnsignedLeb(s, pos)
    case None => Cut
    case Some(r) =>
      if r.value % UINT16 > registersSize then Stop
      else match SkipLebs(s, r.next, n) case None => Cut case Some(p) => Go(p, address, line, false)
  }

  function Instruction(s: seq<Byte>, pos: nat, address: nat, line: nat, registersSize: nat): (e: Effect)
    ensures e.Go? ==> pos < e.pos <= |s|
  {
    if pos >= |s| then Cut
    else match s[pos]
      case 0 => Stop                                                               // DBG_END_SEQUENCE
      case 1 => (match UnsignedLeb(s, pos + 1)                                     // DBG_ADVANCE_PC
                 case None => Cut
                 case Some(r) => Go(r.next, (address + r.value) % UINT32, line, false))
      case 2 => (match UnsignedLeb(s, pos + 1)                                     // DBG_ADVANCE_LINE
                 case None => Cut
                 case Some(r) => Go(r.next, address, (line + Signed(r.value, r.next - pos - 1)) % UINT32, false))
      case 3 => Local(s, pos + 1, address, line, registersSize, 2)                 // DBG_START_LOCAL
      case 4 => Local(s, pos + 1, address, line, registersSize, 3)                 // DBG_START_LOCAL_EXTENDED
      case 5 => Local(s, pos + 1, address, line, registersSize, 0)                 // DBG_END_LOCAL
      case 6 => Local(s, pos + 1, address, line, registersSize, 0)                 // DBG_RESTART_LOCAL
      case 7 => Go(pos + 1, address, line, false)                                  // DBG_SET_PROLOGUE_END
      case 8 => Go(pos + 1, address, line, false)                                  // DBG_SET_EPILOGUE_BEGIN
      case 9 => Go(pos + 1, address, line, false)                                  // DBG_SET_FILE
      case opcode =>
        Go(pos + 1, (address + (opcode - 10) / 15) % UINT32, (line - 4 + (opcode - 10) % 15) % UINT32, true)
  }

  /** The positions a line program emits when nobody stops it; None when the stream ends before it does. */
  function Positions(s: seq<Byte>, pos: nat, address: nat, line: nat, registersSize: nat): Option<seq<Position>>
    decreases |s| - pos
  {
    match Instruction(s, pos, address, line, registersSize)
    case Stop => Some([])
    case Cut => None
    case Go(p, a, l, emits) =>
      match Positions(s, p, a, l, registersSize)
      case None => None
      case Some(ps) => Some(if emits then [Position(a, l)] + ps else ps)
  }

  // The names of the parameters are skipped; Stop is an invalid stream.
  function Parameters(s: seq<Byte>, pos: nat, size: nat, wide: seq<bool>, argReg: nat, registersSize: nat): (e: Effect)
    ensures e.Go? ==> pos <= e.pos && (pos <= |s| ==> e.pos <= |s|)
    decreases |wide|
  {
    if size == 0 || wide == [] then (if wide != [] then Stop else Go(pos, 0, 0, false))
    else if argReg >= registersSize then Stop
    else match UnsignedLeb(s, pos)
         case None => Cut
         case Some(r) =>
           Parameters(s, r.next, size - 1, wide[1..], (argReg + if wide[0] then 2 else 1) % UINT16, registersSize)
  }

  // The first register for a parameter, behind `this` if there is one.
  function FirstArg(code: CodeItem): nat
  {
    ((code.registersSize - code.insSize) + if code.isStatic then 0 else 1) % UINT16
  }

  // Where the line program of a method starts, with its first line; Stop is an invalid stream.
  function Prologue(code: CodeItem, s: seq<Byte>): Effect {
    match UnsignedLeb(s, 0)
    case None => Cut
    case Some(line) =>
      match UnsignedLeb(s, line.next)
      case None => Cut
      case Some(size) =>
        match Parameters(s, size.next, size.value, code.wide, FirstArg(code), code.registersSize)
        case Go(pos, _, _, _) => Go(pos, 0, line.value, false)
        case e => e
  }

  /** The table of positions of a method. */
  function Table(code: CodeItem, s: seq<Byte>): Option<seq<Position>> {
    match Prologue(code, s)
    case Stop => Some([])
    case Cut => None
    case Go(pos, address, line, _) => Positions(s, pos, address, line, code.registersSize)
  }

  // ---- the early exit ----------------------------------------------------------------------------------------

  // The line that a scan of the table ends with, having `line` so far.
  function Scan(ps: seq<Position>, pc: nat, line: nat): nat {
    if ps == [] || ps[0].address > pc then line
    else if ps[0].address == pc then ps[0].line
    else Scan(ps[1..], pc, ps[0].line)
  }

  /** `LineNumFromPcContext` with its callback */
  class LineNumFromPcContext {
    const address: nat
    var lineNum: nat

    constructor (address: nat, lineNum: nat)
      ensures this.address == address && this.lineNum == lineNum
    {
      this.address, this.lineNum := address, lineNum;
    }

    // LineNumForPcCb
    method LineNumForPc(p: Position) returns (stop: bool)
      modifies this
      ensures forall ps :: Scan([p] + ps, address, old(lineNum)) == if stop then lineNum else Scan(ps, address, lineNum)
    {
      assert forall ps: seq<Position> :: ([p] + ps)[1..] == ps;
      if p.address > address { return true; }
      lineNum := p.line;
      return p.address == address;
    }
  }

  /** `DecodeDebugInfo0` for positions only */
  method DecodeDebugInfo0(code: CodeItem, s: seq<Byte>, context: LineNumFromPcContext)
    requires Table(code, s).Some?
    modifies context
    ensures context.lineNum == Scan(Table(code, s).value, context.address, old(context.lineNum))
  {
    hide Positions, Parameters, UnsignedLeb, Scan;
    var line, pos := DecodeUnsignedLeb128(s, 0);
    var size;
    size, pos := DecodeUnsignedLeb128(s, pos);
    var end;
    end, pos := SkipParameters(code, s, pos, size);
    ScanNothing(context.address, context.lineNum);
    if !end { RunProgram(code.registersSize, s, pos, line, context); }
  }

  // The loop over the parameters.
  method SkipParameters(code: CodeItem, s: seq<Byte>, start: nat, size: nat) returns (end: bool, pos: nat)
    requires !Parameters(s, start, size, code.wide, FirstArg(code), code.registersSize).Cut?
    ensures Parameters(s, start, size, code.wide, FirstArg(code), code.registersSize) ==
            if end then Stop else Go(pos, 0, 0, false)
  {
    hide UnsignedLeb, Parameters, FirstArg;
    var argReg: nat := ArgReg(code);
    assert code.wide[0..] == code.wide;
    pos := start;
    for i := 0 to if size < |code.wide| then size else |code.wide|
      invariant Parameters(s, start, size, code.wide, FirstArg(code), code.registersSize) ==
                Parameters(s, pos, size - i, code.wide[i..], argReg, code.registersSize)
    {
      OneParameter(s, pos, size - i, code.wide[i..], argReg, code.registersSize);
      if argReg >= code.registersSize { return true, pos; }
      var _, next := DecodeUnsignedLeb128(s, pos);
      argReg := (argReg + if code.wide[i] then 2 else 1) % UINT16;
      assert code.wide[i..][1..] == code.wide[i + 1..];
      pos := next;
    }
    NoParameter(s, pos, code.wide, size, argReg, code.registersSize);
    end := size < |code.wide|;
  }

  method ArgReg(code: CodeItem) returns (argReg: nat)
    ensures argReg == FirstArg(code)
  {
    argReg := (code.registersSize - code.insSize) % UINT16;
    if !code.isStatic { argReg := (argReg + 1) % UINT16; }
  }

  lemma OneParameter(s: seq<Byte>, pos: nat, size: nat, wide: seq<bool>, argReg: nat, registersSize: nat)
    requires size > 0 && wide != []
    ensures argReg >= registersSize ==> Parameters(s, pos, size, wide, argReg, registersSize) == Stop
    ensures argReg < registersSize && !Parameters(s, pos, size, wide, argReg, registersSize).Cut? ==>
              && UnsignedLeb(s, pos).Some?
              && Parameters(s, pos, size, wide, argReg, registersSize) ==
                 Parameters(s, UnsignedLeb(s, pos).value.next, size - 1, wide[1..],
                            (argReg + if wide[0] then 2 else 1) % UINT16, registersSize)
  {
  }

  lemma NoParameter(s: seq<Byte>, pos: nat, wide: seq<bool>, size: nat, argReg: nat, registersSize: nat)
    ensures var n := if size < |wide| then size else |wide|;
            Parameters(s, pos, size - n, wide[n..], argReg, registersSize) ==
                if size < |wide| then Stop else Go(pos, 0, 0, false)
  {
  }

  // The loop over the instructions.
  method RunProgram(registersSize: nat, s: seq<Byte>, start: nat, startLine: nat, context: LineNumFromPcContext)
    requires Positions(s, start, 0, startLine, registersSize).Some?
    modifies context
    ensures context.lineNum ==
            Scan(Positions(s, start, 0, startLine, registersSize).value, context.address, old(context.lineNum))
  {
    hide Instruction, Scan;
    var pos: nat, address: nat, line: nat := start, 0, startLine;
    ghost var result := Scan(Positions(s, start, 0, startLine, registersSize).value, context.address, context.lineNum);
    while true
      invariant Positions(s, pos, address, line, registersSize).Some?
      invariant result == Scan(Positions(s, pos, address, line, registersSize).value, context.address, context.lineNum)
      decreases |s| - pos
    {
      ScanNothing(context.address, context.lineNum);
      var end, emits;
      end, pos, address, line, emits := Execute(s, pos, address, line, registersSize);
      if end { return; }
      if emits {
        var stop := context.LineNumForPc(Position(address, line));
        if stop { return; }
      }
    }
  }

  lemma ScanNothing(pc: nat, line: nat)
    ensures Scan([], pc, line) == line
  {
  }

  // The body of the loop, up to the callback.
  method Execute(s: seq<Byte>, pos: nat, address: nat, line: nat, registersSize: nat)
    returns (end: bool, newPos: nat, newAddress: nat, newLine: nat, emits: bool)
    requires !Instruction(s, pos, address, line, registersSize).Cut?
    ensures Instruction(s, pos, address, line, registersSize) ==
            if end then Stop else Go(newPos, newAddress, newLine, emits)
  {
    hide UnsignedLeb, SkipLebs, Signed;
    end, newPos, newAddress, newLine, emits := false, pos + 1, address, line, false;
    var opcode := s[pos];
    if opcode == 0 {
      end := true;
    } else if opcode == 1 {
      var n;
      n, newPos := DecodeUnsignedLeb128(s, pos + 1);
      newAddress := (address + n) % UINT32;
    } else if opcode == 2 {
      var n;
      n, newPos := DecodeSignedLeb128(s, pos + 1);
      newLine := (line + n) % UINT32;
    } else if 3 <= opcode <= 6 {
      var reg;
      reg, newPos := DecodeUnsignedLeb128(s, pos + 1);
      if reg % UINT16 > registersSize {
        end := true;
      } else {
        newPos := SkipOperands(s, newPos, if opcode == 3 then 2 else if opcode == 4 then 3 else 0);
      }
    } else if opcode > 9 {
      var adjopcode := opcode - 10;
      newAddress := (address + adjopcode / 15) % UINT32;
      newLine := (line - 4 + adjopcode % 15) % UINT32;
      emits := true;
    }
  }

  method SkipOperands(s: seq<Byte>, pos: nat, n: nat) returns (next: nat)
    requires SkipLebs(s, pos, n).Some?
    ensures SkipLebs(s, pos, n) == Some(next)
  {
    next := pos;
    for i := 0 to n
      invariant SkipLebs(s, pos, n) == SkipLebs(s, next, n - i)
    {
      var _, after := DecodeUnsignedLeb128(s, next);
      next := after;
    }
  }

  // ---- what the table says ------------------------------------------------------------------------------------

  /** Entry k answers for pc: the first one at pc, or else the last one before it, or else none. */
  predicate Names(ps: seq<Position>, pc: nat, k: int) {
    if k < 0 then k == -1 && forall i :: 0 <= i < |ps| ==> ps[i].address > pc
    else
      k < |ps| &&
      if ps[k].address == pc then forall i :: 0 <= i < k ==> ps[i].address != pc
      else
        && ps[k].address < pc && (forall i :: 0 <= i < |ps| ==> ps[i].address != pc)
        && forall i :: k < i < |ps| ==> ps[i].address > pc
  }

  // The entry a scan stops with.
  function ScanIndex(ps: seq<Position>, pc: nat, i: nat, last: int): int
    decreases |ps| - i
  {
    if i >= |ps| || ps[i].address > pc then last
    else if ps[i].address == pc then i
    else ScanIndex(ps, pc, i + 1, i)
  }

  function LineOf(ps: seq<Position>, k: int, none: nat): nat
    requires k < |ps|
  {
    if k < 0 then none else ps[k].line
  }

  lemma {:induction false} ScanIs(ps: seq<Position>, pc: nat, none: nat, i: nat, last: int)
    requires last < i <= |ps|
    ensures ScanIndex(ps, pc, i, last) < |ps|
    ensures Scan(ps[i..], pc, LineOf(ps, last, none)) == LineOf(ps, ScanIndex(ps, pc, i, last), none)
    decreases |ps| - i
  {
    if i < |ps| {
      assert ps[i..][1..] == ps[i + 1..];
      if ps[i].address < pc { ScanIs(ps, pc, none, i + 1, i); }
    }
  }

  /** Nothing at or before pc comes after something beyond it, unless pc itself comes before both. */
  predicate InTime(ps: seq<Position>, pc: nat) {
    forall i, j :: 0 <= i < j < |ps| && ps[i].address > pc >= ps[j].address ==>
        exists h :: 0 <= h < i && ps[h].address == pc
  }

  lemma {:induction false} ScanNames(ps: seq<Position>, pc: nat, i: nat)
    requires i <= |ps| && forall h :: 0 <= h < i ==> ps[h].address < pc
    ensures Names(ps, pc, ScanIndex(ps, pc, i, i - 1)) <==> InTime(ps, pc)
    decreases |ps| - i
  {
    if i < |ps| {
      if ps[i].address < pc {
        ScanNames(ps, pc, i + 1);
      } else if ps[i].address > pc {
        assert InTime(ps, pc) ==> forall j :: i < j < |ps| ==> ps[j].address > pc;
      }
    }
  }

  /** The early exit finds the entry that answers for pc if and only if the table is in time for it. */
  lemma EarlyExitIsExact(ps: seq<Position>, pc: nat, none: nat)
    ensures var k := ScanIndex(ps, pc, 0, -1);
            && k < |ps| && Scan(ps, pc, none) == LineOf(ps, k, none)
            && (Names(ps, pc, k) <==> InTime(ps, pc))
  {
    assert ps[0..] == ps;
    ScanIs(ps, pc, none, 0, -1);
    ScanNames(ps, pc, 0);
  }

  // The instructions keep the address in range.
  predicate NoOverflow(s: seq<Byte>, pos: nat, address: nat, line: nat, registersSize: nat)
    decreases |s| - pos
  {
    match Instruction(s, pos, address, line, registersSize)
    case Go(p, a, l, _) => a >= address && NoOverflow(s, p, a, l, registersSize)
    case _ => true
  }

  predicate Ascending(ps: seq<Position>) { forall i, j :: 0 <= i < j < |ps| ==> ps[i].address <= ps[j].address }

  /** Without address overflow a table ascends, so it is in time for every pc. */
  lemma {:induction false} TableAscends(s: seq<Byte>, pos: nat, address: nat, line: nat, registersSize: nat)
    requires NoOverflow(s, pos, address, line, registersSize) && Positions(s, pos, address, line, registersSize).Some?
    ensures var ps := Positions(s, pos, address, line, registersSize).value;
            Ascending(ps) && (forall i :: 0 <= i < |ps| ==> address <= ps[i].address) && forall pc :: InTime(ps, pc)
    decreases |s| - pos
  {
    hide Instruction;
    var e := Instruction(s, pos, address, line, registersSize);
    if e.Go? { TableAscends(s, e.pos, e.address, e.line, registersSize); }
  }

  // The program of a method keeps the address in range.
  predicate AddressesFit(code: CodeItem, s: seq<Byte>) {
    var e := Prologue(code, s);
    e.Go? ==> NoOverflow(s, e.pos, 0, e.line, code.registersSize)
  }

  /** A method whose addresses fit has, for every pc, an entry that answers for it or none, and the early
      exit ends with its line or with none. */
  lemma EarlyExitAnswers(code: CodeItem, s: seq<Byte>, pc: nat, none: nat)
    requires Table(code, s).Some? && AddressesFit(code, s)
    ensures var ps := Table(code, s).value;
            var k := ScanIndex(ps, pc, 0, -1);
            InTime(ps, pc) && Names(ps, pc, k) && k < |ps| && Scan(ps, pc, none) == LineOf(ps, k, none)
  {
    hide Positions, UnsignedLeb, Parameters, NoOverflow, Scan, ScanIndex, Names;
    var e := Prologue(code, s);
    if e.Go? { TableAscends(s, e.pos, 0, e.line, code.registersSize); }
    EarlyExitIsExact(Table(code, s).value, pc, none);
  }

  // A static method without registers or parameters.
  function Plain(): CodeItem { CodeItem(0, 0, true, [], None) }

  // Advance by 10, emit, advance by 2 to the power of 32 less 5, emit, end.
  function Wrapping(): seq<Byte> { [10, 0, 1, 10, 10, 1, 0xfb, 0xff, 0xff, 0xff, 0x0f, 10, 0] }

  /** With overflow it need not: this table has an entry at 5, but the scan for 5 gives up at 10. */
  lemma OverflowHidesAnEntry(none: nat)
    ensures Table(Plain(), Wrapping()) == Some([Position(10, 6), Position(5, 2)])
    ensures Names([Position(10, 6), Position(5, 2)], 5, 1)
    ensures Scan([Position(10, 6), Position(5, 2)], 5, none) == none
  {
    var s := Wrapping();
    assert Positions(s, 12, 5, 2, 0) == Some([]);
    assert UnsignedLebRest(s, 9, 3) == Some(Leb(0x7f + 0x80 * 0xf, 11));
    assert UnsignedLeb(s, 6) == Some(Leb(0xffff_fffb, 11));
    assert Instruction(s, 5, 10, 6, 0) == Go(11, 5, 6, false);
    assert Instruction(s, 11, 5, 6, 0) == Go(12, 5, 2, true);
    assert [Position(5, 2)] + [] == [Position(5, 2)];
    assert Positions(s, 11, 5, 6, 0) == Some([Position(5, 2)]);
    assert Instruction(s, 4, 10, 10, 0) == Go(5, 10, 6, true);
    assert [Position(10, 6)] + [Position(5, 2)] == [Position(10, 6), Position(5, 2)];
    assert Positions(s, 4, 10, 10, 0) == Some([Position(10, 6), Position(5, 2)]);
    assert Positions(s, 2, 0, 10, 0) == Some([Position(10, 6), Position(5, 2)]);
  }

  // ---- DBG_SET_FILE ------------------------------------------------------------------------------------------

  const SET_FILE: Byte := 9

  /** One instruction as the Dalvik Executable format describes it: DBG_SET_FILE has an operand. */
  function FormatInstruction(s: seq<Byte>, pos: nat, address: nat, line: nat, registersSize: nat): (e: Effect)
    ensures e.Go? ==> pos < e.pos <= |s|
  {
    if pos < |s| && s[pos] == SET_FILE then
      match UnsignedLeb(s, pos + 1) case None => Cut case Some(r) => Go(r.next, address, line, false)
    else Instruction(s, pos, address, line, registersSize)
  }

  function FormatPositions(s: seq<Byte>, pos: nat, address: nat, line: nat, registersSize: nat): Option<seq<Position>>
    decreases |s| - pos
  {
    match FormatInstruction(s, pos, address, line, registersSize)
    case Stop => Some([])
    case Cut => None
    case Go(p, a, l, emits) =>
      match FormatPositions(s, p, a, l, registersSize)
      case None => None
      case Some(ps) => Some(if emits then [Position(a, l)] + ps else ps)
  }

  /** The table the format gives a method. */
  function FormatTable(code: CodeItem, s: seq<Byte>): Option<seq<Position>> {
    match Prologue(code, s)
    case Stop => Some([])
    case Cut => None
    case Go(pos, address, line, _) => FormatPositions(s, pos, address, line, code.registersSize)
  }

  // The operand at pos is there, and is no instruction that does nothing.
  predicate OperandActs(s: seq<Byte>, pos: nat) { UnsignedLeb(s, pos).Some? && !(7 <= s[pos] <= 9) }

  // No operand of a DBG_SET_FILE that the program meets does something when it is run.
  predicate Harmless(s: seq<Byte>, pos: nat, address: nat, line: nat, registersSize: nat)
    decreases |s| - pos
  {
    && (pos < |s| && s[pos] == SET_FILE ==> !OperandActs(s, pos + 1))
    && match FormatInstruction(s, pos, address, line, registersSize)
       case Go(p, a, l, _) => Harmless(s, p, a, l, registersSize)
       case _ => true
  }

  /** Running the operand of a DBG_SET_FILE comes to the same as skipping it if and only if the operand is one
      byte that, as an instruction, does nothing. */
  lemma OperandIsRun(s: seq<Byte>, pos: nat, address: nat, line: nat, registersSize: nat)
    requires pos < |s| && s[pos] == SET_FILE && UnsignedLeb(s, pos + 1).Some?
    ensures Positions(s, pos, address, line, registersSize) == Positions(s, pos + 1, address, line, registersSize)
    ensures !OperandActs(s, pos + 1) <==>
              Instruction(s, pos + 1, address, line, registersSize) ==
              FormatInstruction(s, pos, address, line, registersSize)
  {
    hide SkipLebs, Signed;
    LebUnfolds(s, pos + 1, 0);
  }

  // An operand without an end: its bytes are all special opcodes, and the stream ends for both.
  lemma {:induction false} EndlessOperand(s: seq<Byte>, pos: nat, k: nat)
    requires k <= 4 && UnsignedLebRest(s, pos, k).None?
    ensures forall i :: pos <= i < |s| ==> s[i] > 0x7f
    decreases 4 - k
  {
    if pos < |s| { EndlessOperand(s, pos + 1, k + 1); }
  }

  lemma {:induction false} SpecialsRunOut(s: seq<Byte>, pos: nat, address: nat, line: nat, registersSize: nat)
    requires forall i :: pos <= i < |s| ==> s[i] > 9
    ensures Positions(s, pos, address, line, registersSize) == None
    decreases |s| - pos
  {
    var e := Instruction(s, pos, address, line, registersSize);
    if e.Go? { SpecialsRunOut(s, e.pos, e.address, e.line, registersSize); }
  }

  /** A program without DBG_SET_FILE, or whose operands of it do nothing when they are run, is decoded as the
      format says. */
  lemma {:induction false} HarmlessFollowsFormat(s: seq<Byte>, pos: nat, address: nat, line: nat, registersSize: nat)
    requires Harmless(s, pos, address, line, registersSize)
    ensures Positions(s, pos, address, line, registersSize) == FormatPositions(s, pos, address, line, registersSize)
    decreases |s| - pos
  {
    hide Instruction, UnsignedLeb;
    var e := FormatInstruction(s, pos, address, line, registersSize);
    if e.Go? { HarmlessFollowsFormat(s, e.pos, e.address, e.line, registersSize); }
    if pos < |s| && s[pos] == SET_FILE { SetFileFollows(s, pos, address, line, registersSize); }
  }

  // One DBG_SET_FILE: its operand is skipped by what follows, or the stream ends in it.
  lemma SetFileFollows(s: seq<Byte>, pos: nat, address: nat, line: nat, registersSize: nat)
    requires pos < |s| && s[pos] == SET_FILE && !OperandActs(s, pos + 1)
    ensures match UnsignedLeb(s, pos + 1)
            case None => Positions(s, pos, address, line, registersSize) == None
            case Some(r) =>
              Positions(s, pos, address, line, registersSize) == Positions(s, r.next, address, line, registersSize)
  {
    if UnsignedLeb(s, pos + 1).Some? {
      OperandIsRun(s, pos, address, line, registersSize);
    } else {
      EndlessOperand(s, pos + 1, 0);
      SpecialsRunOut(s, pos + 1, address, line, registersSize);
    }
  }

  // The line program of the method is harmless.
  predicate HarmlessMethod(code: CodeItem, s: seq<Byte>) {
    var e := Prologue(code, s);
    e.Go? ==> Harmless(s, e.pos, e.address, e.line, code.registersSize)
  }

  /** So the table of such a method is the one the format gives it. */
  lemma TableFollowsFormat(code: CodeItem, s: seq<Byte>)
    requires HarmlessMethod(code, s)
    ensures Table(code, s) == FormatTable(code, s)
  {
    hide Prologue, Harmless, Positions, FormatPositions;
    var e := Prologue(code, s);
    if e.Go? { HarmlessFollowsFormat(s, e.pos, e.address, e.line, code.registersSize); }
  }

  // Which instructions are met does not depend on the address and the line.
  lemma {:induction false} SameControl(s: seq<Byte>, pos: nat, a: nat, l: nat, a': nat, l': nat, registersSize: nat)
    ensures Positions(s, pos, a, l, registersSize).Some? <==> Positions(s, pos, a', l', registersSize).Some?
    ensures Positions(s, pos, a, l, registersSize).Some? ==>
              |Positions(s, pos, a, l, registersSize).value| == |Positions(s, pos, a', l', registersSize).value|
    decreases |s| - pos
  {
    SameStep(s, pos, a, l, a', l', registersSize);
    hide Instruction;
    var e, e' := Instruction(s, pos, a, l, registersSize), Instruction(s, pos, a', l', registersSize);
    if e.Go? { SameControl(s, e.pos, e.address, e.line, e'.address, e'.line, registersSize); }
  }

  lemma SameStep(s: seq<Byte>, pos: nat, a: nat, l: nat, a': nat, l': nat, registersSize: nat)
    ensures var e, e' := Instruction(s, pos, a, l, registersSize), Instruction(s, pos, a', l', registersSize);
            && (e.Stop? <==> e'.Stop?) && (e.Cut? <==> e'.Cut?)
            && (e.Go? ==> e.pos == e'.pos && e.emits == e'.emits)
  {
    hide UnsignedLeb, SkipLebs, Signed;
  }

  /** The last operand that does something: operand 0 loses every later entry, and a special opcode adds one, so
      the table is still right exactly when there was none to lose, or when the stream is cut short for both.
      Operands that are instructions with operands, or longer than a byte, put the decoder out of step. */
  lemma ActingOperand(s: seq<Byte>, pos: nat, address: nat, line: nat, registersSize: nat)
    requires pos + 1 < |s| && s[pos] == SET_FILE && (s[pos + 1] == 0 || 10 <= s[pos + 1] <= 0x7f)
    requires Harmless(s, pos + 2, address, line, registersSize)
    ensures var decoded := Positions(s, pos, address, line, registersSize);
            var format := FormatPositions(s, pos, address, line, registersSize);
            && (s[pos + 1] == 0 ==> decoded == Some([]))
            && (s[pos + 1] > 0 ==> (decoded.Some? <==> format.Some?))
            && (s[pos + 1] > 0 && format.Some? ==> |decoded.value| == |format.value| + 1)
            && (decoded == format <==> format == if s[pos + 1] == 0 then Some([]) else None)
  {
    var e := Instruction(s, pos + 1, address, line, registersSize);
    LebUnfolds(s, pos + 1, 0);
    HarmlessFollowsFormat(s, pos + 2, address, line, registersSize);
    assert UnsignedLeb(s, pos + 1).value.next == pos + 2;
    hide Harmless, UnsignedLeb;
    assert FormatPositions(s, pos, address, line, registersSize) == Positions(s, pos + 2, address, line, registersSize);
    if e.Go? { SameControl(s, pos + 2, e.address, e.line, address, line, registersSize); }
  }

  /** Such a program: the format gives it an entry, the decoder none. */
  lemma SetFileOperandIsRun()
    ensures Table(Plain(), [5, 0, 9, 0, 10, 0]) == Some([])
    ensures FormatTable(Plain(), [5, 0, 9, 0, 10, 0]) == Some([Position(0, 1)])
  {
    var s: seq<Byte> := [5, 0, 9, 0, 10, 0];
    assert Prologue(Plain(), s) == Go(2, 0, 5, false);
    assert Positions(s, 3, 0, 5, 0) == Some([]);
    assert FormatInstruction(s, 2, 0, 5, 0) == Go(4, 0, 5, false);
    assert FormatInstruction(s, 4, 0, 5, 0) == Go(5, 0, 1, true);
    assert FormatPositions(s, 5, 0, 1, 0) == Some([]);
    assert [Position(0, 1)] + [] == [Position(0, 1)];
    assert FormatPositions(s, 4, 0, 5, 0) == Some([Position(0, 1)]);
  }

  // ---- encoding a table --------------------------------------------------------------------------------------

  // A line difference that, added modulo 2 to the power of 32, leads from one line to the other.
  function LineDelta(from: nat, to: nat): int {
    var d := to - from;
    if d >= 0x8000_0000 then d - UINT32 else if d < -0x8000_0000 then d + UINT32 else d
  }

  // A special opcode exists for small differences.
  predicate IsSmall(da: nat, dl: int) { -4 <= dl <= 10 && 10 + 15 * da + dl + 4 <= 255 }

  function EncodePosition(da: nat, dl: int): seq<Byte> {
    if IsSmall(da, dl) then [10 + 15 * da + dl + 4] else [1] + EncodeUnsigned(da) + [2] + EncodeSigned(dl) + [14]
  }

  /** What a line program says, as the Dalvik Executable format describes it: the entries of the table, and
      between them what it says about local variables, the prologue and the epilogue. Names, types and
      signatures are indices plus one, and 0 when absent. */
  datatype Line =
    | Entry(position: Position)
    | StartLocal(register: nat, name: nat, typ: nat)
    | StartLocalExtended(register: nat, name: nat, typ: nat, signature: nat)
    | EndLocal(register: nat)
    | RestartLocal(register: nat)
    | PrologueEnd
    | EpilogueBegin

  function EncodeNumbers(ns: seq<nat>): seq<Byte> {
    if ns == [] then [] else EncodeUnsigned(ns[0]) + EncodeNumbers(ns[1..])
  }

  function OpcodeOf(m: Line): Byte
    requires !m.Entry?
  {
    match m
    case StartLocal(_, _, _) => 3
    case StartLocalExtended(_, _, _, _) => 4
    case EndLocal(_) => 5
    case RestartLocal(_) => 6
    case PrologueEnd => 7
    case EpilogueBegin => 8
  }

  function OperandsOf(m: Line): seq<nat>
    requires !m.Entry?
  {
    match m
    case StartLocal(register, name, typ) => [register, name, typ]
    case StartLocalExtended(register, name, typ, signature) => [register, name, typ, signature]
    case EndLocal(register) => [register]
    case RestartLocal(register) => [register]
    case _ => []
  }

  // The register is none of the method's.
  predicate Misfits(m: Line, registersSize: nat) {
    !m.Entry? && OperandsOf(m) != [] && OperandsOf(m)[0] % UINT16 > registersSize
  }

  function Entries(items: seq<Line>): seq<Position> {
    if items == [] then []
    else if items[0].Entry? then [items[0].position] + Entries(items[1..])
    else Entries(items[1..])
  }

  // What comes before the first instruction on a register the method does not have.
  function Fitting(items: seq<Line>, registersSize: nat): seq<Line> {
    if items == [] || Misfits(items[0], registersSize) then [] else [items[0]] + Fitting(items[1..], registersSize)
  }

  predicate Follows(ps: seq<Position>, address: nat) { Ascending(ps) && (ps != [] ==> address <= ps[0].address) }

  function EncodeProgram(items: seq<Line>, address: nat, line: nat): seq<Byte>
    requires Follows(Entries(items), address)
  {
    if items == [] then [0]
    else match items[0]
         case Entry(p) =>
           EntriesFollow(items, address);
           EncodePosition(p.address - address, LineDelta(line, p.line)) + EncodeProgram(items[1..], p.address, p.line)
         case m => [OpcodeOf(m)] + (EncodeNumbers(OperandsOf(m)) + EncodeProgram(items[1..], address, line))
  }

  lemma EntriesFollow(items: seq<Line>, address: nat)
    requires Follows(Entries(items), address) && items != []
    ensures items[0].Entry? ==>
              address <= items[0].position.address && Follows(Entries(items[1..]), items[0].position.address)
    ensures !items[0].Entry? ==> Follows(Entries(items[1..]), address)
  {
    var ps := Entries(items[1..]);
    if items[0].Entry? {
      assert forall i :: 0 <= i < |ps| ==> Entries(items)[i + 1] == ps[i];
    }
  }

  // The operands have 32 bits.
  predicate OperandsFit(items: seq<Line>) {
    forall m :: m in items && !m.Entry? ==> forall n :: n in OperandsOf(m) ==> n < UINT32
  }

  predicate InRange(ps: seq<Position>) { forall i :: 0 <= i < |ps| ==> ps[i].address < UINT32 && ps[i].line < UINT32 }

  lemma LineArrives(from: nat, to: nat)
    requires from < UINT32 && to < UINT32
    ensures -0x8000_0000 <= LineDelta(from, to) < 0x8000_0000 && (from + LineDelta(from, to)) % UINT32 == to
  {
  }

  lemma SpecialIs(da: nat, dl: int)
    requires IsSmall(da, dl)
    ensures (15 * da + dl + 4) / 15 == da && (15 * da + dl + 4) % 15 - 4 == dl
  {
  }

  lemma EmitsSmall(s: seq<Byte>, pos: nat, da: nat, dl: int, address: nat, line: nat, registersSize: nat)
    requires IsSmall(da, dl) && pos < |s| && s[pos] == 10 + 15 * da + dl + 4 && address + da < UINT32
    ensures Instruction(s, pos, address, line, registersSize) == Go(pos + 1, address + da, (line + dl) % UINT32, true)
  {
    SpecialIs(da, dl);
  }

  lemma Advances(s: seq<Byte>, pos: nat, da: nat, address: nat, line: nat, registersSize: nat)
    requires address + da < UINT32 && pos + 1 + |EncodeUnsigned(da)| <= |s|
    requires s[pos] == 1 && s[pos + 1..pos + 1 + |EncodeUnsigned(da)|] == EncodeUnsigned(da)
    ensures Instruction(s, pos, address, line, registersSize) ==
            Go(pos + 1 + |EncodeUnsigned(da)|, address + da, line, false)
  {
    DecodesEncoded(s, pos + 1, da, 0);
    hide UnsignedLebRest, EncodeUnsigned;
  }

  lemma AdvancesLine(s: seq<Byte>, pos: nat, dl: int, address: nat, line: nat, registersSize: nat)
    requires -0x8000_0000 <= dl < 0x8000_0000 && pos + 1 + |EncodeSigned(dl)| <= |s|
    requires s[pos] == 2 && s[pos + 1..pos + 1 + |EncodeSigned(dl)|] == EncodeSigned(dl)
    ensures Instruction(s, pos, address, line, registersSize) ==
            Go(pos + 1 + |EncodeSigned(dl)|, address, (line + dl) % UINT32, false)
  {
    DecodesSigned(s, pos + 1, dl);
    hide UnsignedLeb, EncodeSigned, Signed;
  }

  // What an instruction contributes.
  lemma OneInstruction(s: seq<Byte>, pos: nat, address: nat, line: nat, registersSize: nat)
    requires Instruction(s, pos, address, line, registersSize).Go?
    ensures var e := Instruction(s, pos, address, line, registersSize);
            && (e.address >= address && NoOverflow(s, e.pos, e.address, e.line, registersSize) ==>
                  NoOverflow(s, pos, address, line, registersSize))
            && (Positions(s, e.pos, e.address, e.line, registersSize).Some? ==>
                  var ps := Positions(s, e.pos, e.address, e.line, registersSize).value;
                  Positions(s, pos, address, line, registersSize) ==
                      Some(if e.emits then [Position(e.address, e.line)] + ps else ps))
  {
  }

  // From pos on, the program emits p and goes on at next.
  ghost predicate Emits(s: seq<Byte>, pos: nat, p: Position, address: nat, line: nat, registersSize: nat, next: nat) {
    && (NoOverflow(s, next, p.address, p.line, registersSize) ==> NoOverflow(s, pos, address, line, registersSize))
    && (Positions(s, next, p.address, p.line, registersSize).Some? ==>
          Positions(s, pos, address, line, registersSize) ==
              Some([p] + Positions(s, next, p.address, p.line, registersSize).value))
  }

  lemma LongEmits(s: seq<Byte>, pos: nat, p: Position, address: nat, line: nat, registersSize: nat, dl: int,
                  rest: seq<Byte>)
    requires address <= p.address < UINT32 && line < UINT32 && p.line < UINT32 && pos <= |s|
    requires -0x8000_0000 <= dl < 0x8000_0000 && (line + dl) % UINT32 == p.line
    requires s[pos..] == [1] + (EncodeUnsigned(p.address - address) + ([2] + (EncodeSigned(dl) + ([14] + rest))))
    ensures var next := pos + 3 + |EncodeUnsigned(p.address - address)| + |EncodeSigned(dl)|;
            next <= |s| && s[next..] == rest && Emits(s, pos, p, address, line, registersSize, next)
  {
    hide *;
    var da := p.address - address;
    var u, g := EncodeUnsigned(da), EncodeSigned(dl);
    AdvancesThen(s, pos, da, address, line, registersSize, [2] + (g + ([14] + rest)));
    OneInstruction(s, pos, address, line, registersSize);
    var second := pos + 1 + |u|;
    AdvancesLineThen(s, second, dl, p.address, line, registersSize, [14] + rest);
    OneInstruction(s, second, p.address, line, registersSize);
    var third := second + 1 + |g|;
    EmitsThen(s, third, p.address, p.line, registersSize, rest);
    OneInstruction(s, third, p.address, p.line, registersSize);
    EmitsIs(s, pos, p, address, line, registersSize, third + 1);
  }

  lemma EmitsIs(s: seq<Byte>, pos: nat, p: Position, address: nat, line: nat, registersSize: nat, next: nat)
    requires NoOverflow(s, next, p.address, p.line, registersSize) ==> NoOverflow(s, pos, address, line, registersSize)
    requires Positions(s, next, p.address, p.line, registersSize).Some? ==>
               Positions(s, pos, address, line, registersSize) ==
                   Some([p] + Positions(s, next, p.address, p.line, registersSize).value)
    ensures Emits(s, pos, p, address, line, registersSize, next)
  {
  }

  lemma AdvancesThen(s: seq<Byte>, pos: nat, da: nat, address: nat, line: nat, registersSize: nat, rest: seq<Byte>)
    requires address + da < UINT32 && pos <= |s| && s[pos..] == [1] + (EncodeUnsigned(da) + rest)
    ensures var next := pos + 1 + |EncodeUnsigned(da)|;
            && next <= |s| && s[next..] == rest
            && Instruction(s, pos, address, line, registersSize) == Go(next, address + da, line, false)
  {
    hide EncodeUnsigned, Instruction;
    Splits(s, pos, [1], EncodeUnsigned(da) + rest);
    Splits(s, pos + 1, EncodeUnsigned(da), rest);
    Advances(s, pos, da, address, line, registersSize);
  }

  lemma AdvancesLineThen(s: seq<Byte>, pos: nat, dl: int, address: nat, line: nat, registersSize: nat, rest: seq<Byte>)
    requires -0x8000_0000 <= dl < 0x8000_0000 && pos <= |s| && s[pos..] == [2] + (EncodeSigned(dl) + rest)
    ensures var next := pos + 1 + |EncodeSigned(dl)|;
            && next <= |s| && s[next..] == rest
            && Instruction(s, pos, address, line, registersSize) == Go(next, address, (line + dl) % UINT32, false)
  {
    hide EncodeSigned, Instruction;
    Splits(s, pos, [2], EncodeSigned(dl) + rest);
    Splits(s, pos + 1, EncodeSigned(dl), rest);
    AdvancesLine(s, pos, dl, address, line, registersSize);
  }

  lemma EmitsThen(s: seq<Byte>, pos: nat, address: nat, line: nat, registersSize: nat, rest: seq<Byte>)
    requires address < UINT32 && line < UINT32 && pos <= |s| && s[pos..] == [14] + rest
    ensures pos < |s| && s[pos + 1..] == rest &&
            Instruction(s, pos, address, line, registersSize) == Go(pos + 1, address, line, true)
  {
    Splits(s, pos, [14], rest);
    EmitsSmall(s, pos, 0, 0, address, line, registersSize);
  }

  lemma Regroup(a: seq<Byte>, b: seq<Byte>, c: seq<Byte>, d: seq<Byte>, e: seq<Byte>, rest: seq<Byte>)
    ensures a + b + c + d + e + rest == a + (b + (c + (d + (e + rest))))
  {
  }

  // One encoded position is emitted, and the program goes on behind it.
  lemma EmitsPosition(s: seq<Byte>, pos: nat, p: Position, address: nat, line: nat, registersSize: nat, rest: seq<Byte>)
    requires address <= p.address < UINT32 && line < UINT32 && p.line < UINT32 && pos <= |s|
    requires s[pos..] == EncodePosition(p.address - address, LineDelta(line, p.line)) + rest
    ensures var next := pos + |EncodePosition(p.address - address, LineDelta(line, p.line))|;
            next <= |s| && s[next..] == rest && Emits(s, pos, p, address, line, registersSize, next)
  {
    hide LineDelta, EncodeUnsigned, EncodeSigned, Instruction, Positions, NoOverflow;
    var da, dl := p.address - address, LineDelta(line, p.line);
    LineArrives(line, p.line);
    Splits(s, pos, EncodePosition(da, dl), rest);
    if IsSmall(da, dl) {
      EmitsSmall(s, pos, da, dl, address, line, registersSize);
      OneInstruction(s, pos, address, line, registersSize);
    } else {
      var u, g := EncodeUnsigned(da), EncodeSigned(dl);
      Regroup([1], u, [2], g, [14], rest);
      LongEmits(s, pos, p, address, line, registersSize, dl, rest);
    }
  }

  // The first of several numbers, and what follows it.
  lemma FirstNumber(s: seq<Byte>, pos: nat, ns: seq<nat>, rest: seq<Byte>)
    requires pos <= |s| && s[pos..] == EncodeNumbers(ns) + rest && ns != [] && forall n :: n in ns ==> n < UINT32
    ensures var next := pos + |EncodeUnsigned(ns[0])|;
            && next <= |s| && s[next..] == EncodeNumbers(ns[1..]) + rest
            && UnsignedLeb(s, pos) == Some(Leb(ns[0], next))
            && (forall n :: n in ns[1..] ==> n < UINT32)
            && next + |EncodeNumbers(ns[1..])| == pos + |EncodeNumbers(ns)|
  {
    hide *;
    assert ns[0] in ns && forall n :: n in ns[1..] ==> n in ns;
    NumbersUnfold(ns, rest);
    NumberAt(s, pos, ns[0], EncodeNumbers(ns[1..]) + rest);
  }

  lemma NumbersUnfold(ns: seq<nat>, rest: seq<Byte>)
    requires ns != []
    ensures EncodeNumbers(ns) + rest == EncodeUnsigned(ns[0]) + (EncodeNumbers(ns[1..]) + rest)
    ensures |EncodeNumbers(ns)| == |EncodeUnsigned(ns[0])| + |EncodeNumbers(ns[1..])|
  {
    hide EncodeUnsigned;
    Associates(EncodeUnsigned(ns[0]), EncodeNumbers(ns[1..]), rest);
  }

  // Numbers are skipped where they are encoded.
  lemma {:induction false} SkipsNumbers(s: seq<Byte>, pos: nat, ns: seq<nat>, rest: seq<Byte>)
    requires pos <= |s| && s[pos..] == EncodeNumbers(ns) + rest && forall n :: n in ns ==> n < UINT32
    ensures var next := pos + |EncodeNumbers(ns)|;
            next <= |s| && s[next..] == rest && SkipLebs(s, pos, |ns|) == Some(next)
    decreases |ns|
  {
    hide UnsignedLeb, EncodeUnsigned, EncodeNumbers;
    Splits(s, pos, EncodeNumbers(ns), rest);
    if ns == [] {
      NoNumbers();
    } else {
      FirstNumber(s, pos, ns, rest);
      SkipsNumbers(s, pos + |EncodeUnsigned(ns[0])|, ns[1..], rest);
    }
  }

  // An instruction on a register reads it and skips the other operands.
  lemma LocalSkips(s: seq<Byte>, pos: nat, ns: seq<nat>, rest: seq<Byte>, address: nat, line: nat, registersSize: nat)
    requires pos <= |s| && ns != [] && s[pos..] == EncodeNumbers(ns) + rest && forall n :: n in ns ==> n < UINT32
    ensures Local(s, pos, address, line, registersSize, |ns| - 1) ==
            if ns[0] % UINT16 > registersSize then Stop else Go(pos + |EncodeNumbers(ns)|, address, line, false)
  {
    hide UnsignedLeb, EncodeUnsigned, EncodeNumbers, SkipLebs;
    FirstNumber(s, pos, ns, rest);
    SkipsNumbers(s, pos + |EncodeUnsigned(ns[0])|, ns[1..], rest);
  }

  /** Instructions about local variables, the prologue and the epilogue leave the address and the line as they
      are, and the program goes on behind their operands; unless the register is none of the method's. */
  lemma MarksPassBy(s: seq<Byte>, pos: nat, m: Line, rest: seq<Byte>, address: nat, line: nat, registersSize: nat)
    requires !m.Entry? && pos <= |s| && forall n :: n in OperandsOf(m) ==> n < UINT32
    requires s[pos..] == [OpcodeOf(m)] + (EncodeNumbers(OperandsOf(m)) + rest)
    ensures var next := pos + 1 + |EncodeNumbers(OperandsOf(m))|;
            && next <= |s| && s[next..] == rest
            && Instruction(s, pos, address, line, registersSize) ==
               if Misfits(m, registersSize) then Stop else Go(next, address, line, false)
  {
    hide EncodeNumbers, Local, Instruction, OpcodeOf, OperandsOf;
    var ns := OperandsOf(m);
    Splits(s, pos, [OpcodeOf(m)], EncodeNumbers(ns) + rest);
    Splits(s, pos + 1, EncodeNumbers(ns), rest);
    MarkIsMet(s, pos, m, address, line, registersSize);
    if ns == [] {
      NoNumbers();
    } else {
      LocalSkips(s, pos + 1, ns, rest, address, line, registersSize);
    }
  }

  lemma MarkIsMet(s: seq<Byte>, pos: nat, m: Line, address: nat, line: nat, registersSize: nat)
    requires !m.Entry? && pos < |s| && s[pos] == OpcodeOf(m)
    ensures Instruction(s, pos, address, line, registersSize) ==
            if OperandsOf(m) == [] then Go(pos + 1, address, line, false)
            else Local(s, pos + 1, address, line, registersSize, |OperandsOf(m)| - 1)
  {
    hide Local, UnsignedLeb, Signed;
  }

  lemma NoNumbers()
    ensures EncodeNumbers([]) == []
  {
  }

  /** Decoding an encoded program gives its entries back, up to an instruction on a register that the method
      does not have, and its addresses do not overflow. */
  lemma {:induction false} DecodesProgram(s: seq<Byte>, pos: nat, items: seq<Line>, address: nat, line: nat,
                                          registersSize: nat)
    requires Follows(Entries(items), address) && InRange(Entries(items)) && OperandsFit(items) && line < UINT32
    requires pos <= |s| && s[pos..] == EncodeProgram(items, address, line)
    ensures Positions(s, pos, address, line, registersSize) == Some(Entries(Fitting(items, registersSize)))
    ensures NoOverflow(s, pos, address, line, registersSize)
    decreases |items|
  {
    hide *;
    if items == [] {
      EndOfProgram(s, pos, address, line, registersSize);
    } else if items[0].Entry? {
      EntryFirst(items, address, line, registersSize);
      var p, rest := items[0].position, EncodeProgram(items[1..], items[0].position.address, items[0].position.line);
      var code := EncodePosition(p.address - address, LineDelta(line, p.line));
      var next := pos + |code|;
      EmitsPosition(s, pos, p, address, line, registersSize, rest);
      DecodesProgram(s, next, items[1..], p.address, p.line, registersSize);
      EmitsMeans(s, pos, p, address, line, registersSize, next);
    } else {
      MarkFirst(items, address, line, registersSize);
      var m, rest := items[0], EncodeProgram(items[1..], address, line);
      MarksPassBy(s, pos, m, rest, address, line, registersSize);
      var next := pos + 1 + |EncodeNumbers(OperandsOf(m))|;
      if Misfits(m, registersSize) {
        StopsHere(s, pos, address, line, registersSize);
      } else {
        DecodesProgram(s, next, items[1..], address, line, registersSize);
        OneInstruction(s, pos, address, line, registersSize);
      }
    }
  }

  lemma StopsHere(s: seq<Byte>, pos: nat, address: nat, line: nat, registersSize: nat)
    requires Instruction(s, pos, address, line, registersSize).Stop?
    ensures Positions(s, pos, address, line, registersSize) == Some([])
    ensures NoOverflow(s, pos, address, line, registersSize)
  {
  }

  lemma EndOfProgram(s: seq<Byte>, pos: nat, address: nat, line: nat, registersSize: nat)
    requires Follows(Entries([]), address) && pos <= |s| && s[pos..] == EncodeProgram([], address, line)
    ensures Positions(s, pos, address, line, registersSize) == Some(Entries(Fitting([], registersSize)))
    ensures NoOverflow(s, pos, address, line, registersSize)
  {
    assert s[pos..][0] == 0;
  }

  lemma EntryFirst(items: seq<Line>, address: nat, line: nat, registersSize: nat)
    requires Follows(Entries(items), address) && InRange(Entries(items)) && OperandsFit(items)
    requires items != [] && items[0].Entry?
    ensures var p, rest := items[0].position, items[1..];
            && address <= p.address < UINT32 && p.line < UINT32
            && Follows(Entries(rest), p.address) && InRange(Entries(rest)) && OperandsFit(rest)
            && EncodeProgram(items, address, line) ==
               EncodePosition(p.address - address, LineDelta(line, p.line)) + EncodeProgram(rest, p.address, p.line)
            && Entries(Fitting(items, registersSize)) == [p] + Entries(Fitting(rest, registersSize))
  {
    hide EncodePosition, LineDelta, Follows, OperandsOf;
    EntriesFollow(items, address);
    assert Entries(items)[0] == items[0].position;
    assert forall i :: 0 <= i < |Entries(items[1..])| ==> Entries(items)[i + 1] == Entries(items[1..])[i];
    var fitting := Fitting(items, registersSize);
    assert fitting[1..] == Fitting(items[1..], registersSize);
  }

  lemma MarkFirst(items: seq<Line>, address: nat, line: nat, registersSize: nat)
    requires Follows(Entries(items), address) && InRange(Entries(items)) && OperandsFit(items)
    requires items != [] && !items[0].Entry?
    ensures var m, rest := items[0], items[1..];
            && Follows(Entries(rest), address) && InRange(Entries(rest)) && OperandsFit(rest)
            && (forall n :: n in OperandsOf(m) ==> n < UINT32)
            && EncodeProgram(items, address, line) ==
               [OpcodeOf(m)] + (EncodeNumbers(OperandsOf(m)) + EncodeProgram(rest, address, line))
            && Entries(Fitting(items, registersSize)) ==
               if Misfits(m, registersSize) then [] else Entries(Fitting(rest, registersSize))
  {
    hide EncodeNumbers, OpcodeOf, Follows, OperandsOf, InRange;
    EntriesFollow(items, address);
    assert items[0] in items;
    if !Misfits(items[0], registersSize) {
      assert Fitting(items, registersSize)[1..] == Fitting(items[1..], registersSize);
    }
  }

  lemma EmitsMeans(s: seq<Byte>, pos: nat, p: Position, address: nat, line: nat, registersSize: nat, next: nat)
    requires Emits(s, pos, p, address, line, registersSize, next)
    ensures NoOverflow(s, next, p.address, p.line, registersSize) ==> NoOverflow(s, pos, address, line, registersSize)
    ensures Positions(s, next, p.address, p.line, registersSize).Some? ==>
              Positions(s, pos, address, line, registersSize) ==
                  Some([p] + Positions(s, next, p.address, p.line, registersSize).value)
  {
    hide Positions, NoOverflow;
  }

  // The whole item: the first line, the names of the parameters, the program.
  function EncodeItem(items: seq<Line>, line: nat, names: seq<nat>): seq<Byte>
    requires Follows(Entries(items), 0)
  {
    EncodeUnsigned(line) + (EncodeUnsigned(|names|) + (EncodeNumbers(names) + EncodeProgram(items, 0, line)))
  }

  // Every parameter starts in a register of the method.
  predicate ArgsFit(wide: seq<bool>, argReg: nat, registersSize: nat) {
    wide == [] || (argReg < registersSize &&
        ArgsFit(wide[1..], (argReg + if wide[0] then 2 else 1) % UINT16, registersSize))
  }

  lemma {:induction false} SkipsNames(s: seq<Byte>, pos: nat, names: seq<nat>, wide: seq<bool>, argReg: nat,
                                      registersSize: nat, rest: seq<Byte>)
    requires pos <= |s| && s[pos..] == EncodeNumbers(names) + rest && |names| == |wide|
    requires forall n :: n in names ==> n < UINT32
    ensures var next := pos + |EncodeNumbers(names)|;
            && next <= |s| && s[next..] == rest
            && Parameters(s, pos, |wide|, wide, argReg, registersSize) ==
               if ArgsFit(wide, argReg, registersSize) then Go(next, 0, 0, false) else Stop
    decreases |wide|
  {
    hide UnsignedLeb, EncodeUnsigned, EncodeNumbers;
    Splits(s, pos, EncodeNumbers(names), rest);
    if wide == [] {
      assert names == [];
      NoNumbers();
    } else {
      FirstNumber(s, pos, names, rest);
      SkipsNames(s, pos + |EncodeUnsigned(names[0])|, names[1..], wide[1..],
                 (argReg + if wide[0] then 2 else 1) % UINT16, registersSize, rest);
    }
  }

  // The entries that are decoded: none if the parameters do not fit.
  function Decoded(code: CodeItem, items: seq<Line>): seq<Position> {
    if ArgsFit(code.wide, FirstArg(code), code.registersSize) then Entries(Fitting(items, code.registersSize)) else []
  }

  /** So every program whose entries ascend has an item from which they are decoded, and whose addresses fit, for
      every method that has the registers of its parameters and local variables; for any other method the
      decoder gives up there. */
  lemma DecodesItem(code: CodeItem, items: seq<Line>, line: nat, names: seq<nat>)
    requires Follows(Entries(items), 0) && InRange(Entries(items)) && OperandsFit(items) && line < UINT32
    requires |names| == |code.wide| < UINT32 && forall n :: n in names ==> n < UINT32
    ensures Table(code, EncodeItem(items, line, names)) == Some(Decoded(code, items))
    ensures AddressesFit(code, EncodeItem(items, line, names))
  {
    hide EncodeUnsigned, EncodeProgram, Positions, NoOverflow, Follows, InRange, UnsignedLebRest, Parameters,
         EncodeNumbers, ArgsFit, FirstArg, Entries, Fitting, OperandsFit;
    var n := |names|;
    var s, rest, program := EncodeItem(items, line, names), EncodeNumbers(names), EncodeProgram(items, 0, line);
    assert s[0..] == s;
    NumberAt(s, 0, line, EncodeUnsigned(n) + (rest + program));
    NumberAt(s, |EncodeUnsigned(line)|, n, rest + program);
    var start := |EncodeUnsigned(line)| + |EncodeUnsigned(n)|;
    SkipsNames(s, start, names, code.wide, FirstArg(code), code.registersSize, program);
    DecodesProgram(s, start + |rest|, items, 0, line, code.registersSize);
  }

  // ---- GetLineNumFromPC -----------------------------------------------------------------------------------------

  function ToInt32(n: nat): (i: int)
    ensures -0x8000_0000 <= i < 0x8000_0000 && (n - i) % UINT32 == 0
  {
    if n % UINT32 < 0x8000_0000 then n % UINT32 else n % UINT32 - UINT32
  }

  ghost predicate HasTable(code: Option<CodeItem>) {
    code.Some? && code.value.debugInfo.Some? ==> Table(code.value, code.value.debugInfo.value).Some?
  }

  ghost function TableOf(code: CodeItem): seq<Position>
    requires HasTable(Some(code))
  {
    if code.debugInfo.None? then [] else Table(code, code.debugInfo.value).value
  }

  /** `GetLineNumFromPC`; a native method has no code item. */
  method GetLineNumFromPC(code: Option<CodeItem>, pc: nat) returns (line: int)
    requires HasTable(code)
    ensures code.None? ==> line == -2
    ensures code.Some? ==> line == ToInt32(Scan(TableOf(code.value), pc, UINT32 - 1))
    ensures code.Some? && InTime(TableOf(code.value), pc) ==>
              exists k :: Names(TableOf(code.value), pc, k) && k < |TableOf(code.value)| &&
                          line == if k < 0 then -1 else ToInt32(TableOf(code.value)[k].line)
  {
    if code.None? { return -2; }
    var context := new LineNumFromPcContext(pc, UINT32 - 1);
    if code.value.debugInfo.Some? { DecodeDebugInfo0(code.value, code.value.debugInfo.value, context); }
    EarlyExitIsExact(TableOf(code.value), pc, UINT32 - 1);
    hide Table, Scan, ScanIndex, InTime, Names;
    line := ToInt32(context.lineNum);
  }
}
