/** The disassembler's opcode tables and instruction lengths. */
module Disassembler {
  import opened Options
  import opened Words
  import opened Bits
  import opened Reference
  import opened Interrupts
  import opened Frames

  /**
   * One letter per opcode: d direct, e extended, x indexed, i implied, b and w
   * immediate byte and word, r and R relative byte and word, p and s register
   * and stack postbytes, - illegal.
   */
  function Codes(hi: nat): string {
    match hi
    case 0 => "d--dd-ddddd-dddd"
    case 1 => "--ii--RR-ib-bipp"
    case 2 => "rrrrrrrrrrrrrrrr"
    case 3 => "xxxxssss-iiibiii"
    case 4 => "i--ii-iiiii-ii-i"
    case 5 => "i--ii-iiiii-ii-i"
    case 6 => "x--xx-xxxxx-xxxx"
    case 7 => "e--ee-eeeee-eeee"
    case 8 => "bbbwbbb-bbbbwrw-"
    case 9 => "dddddddddddddddd"
    case 10 => "xxxxxxxxxxxxxxxx"
    case 11 => "eeeeeeeeeeeeeeee"
    case 12 => "bbbwbbb-bbbbw-w-"
    case 13 => "dddddddddddddddd"
    case 14 => "xxxxxxxxxxxxxxxx"
    case _ => "eeeeeeeeeeeeeeee"
  }

  function Codes10(hi: nat): string {
    match hi
    case 2 => "-RRRRRRRRRRRRRRR"
    case 3 => "---------------i"
    case 8 => "---w--------w-w-"
    case 9 => "---d--------d-dd"
    case 10 => "---x--------x-xx"
    case 11 => "---e--------e-ee"
    case 12 => "--------------w-"
    case 13 => "--------------dd"
    case 14 => "--------------xx"
    case 15 => "--------------ee"
    case _ => "----------------"
  }

  function Codes11(hi: nat): string {
    match hi
    case 3 => "---------------i"
    case 8 => "---w--------w---"
    case 9 => "---d--------d---"
    case 10 => "---x--------x---"
    case 11 => "---e--------e---"
    case _ => "----------------"
  }

  function ModeAt(row: string, lo: nat): char { if lo < |row| then row[lo] else '-' }

  /** Extension bytes `dasm` prints for an indexed postbyte. */
  function IndexedText(post: u8): nat {
    if post < 0x80 then 0
    else match post % 32
      case 0x08 => 1
      case 0x09 => 2
      case 0x0c => 1
      case 0x0d => 2
      case 0x18 => 1
      case 0x19 => 2
      case 0x1c => 1
      case 0x1d => 2
      case 0x1f => 2
      case _ => 0
  }

  /** Operand bytes fetched for a mode. */
  function ModeLen(mode: char, post: u8): nat {
    match mode
    case 'd' => 1
    case 'e' => 2
    case 'x' => 1 + IndexedText(post)
    case 'b' => 1
    case 'w' => 2
    case 'r' => 1
    case 'R' => 2
    case 'p' => 1
    case 's' => 1
    case _ => 0
  }

  function DasmMode(mem: Memory, pc: nat): char {
    var op, next := ByteAt(mem, pc), ByteAt(mem, pc + 1);
    if op == 0x10 then ModeAt(Codes10(next / 16), next % 16)
    else if op == 0x11 then ModeAt(Codes11(next / 16), next % 16)
    else ModeAt(Codes(op / 16), op % 16)
  }

  /** What `dasm` returns. */
  function DasmLen(mem: Memory, pc: nat): nat {
    var prefix := Digit(IsPrefix(ByteAt(mem, pc)));
    1 + prefix + ModeLen(DasmMode(mem, pc), ByteAt(mem, pc + 1 + prefix))
  }

  /** `dasm` without its text: it walks pc over the bytes and returns the distance. */
  method Dasm(mem: Memory, opc: nat) returns (len: nat)
    ensures len == DasmLen(mem, opc)
  {
    hide Codes, Codes10, Codes11;
    var pc := opc;
    var op := ByteAt(mem, pc);
    pc := pc + 1;
    var mode: char;
    if op == 0x10 {
      op := ByteAt(mem, pc);
      pc := pc + 1;
      mode := ModeAt(Codes10(op / 16), op % 16);
    } else if op == 0x11 {
      op := ByteAt(mem, pc);
      pc := pc + 1;
      mode := ModeAt(Codes11(op / 16), op % 16);
    } else {
      mode := ModeAt(Codes(op / 16), op % 16);
    }
    if mode == 'x' {
      op := ByteAt(mem, pc);
      pc := pc + 1;
      if op >= 0x80 {
        var form := op % 32;
        if form == 0x08 || form == 0x0c || form == 0x18 || form == 0x1c {
          pc := pc + 1;
        } else if form == 0x09 || form == 0x0d || form == 0x19 || form == 0x1d || form == 0x1f {
          pc := pc + 2;
        }
      }
    } else if mode == 'e' || mode == 'w' || mode == 'R' {
      pc := pc + 2;
    } else if mode == 'd' || mode == 'b' || mode == 'r' || mode == 'p' || mode == 's' {
      pc := pc + 1;
    }
    len := pc - opc;
  }

  // ---------------------------------------------------------------- agreement with the CPU

  lemma IndexedAgrees(post: u8)
    ensures IndexedText(post) == ExtensionLen(post)
  {
    var q, f := post / 32, post % 32;
    assert post == 32 * q + f;
    if f < 16 {
      assert post % 16 == f && post / 16 == 2 * q;
    } else {
      assert post % 16 == f - 16 && post / 16 == 2 * q + 1;
    }
  }

  /** On every opcode the CPU executes, the table's mode fetches what the CPU consumes. */
  predicate RowAgrees(op: Option<Op>, row: string, lo: nat) {
    match op
    case None => true
    case Some(op) => forall post: u8 :: OperandLen(op, post) == ModeLen(ModeAt(row, lo), post)
  }

  lemma Row0And2(opcode: u8)
    requires opcode < 0x10 || 0x20 <= opcode < 0x30
    ensures RowAgrees(OpPage1(opcode), Codes(opcode / 16), opcode % 16)
  {
    forall post: u8 { IndexedAgrees(post); }
    hide IndexedText, ExtensionLen;
  }

  lemma Row1(opcode: u8)
    requires 0x10 <= opcode < 0x20
    ensures RowAgrees(OpPage1(opcode), Codes(opcode / 16), opcode % 16)
  {
    forall post: u8 { IndexedAgrees(post); }
    hide IndexedText, ExtensionLen;
  }

  lemma Row3(opcode: u8)
    requires 0x30 <= opcode < 0x40
    ensures RowAgrees(OpPage1(opcode), Codes(opcode / 16), opcode % 16)
  {
    forall post: u8 { IndexedAgrees(post); }
    hide IndexedText, ExtensionLen;
  }

  lemma Rows4To7(opcode: u8)
    requires 0x40 <= opcode < 0x80
    ensures RowAgrees(OpPage1(opcode), Codes(opcode / 16), opcode % 16)
  {
    forall post: u8 { IndexedAgrees(post); }
    hide IndexedText, ExtensionLen;
  }

  lemma Rows8And9(opcode: u8)
    requires 0x80 <= opcode < 0xa0
    ensures RowAgrees(OpPage1(opcode), Codes(opcode / 16), opcode % 16)
  {
    forall post: u8 { IndexedAgrees(post); }
    hide IndexedText, ExtensionLen;
  }

  lemma Rows10And11(opcode: u8)
    requires 0xa0 <= opcode < 0xc0
    ensures RowAgrees(OpPage1(opcode), Codes(opcode / 16), opcode % 16)
  {
    forall post: u8 { IndexedAgrees(post); }
    hide IndexedText, ExtensionLen;
  }

  lemma Rows12And13(opcode: u8)
    requires 0xc0 <= opcode < 0xe0
    ensures RowAgrees(OpPage1(opcode), Codes(opcode / 16), opcode % 16)
  {
    forall post: u8 { IndexedAgrees(post); }
    hide IndexedText, ExtensionLen;
  }

  lemma Rows14And15(opcode: u8)
    requires 0xe0 <= opcode
    ensures RowAgrees(OpPage1(opcode), Codes(opcode / 16), opcode % 16)
  {
    forall post: u8 { IndexedAgrees(post); }
    hide IndexedText, ExtensionLen;
  }

  lemma Page1Agrees(opcode: u8)
    ensures RowAgrees(OpPage1(opcode), Codes(opcode / 16), opcode % 16)
  {
    hide RowAgrees, Codes, OpPage1;
    if opcode < 0x10 || 0x20 <= opcode < 0x30 { Row0And2(opcode); }
    else if opcode < 0x20 { Row1(opcode); }
    else if opcode < 0x40 { Row3(opcode); }
    else if opcode < 0x80 { Rows4To7(opcode); }
    else if opcode < 0xa0 { Rows8And9(opcode); }
    else if opcode < 0xc0 { Rows10And11(opcode); }
    else if opcode < 0xe0 { Rows12And13(opcode); }
    else { Rows14And15(opcode); }
  }

  lemma Page2Agrees(opcode: u8)
    ensures RowAgrees(OpPage2(opcode), Codes10(opcode / 16), opcode % 16)
  {
    forall post: u8 { IndexedAgrees(post); }
    hide IndexedText, ExtensionLen;
  }

  lemma Page3Agrees(opcode: u8)
    ensures RowAgrees(OpPage3(opcode), Codes11(opcode / 16), opcode % 16)
  {
    forall post: u8 { IndexedAgrees(post); }
    hide IndexedText, ExtensionLen;
  }

  /** For every valid instruction the CPU consumes exactly the bytes `dasm` reports. */
  lemma LengthsAgree(mem: Memory, pc: nat)
    ensures match Fetch(mem, pc) case Insn(op, len, t) => len == DasmLen(mem, pc) case _ => true
  {
    if pc < 0x1_0000 {
      Page1Agrees(mem[pc]);
      Page2Agrees(ByteAt(mem, pc + 1));
      Page3Agrees(ByteAt(mem, pc + 1));
    }
    hide OpPage1, OpPage2, OpPage3, OperandLen, ModeLen, ModeAt, Codes, Codes10, Codes11, UsesIndexed, ValidPost;
  }

  // ---------------------------------------------------------------- where execution goes next

  /** Operations after which execution falls through. */
  predicate Straight(op: Op, t: Tail) {
    match op
    case Jump(_) => false
    case Call(_) => false
    case Pull(_) => !Bit(t.b0, 7)
    case Transfer => t.b0 % 16 != 5
    case Exchange => t.b0 % 16 != 5 && t.b0 / 16 != 5
    case _ => !IsControlOp(op)
  }

  lemma SettersKeepPc()
    ensures forall m: State, reg: Reg16, w: u16 :: Set16(m, reg, w).pc == m.pc
    ensures forall m: State, acc: Acc, v: u8 :: SetAcc(m, acc, v).pc == m.pc
    ensures forall m: State, stk: Stk, v: u8 :: Push8(m, stk, v).pc == m.pc
    ensures forall m: State, stk: Stk, w: u16 :: Push16(m, stk, w).pc == m.pc
  {
  }

  lemma BaseKeepsPc(m: State, t: Tail)
    ensures IndexedBase(m, t).m.pc == m.pc
  {
    SettersKeepPc();
    hide Set16, Get16, IndexReg;
  }

  lemma AddressKeepsPc(m: State, mode: Mode, t: Tail)
    ensures EffectiveAddress(m, mode, t).m.pc == m.pc && IndexedAddress(m, t).m.pc == m.pc
  {
    BaseKeepsPc(m, t);
    hide IndexedBase, IsIndirect;
  }

  lemma MemoryKeepsPc(m: State, op: Op, t: Tail)
    requires IsMemoryOp(op) && Straight(op, t)
    ensures ExecMemory(m, op, t).pc == m.pc
  {
    hide EffectiveAddress, IndexedAddress, Set16, Get16, SetAcc, GetAcc, Alu8, AluWide, Unary;
    SettersKeepPc();
    match op
    case RmwMem(_, mode) => AddressKeepsPc(m, mode, t);
    case Arith8(_, _, mode) => AddressKeepsPc(m, mode, t);
    case Store8(_, mode) => AddressKeepsPc(m, mode, t);
    case Arith16(_, _, mode, _) => AddressKeepsPc(m, mode, t);
    case Store16(_, mode, _) => AddressKeepsPc(m, mode, t);
    case Lea(_) => AddressKeepsPc(m, Indexed, t);
  }

  lemma PushKeepsPc(m: State, stk: Stk, mask: u8)
    ensures PushWordRegs(m, stk, mask).pc == m.pc && PushByteRegs(m, stk, mask).pc == m.pc
  {
    SettersKeepPc();
    hide Push8, Push16, Bit, CcByte, Other;
  }

  lemma PullKeepsPc(m: State, stk: Stk, mask: u8)
    ensures PullByteRegs(m, stk, mask).pc == m.pc
    ensures !Bit(mask, 7) ==> PullWordRegs(m, stk, mask).pc == m.pc
  {
    PullsKeepPc();
    hide Bit, PullCc, PullA, PullB, PullDp, PullX, PullY, PullOther, PullPc;
  }

  lemma PullsKeepPc()
    ensures forall m: State, stk: Stk :: PullCc(m, stk).pc == m.pc
    ensures forall m: State, stk: Stk :: PullA(m, stk).pc == m.pc
    ensures forall m: State, stk: Stk :: PullB(m, stk).pc == m.pc
    ensures forall m: State, stk: Stk :: PullDp(m, stk).pc == m.pc
    ensures forall m: State, stk: Stk :: PullX(m, stk).pc == m.pc
    ensures forall m: State, stk: Stk :: PullY(m, stk).pc == m.pc
    ensures forall m: State, stk: Stk :: PullOther(m, stk).pc == m.pc
  {
  }

  lemma SetRegKeepsPc(m: State, nro: nat, val: u16)
    requires nro != 5
    ensures SetReg(m, nro, val).pc == m.pc
  {
    hide CcOf;
  }

  lemma RegisterKeepsPc(m: State, op: Op, t: Tail)
    requires !IsMemoryOp(op) && !IsControlOp(op) && Straight(op, t)
    ensures ExecRegister(m, op, t).pc == m.pc
  {
    hide PushWordRegs, PushByteRegs, PullByteRegs, PullWordRegs, SetReg, GetReg, CcOf, Bit, Product, SetAcc,
      GetAcc, Unary;
    SettersKeepPc();
    match op
    case Push(stk) =>
      PushKeepsPc(m.Spend(5), stk, t.b0);
      PushKeepsPc(PushWordRegs(m.Spend(5), stk, t.b0), stk, t.b0);
    case Pull(stk) =>
      PullKeepsPc(m.Spend(5), stk, t.b0);
      PullKeepsPc(PullByteRegs(m.Spend(5), stk, t.b0), stk, t.b0);
    case Exchange =>
      var v1 := if SameWidth(t.b0) then GetReg(m, t.b0 / 16) else 0xff;
      SetRegKeepsPc(m, t.b0 % 16, v1);
      SetRegKeepsPc(SetReg(m, t.b0 % 16, v1), t.b0 / 16, if SameWidth(t.b0) then GetReg(m, t.b0 % 16) else 0xff);
    case Transfer => SetRegKeepsPc(m, t.b0 % 16, if SameWidth(t.b0) then GetReg(m, t.b0 / 16) else 0xff);
    case _ =>
  }

  /** Straight instructions and branches not taken continue at PC plus the `dasm` length. */
  lemma FallsThrough(m: State)
    ensures
      match Fetch(m.mem, m.pc)
      case Insn(op, len, t) =>
        Straight(op, t)
        || (op.ShortBranch? && !Holds(op.cond, m.cc))
        || (op.LongBranch? && !Holds(op.cond, m.cc))
        ==> Body(m).Next? && Body(m).m.pc == m.pc + DasmLen(m.mem, m.pc)
      case _ => true
  {
    hide Fetch, ExecMemory, ExecRegister, DasmLen, Holds;
    LengthsAgree(m.mem, m.pc);
    match Fetch(m.mem, m.pc)
    case Insn(op, len, t) =>
      var p := m.(pc := m.pc + len);
      if Straight(op, t) {
        if IsMemoryOp(op) { MemoryKeepsPc(p, op, t); } else { RegisterKeepsPc(p, op, t); }
      }
    case _ =>
  }

  lemma PushedWord(m: State, w: u16)
    ensures Top16(Push16(m, SysStack, w), SysStack) == w
  {
  }

  /** JSR, BSR and LBSR leave PC plus the `dasm` length on the stack, where RTS finds it. */
  lemma CallsReturnHere(m: State)
    ensures
      match Fetch(m.mem, m.pc)
      case Insn(op, len, t) =>
        op.Call? || op.ShortCall? || op.LongCall?
        ==> Body(m).Next? && Top16(Body(m).m, SysStack) == Wrap16(m.pc + DasmLen(m.mem, m.pc))
      case _ => true
  {
    hide Fetch, DasmLen, Exec, Top16;
    LengthsAgree(m.mem, m.pc);
    match Fetch(m.mem, m.pc)
    case Insn(op, len, t) =>
      if op.Call? || op.ShortCall? || op.LongCall? { CallPushesPc(m.(pc := m.pc + len), op, t); }
    case _ =>
  }

  lemma CallPushesPc(p: State, op: Op, t: Tail)
    requires op.Call? || op.ShortCall? || op.LongCall?
    ensures Top16(Exec(p, op, t), SysStack) == Wrap16(p.pc)
  {
    hide EffectiveAddress, Push16;
    match op {
      case Call(mode) =>
        AddressKeepsPc(p, mode, t);
        PushedWord(EffectiveAddress(p, mode, t).m.Spend(ModeCost(mode) + 3), Wrap16(p.pc));
      case ShortCall => PushedWord(p.Spend(7), Wrap16(p.pc));
      case LongCall => PushedWord(p.Spend(9), Wrap16(p.pc));
    }
  }

  lemma SoftBody(m: State, level: nat)
    requires Fetch(m.mem, m.pc).Insn? && Fetch(m.mem, m.pc).op == Soft(level)
    ensures Body(m) == Next(Open(SoftFrame(level), m.(pc := m.pc + Fetch(m.mem, m.pc).len)))
  {
    hide Fetch, SoftInt;
  }

  lemma SoftRoundTrip(p: State, level: nat, inner: seq<Act>)
    requires Disciplined(Open(SoftFrame(level), p), inner, 12)
    ensures ReturnFromInt(Play(Open(SoftFrame(level), p), inner)).pc == Wrap16(p.pc)
  {
    var k := SoftFrame(level);
    FullImage(Saved(k, p));
    hide SoftInt, ReturnFromInt, Play, Disciplined, StackBytes, LayoutOf, Image;
    FramesRestore(p, k, inner, 0);
  }

  /** A software interrupt whose handler nests properly resumes at PC plus the `dasm` length. */
  lemma SoftwareInterruptsReturnHere(m: State, level: nat, inner: seq<Act>)
    requires Fetch(m.mem, m.pc).Insn? && Fetch(m.mem, m.pc).op == Soft(level)
    requires Body(m).Next? && Disciplined(Body(m).m, inner, 12)
    ensures ReturnFromInt(Play(Body(m).m, inner)).pc == Wrap16(m.pc + DasmLen(m.mem, m.pc))
  {
    hide Fetch, DasmLen, Open, ReturnFromInt, Play, Disciplined, Body, Exec;
    SoftBody(m, level);
    LengthsAgree(m.mem, m.pc);
    SoftRoundTrip(m.(pc := m.pc + Fetch(m.mem, m.pc).len), level, inner);
  }
}
