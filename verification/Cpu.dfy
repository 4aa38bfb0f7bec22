/**
 The simulator's CPU: global registers changed in place and condition flags
 kept lazily in five words. Every method is proved against the reference
 machine through `View`, which rebuilds the eight flags from those words.
 */
module Simulator {
  import opened Options
  import opened Words
  import opened Bits
  import opened Reference
  import opened FlagFacts
  import opened Cycles

  datatype Status = Running | Failed | RanOff

  class Cpu {
    var a: nat
    var b: nat
    var dp: nat          // the page register times 256
    var x: nat
    var y: nat
    var u: nat
    var s: nat
    var pc: nat
    var w: FlagWords
    var efi: nat         // the E, F and I flags in place
    var ea: nat
    var clk: int
    var period: int
    var irqsPending: set<nat>  // the bits set in `irqs_pending`
    var firqsPending: set<nat>
    var ccChanged: bool
    const ram: array<u8>

    /** Register widths; DP is a whole page; EFI holds no bit besides E, F and I. */
    ghost predicate Valid()
      reads this
    {
      a < 0x100 && b < 0x100 && x < 0x1_0000 && y < 0x1_0000 && u < 0x1_0000 && s < 0x1_0000
      && dp < 0x1_0000 && dp % 0x100 == 0
      && OnlyEfi(efi)
      && ram.Length == 0x1_0000
    }

    /** The flags the five words and EFI stand for. */
    function Cc(): Flags
      reads this
    {
      Meaning(efi, w)
    }

    ghost function View(): State
      requires Valid()
      reads this, ram
    {
      State(a, b, dp / 0x100, x, y, u, s, pc, Cc(), ccChanged, irqsPending, firqsPending, clk, ram[..])
    }

    constructor (memory: array<u8>)
      requires memory.Length == 0x1_0000
      ensures Valid() && ram == memory
      ensures View() == State(0, 0, 0, 0, 0, 0, 0, 0, Flags(false, false, false, false, false, true, false, false),
                              false, {}, {}, 0, memory[..])
    {
      a, b, dp, x, y, u, s, pc := 0, 0, 0, 0, 0, 0, 0, 0;
      w, efi := FlagWords(0, 0, 0, 0, 0), 0;
      ea, clk, period, irqsPending, firqsPending, ccChanged := 0, 0, 0, {}, {}, false;
      ram := memory;
    }

    // -------------------------------------------------------------- memory

    method ImmByte() returns (v: u8)
      requires Valid() && pc < 0x1_0000
      modifies `pc
      ensures pc == old(pc) + 1 && v == ram[old(pc)]
    {
      v := ram[pc];
      pc := pc + 1;
    }

    method ImmWord() returns (v: u16)
      requires Valid() && pc + 1 < 0x1_0000
      modifies `pc
      ensures pc == old(pc) + 2 && v == Join(ram[old(pc)], ram[old(pc) + 1])
    {
      v := Join(ram[pc], ram[pc + 1]);
      pc := pc + 2;
    }

    method WrMem(addr: u16, data: u8)
      requires Valid()
      modifies ram
      ensures View() == old(View()).Write8(addr, data)
    {
      ram[addr] := data;
      assert ram[..] == old(ram[..])[addr := data];
    }

    method WrMem16(addr: u16, data: u16)
      requires Valid()
      modifies ram, `clk
      ensures View() == old(View()).Write16(addr, data).Spend(1)
    {
      WrMem(addr, Hi(data));
      clk := clk - 1;
      WrMem(Wrap16(addr + 1), Lo(data));
    }

    method RdMem16(addr: u16) returns (v: u16)
      requires Valid()
      modifies `clk
      ensures clk == old(clk) - 1 && v == old(View()).Word(addr)
    {
      var hi := ram[addr];
      clk := clk - 1;
      v := Join(hi, ram[Wrap16(addr + 1)]);
    }

    /** Low byte first, as `write_stack16` does. */
    method WriteStack16(addr: u16, data: u16)
      requires Valid()
      modifies ram
      ensures View() == old(View()).Write8(Wrap16(addr + 1), Lo(data)).Write8(addr, Hi(data))
    {
      WrMem(Wrap16(addr + 1), Lo(data));
      WrMem(addr, Hi(data));
    }

    // -------------------------------------------------------------- addressing

    method DirectAddress()
      requires Valid() && pc < 0x1_0000
      modifies `pc, `ea
      ensures pc == old(pc) + 1
      ensures ea == Join(dp / 0x100, ram[old(pc)]) && ea < 0x1_0000
    {
      var val := Or(ram[pc], dp);
      OrDisjoint(ram[pc], dp / 0x100);
      pc := pc + 1;
      ea := val;
    }

    method ExtendedAddress()
      requires Valid() && pc + 1 < 0x1_0000
      modifies `pc, `ea
      ensures pc == old(pc) + 2
      ensures ea == Join(ram[old(pc)], ram[old(pc) + 1]) && ea < 0x1_0000
    {
      ea := ImmWord();
    }

    method GetIndex(post: u8) returns (r: u16)
      requires Valid()
      ensures r == Get16(View(), IndexReg(post))
    {
      var nro := post / 32 % 4;
      r := if nro == 0 then x else if nro == 1 then y else if nro == 2 then u else s;
    }

    method SetIndex(post: u8, w: u16)
      requires Valid()
      modifies `x, `y, `u, `s
      ensures Valid() && View() == Set16(old(View()), IndexReg(post), w)
    {
      hide Bit, And, Or, Xor, Number;
      var r := post / 32 % 4;
      if r == 0 { x := w; } else if r == 1 { y := w; } else if r == 2 { u := w; } else { s := w; }
    }

    // -------------------------------------------------------------- 8-bit instructions

    method AddCarry8(arg: u8, val: u8) returns (res: u8)
      modifies `w
      ensures Result(res, Cc()) == Alu8(ADC, old(Cc()), arg, val)
    {
      hide Bit, And, Or, Xor;
      var cin := if w.c != 0 then 1 else 0;
      AddWords(Cc(), arg, val, cin);
      var sum := arg + val + cin;
      res := sum % 0x100;
      var carry := Mask(sum / 2, 7);
      var word := Xor(Xor(Xor(arg, val), res), carry);
      w := FlagWords(word, res, res, word, carry);
    }

    method Add8(arg: u8, val: u8) returns (res: u8)
      modifies `w
      ensures Result(res, Cc()) == Alu8(ADD, old(Cc()), arg, val)
    {
      hide Bit, And, Or, Xor;
      AddWords(Cc(), arg, val, 0);
      var sum := arg + val;
      res := sum % 0x100;
      var carry := Mask(sum / 2, 7);
      var word := Xor(Xor(Xor(arg, val), res), carry);
      w := FlagWords(word, res, res, word, carry);
    }

    method And8(arg: u8, val: u8) returns (res: u8)
      modifies `w
      ensures Result(res, Cc()) == Alu8(AND, old(Cc()), arg, val)
    {
      OpsBelow(arg, val, 8);
      Powers();
      hide Bit, And, Or, Xor, Pow2;
      res := And(arg, val);
      SetLogic(res);
    }

    method Or8(arg: u8, val: u8) returns (res: u8)
      modifies `w
      ensures Result(res, Cc()) == Alu8(OR, old(Cc()), arg, val)
    {
      OpsBelow(arg, val, 8);
      Powers();
      hide Bit, And, Or, Xor, Pow2;
      res := Or(arg, val);
      SetLogic(res);
    }

    method Eor8(arg: u8, val: u8) returns (res: u8)
      modifies `w
      ensures Result(res, Cc()) == Alu8(EOR, old(Cc()), arg, val)
    {
      OpsBelow(arg, val, 8);
      Powers();
      hide Bit, And, Or, Xor, Pow2;
      res := Xor(arg, val);
      SetLogic(res);
    }

    /** Store a result in N and Z and clear OV, as loads, stores, tests and logic do. */
    method SetLogic(res: u8)
      modifies `w
      ensures Cc() == SetNZ(old(Cc()), res, false)
    {
      LogicWords(Cc(), res);
      hide Bit;
      w := w.(n := res, z := res, ov := 0);
    }

    /** SUB and CMP; CMP drops the result. */
    method Sub8(arg: u8, val: u8) returns (res: u8)
      modifies `w
      ensures Result(res, Cc()) == SubBytes(old(Cc()), arg, val, 0)
    {
      hide Bit, And, Or, Xor;
      SubWords(Cc(), arg, val, 0);
      var diff := Wrap32(arg - val);
      res := diff % 0x100;
      w := w.(n := res, z := res, ov := And(Xor(arg, val), Xor(arg, res)), c := Mask(diff, 8));
    }

    method SubCarry8(arg: u8, val: u8) returns (res: u8)
      modifies `w
      ensures Result(res, Cc()) == Alu8(SBC, old(Cc()), arg, val)
    {
      hide Bit, And, Or, Xor;
      var cin := if w.c != 0 then 1 else 0;
      SubWords(Cc(), arg, val, cin);
      var diff := Wrap32(arg - val - cin);
      res := diff % 0x100;
      w := w.(n := res, z := res, ov := And(Xor(arg, val), Xor(arg, res)), c := Mask(diff, 8));
    }

    method Neg8(arg: u8) returns (res: u8)
      modifies `w, `clk
      ensures Result(res, Cc()) == Unary(NEG, old(Cc()), arg) && clk == old(clk) - 2
    {
      NegWords(Cc(), arg);
      hide Bit, And, Or, Xor;
      res := (0 - arg) % 0x100;
      w := w.(n := res, z := res, ov := And(res, arg), c := res);
      clk := clk - 2;
    }

    method Com8(arg: u8) returns (res: u8)
      modifies `w, `clk
      ensures Result(res, Cc()) == Unary(COM, old(Cc()), arg) && clk == old(clk) - 2
    {
      LogicWords(Cc(), 0xff - arg);
      hide Bit, And, Or, Xor;
      res := Complement(arg);
      w := w.(n := res, z := res, ov := 0, c := 1);
      clk := clk - 2;
    }

    method Lsr8(arg: u8) returns (res: u8)
      modifies `w, `clk
      ensures Result(res, Cc()) == Unary(LSR, old(Cc()), arg) && clk == old(clk) - 2
    {
      SignBit(arg / 2); SignBit(0);
      hide Bit, And, Or, Xor;
      res := arg / 2;
      w := w.(n := 0, z := res, c := arg % 2);
      clk := clk - 2;
    }

    method Ror8(arg: u8) returns (res: u8)
      modifies `w, `clk
      ensures Result(res, Cc()) == Unary(ROR, old(Cc()), arg) && clk == old(clk) - 2
    {
      SignBit(arg / 2); SignBit(arg / 2 + 0x80);
      hide Bit, And, Or, Xor;
      var wide := if w.c != 0 then arg + 0x100 else arg;
      res := wide / 2;
      w := w.(n := res, z := res, c := wide % 2);
      clk := clk - 2;
    }

    method Asr8(arg: u8) returns (res: u8)
      modifies `w, `clk
      ensures Result(res, Cc()) == Unary(ASR, old(Cc()), arg) && clk == old(clk) - 2
    {
      ArithmeticShift(arg);
      SignBit(Wrap8(S8(arg) / 2));
      hide Bit, And, Or, Xor;
      var wide := Wrap32(S8(arg));
      res := wide / 2 % 0x100;
      w := w.(n := res, z := res, c := wide % 2);
      clk := clk - 2;
    }

    method Asl8(arg: u8) returns (res: u8)
      modifies `w, `clk
      ensures Result(res, Cc()) == Unary(ASL, old(Cc()), arg) && clk == old(clk) - 2
    {
      DoubleWords(Cc(), arg, 0);
      hide Bit, And, Or, Xor;
      var wide := 2 * arg;
      res := wide % 0x100;
      w := w.(n := res, z := res, ov := Xor(arg, res), c := Mask(wide, 8));
      clk := clk - 2;
    }

    method Rol8(arg: u8) returns (res: u8)
      modifies `w, `clk
      ensures Result(res, Cc()) == Unary(ROL, old(Cc()), arg) && clk == old(clk) - 2
    {
      hide Bit, And, Or, Xor;
      var cin := if w.c != 0 then 1 else 0;
      DoubleWords(Cc(), arg, cin);
      var wide := 2 * arg + cin;
      res := wide % 0x100;
      w := w.(n := res, z := res, ov := Xor(arg, res), c := Mask(wide, 8));
      clk := clk - 2;
    }

    method Dec8(arg: u8) returns (res: u8)
      modifies `w, `clk
      ensures Result(res, Cc()) == Unary(DEC, old(Cc()), arg) && clk == old(clk) - 2
    {
      DecOverflow(arg);
      SignBit(Wrap8(arg - 1));
      hide Bit, And, Or, Xor;
      res := Wrap8(arg - 1);
      w := w.(n := res, z := res, ov := And(arg, U32_SIZE - 1 - res));
      clk := clk - 2;
    }

    method Inc8(arg: u8) returns (res: u8)
      modifies `w, `clk
      ensures Result(res, Cc()) == Unary(INC, old(Cc()), arg) && clk == old(clk) - 2
    {
      IncOverflow(arg);
      SignBit(Wrap8(arg + 1));
      hide Bit, And, Or, Xor;
      res := Wrap8(arg + 1);
      w := w.(n := res, z := res, ov := And(U32_SIZE - 1 - arg, res));
      clk := clk - 2;
    }

    method Tst8(arg: u8)
      modifies `w, `clk
      ensures Result(arg, Cc()) == Unary(TST, old(Cc()), arg) && clk == old(clk) - 2
    {
      SetLogic(arg);
      clk := clk - 2;
    }

    method Clr8(arg: u8) returns (res: u8)
      modifies `w, `clk
      ensures Result(res, Cc()) == Unary(CLR, old(Cc()), arg) && clk == old(clk) - 2
    {
      LogicWords(Cc(), 0);
      hide Bit;
      res := 0;
      w := w.(n := 0, z := 0, ov := 0, c := 0);
      clk := clk - 2;
    }

    method DecimalAdjustA()
      requires Valid()
      modifies `a, `w, `clk
      ensures Valid() && View() == ExecDaa(old(View()))
    {
      hide Bit, Or;
      var res := a;
      var msn := a / 16 * 16;
      var lsn := a % 16;
      if lsn > 0x09 || Bit(w.h, 4) { res := res + 0x06; }
      if msn > 0x80 && lsn > 0x09 { res := res + 0x60; }
      if msn > 0x90 || w.c != 0 { res := res + 0x60; }
      DaaWords(Cc(), a, w.c, res);
      var carry := Or(w.c, Mask(res, 8));
      a := res % 0x100;
      w := w.(n := a, z := a, ov := 0, c := carry);
      clk := clk - 2;
    }

    // -------------------------------------------------------------- 16-bit instructions

    /** ADDD's sum with its flags. */
    method Add16(arg: u16, val: u16) returns (res: u16)
      modifies `w
      ensures Result16(res, Cc()) == AluWide(ADDW, old(Cc()), arg, val)
    {
      AddWords16(Cc(), arg, val);
      hide Bit, And, Xor;
      var sum := arg + val;
      res := sum % 0x1_0000;
      w := w.(n := res / 0x100, z := res, ov := And(Xor(arg, res), Xor(val, res)) / 0x100, c := Mask(sum, 16));
    }

    /** SUBD's difference with its flags; CMP16 drops the result. */
    method Sub16(arg: u16, val: u16) returns (res: u16)
      modifies `w
      ensures Result16(res, Cc()) == AluWide(SUBW, old(Cc()), arg, val)
    {
      SubWords16(Cc(), arg, val);
      hide Bit, And, Xor;
      var diff := Wrap32(arg - val);
      res := diff % 0x1_0000;
      w := w.(n := res / 0x100, z := res, ov := And(Xor(arg, val), Xor(arg, res)) / 0x100, c := Mask(diff, 16));
    }

    method SetLogic16(res: u16)
      modifies `w
      ensures Cc() == SetNZ16(old(Cc()), res, false)
    {
      SignBit(res / 0x100); SignBit(0);
      hide Bit;
      w := w.(n := res / 0x100, z := res, ov := 0);
    }

    method SignExtend()
      requires Valid()
      modifies `a, `w, `clk
      ensures Valid() && View() == ExecSex(old(View()))
    {
      SignBit(b); ConstantBits();
      hide Bit;
      var res := if Bit(b, 7) then 0x80 else 0;
      w := w.(n := res, z := b);
      if res != 0 { res := 0xff; }
      a := res;
      clk := clk - 2;
    }

    method Multiply()
      requires Valid()
      modifies `a, `b, `w, `clk
      ensures Valid() && View() == ExecMul(old(View()))
    {
      hide Bit, Product;
      var res := Product(a, b);
      a, b := res / 0x100, res % 0x100;
      w := w.(z := res, c := Mask(res, 7));
      clk := clk - 11;
    }

    method AddBToX()
      requires Valid()
      modifies `x, `clk
      ensures Valid() && View() == ExecAbx(old(View()))
    {
      hide Bit;
      x := Wrap16(x + b);
      clk := clk - 3;
    }

    // -------------------------------------------------------------- condition codes

    method GetCc() returns (res: u8)
      requires Valid()
      ensures res == CcByte(Cc())
    {
      CcWord(efi, w);
      hide Bit, And, Or, CcByte, OrWhen;
      var word := And(efi, 0xd0);
      word := OrWhen(word, Bit(w.h, 4), 0x20);
      word := OrWhen(word, Bit(w.n, 7), 0x08);
      word := OrWhen(word, w.z == 0, 0x04);
      word := OrWhen(word, Bit(w.ov, 7), 0x02);
      word := OrWhen(word, w.c != 0, 0x01);
      res := word;
    }

    method SetCcFrom(arg: u8)
      requires Valid()
      modifies `efi, `w, `ccChanged
      ensures Valid() && View() == old(View()).SetCc(CcOf(arg))
    {
      hide Bit, And;
      CcWords(arg);
      efi := And(arg, 0xd0);
      w := FlagWords(if Bit(arg, 5) then 0x10 else 0, if Bit(arg, 3) then 0x80 else 0, if Bit(arg, 2) then 0 else 4,
                     if Bit(arg, 1) then 0x80 else 0, arg % 2);
      ccChanged := true;
    }

    method OrCcImm()
      requires Valid() && pc < 0x1_0000
      modifies `pc, `efi, `w, `ccChanged, `clk
      ensures Valid()
      ensures View() == var m := old(View()).(pc := old(pc) + 1); m.SetCc(OrFlags(m.cc, CcOf(ram[old(pc)]))).Spend(3)
    {
      hide Bit, And, Or, CcByte, CcOf;
      var tmp := ImmByte();
      var cc := GetCc();
      CcOfOr(Cc(), tmp);
      SetCcFrom(Or(cc, tmp));
      clk := clk - 3;
    }

    method AndCcImm()
      requires Valid() && pc < 0x1_0000
      modifies `pc, `efi, `w, `ccChanged, `clk
      ensures Valid()
      ensures View() == var m := old(View()).(pc := old(pc) + 1); m.SetCc(AndFlags(m.cc, CcOf(ram[old(pc)]))).Spend(3)
    {
      hide Bit, And, Or, CcByte, CcOf;
      var tmp := ImmByte();
      var cc := GetCc();
      CcOfAnd(Cc(), tmp);
      SetCcFrom(And(cc, tmp));
      clk := clk - 3;
    }

    // -------------------------------------------------------------- register transfer

    method ReadReg(nro: nat) returns (val: u16)
      requires Valid() && nro < 16
      ensures val == GetReg(View(), nro)
      ensures nro >= 8 ==> val < 0x100
    {
      hide Bit, CcByte, CcOf;
      val := 0xff;
      match nro
      case 0 => val := Join(a, b);
      case 1 => val := x;
      case 2 => val := y;
      case 3 => val := u;
      case 4 => val := s;
      case 5 => val := pc % 0x1_0000;
      case 8 => val := a;
      case 9 => val := b;
      case 10 => val := GetCc();
      case 11 => val := dp / 0x100;
      case _ =>
    }

    /** Values are stored unmasked: what keeps them in range is the width check of TFR and EXG. */
    method WriteReg(nro: nat, val: u16)
      requires Valid() && nro < 16
      requires nro >= 8 ==> val < 0x100
      modifies `a, `b, `dp, `x, `y, `u, `s, `pc, `w, `efi, `ea, `clk, `ccChanged
      ensures Valid() && View() == SetReg(old(View()), nro, val)
    {
      hide Bit, CcByte, CcOf;
      match nro
      case 0 => a, b := val / 0x100, val % 0x100;
      case 1 => x := val;
      case 2 => y := val;
      case 3 => u := val;
      case 4 => s := val;
      case 5 => pc := val;
      case 8 => a := val;
      case 9 => b := val;
      case 10 => SetCcFrom(val);
      case 11 => dp := val * 0x100;
      case _ =>
    }

    method TransferRegs()
      requires Valid() && pc < 0x1_0000
      modifies `a, `b, `dp, `x, `y, `u, `s, `pc, `w, `efi, `ea, `clk, `ccChanged
      ensures Valid()
      ensures View() == TransferReg(old(View()).(pc := old(pc) + 1), ram[old(pc)]).Spend(6)
    {
      hide Bit, CcByte, CcOf, GetReg, SetReg;
      var tmp := 0xff;
      var post := ImmByte();
      WidthBits(post);
      if Bit(post, 7) == Bit(post, 3) { tmp := ReadReg(post / 16); }
      WriteReg(post % 16, tmp);
      clk := clk - 6;
    }

    method ExchangeRegs()
      requires Valid() && pc < 0x1_0000
      modifies `a, `b, `dp, `x, `y, `u, `s, `pc, `w, `efi, `ea, `clk, `ccChanged
      ensures Valid()
      ensures View() == ExchangeReg(old(View()).(pc := old(pc) + 1), ram[old(pc)]).Spend(8)
    {
      hide Bit, CcByte, CcOf, GetReg, SetReg, Meaning;
      var tmp1, tmp2 := 0xff, 0xff;
      var post := ImmByte();
      WidthBits(post);
      if Bit(post, 7) == Bit(post, 3) {
        tmp1 := ReadReg(post / 16);
        tmp2 := ReadReg(post % 16);
      }
      WriteReg(post % 16, tmp1);
      WriteReg(post / 16, tmp2);
      clk := clk - 8;
    }

    // -------------------------------------------------------------- stacks

    method PushByte(stk: Stk, v: u8)
      requires Valid()
      modifies `s, `u, ram
      ensures Valid() && View() == Push8(old(View()), stk, v)
    {
      if stk.SysStack? {
        s := Wrap16(s - 1);
        WrMem(s, v);
      } else {
        u := Wrap16(u - 1);
        WrMem(u, v);
      }
    }

    method PushWord(stk: Stk, v: u16)
      requires Valid()
      modifies `s, `u, ram
      ensures Valid() && View() == Push16(old(View()), stk, v)
    {
      Push16Order(View(), stk, v);
      hide Bit, Push16;
      if stk.SysStack? {
        s := Wrap16(s - 2);
        WriteStack16(s, v);
      } else {
        u := Wrap16(u - 2);
        WriteStack16(u, v);
      }
    }

    method PullByte(stk: Stk) returns (v: u8)
      requires Valid()
      modifies `s, `u
      ensures Valid() && v == Top8(old(View()), stk) && View() == Drop(old(View()), stk, 1)
    {
      if stk.SysStack? {
        v := ram[s];
        s := Wrap16(s + 1);
      } else {
        v := ram[u];
        u := Wrap16(u + 1);
      }
    }

    method PullWord(stk: Stk) returns (v: u16)
      requires Valid()
      modifies `s, `u
      ensures Valid() && v == Top16(old(View()), stk) && View() == Drop(old(View()), stk, 2)
    {
      if stk.SysStack? {
        v := Join(ram[s], ram[Wrap16(s + 1)]);
        s := Wrap16(s + 2);
      } else {
        v := Join(ram[u], ram[Wrap16(u + 1)]);
        u := Wrap16(u + 2);
      }
    }

    method PushWordIf(flag: bool, stk: Stk, v: u16)
      requires Valid()
      modifies `s, `u, `clk, ram
      ensures Valid()
      ensures View() == if flag then Push16(old(View()), stk, v).Spend(2) else old(View())
    {
      if flag {
        clk := clk - 2;
        PushWord(stk, v);
      }
    }

    method PushByteIf(flag: bool, stk: Stk, v: u8)
      requires Valid()
      modifies `s, `u, `clk, ram
      ensures Valid()
      ensures View() == if flag then Push8(old(View()), stk, v).Spend(1) else old(View())
    {
      if flag {
        clk := clk - 1;
        PushByte(stk, v);
      }
    }

    /** PSHS and PSHU. */
    method PushRegs(stk: Stk)
      requires Valid() && pc < 0x1_0000
      modifies `pc, `s, `u, `clk, ram
      ensures Valid()
      ensures View() == PushMask(old(View()).(pc := old(pc) + 1).Spend(5), stk, old(ram[pc]))
    {
      hide Bit, PushWordRegs, PushByteRegs;
      var post := ImmByte();
      clk := clk - 5;
      PushWords(stk, post);
      PushBytes(stk, post);
    }

    method PushWords(stk: Stk, post: u8)
      requires Valid()
      modifies `s, `u, `clk, ram
      ensures Valid() && View() == PushWordRegs(old(View()), stk, post)
    {
      hide Bit, Push16;
      PushWordIf(Bit(post, 7), stk, Wrap16(pc));
      PushWordIf(Bit(post, 6), stk, if stk.SysStack? then u else s);
      PushWordIf(Bit(post, 5), stk, y);
      PushWordIf(Bit(post, 4), stk, x);
    }

    method PushBytes(stk: Stk, post: u8)
      requires Valid()
      modifies `s, `u, `clk, ram
      ensures Valid() && View() == PushByteRegs(old(View()), stk, post)
    {
      hide Bit, Push8, CcByte;
      PushByteIf(Bit(post, 3), stk, dp / 0x100);
      PushByteIf(Bit(post, 2), stk, b);
      PushByteIf(Bit(post, 1), stk, a);
      var cc := GetCc();
      PushByteIf(Bit(post, 0), stk, cc);
    }

    /** PULS and PULU. */
    method PullRegs(stk: Stk)
      requires Valid() && pc < 0x1_0000
      modifies `pc, `s, `u, `a, `b, `dp, `x, `y, `efi, `w, `ccChanged, `clk
      ensures Valid()
      ensures View() == PullMask(old(View()).(pc := old(pc) + 1).Spend(5), stk, old(ram[pc]))
    {
      hide Bit, PullByteRegs, PullWordRegs;
      var post := ImmByte();
      clk := clk - 5;
      PullBytes(stk, post);
      PullWords(stk, post);
    }

    // Each of these pulls one register when its bit of the postbyte asks for it.

    method PopCc(flag: bool, stk: Stk, cost: nat)
      requires Valid()
      modifies `s, `u, `efi, `w, `ccChanged, `clk
      ensures Valid()
      ensures View() == if flag then PullCc(old(View()).Spend(cost), stk) else old(View())
    {
      hide Bit, CcOf;
      if flag {
        clk := clk - cost;
        var cc := PullByte(stk);
        SetCcFrom(cc);
      }
    }

    method PopA(flag: bool, stk: Stk, cost: nat)
      requires Valid()
      modifies `s, `u, `a, `clk
      ensures Valid()
      ensures View() == if flag then PullA(old(View()).Spend(cost), stk) else old(View())
    {
      hide Bit, CcOf;
      if flag {
        clk := clk - cost;
        a := PullByte(stk);
      }
    }

    method PopB(flag: bool, stk: Stk, cost: nat)
      requires Valid()
      modifies `s, `u, `b, `clk
      ensures Valid()
      ensures View() == if flag then PullB(old(View()).Spend(cost), stk) else old(View())
    {
      hide Bit, CcOf;
      if flag {
        clk := clk - cost;
        b := PullByte(stk);
      }
    }

    method PopDp(flag: bool, stk: Stk, cost: nat)
      requires Valid()
      modifies `s, `u, `dp, `clk
      ensures Valid()
      ensures View() == if flag then PullDp(old(View()).Spend(cost), stk) else old(View())
    {
      hide Bit, CcOf;
      if flag {
        clk := clk - cost;
        var page: nat := PullByte(stk);
        dp := page * 0x100;
      }
    }

    method PopX(flag: bool, stk: Stk, cost: nat)
      requires Valid()
      modifies `s, `u, `x, `clk
      ensures Valid()
      ensures View() == if flag then PullX(old(View()).Spend(cost), stk) else old(View())
    {
      hide Bit, CcOf;
      if flag {
        clk := clk - cost;
        x := PullWord(stk);
      }
    }

    method PopY(flag: bool, stk: Stk, cost: nat)
      requires Valid()
      modifies `s, `u, `y, `clk
      ensures Valid()
      ensures View() == if flag then PullY(old(View()).Spend(cost), stk) else old(View())
    {
      hide Bit, CcOf;
      if flag {
        clk := clk - cost;
        y := PullWord(stk);
      }
    }

    method PopOther(flag: bool, stk: Stk, cost: nat)
      requires Valid()
      modifies `s, `u, `clk
      ensures Valid()
      ensures View() == if flag then PullOther(old(View()).Spend(cost), stk) else old(View())
    {
      hide Bit, CcOf;
      if flag {
        clk := clk - cost;
        var v := PullWord(stk);
        if stk.SysStack? { u := v; } else { s := v; }
      }
    }

    method PopPc(flag: bool, stk: Stk, cost: nat)
      requires Valid()
      modifies `s, `u, `pc, `clk
      ensures Valid()
      ensures View() == if flag then PullPc(old(View()).Spend(cost), stk) else old(View())
    {
      hide Bit, CcOf;
      if flag {
        clk := clk - cost;
        pc := PullWord(stk);
      }
    }

    method PullBytes(stk: Stk, post: u8)
      requires Valid()
      modifies `s, `u, `a, `b, `dp, `efi, `w, `ccChanged, `clk
      ensures Valid() && View() == PullByteRegs(old(View()), stk, post)
    {
      hide Bit, PullCc, PullA, PullB, PullDp;
      PopCc(Bit(post, 0), stk, 1);
      PopA(Bit(post, 1), stk, 1);
      PopB(Bit(post, 2), stk, 1);
      PopDp(Bit(post, 3), stk, 1);
    }

    method PullWords(stk: Stk, post: u8)
      requires Valid()
      modifies `pc, `s, `u, `x, `y, `clk
      ensures Valid() && View() == PullWordRegs(old(View()), stk, post)
    {
      hide Bit, PullX, PullY, PullOther, PullPc;
      PopX(Bit(post, 4), stk, 2);
      PopY(Bit(post, 5), stk, 2);
      PopOther(Bit(post, 6), stk, 2);
      PopPc(Bit(post, 7), stk, 2);
    }

    // -------------------------------------------------------------- interrupts

    method PushAll()
      requires Valid()
      modifies `s, `u, ram
      ensures Valid() && View() == PushEntireState(old(View()))
    {
      hide Push8, Push16, Bit, CcByte;
      PushWord(SysStack, Wrap16(pc));
      PushWord(SysStack, u);
      PushWord(SysStack, y);
      PushWord(SysStack, x);
      PushByte(SysStack, dp / 0x100);
      PushByte(SysStack, b);
      PushByte(SysStack, a);
      var cc := GetCc();
      PushByte(SysStack, cc);
    }

    method PushFast()
      requires Valid()
      modifies `s, `u, ram
      ensures Valid() && View() == PushFastState(old(View()))
    {
      hide Push8, Push16, Bit, CcByte;
      PushWord(SysStack, Wrap16(pc));
      var cc := GetCc();
      PushByte(SysStack, cc);
    }

    /** `EFI |= E_FLAG` and its relatives. */
    method SetEfi(e: bool, f: bool, i: bool)
      requires Valid()
      modifies `efi
      ensures Valid() && View() == old(View()).(cc := old(Cc()).(e := e, f := f, i := i))
    {
      EfiWord(e, f, i);
      hide Bit;
      efi := 0x80 * Digit(e) + 0x40 * Digit(f) + 0x10 * Digit(i);
    }

    method Vector(vector: u16)
      requires Valid()
      modifies `pc
      ensures Valid() && View() == Vectored(old(View()), vector)
    {
      pc := Join(ram[vector], ram[Wrap16(vector + 1)]);
    }

    method TakeIrq()
      requires Valid()
      modifies `efi, `s, `u, `pc, `irqsPending, ram
      ensures Valid() && View() == Irq(old(View()))
    {
      hide Bit, PushEntireState;
      SetEfi(true, Bit(efi, 6), Bit(efi, 4));
      PushAll();
      SetEfi(true, Bit(efi, 6), true);
      Vector(VECTOR_IRQ);
      irqsPending := {};
    }

    method TakeFirq()
      requires Valid()
      modifies `efi, `s, `u, `pc, `firqsPending, ram
      ensures Valid() && View() == Firq(old(View()))
    {
      hide Bit, PushFastState;
      SetEfi(false, Bit(efi, 6), Bit(efi, 4));
      PushFast();
      SetEfi(false, true, true);
      Vector(VECTOR_FIRQ);
      firqsPending := {};
    }

    /** SWI, SWI2 and SWI3. */
    method SoftwareInterrupt(level: nat)
      requires Valid() && 1 <= level <= 3
      modifies `efi, `s, `u, `pc, `clk, ram
      ensures Valid() && View() == SoftInt(old(View()), level)
    {
      hide Bit, PushEntireState;
      clk := clk - (if level == 1 then 19 else 20);
      SetEfi(true, Bit(efi, 6), Bit(efi, 4));
      PushAll();
      if level == 1 {
        SetEfi(true, true, true);
        Vector(VECTOR_SWI);
      } else {
        Vector(if level == 2 then VECTOR_SWI2 else VECTOR_SWI3);
      }
    }

    method RequestIrqLine(source: nat)
      requires Valid()
      modifies `efi, `s, `u, `pc, `irqsPending, ram
      ensures Valid() && View() == RequestIrq(old(View()), source)
    {
      hide Bit, Irq;
      irqsPending := irqsPending + {source};
      if !Bit(efi, 4) { TakeIrq(); }
    }

    method ReleaseIrqLine(source: nat)
      requires Valid()
      modifies `irqsPending
      ensures Valid() && View() == ReleaseIrq(old(View()), source)
    {
      hide Bit;
      irqsPending := irqsPending - {source};
    }

    method RequestFirqLine(source: nat)
      requires Valid()
      modifies `efi, `s, `u, `pc, `firqsPending, ram
      ensures Valid() && View() == RequestFirq(old(View()), source)
    {
      hide Bit, Firq;
      firqsPending := firqsPending + {source};
      if !Bit(efi, 6) { TakeFirq(); }
    }

    method ReleaseFirqLine(source: nat)
      requires Valid()
      modifies `firqsPending
      ensures Valid() && View() == ReleaseFirq(old(View()), source)
    {
      hide Bit;
      firqsPending := firqsPending - {source};
    }

    method CheckInterrupts()
      requires Valid()
      modifies `efi, `s, `u, `pc, `irqsPending, `firqsPending, `ccChanged, ram
      ensures Valid() && View() == CcModified(old(View()))
    {
      hide Bit, Irq, Firq;
      if firqsPending != {} && !Bit(efi, 6) {
        TakeFirq();
      } else if irqsPending != {} && !Bit(efi, 4) {
        TakeIrq();
      }
      ccChanged := false;
    }

    method JumpSub(target: nat)
      requires Valid()
      modifies `s, `u, `pc, ram
      ensures Valid() && View() == CallTo(old(View()), target)
    {
      PushWord(SysStack, Wrap16(pc));
      pc := target;
    }

    method ReturnSubroutine()
      requires Valid()
      modifies `s, `u, `pc, `clk
      ensures Valid() && View() == ReturnFromSub(old(View()))
    {
      PopPc(true, SysStack, 0);
    }

    method ReturnInterrupt()
      requires Valid()
      modifies `pc, `s, `u, `a, `b, `dp, `x, `y, `efi, `w, `ccChanged, `clk
      ensures Valid() && View() == ReturnFromInt(old(View()))
    {
      hide Bit, PullCc, PullEntireState, ReturnFromSub;
      clk := clk - 6;
      PopCc(true, SysStack, 0);
      if Bit(efi, 7) {
        clk := clk - 9;
        PopAll();
      }
      ReturnSubroutine();
    }

    method PopAll()
      requires Valid()
      modifies `s, `u, `a, `b, `dp, `x, `y, `clk
      ensures Valid() && View() == PullEntireState(old(View()))
    {
      hide PullA, PullB, PullDp, PullX, PullY, PullOther;
      PopA(true, SysStack, 0);
      PopB(true, SysStack, 0);
      PopDp(true, SysStack, 0);
      PopX(true, SysStack, 0);
      PopY(true, SysStack, 0);
      PopOther(true, SysStack, 0);
    }

    // -------------------------------------------------------------- effective addresses

    /** Auto increment and decrement: postbyte forms 0 to 3. */
    method AutoForm(post: u8)
      requires Valid() && post >= 0x80 && post % 16 < 4
      modifies `x, `y, `u, `s, `ea, `clk
      ensures Valid() && ea < 0x1_0000
      ensures Address(View(), ea) == AutoBase(old(View()), post)
    {
      hide Set16, Get16, IndexReg, Meaning;
      var index := GetIndex(post);
      var r: int := index;
      if post % 16 == 0 {
        ea := r;
        SetIndex(post, Wrap16(r + 1));
        clk := clk - 6;
      } else if post % 16 == 1 {
        ea := r;
        SetIndex(post, Wrap16(r + 2));
        clk := clk - 7;
      } else if post % 16 == 2 {
        SetIndex(post, Wrap16(r - 1));
        ea := Wrap16(r - 1);
        clk := clk - 6;
      } else {
        SetIndex(post, Wrap16(r - 2));
        ea := Wrap16(r - 2);
        clk := clk - 7;
      }
    }

    /** Register offsets: forms 4, 5, 6 and 11. */
    method RegisterForm(post: u8)
      requires Valid() && post >= 0x80 && (post % 16 == 4 || post % 16 == 5 || post % 16 == 6 || post % 16 == 11)
      modifies `ea, `clk
      ensures Valid() && ea < 0x1_0000
      ensures Address(View(), ea) == RegisterBase(old(View()), post)
    {
      hide Set16, Get16, IndexReg;
      var r := GetIndex(post);
      if post % 16 == 4 {
        ea := r;
        clk := clk - 4;
      } else if post % 16 == 5 {
        ea := Wrap16(r + S8(b));
        clk := clk - 5;
      } else if post % 16 == 6 {
        ea := Wrap16(r + S8(a));
        clk := clk - 5;
      } else {
        ea := Wrap16(r + Join(a, b));
        clk := clk - 8;
      }
    }

    /** A register offset in the instruction: forms 8 and 9. */
    method OffsetForm(post: u8)
      requires Valid() && post >= 0x80 && (post % 16 == 8 || post % 16 == 9)
      requires pc + ExtensionLen(post) <= 0x1_0000
      modifies `pc, `ea, `clk
      ensures Valid() && ea < 0x1_0000
      ensures
        var m := old(View());
        Address(View(), ea)
          == OffsetBase(Past(m, ExtensionLen(post)), Tail(post, ByteAt(m.mem, m.pc), ByteAt(m.mem, m.pc + 1)))
    {
      hide Get16, IndexReg, Meaning;
      if post % 16 == 8 {
        var offset := ImmByte();
        var r := GetIndex(post);
        ea := Wrap16(r as int + S8(offset));
        clk := clk - 5;
      } else {
        var offset := ImmWord();
        var r := GetIndex(post);
        ea := Wrap16(r as int + offset);
        clk := clk - 8;
      }
    }

    /** A PC offset or an absolute address: forms 12, 13 and 15. */
    method PcForm(post: u8)
      requires Valid() && post >= 0x80 && (post % 16 == 12 || post % 16 == 13 || post % 16 == 15)
      requires pc + ExtensionLen(post) <= 0x1_0000 && (post % 16 == 15 ==> IsIndirect(post))
      modifies `pc, `ea, `clk
      ensures Valid() && ea < 0x1_0000
      ensures
        var m := old(View());
        Address(View(), ea)
          == PcBase(Past(m, ExtensionLen(post)), Tail(post, ByteAt(m.mem, m.pc), ByteAt(m.mem, m.pc + 1)))
    {
      if post % 16 == 12 {
        var offset := ImmByte();
        ea := Wrap16(S8(offset) + pc);
        clk := clk - 5;
      } else if post % 16 == 13 {
        var offset := ImmWord();
        ea := Wrap16(offset as int + pc);
        clk := clk - 9;
      } else {
        ea := ImmWord();
        clk := clk - 6;
      }
    }

    /**
     * The forms with the indirect bit are the plain forms followed by a 16-bit
     * read. A false result is `sim_error`, which ends the run.
     */
    method IndexedAddr() returns (ok: bool)
      requires Valid() && pc < 0x1_0000 && pc + 1 + ExtensionLen(ram[pc]) <= 0x1_0000
      modifies `pc, `x, `y, `u, `s, `ea, `clk
      ensures Valid() && ea < 0x1_0000
      ensures ok == ValidPost(old(ram[pc]))
      ensures
        var m := old(View());
        ok ==> Address(View(), ea) == IndexedAddress(Past(m, 1 + ExtensionLen(old(ram[pc]))), Operands(m))
    {
      hide AutoBase, RegisterBase, OffsetBase, PcBase, ShortBase, ValidPost, ExtensionLen, Bit, Meaning;
      ExtensionOfShort(ram[pc]);
      ghost var t := Operands(View());
      ghost var m := Past(View(), 1 + ExtensionLen(ram[pc]));
      var post := ImmByte();
      if post < 0x80 {
        assert Past(View(), 0) == View();
        ShortForm(post);
        return true;
      }
      if !ValidPost(post) {
        ea := 0;
        return false;
      }
      LongForm(post);
      assert Address(View(), ea) == IndexedBase(m, t);
      if post / 16 % 2 == 1 {
        ea := RdMem16(ea);
        clk := clk - 2;
      }
      ok := true;
    }

    method LongForm(post: u8)
      requires Valid() && post >= 0x80 && ValidPost(post) && pc + ExtensionLen(post) <= 0x1_0000
      modifies `pc, `x, `y, `u, `s, `ea, `clk
      ensures Valid() && ea < 0x1_0000
      ensures
        var m := old(View());
        Address(View(), ea)
          == IndexedBase(Past(m, ExtensionLen(post)), Tail(post, ByteAt(m.mem, m.pc), ByteAt(m.mem, m.pc + 1)))
    {
      hide AutoBase, RegisterBase, OffsetBase, PcBase, ShortBase;
      var form := post % 16;
      if form < 4 {
        assert Past(View(), 0) == View();
        AutoForm(post);
      } else if form < 7 || form == 11 {
        assert Past(View(), 0) == View();
        RegisterForm(post);
      } else if form < 10 {
        OffsetForm(post);
      } else {
        PcForm(post);
      }
    }

    /** The five-bit signed offset of a postbyte with bit 7 clear. */
    method ShortForm(post: u8)
      requires Valid() && post < 0x80
      modifies `ea, `clk
      ensures Valid() && ea < 0x1_0000
      ensures Address(View(), ea) == ShortBase(old(View()), post)
    {
      hide Set16, Get16, IndexReg, Meaning, Wrap16;
      var offset := if post / 16 % 2 == 1 then 0xfff0 + post % 16 else post % 16;
      var r := GetIndex(post);
      ShortOffset(r, post);
      ea := Wrap16(r + offset);
      clk := clk - 5;
    }

    /** `direct ()`, `indexed ()` or `extended ()`. */
    method Effective(mode: Mode) returns (ok: bool)
      requires Valid() && !mode.Immediate? && pc < 0x1_0000 && pc + AddressLen(mode, ram[pc]) <= 0x1_0000
      modifies `pc, `x, `y, `u, `s, `ea, `clk
      ensures Valid() && ea < 0x1_0000
      ensures ok == (mode.Indexed? ==> ValidPost(old(ram[pc])))
      ensures
        var m := old(View());
        ok ==> Address(View(), ea) == EffectiveAddress(Past(m, AddressLen(mode, old(ram[pc]))), mode, Operands(m))
    {
      hide IndexedAddress;
      ok := true;
      if mode.Direct? {
        DirectAddress();
      } else if mode.Extended? {
        ExtendedAddress();
      } else {
        ok := IndexedAddr();
      }
    }

    // -------------------------------------------------------------- instructions

    method UnaryOp(rmw: Rmw, arg: u8) returns (res: u8)
      modifies `w, `clk
      ensures Result(res, Cc()) == Unary(rmw, old(Cc()), arg) && clk == old(clk) - 2
    {
      hide Unary;
      match rmw
      case NEG => res := Neg8(arg);
      case COM => res := Com8(arg);
      case LSR => res := Lsr8(arg);
      case ROR => res := Ror8(arg);
      case ASR => res := Asr8(arg);
      case ASL => res := Asl8(arg);
      case ROL => res := Rol8(arg);
      case DEC => res := Dec8(arg);
      case INC => res := Inc8(arg);
      case TST => Tst8(arg); res := arg;
      case CLR => res := Clr8(arg);
    }

    method BinaryOp(alu: Alu, arg: u8, val: u8) returns (res: u8)
      modifies `w
      ensures Result(res, Cc()) == Alu8(alu, old(Cc()), arg, val)
    {
      hide SubBytes, AddBytes, And, Or, Xor;
      match alu
      case SUB => res := Sub8(arg, val);
      case CMP => res := Sub8(arg, val);
      case SBC => res := SubCarry8(arg, val);
      case AND => res := And8(arg, val);
      case BIT => res := And8(arg, val);
      case LD => SetLogic(val); res := val;
      case EOR => res := Eor8(arg, val);
      case ADC => res := AddCarry8(arg, val);
      case OR => res := Or8(arg, val);
      case ADD => res := Add8(arg, val);
    }

    method WideOp(wide: Alu16, arg: u16, val: u16) returns (res: u16)
      modifies `w
      ensures Result16(res, Cc()) == AluWide(wide, old(Cc()), arg, val)
    {
      match wide
      case ADDW => res := Add16(arg, val);
      case SUBW => res := Sub16(arg, val);
      case CMPW => res := Sub16(arg, val);
      case LDW => SetLogic16(val); res := val;
    }

    method SetAccumulator(acc: Acc, v: u8)
      requires Valid()
      modifies `a, `b
      ensures Valid() && View() == SetAcc(old(View()), acc, v)
    {
      if acc.AccA? { a := v; } else { b := v; }
    }

    method GetWide(reg: Reg16) returns (v: u16)
      requires Valid()
      ensures v == Get16(View(), reg)
    {
      match reg
      case RegD => v := Join(a, b);
      case RegX => v := x;
      case RegY => v := y;
      case RegU => v := u;
      case RegS => v := s;
    }

    method SetWide(reg: Reg16, v: u16)
      requires Valid()
      modifies `a, `b, `x, `y, `u, `s
      ensures Valid() && View() == Set16(old(View()), reg, v)
    {
      match reg
      case RegD => a, b := v / 0x100, v % 0x100;
      case RegX => x := v;
      case RegY => y := v;
      case RegU => u := v;
      case RegS => s := v;
    }

    /** The operand bytes of a mode lie below 0x10000, where the bus map ends. */
    ghost predicate Fits(mode: Mode)
      requires Valid()
      reads this, ram
    {
      pc + AddressLen(mode, ByteAt(ram[..], pc)) <= 0x1_0000
    }

    ghost predicate PostOk(mode: Mode)
      requires Valid()
      reads this, ram
    {
      mode.Indexed? ==> ValidPost(ByteAt(ram[..], pc))
    }

    /** The machine past the operand bytes of a mode. */
    ghost function PastOperands(mode: Mode): State
      requires Valid()
      reads this, ram
    {
      Past(View(), AddressLen(mode, ByteAt(ram[..], pc)))
    }

    method Address16(mode: Mode) returns (ok: bool)
      requires Valid() && !mode.Immediate? && Fits(mode)
      modifies `pc, `x, `y, `u, `s, `ea, `clk
      ensures Valid() && ea < 0x1_0000 && ok == old(PostOk(mode))
      ensures ok ==> Address(View(), ea) == EffectiveAddress(old(PastOperands(mode)), mode, Operands(old(View())))
    {
      hide EffectiveAddress, ValidPost, ExtensionLen;
      ok := Effective(mode);
    }

    method ModifyMemory(rmw: Rmw, cost: nat)
      requires Valid() && ea < 0x1_0000
      modifies `w, `clk, ram
      ensures Valid() && View() == ApplyRmw(old(View()), rmw, ea, cost + 2)
    {
      hide Unary, Bit;
      clk := clk - cost;
      var res := UnaryOp(rmw, ram[ea]);
      if !rmw.TST? { WrMem(ea, res); }
    }

    method DoRmwMem(rmw: Rmw, mode: Mode) returns (ok: bool)
      requires Valid() && !mode.Immediate? && Fits(mode)
      modifies `a, `b, `dp, `x, `y, `u, `s, `pc, `w, `efi, `ea, `clk, `ccChanged, ram
      ensures Valid() && ok == old(PostOk(mode))
      ensures ok ==> View() == ExecRmwMem(old(PastOperands(mode)), rmw, mode, Operands(old(View())))
    {
      hide EffectiveAddress, ValidPost, ExtensionLen, Bit, ApplyRmw;
      ok := Address16(mode);
      if ok { ModifyMemory(rmw, ModeCost(mode)); }
    }

    method Arith8With(alu: Alu, acc: Acc, operand: u8, cost: nat)
      requires Valid()
      modifies `a, `b, `w, `clk
      ensures Valid() && View() == ApplyAlu8(old(View()), alu, acc, operand, cost)
    {
      hide Alu8, Bit, SetAcc;
      clk := clk - cost;
      var res := BinaryOp(alu, if acc.AccA? then a else b, operand);
      if KeepsResult(alu) { SetAccumulator(acc, res); }
    }

    method DoArith8(alu: Alu, acc: Acc, mode: Mode) returns (ok: bool)
      requires Valid() && if mode.Immediate? then pc < 0x1_0000 else Fits(mode)
      modifies `a, `b, `dp, `x, `y, `u, `s, `pc, `w, `efi, `ea, `clk, `ccChanged
      ensures Valid() && ok == old(PostOk(mode))
      ensures ok ==> View() == ExecArith8(if mode.Immediate? then Past(old(View()), 1) else old(PastOperands(mode)),
                                          alu, acc, mode, Operands(old(View())))
    {
      hide ApplyAlu8, ValidPost, ExtensionLen, IndexedAddress, Bit;
      if mode.Immediate? {
        var operand := ImmByte();
        Arith8With(alu, acc, operand, 2);
        ok := true;
      } else {
        ok := Address16(mode);
        if ok { Arith8With(alu, acc, ram[ea], ModeCost(mode)); }
      }
    }

    method DoStore8(acc: Acc, mode: Mode) returns (ok: bool)
      requires Valid() && !mode.Immediate? && Fits(mode)
      modifies `a, `b, `dp, `x, `y, `u, `s, `pc, `w, `efi, `ea, `clk, `ccChanged, ram
      ensures Valid() && ok == old(PostOk(mode))
      ensures ok ==> View() == ExecStore8(old(PastOperands(mode)), acc, mode, Operands(old(View())))
    {
      hide EffectiveAddress, ValidPost, ExtensionLen, Bit;
      ok := Address16(mode);
      if !ok { return; }
      clk := clk - ModeCost(mode);
      var v := if acc.AccA? then a else b;
      SetLogic(v);
      WrMem(ea, v);
    }

    method Arith16With(wide: Alu16, reg: Reg16, operand: u16, cost: nat)
      requires Valid()
      modifies `a, `b, `x, `y, `u, `s, `w, `clk
      ensures Valid() && View() == ApplyAlu16(old(View()), wide, reg, operand, cost)
    {
      hide AluWide, Bit, Get16, Set16;
      var arg := GetWide(reg);
      clk := clk - cost;
      var res := WideOp(wide, arg, operand);
      if !wide.CMPW? { SetWide(reg, res); }
    }

    method DoArith16(wide: Alu16, reg: Reg16, mode: Mode, paged: bool) returns (ok: bool)
      requires Valid() && if mode.Immediate? then pc + 1 < 0x1_0000 else Fits(mode)
      modifies `a, `b, `dp, `x, `y, `u, `s, `pc, `w, `efi, `ea, `clk, `ccChanged
      ensures Valid() && ok == old(PostOk(mode))
      ensures ok ==> View() == ExecArith16(if mode.Immediate? then Past(old(View()), 2) else old(PastOperands(mode)),
                                           wide, reg, mode, paged, Operands(old(View())))
    {
      hide ApplyAlu16, ValidPost, ExtensionLen, IndexedAddress, Bit;
      var cost := Cost16(wide, mode, paged);
      if mode.Immediate? {
        var operand := ImmWord();
        Arith16With(wide, reg, operand, cost);
        ok := true;
      } else {
        ok := Address16(mode);
        if ok {
          // RDMEM16; its cycle is part of the cost
          Arith16With(wide, reg, Join(ram[ea], ram[Wrap16(ea + 1)]), cost);
        }
      }
    }

    method DoStore16(reg: Reg16, mode: Mode, paged: bool) returns (ok: bool)
      requires Valid() && !mode.Immediate? && Fits(mode)
      modifies `a, `b, `dp, `x, `y, `u, `s, `pc, `w, `efi, `ea, `clk, `ccChanged, ram
      ensures Valid() && ok == old(PostOk(mode))
      ensures ok ==> View() == ExecStore16(old(PastOperands(mode)), reg, mode, paged, Operands(old(View())))
    {
      hide EffectiveAddress, ValidPost, ExtensionLen, Bit, Get16, ApplyStore16;
      ok := Address16(mode);
      if !ok { return; }
      var v := GetWide(reg);
      StoreWord(v, ModeCost(mode) + Digit(paged));
    }

    /** `st16`, behind the cycles of its mode and page. */
    method StoreWord(v: u16, cost: nat)
      requires Valid() && ea < 0x1_0000
      modifies `w, `clk, ram
      ensures Valid() && View() == ApplyStore16(old(View()), ea, v, cost + 1)
    {
      hide Bit;
      clk := clk - cost;
      SetLogic16(v);
      WrMem16(ea, v);
    }

    method LoadAddress(reg: Reg16)
      requires Valid() && ea < 0x1_0000
      modifies `a, `b, `x, `y, `u, `s, `w
      ensures Valid() && View() == ApplyLea(old(View()), reg, ea)
    {
      hide Bit, Set16;
      SetWide(reg, ea);
      if reg.RegX? || reg.RegY? { w := w.(z := ea); }
    }

    method DoLea(reg: Reg16) returns (ok: bool)
      requires Valid() && Fits(Indexed)
      modifies `a, `b, `dp, `x, `y, `u, `s, `pc, `w, `efi, `ea, `clk, `ccChanged
      ensures Valid() && ok == old(PostOk(Indexed))
      ensures ok ==> View() == ExecLea(old(PastOperands(Indexed)), reg, Operands(old(View())))
    {
      hide IndexedAddress, ValidPost, ExtensionLen, Bit, ApplyLea;
      ok := Address16(Indexed);
      if ok { LoadAddress(reg); }
    }

    method DoJump(mode: Mode) returns (ok: bool)
      requires Valid() && !mode.Immediate? && Fits(mode)
      modifies `a, `b, `dp, `x, `y, `u, `s, `pc, `w, `efi, `ea, `clk, `ccChanged
      ensures Valid() && ok == old(PostOk(mode))
      ensures ok ==> View() == ExecJump(old(PastOperands(mode)), mode, Operands(old(View())))
    {
      hide EffectiveAddress, ValidPost, ExtensionLen, Bit;
      ok := Address16(mode);
      if !ok { return; }
      clk := clk - (ModeCost(mode) - 1);
      pc := ea;
    }

    method DoCall(mode: Mode) returns (ok: bool)
      requires Valid() && !mode.Immediate? && Fits(mode)
      modifies `a, `b, `dp, `x, `y, `u, `s, `pc, `w, `efi, `ea, `clk, `ccChanged, ram
      ensures Valid() && ok == old(PostOk(mode))
      ensures ok ==> View() == ExecCall(old(PastOperands(mode)), mode, Operands(old(View())))
    {
      hide EffectiveAddress, ValidPost, ExtensionLen, Bit, CallTo;
      ok := Address16(mode);
      if !ok { return; }
      clk := clk - (ModeCost(mode) + 3);
      JumpSub(ea);
    }

    /** A branch that is not taken skips its displacement without reading it. */
    method Branch(cond: Cond)
      requires Valid() && pc < 0x1_0000
      modifies `pc, `clk
      ensures Valid() && View() == ExecBranch(Past(old(View()), 1), cond, Operands(old(View())))
    {
      CondMeaning(cond, efi, w);
      hide Bit, CondWords, Holds;
      if CondWords(cond, w) {
        var offset := ImmByte();
        pc := Wrap32(pc + S8(offset));
      } else {
        pc := pc + 1;
      }
      clk := clk - 3;
    }

    method BranchLong(cond: Cond)
      requires Valid() && pc + 1 < 0x1_0000
      modifies `pc, `clk
      ensures Valid() && View() == ExecLongBranch(Past(old(View()), 2), cond, Operands(old(View())))
    {
      CondMeaning(cond, efi, w);
      hide Bit, CondWords, Holds, ExecLongJump;
      if CondWords(cond, w) {
        BranchAlways(6);
      } else {
        pc := pc + 2;
        clk := clk - 5;
      }
    }

    method BranchAlways(cost: nat)
      requires Valid() && pc + 1 < 0x1_0000
      modifies `pc, `clk
      ensures Valid() && View() == ExecLongJump(Past(old(View()), 2), Operands(old(View())), cost)
    {
      hide Bit, Meaning, S16, Wrap32;
      var offset := ImmWord();
      pc := Wrap32(pc + S16(offset));
      clk := clk - cost;
    }

    method CallShort()
      requires Valid() && pc < 0x1_0000
      modifies `pc, `ea, `s, `u, `clk, ram
      ensures Valid() && View() == ExecShortCall(Past(old(View()), 1), Operands(old(View())))
    {
      hide Bit, CallTo;
      var offset := ImmByte();
      ea := Wrap32(pc + S8(offset));
      clk := clk - 7;
      JumpSub(ea);
    }

    method CallLong()
      requires Valid() && pc + 1 < 0x1_0000
      modifies `pc, `ea, `s, `u, `clk, ram
      ensures Valid() && View() == ExecLongCall(Past(old(View()), 2), Operands(old(View())))
    {
      hide Bit, CallTo, Meaning, S16, Wrap32;
      var offset := ImmWord();
      ea := Wrap32(pc + S16(offset));
      clk := clk - 9;
      JumpSub(ea);
    }

    method UnaryAcc(rmw: Rmw, acc: Acc)
      requires Valid()
      modifies `a, `b, `w, `clk
      ensures Valid() && View() == ExecRmwAcc(old(View()), rmw, acc)
    {
      hide Unary, Bit;
      var res := UnaryOp(rmw, if acc.AccA? then a else b);
      SetAccumulator(acc, res);
    }

    ghost predicate Within(op: Op)
      requires Valid()
      reads this, ram
    {
      pc + OperandLen(op, ByteAt(ram[..], pc)) <= 0x1_0000
    }

    ghost predicate Legal(op: Op)
      requires Valid()
      reads this, ram
    {
      UsesIndexed(op) ==> ValidPost(ByteAt(ram[..], pc))
    }

    ghost function PastOp(op: Op): State
      requires Valid()
      reads this, ram
    {
      Past(View(), OperandLen(op, ByteAt(ram[..], pc)))
    }

    method ExecuteMemory(op: Op) returns (ok: bool)
      requires Valid() && IsMemoryOp(op) && WellFormed(op) && Within(op)
      modifies `a, `b, `dp, `x, `y, `u, `s, `pc, `w, `efi, `ea, `clk, `ccChanged, ram
      ensures Valid() && ok == old(Legal(op))
      ensures ok ==> View() == ExecMemory(old(PastOp(op)), op, Operands(old(View())))
    {
      hide ExecRmwMem, ExecArith8, ExecStore8, ExecArith16, ExecStore16, ExecLea, ExecJump, ExecCall, AddressLen,
        ValidPost, Bit;
      match op
      case RmwMem(rmw, mode) => ok := DoRmwMem(rmw, mode);
      case Arith8(alu, acc, mode) => ok := DoArith8(alu, acc, mode);
      case Store8(acc, mode) => ok := DoStore8(acc, mode);
      case Arith16(wide, reg, mode, paged) => ok := DoArith16(wide, reg, mode, paged);
      case Store16(reg, mode, paged) => ok := DoStore16(reg, mode, paged);
      case Lea(reg) => ok := DoLea(reg);
      case Jump(mode) => ok := DoJump(mode);
      case Call(mode) => ok := DoCall(mode);
    }

    method ExecuteControl(op: Op)
      requires Valid() && IsControlOp(op) && WellFormed(op) && Within(op)
      modifies `a, `b, `dp, `x, `y, `u, `s, `pc, `w, `efi, `ea, `clk, `ccChanged, ram
      ensures Valid()
      ensures View() == ExecControl(old(PastOp(op)), op, Operands(old(View())))
    {
      hide ExecControl, OperandLen, WellFormed, Bit;
      if op.ReturnSub? || op.ReturnInt? || op.Soft? {
        ExecuteReturn(op);
      } else if op.ShortCall? || op.LongCall? {
        ExecuteCall(op);
      } else {
        ExecuteBranch(op);
      }
    }

    method ExecuteCall(op: Op)
      requires Valid() && (op.ShortCall? || op.LongCall?) && WellFormed(op) && Within(op)
      modifies `a, `b, `dp, `x, `y, `u, `s, `pc, `w, `efi, `ea, `clk, `ccChanged, ram
      ensures Valid()
      ensures View() == ExecControl(old(PastOp(op)), op, Operands(old(View())))
    {
      hide ExecShortCall, ExecLongCall, Meaning, Bit;
      if op.ShortCall? { CallShort(); } else { CallLong(); }
    }

    method ExecuteBranch(op: Op)
      requires Valid() && WellFormed(op) && Within(op)
      requires op.ShortBranch? || op.LongBranch? || op.LongAlways?
      modifies `a, `b, `dp, `x, `y, `u, `s, `pc, `w, `efi, `ea, `clk, `ccChanged, ram
      ensures Valid()
      ensures View() == ExecControl(old(PastOp(op)), op, Operands(old(View())))
    {
      hide ExecBranch, ExecLongBranch, ExecLongJump, Meaning, Bit;
      match op
      case ShortBranch(cond) => Branch(cond);
      case LongBranch(cond) => BranchLong(cond);
      case LongAlways => BranchAlways(5);
    }

    method ExecuteReturn(op: Op)
      requires Valid() && (op.ReturnSub? || op.ReturnInt? || op.Soft?) && WellFormed(op) && Within(op)
      modifies `a, `b, `dp, `x, `y, `u, `s, `pc, `w, `efi, `ea, `clk, `ccChanged, ram
      ensures Valid()
      ensures View() == ExecControl(old(PastOp(op)), op, Operands(old(View())))
    {
      hide ReturnFromSub, ReturnFromInt, SoftInt, Bit;
      match op
      case ReturnSub =>
        clk := clk - 5;
        ReturnSubroutine();
      case ReturnInt => ReturnInterrupt();
      case Soft(level) => SoftwareInterrupt(level);
    }

    method ExecuteRegister(op: Op)
      requires Valid() && !IsMemoryOp(op) && !IsControlOp(op) && Within(op)
      modifies `a, `b, `dp, `x, `y, `u, `s, `pc, `w, `efi, `ea, `clk, `ccChanged, ram
      ensures Valid()
      ensures View() == ExecRegister(old(PastOp(op)), op, Operands(old(View())))
    {
      hide ExecAbx, ExecRmwAcc, PushMask, PullMask, ExchangeReg, TransferReg, OrFlags, AndFlags, CcOf, ExecDaa,
        ExecSex, ExecMul, Bit, Meaning;
      match op
      case RmwAcc(rmw, acc) => UnaryAcc(rmw, acc);
      case Push(stk) => PushRegs(stk);
      case Pull(stk) => PullRegs(stk);
      case Exchange => ExchangeRegs();
      case Transfer => TransferRegs();
      case OrCc => OrCcImm();
      case AndCc => AndCcImm();
      case Nop => clk := clk - 2;
      case Daa => DecimalAdjustA();
      case Sex => SignExtend();
      case Abx => AddBToX();
      case Mul => Multiply();
    }

    method Dispatch(op: Op) returns (ok: bool)
      requires Valid() && WellFormed(op) && Within(op)
      modifies `a, `b, `dp, `x, `y, `u, `s, `pc, `w, `efi, `ea, `clk, `ccChanged, ram
      ensures Valid() && ok == old(Legal(op))
      ensures ok ==> View() == Exec(old(PastOp(op)), op, Operands(old(View())))
    {
      hide ExecMemory, ExecControl, ExecRegister, OperandLen, ValidPost, Bit;
      if IsMemoryOp(op) {
        ok := ExecuteMemory(op);
      } else {
        ok := true;
        if IsControlOp(op) { ExecuteControl(op); } else { ExecuteRegister(op); }
      }
    }

    /** The opcode, behind its prefix if it has one. */
    method DecodeOp() returns (op: Option<Op>)
      requires Valid() && Fetch(ram[..], pc) != PastEnd
      modifies `pc
      ensures Valid() && View() == old(View()).(pc := pc)
      ensures op == OpAt(ram[..], old(pc)) && pc == old(pc) + 1 + Digit(IsPrefix(ram[old(pc)]))
      ensures op.Some? ==> WellFormed(op.value)
    {
      hide OpPage1, OpPage2, OpPage3, OperandLen, ValidPost, UsesIndexed, Bit, WellFormed;
      var opcode := ImmByte();
      if opcode == 0x10 {
        opcode := ImmByte();
        op := OpPage2(opcode);
      } else if opcode == 0x11 {
        opcode := ImmByte();
        op := OpPage3(opcode);
      } else {
        op := OpPage1(opcode);
      }
      DecodedWellFormed(opcode);
    }

    /**
     * One turn of the loop in `cpu_execute`: fetch, execute, and check for
     * interrupts if CC changed. An instruction that runs past 0xffff makes the
     * simulator index past its bus map; the run stops there.
     */
    method StepOnce() returns (status: Status)
      requires Valid()
      modifies `a, `b, `dp, `x, `y, `u, `s, `pc, `w, `efi, `ea, `clk, `irqsPending, `firqsPending, `ccChanged, ram
      ensures Valid()
      ensures
        match Step(old(View()))
        case Next(m) => status == Running && View() == m
        case SimError => status == Failed
        case OffEnd => status == RanOff
    {
      hide OpPage1, OpPage2, OpPage3, Exec, OperandLen, ValidPost, UsesIndexed, CcModified, Bit, WellFormed;
      if Fetch(ram[..], pc) == PastEnd { return RanOff; }
      var op := DecodeOp();
      if op.None? { return Failed; }
      var ok := Dispatch(op.value);
      if !ok { return Failed; }
      if ccChanged { CheckInterrupts(); }
      status := Running;
    }

    /** `cpu_execute`, with the monitor off. */
    method Execute(cycles: int) returns (used: int, status: Status)
      requires Valid()
      modifies this, ram
      ensures Valid()
      ensures
        match Slice(old(View()).(clk := cycles))
        case Next(m) => status == Running && used == cycles - m.clk && View() == m.(clk := used)
        case SimError => status == Failed
        case OffEnd => status == RanOff
      ensures status == Running && cycles >= 1 ==> cycles <= used <= cycles + 19
      ensures status == Running ==> period == clk == used
    {
      hide Step, Bit;
      period := cycles;
      clk := cycles;
      ghost var start := View();
      if cycles >= 1 { SliceBudget(start); }
      StepCost(start);
      status := StepOnce();
      while status == Running && clk > 0
        invariant Valid() && period == cycles
        invariant
          match status
          case Running => if clk > 0 then Slice(start) == Slice(View()) else Slice(start) == Next(View())
          case Failed => Slice(start) == SimError
          case RanOff => Slice(start) == OffEnd
        decreases status == Running, clk
      {
        StepCost(View());
        status := StepOnce();
      }
      used := 0;
      if status == Running {
        period := period - clk;
        clk := period;
        used := period;
      }
    }

    /** `cpu_reset`. */
    method Reset()
      requires Valid()
      modifies `x, `y, `u, `s, `a, `b, `dp, `w, `efi, `pc
      ensures Valid()
      ensures x == y == u == s == a == b == dp == 0 && pc == old(View()).Word(0xfffe)
      ensures Cc() == Flags(false, true, false, true, false, false, false, false)
    {
      EfiWord(false, true, true);
      ConstantBits();
      hide Bit;
      x, y, s, u, a, b, dp := 0, 0, 0, 0, 0, 0, 0;
      w := FlagWords(0, 0, 1, 0, 0);
      efi := 0x50;
      pc := Join(ram[0xfffe], ram[0xffff]);
    }
  }

  /**
   * Equal registers and equal condition code bytes mean equal views, whatever the
   * flag words hold, so every method keeps two such CPUs equal.
   */
  lemma EqualBytesEqualViews(p: Cpu, q: Cpu)
    requires p.Valid() && q.Valid() && CcByte(p.Cc()) == CcByte(q.Cc())
    requires p.a == q.a && p.b == q.b && p.dp == q.dp && p.x == q.x && p.y == q.y && p.u == q.u && p.s == q.s
    requires p.pc == q.pc && p.clk == q.clk && p.ccChanged == q.ccChanged && p.ram[..] == q.ram[..]
    requires p.irqsPending == q.irqsPending && p.firqsPending == q.firqsPending
    ensures p.View() == q.View()
  {
    hide CcByte, CcOf, Meaning;
    UnpackPack(p.Cc());
    UnpackPack(q.Cc());
  }
}
