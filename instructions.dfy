/**
 * Instruction words of the Gochip-8 interpreter: the operand fields taken out of a
 * 16-bit word by bit masks, the two-level decoder, and the CHIP-8 opcode table the
 * decoder is checked against.
 */
module Instructions {

  /** Go's `uint8`; arithmetic that wraps is written out with `% 0x100`. */
  type u8 = x: int | 0 <= x < 0x100

  /** Go's `uint16`; arithmetic that wraps is written out with `% 0x1_0000`. */
  type u16 = x: int | 0 <= x < 0x1_0000

  // ---------------------------------------------------------------------------
  // Bitwise operators on Go's unsigned integers
  // ---------------------------------------------------------------------------

  function Pow2(k: nat): (p: nat)
    ensures p >= 1
  {
    if k == 0 then 1 else 2 * Pow2(k - 1)
  }

  datatype BitOp = AndOp | OrOp | XorOp

  function Combine(op: BitOp, p: bool, q: bool): bool {
    match op
    case AndOp => p && q
    case OrOp => p || q
    case XorOp => p != q
  }

  /** `op` applied bit by bit to the low `k` bits of `a` and `b`; the result fits in `k` bits. */
  function Bitwise(op: BitOp, a: nat, b: nat, k: nat): (r: nat)
    ensures r < Pow2(k)
  {
    if k == 0 then 0
    else (if Combine(op, a % 2 == 1, b % 2 == 1) then 1 else 0) + 2 * Bitwise(op, a / 2, b / 2, k - 1)
  }

  /** Go's `&`, `|` and `^` on `uint8`. */
  function And8(a: u8, b: u8): u8 { Bitwise(AndOp, a, b, 8) }
  function Or8(a: u8, b: u8): u8 { Bitwise(OrOp, a, b, 8) }
  function Xor8(a: u8, b: u8): u8 { Bitwise(XorOp, a, b, 8) }

  /** `a << k` on a `uint8`: the bits shifted past bit 7 are lost. */
  function Shl8(a: u8, k: nat): u8 {
    (a as int * Pow2(k)) % 0x100
  }

  /** `a >> 1` on a `uint8`. */
  function Shr1(a: u8): u8 {
    a / 2
  }

  /** A mask of zero clears every bit. */
  lemma {:induction false} AndWithZero(a: nat, k: nat)
    ensures Bitwise(AndOp, a, 0, k) == 0
  {
    if k > 0 {
      AndWithZero(a / 2, k - 1);
    }
  }

  /** Bit `m` of `a`, counting from the least significant bit. */
  predicate Bit(a: nat, m: nat) {
    if m == 0 then a % 2 == 1 else Bit(a / 2, m - 1)
  }

  /** Masking with the single bit `m` keeps bit `m` of `a` and clears the others. */
  lemma {:induction false} AndSingleBit(a: nat, m: nat, k: nat)
    requires m < k
    ensures Bitwise(AndOp, a, Pow2(m), k) == if Bit(a, m) then Pow2(m) else 0
    decreases m
  {
    if m == 0 {
      AndWithZero(a / 2, k - 1);
    } else {
      assert Pow2(m) % 2 == 0 && Pow2(m) / 2 == Pow2(m - 1);
      AndSingleBit(a / 2, m - 1, k - 1);
    }
  }

  /** Bit `m` of a bitwise result is `op` applied to bit `m` of each operand, below `k`; above, it is clear. */
  lemma {:induction false} BitOfBitwise(op: BitOp, a: nat, b: nat, k: nat, m: nat)
    ensures Bit(Bitwise(op, a, b, k), m) <==> m < k && Combine(op, Bit(a, m), Bit(b, m))
    decreases m
  {
    var r := Bitwise(op, a, b, k);
    if k == 0 {
      BitOfZero(m);
    } else if m > 0 {
      assert r / 2 == Bitwise(op, a / 2, b / 2, k - 1);
      BitOfBitwise(op, a / 2, b / 2, k - 1, m - 1);
    }
  }

  /** Zero has no bit set. */
  lemma {:induction false} BitOfZero(m: nat)
    ensures !Bit(0, m)
  {
    if m > 0 {
      BitOfZero(m - 1);
    }
  }

  /** Below 2^(m+1), bit `m` is set exactly from 2^m on. */
  lemma {:induction false} TopBit(a: nat, m: nat)
    requires a < 2 * Pow2(m)
    ensures Bit(a, m) <==> a >= Pow2(m)
  {
    if m > 0 {
      TopBit(a / 2, m - 1);
    }
  }

  /** Every bit of 2^k - 1 below `k` is set. */
  lemma {:induction false} AllOnes(k: nat, m: nat)
    requires m < k
    ensures Bit(Pow2(k) - 1, m)
  {
    if m > 0 {
      assert (Pow2(k) - 1) / 2 == Pow2(k - 1) - 1;
      AllOnes(k - 1, m - 1);
    }
  }

  /** Shifting left by one doubles and drops bit 8. */
  lemma ShiftLeftByOne(a: u8)
    ensures Shl8(a, 1) == (2 * a as int) % 0x100
  {
    assert Pow2(1) == 2;
  }

  // ---------------------------------------------------------------------------
  // Instructions
  // ---------------------------------------------------------------------------

  /** The 34 instruction kinds of the interpreter and the INVALID sentinel. */
  datatype Kind =
    | Cls | Ret | Jmp | CallNnn
    | SeVxNn | SneVxNn | SeVxVy | LdVxNn | AddVxNn
    | LdVxVy | OrVxVy | AndVxVy | XorVxVy | AddVxVy | SubVxVy | ShrVxVy | SubnVxVy | ShlVxVy
    | SneVxVy | LdINnn | JmpV0Nnn | RndVxNn | DrwVxVyN | SkpVx | SknpVx
    | LdVxDt | LdVxK | LdDtVx | LdStVx | AddIVx | LdFVx | LdBVx | LdIVx | LdVxI
    | Invalid

  /** A decoded instruction: its kind, the address it was fetched from and the raw word. */
  datatype Instruction = Instruction(kind: Kind, address: u16, data: u16)

  // The getters mask and shift the word (`(data & 0x0F00) >> 8` and so on); for an
  // unsigned word each mask-and-shift is the division and remainder written here.

  /** `get_group`: the high nibble, `(data & 0xF000) >> 12`. */
  function Group(w: u16): (r: u8)
    ensures r < 0x10
  {
    w / 0x1000
  }

  /** `get_x`: the second nibble, a register number, `(data & 0x0F00) >> 8`. */
  function X(w: u16): (r: u8)
    ensures r < 0x10
  {
    w / 0x100 % 0x10
  }

  /** `get_y`: the third nibble, a register number, `(data & 0x00F0) >> 4`. */
  function Y(w: u16): (r: u8)
    ensures r < 0x10
  {
    w / 0x10 % 0x10
  }

  /** `get_n`: the low nibble, `data & 0x000F`. */
  function N(w: u16): (r: u8)
    ensures r < 0x10
  {
    w % 0x10
  }

  /** `get_nn`: the low byte, `uint8(data) & 0x00FF` (the mask keeps all of it). */
  function NN(w: u16): (r: u8)
  {
    w % 0x100
  }

  /** `get_nnn`: the low twelve bits, an address, `data & 0x0FFF`. */
  function NNN(w: u16): (r: u16)
    ensures r < 0x1000
  {
    w % 0x1000
  }

  // Division with remainder by a power of 16 has exactly one quotient and remainder;
  // the field lemmas name both and let these pin them down.

  lemma DivModBy16(w: int, q: int, r: int)
    requires 0 <= r < 0x10 && w == 0x10 * q + r
    ensures w / 0x10 == q && w % 0x10 == r
  {
  }

  lemma DivModBy256(w: int, q: int, r: int)
    requires 0 <= r < 0x100 && w == 0x100 * q + r
    ensures w / 0x100 == q && w % 0x100 == r
  {
  }

  lemma DivModBy4096(w: int, q: int, r: int)
    requires 0 <= r < 0x1000 && w == 0x1000 * q + r
    ensures w / 0x1000 == q && w % 0x1000 == r
  {
  }

  /** The four fields put back together give the word again. */
  lemma {:induction false} FieldsRecompose(w: u16)
    ensures w == Group(w) * 0x1000 + X(w) * 0x100 + Y(w) * 0x10 + N(w)
    ensures NN(w) == Y(w) * 0x10 + N(w)
    ensures NNN(w) == X(w) * 0x100 + NN(w)
  {
    var q, h := w / 0x10, w / 0x100;
    DivModBy256(w, q / 0x10, 0x10 * (q % 0x10) + w % 0x10);
    DivModBy4096(w, h / 0x10, 0x100 * (h % 0x10) + w % 0x100);
  }

  /** The high byte holds the group and X, the low byte Y and N. */
  lemma {:induction false} NibblesOfBytes(w: u16)
    ensures Group(w) == w / 0x100 / 0x10 && X(w) == w / 0x100 % 0x10
    ensures Y(w) == w % 0x100 / 0x10 && N(w) == w % 0x100 % 0x10
  {
    var q, h, l := w / 0x10, w / 0x100, w % 0x100;
    DivModBy4096(w, h / 0x10, 0x100 * (h % 0x10) + l);
    DivModBy256(w, q / 0x10, 0x10 * (q % 0x10) + w % 0x10);
    DivModBy16(l, q % 0x10, w % 0x10);
  }

  /**
   * `decode` without the address stamp: the high nibble picks a group, and groups
   * 0, 8, 9, E and F look further at the low byte or the low nibble.
   */
  function KindOf(w: u16): Kind {
    var g, x, n, nn := Group(w), X(w), N(w), NN(w);
    if g == 0x0 then
      if x != 0x0 then Invalid
      else if nn == 0xE0 then Cls
      else if nn == 0xEE then Ret
      else Invalid
    else if g == 0x1 then Jmp
    else if g == 0x2 then CallNnn
    else if g == 0x3 then SeVxNn
    else if g == 0x4 then SneVxNn
    else if g == 0x5 then SeVxVy
    else if g == 0x6 then LdVxNn
    else if g == 0x7 then AddVxNn
    else if g == 0x8 then
      if n == 0x0 then LdVxVy
      else if n == 0x1 then OrVxVy
      else if n == 0x2 then AndVxVy
      else if n == 0x3 then XorVxVy
      else if n == 0x4 then AddVxVy
      else if n == 0x5 then SubVxVy
      else if n == 0x6 then ShrVxVy
      else if n == 0x7 then SubnVxVy
      else if n == 0xE then ShlVxVy
      else Invalid
    else if g == 0x9 then
      if n == 0x0 then SneVxVy else Invalid
    else if g == 0xA then LdINnn
    else if g == 0xB then JmpV0Nnn
    else if g == 0xC then RndVxNn
    else if g == 0xD then DrwVxVyN
    else if g == 0xE then
      if nn == 0x9E then SkpVx
      else if nn == 0xA1 then SknpVx
      else Invalid
    else
      if nn == 0x07 then LdVxDt
      else if nn == 0x0A then LdVxK
      else if nn == 0x15 then LdDtVx
      else if nn == 0x18 then LdStVx
      else if nn == 0x1E then AddIVx
      else if nn == 0x29 then LdFVx
      else if nn == 0x33 then LdBVx
      else if nn == 0x55 then LdIVx
      else if nn == 0x65 then LdVxI
      else Invalid
  }

  /**
   * `decode`: classifies the word and stamps it with `pc - 2` (a `uint16`
   * subtraction), the address the word was fetched from once `fetch` has moved
   * `pc` past it.
   */
  function Decode(w: u16, pc: u16): (ins: Instruction)
    ensures ins.data == w
    ensures (ins.address + 2) % 0x1_0000 == pc
    ensures ins.kind == KindOf(w)
  {
    Instruction(KindOf(w), (pc - 2) % 0x1_0000, w)
  }

  // ---------------------------------------------------------------------------
  // The opcode table, as an independent reference for the decoder
  // ---------------------------------------------------------------------------

  /**
   * Each kind's opcode as four hex digits; `X`, `Y` and `N` stand for any digit.
   * The table is the one the decoder accepts: unlike the usual 5XY0, the
   * register-equality skip accepts any low nibble (5XYN).
   */
  function Opcode(k: Kind): (p: string)
    requires k != Invalid
    ensures |p| == 4
  {
    match k
    case Cls => "00E0"
    case Ret => "00EE"
    case Jmp => "1NNN"
    case CallNnn => "2NNN"
    case SeVxNn => "3XNN"
    case SneVxNn => "4XNN"
    case SeVxVy => "5XYN"
    case LdVxNn => "6XNN"
    case AddVxNn => "7XNN"
    case LdVxVy => "8XY0"
    case OrVxVy => "8XY1"
    case AndVxVy => "8XY2"
    case XorVxVy => "8XY3"
    case AddVxVy => "8XY4"
    case SubVxVy => "8XY5"
    case ShrVxVy => "8XY6"
    case SubnVxVy => "8XY7"
    case ShlVxVy => "8XYE"
    case SneVxVy => "9XY0"
    case LdINnn => "ANNN"
    case JmpV0Nnn => "BNNN"
    case RndVxNn => "CXNN"
    case DrwVxVyN => "DXYN"
    case SkpVx => "EX9E"
    case SknpVx => "EXA1"
    case LdVxDt => "FX07"
    case LdVxK => "FX0A"
    case LdDtVx => "FX15"
    case LdStVx => "FX18"
    case AddIVx => "FX1E"
    case LdFVx => "FX29"
    case LdBVx => "FX33"
    case LdIVx => "FX55"
    case LdVxI => "FX65"
  }

  /** The value of an upper-case hex digit, or -1 for a placeholder letter. */
  function HexValue(c: char): int {
    if '0' <= c <= '9' then c as int - '0' as int
    else if 'A' <= c <= 'F' then c as int - 'A' as int + 10
    else -1
  }

  /** Hex digit `i` of the word, counting from the most significant one. */
  function HexDigit(w: u16, i: nat): (d: int)
    requires i < 4
    ensures 0 <= d < 0x10
  {
    if i == 0 then w / 0x1000
    else if i == 1 then w / 0x100 % 0x10
    else if i == 2 then w / 0x10 % 0x10
    else w % 0x10
  }

  /** The word fits the pattern: every fixed digit of the pattern is the word's digit. */
  predicate Matches(w: u16, p: string)
    requires |p| == 4
  {
    forall i | 0 <= i < 4 :: HexValue(p[i]) < 0 || HexDigit(w, i) == HexValue(p[i])
  }

  /** A pattern's four digit positions, spelled out. */
  lemma MatchesDigits(w: u16, p: string)
    requires |p| == 4
    ensures Matches(w, p) <==>
      (HexValue(p[0]) < 0 || HexDigit(w, 0) == HexValue(p[0])) &&
      (HexValue(p[1]) < 0 || HexDigit(w, 1) == HexValue(p[1])) &&
      (HexValue(p[2]) < 0 || HexDigit(w, 2) == HexValue(p[2])) &&
      (HexValue(p[3]) < 0 || HexDigit(w, 3) == HexValue(p[3]))
  {
    if (HexValue(p[0]) < 0 || HexDigit(w, 0) == HexValue(p[0])) &&
       (HexValue(p[1]) < 0 || HexDigit(w, 1) == HexValue(p[1])) &&
       (HexValue(p[2]) < 0 || HexDigit(w, 2) == HexValue(p[2])) &&
       (HexValue(p[3]) < 0 || HexDigit(w, 3) == HexValue(p[3]))
    {
      forall i | 0 <= i < 4 ensures HexValue(p[i]) < 0 || HexDigit(w, i) == HexValue(p[i]) {
        if i == 0 {} else if i == 1 {} else if i == 2 {} else {}
      }
    }
  }

  /** The facts every case of the table lemma starts from. */
  lemma DigitsOfFields(w: u16)
    ensures Group(w) == HexDigit(w, 0) && X(w) == HexDigit(w, 1) && N(w) == HexDigit(w, 3)
    ensures NN(w) == HexDigit(w, 2) * 0x10 + HexDigit(w, 3)
  {
    FieldsRecompose(w);
  }

  /** Table lemma for the kinds fixed by the high nibble alone. */
  lemma {:induction false} DecodeFollowsTableByGroup(w: u16, pc: u16, k: Kind)
    requires k in {Jmp, CallNnn, SeVxNn, SneVxNn, SeVxVy, LdVxNn, AddVxNn,
                   LdINnn, JmpV0Nnn, RndVxNn, DrwVxVyN}
    ensures Decode(w, pc).kind == k <==> Matches(w, Opcode(k))
  {
    DigitsOfFields(w);
    MatchesDigits(w, Opcode(k));
  }

  /** Table lemma for groups 8 and 9, told apart by the low nibble. */
  lemma {:induction false} DecodeFollowsTableByNibble(w: u16, pc: u16, k: Kind)
    requires k in {LdVxVy, OrVxVy, AndVxVy, XorVxVy, AddVxVy, SubVxVy, ShrVxVy,
                   SubnVxVy, ShlVxVy, SneVxVy}
    ensures Decode(w, pc).kind == k <==> Matches(w, Opcode(k))
  {
    DigitsOfFields(w);
    MatchesDigits(w, Opcode(k));
  }

  /** Table lemma for groups 0 and E, told apart by the low byte. */
  lemma {:induction false} DecodeFollowsTableByByte(w: u16, pc: u16, k: Kind)
    requires k in {Cls, Ret, SkpVx, SknpVx}
    ensures Decode(w, pc).kind == k <==> Matches(w, Opcode(k))
  {
    DigitsOfFields(w);
    MatchesDigits(w, Opcode(k));
  }

  /** Table lemma for the group F kinds on timers and keys, told apart by the low byte. */
  lemma {:induction false} DecodeFollowsTableByTimerByte(w: u16, pc: u16, k: Kind)
    requires k in {LdVxDt, LdVxK, LdDtVx, LdStVx}
    ensures Decode(w, pc).kind == k <==> Matches(w, Opcode(k))
  {
    DigitsOfFields(w);
    MatchesDigits(w, Opcode(k));
  }

  /** Table lemma for the group F kinds that set I, told apart by the low byte. */
  lemma {:induction false} DecodeFollowsTableByIndexByte(w: u16, pc: u16, k: Kind)
    requires k in {AddIVx, LdFVx}
    ensures Decode(w, pc).kind == k <==> Matches(w, Opcode(k))
  {
    DigitsOfFields(w);
    MatchesDigits(w, Opcode(k));
  }

  /** Table lemma for the group F kinds that move bytes through I, told apart by the low byte. */
  lemma {:induction false} DecodeFollowsTableByMemoryByte(w: u16, pc: u16, k: Kind)
    requires k in {LdBVx, LdIVx, LdVxI}
    ensures Decode(w, pc).kind == k <==> Matches(w, Opcode(k))
  {
    DigitsOfFields(w);
    MatchesDigits(w, Opcode(k));
  }

  /** The decoder yields kind `k` exactly for the words that fit `k`'s opcode. */
  lemma {:induction false} DecodeFollowsTable(w: u16, pc: u16, k: Kind)
    requires k != Invalid
    ensures Decode(w, pc).kind == k <==> Matches(w, Opcode(k))
  {
    if k in {Jmp, CallNnn, SeVxNn, SneVxNn, SeVxVy, LdVxNn, AddVxNn,
             LdINnn, JmpV0Nnn, RndVxNn, DrwVxVyN} {
      DecodeFollowsTableByGroup(w, pc, k);
    } else if k in {LdVxVy, OrVxVy, AndVxVy, XorVxVy, AddVxVy, SubVxVy, ShrVxVy,
                    SubnVxVy, ShlVxVy, SneVxVy} {
      DecodeFollowsTableByNibble(w, pc, k);
    } else if k in {Cls, Ret, SkpVx, SknpVx} {
      DecodeFollowsTableByByte(w, pc, k);
    } else if k in {LdVxDt, LdVxK, LdDtVx, LdStVx} {
      DecodeFollowsTableByTimerByte(w, pc, k);
    } else if k in {AddIVx, LdFVx} {
      DecodeFollowsTableByIndexByte(w, pc, k);
    } else {
      DecodeFollowsTableByMemoryByte(w, pc, k);
    }
  }

  /**
   * Decoding is total: a word decodes to INVALID exactly when it fits no entry of
   * the opcode table, and otherwise to the one kind whose entry it fits.
   */
  lemma {:induction false} DecodeInvalidExactly(w: u16, pc: u16)
    ensures Decode(w, pc).kind == Invalid <==>
      forall k: Kind | k != Invalid :: !Matches(w, Opcode(k))
    ensures Decode(w, pc).kind != Invalid ==>
      forall k: Kind | k != Invalid :: Matches(w, Opcode(k)) <==> k == Decode(w, pc).kind
  {
    if Decode(w, pc).kind != Invalid {
      DecodeFollowsTable(w, pc, Decode(w, pc).kind);
    }
    forall k: Kind | k != Invalid
      ensures Matches(w, Opcode(k)) <==> Decode(w, pc).kind == k
    {
      DecodeFollowsTable(w, pc, k);
    }
  }
}
