/**
 * The reference semantics of the interpreter core: the machine state as a value, and
 * each operation of `chip.go` (load, fetch, execute, step, timer tick) as a function
 * from state to state. The `Chip` class in module Machine is proved to update its
 * arrays and fields exactly as these functions say.
 */
module Semantics {
  import opened Instructions

  const MemSize := 0x1000
  const ScreenWidth := 64
  const ScreenHeight := 32
  const StackBase: u16 := 0x200
  const StartAddr: u16 := 0x200
  const FontBase := 0x0000

  /** `O_HLT_ON_LOOP`: a jump to its own address stops the run. */
  const HaltOnLoop := true

  /** The sixteen 5-byte hex digit glyphs, `HEXDIGIT_SPRITES`. */
  const Font: seq<u8> := [
    0xF0, 0x90, 0x90, 0x90, 0xF0, // 0
    0x20, 0x60, 0x20, 0x20, 0x70, // 1
    0xF0, 0x10, 0xF0, 0x80, 0xF0, // 2
    0xF0, 0x10, 0xF0, 0x10, 0xF0, // 3
    0x90, 0x90, 0xF0, 0x10, 0x10, // 4
    0xF0, 0x80, 0xF0, 0x10, 0xF0, // 5
    0xF0, 0x80, 0xF0, 0x90, 0xF0, // 6
    0xF0, 0x10, 0x20, 0x40, 0x40, // 7
    0xF0, 0x90, 0xF0, 0x90, 0xF0, // 8
    0xF0, 0x90, 0xF0, 0x10, 0xF0, // 9
    0xF0, 0x90, 0xF0, 0x90, 0x90, // A
    0xE0, 0x90, 0xE0, 0x90, 0xE0, // B
    0xF0, 0x80, 0x80, 0x80, 0xF0, // C
    0xE0, 0x90, 0x90, 0x90, 0xE0, // D
    0xF0, 0x80, 0xF0, 0x80, 0xF0, // E
    0xF0, 0x80, 0xF0, 0x80, 0x80  // F
  ]

  /**
   * The fields of `Chip`: memory, the display grid (rows of pixels), `pc`, `I`, the
   * delay and sound timers, `sp`, the registers `V` and the `redraw` flag.
   */
  datatype State = State(
    mem: seq<u8>,
    screen: seq<seq<bool>>,
    pc: u16,
    i: u16,
    dt: u8,
    st: u8,
    sp: u16,
    v: seq<u8>,
    redraw: bool)

  predicate IsScreen(screen: seq<seq<bool>>) {
    |screen| == ScreenHeight && forall r | 0 <= r < ScreenHeight :: |screen[r]| == ScreenWidth
  }

  /** The shape of the Go arrays: 4096 bytes, 16 registers, 32 rows of 64 pixels. */
  predicate WellFormed(s: State) {
    |s.mem| == MemSize && |s.v| == 16 && IsScreen(s.screen)
  }

  function Min(a: int, b: int): int { if a <= b then a else b }

  // ---------------------------------------------------------------------------
  // Loading: NewChip
  // ---------------------------------------------------------------------------

  /**
   * Go's `copy(dst[base:], src)`: copies as many bytes as both slices have room
   * for and leaves the rest of `dst` alone.
   */
  function CopyBytes(dst: seq<u8>, base: nat, src: seq<u8>): (r: seq<u8>)
    requires base <= |dst|
    ensures |r| == |dst|
  {
    var count := Min(|dst| - base, |src|);
    dst[..base] + src[..count] + dst[base + count..]
  }

  function Blank(): (screen: seq<seq<bool>>)
    ensures IsScreen(screen)
  {
    seq(ScreenHeight, _ => seq(ScreenWidth, _ => false))
  }

  /**
   * `NewChip` on the bytes of a ROM file: a zeroed machine with `pc` and `sp` at
   * 0x200, the font copied to address 0, the ROM copied to 0x200 and `redraw` set.
   */
  function Initial(rom: seq<u8>): (s: State)
    ensures WellFormed(s)
  {
    var zero := seq(MemSize, _ => 0);
    var mem := CopyBytes(CopyBytes(zero, FontBase, Font), StartAddr, rom);
    State(mem, Blank(), StartAddr, 0, 0, 0, StackBase, seq(16, _ => 0), true)
  }

  // ---------------------------------------------------------------------------
  // Timer: timer_int
  // ---------------------------------------------------------------------------

  /** `timer_int`: each timer counts down by one unless it is already zero. */
  function Ticked(s: State): State {
    s.(dt := if s.dt > 0 then s.dt - 1 else s.dt,
       st := if s.st > 0 then s.st - 1 else s.st)
  }

  /** `k` ticks in a row. */
  function TickedTimes(s: State, k: nat): State {
    if k == 0 then s else Ticked(TickedTimes(s, k - 1))
  }

  // ---------------------------------------------------------------------------
  // Fetch
  // ---------------------------------------------------------------------------

  /** `memory[pc]` and `memory[pc + 1]` are inside the 4096-byte array. */
  predicate CanFetch(s: State) {
    s.pc + 1 < MemSize
  }

  /**
   * The word `fetch` returns: `uint16(memory[pc]) << 8` plus `memory[pc + 1]`, which
   * cannot overflow 16 bits.
   */
  function FetchWord(s: State): (w: u16)
    requires WellFormed(s) && CanFetch(s)
    ensures w / 0x100 == s.mem[s.pc] && w % 0x100 == s.mem[s.pc + 1]
  {
    s.mem[s.pc] as int * 0x100 + s.mem[s.pc + 1]
  }

  /** The state after `fetch`: `pc` moved past the two bytes (two `uint16` increments). */
  function Fetched(s: State): State {
    s.(pc := (s.pc + 2) % 0x1_0000)
  }

  // ---------------------------------------------------------------------------
  // Execute, one instruction kind at a time
  // ---------------------------------------------------------------------------

  /** 00E0: every pixel off, and a redraw requested. */
  function Cleared(s: State): (r: State)
    ensures IsScreen(r.screen) && r.redraw
    ensures forall row, col | 0 <= row < ScreenHeight && 0 <= col < ScreenWidth :: !r.screen[row][col]
    ensures r.(screen := s.screen, redraw := s.redraw) == s
  {
    s.(screen := Blank(), redraw := true)
  }

  /** 00EE: `pc` is read back big-endian from `memory[sp]`, `memory[sp + 1]`; `sp` grows by 2. */
  function Returned(s: State): State
    requires WellFormed(s) && s.sp + 1 < MemSize
  {
    s.(pc := s.mem[s.sp] as int * 0x100 + s.mem[s.sp + 1], sp := (s.sp + 2) % 0x1_0000)
  }

  /**
   * 2NNN: `sp` drops by one before each byte is stored, the low byte of `pc` first
   * (at the old `sp - 1`), then the high byte (at `sp - 2`); then `pc` becomes `nnn`.
   */
  function Called(s: State, nnn: u16): State
    requires WellFormed(s) && 2 <= s.sp <= MemSize
  {
    var low := s.pc % 0x100;    // uint8(pc & 0x00FF)
    var high := s.pc / 0x100;   // uint8((pc & 0xFF00) >> 8)
    s.(mem := s.mem[s.sp - 1 := low][s.sp - 2 := high], sp := s.sp - 2, pc := nnn)
  }

  /** The conditional skips: `pc` moves past the next word when `cond` holds. */
  function SkipIf(s: State, cond: bool): State {
    if cond then s.(pc := (s.pc + 2) % 0x1_0000) else s
  }

  /** A condition stored in VF: 1 when it holds, 0 otherwise. */
  function Flag(b: bool): u8 {
    if b then 1 else 0
  }

  /**
   * 8XY0 to 8XYE, in the order the Go code runs: where a flag is produced, VF is
   * written first and Vx is then computed from the registers as they stand after
   * that write.
   */
  function Arith(v: seq<u8>, k: Kind, x: u8, y: u8): (r: seq<u8>)
    requires |v| == 16 && x < 16 && y < 16
    ensures |r| == 16
  {
    match k
    case LdVxVy => v[x := v[y]]
    case OrVxVy => v[x := Or8(v[x], v[y])]
    case AndVxVy => v[x := And8(v[x], v[y])]
    case XorVxVy => v[x := Xor8(v[x], v[y])]
    case AddVxVy =>
      // the test is on the uint8 sum, which has already wrapped
      var f := v[0xF := Flag((v[x] as int + v[y]) % 0x100 > 0xFF)];
      f[x := (f[x] as int + f[y]) % 0x100]
    case SubVxVy =>
      var f := v[0xF := if v[x] > v[y] then 1 else 1];
      f[x := (f[x] as int - f[y]) % 0x100]
    case ShrVxVy =>
      var f := v[0xF := And8(v[x], 0x01)];
      f[x := Shr1(f[x])]
    case SubnVxVy =>
      // `V[x] -= -V[y]`, with the uint8 negation written out
      var f := v[0xF := if v[y] > v[x] then 1 else 0];
      f[x := (f[x] as int - (0x100 - f[y]) % 0x100) % 0x100]
    case ShlVxVy =>
      var f := v[0xF := And8(v[x], 0x80)];
      f[x := Shl8(f[x], 1)]
    case _ => v
  }

  /** FX33: the hundreds, tens and ones digits, computed as the `uint8` code does. */
  function Digits(b: u8): (d: (u8, u8, u8))
    ensures d.0 < 10 && d.1 < 10 && d.2 < 10
    ensures 100 * d.0 + 10 * d.1 + d.2 == b
  {
    var h := b / 100;
    var t := (b - h * 100) / 10;
    var o := b - h * 100 - t * 10;
    (h, t, o)
  }

  /** FX33: the three digits of Vx stored at I, I + 1 and I + 2. */
  function BcdStored(s: State, x: u8): State
    requires WellFormed(s) && x < 16 && s.i + 2 < MemSize
  {
    var d := Digits(s.v[x]);
    s.(mem := s.mem[s.i := d.0][s.i + 1 := d.1][s.i + 2 := d.2])
  }

  /** FX55: V0..Vx (inclusive) stored at I..I + x; I itself is left alone. */
  function RegsStored(s: State, x: u8): State
    requires WellFormed(s) && x < 16 && s.i + x < MemSize
  {
    s.(mem := seq(MemSize, a requires 0 <= a < MemSize =>
                    if s.i <= a <= s.i + x then s.v[a - s.i] else s.mem[a]))
  }

  /** FX65: V0..Vx (inclusive) loaded from I..I + x; I itself is left alone. */
  function RegsLoaded(s: State, x: u8): State
    requires WellFormed(s) && x < 16 && s.i + x < MemSize
  {
    s.(v := seq(16, j requires 0 <= j < 16 => if j <= x then s.mem[s.i + j] else s.v[j]))
  }

  // DXYN ----------------------------------------------------------------------

  /**
   * Sprite rows drawn: the loop stops after `n` rows or after the row that lands on
   * the bottom line, whichever comes first (no wrapping past the edge).
   */
  function RowsDrawn(vy: u8, n: u8): nat {
    Min(n, ScreenHeight - vy % ScreenHeight)
  }

  /** Sprite columns drawn: eight, or fewer when the sprite reaches the right edge. */
  function ColsDrawn(vx: u8): nat {
    Min(8, ScreenWidth - vx % ScreenWidth)
  }

  /** The sprite rows DXYN reads, `memory[I .. I + rows)`, are inside memory. */
  predicate SpriteInMemory(s: State, vy: u8, n: u8) {
    RowsDrawn(vy, n) == 0 || s.i + RowsDrawn(vy, n) <= MemSize
  }

  /** Bit `col` of a sprite row, counting from the most significant bit. */
  predicate SpriteBit(bits: u8, col: int)
    requires 0 <= col < 8
  {
    And8(bits, Shl8(0x01, 7 - col)) > 0
  }

  /** Pixel (r, c) lies under a set bit of the part of the sprite that is drawn. */
  predicate Under(s: State, vx: u8, vy: u8, n: u8, r: int, c: int)
    requires WellFormed(s) && SpriteInMemory(s, vy, n)
  {
    var row, col := r - vy % ScreenHeight, c - vx % ScreenWidth;
    0 <= row < RowsDrawn(vy, n) && 0 <= col < ColsDrawn(vx) && SpriteBit(s.mem[s.i + row], col)
  }

  /** Some pixel under a set sprite bit was already on. */
  predicate Collides(s: State, vx: u8, vy: u8, n: u8)
    requires WellFormed(s) && SpriteInMemory(s, vy, n)
  {
    exists r, c | 0 <= r < ScreenHeight && 0 <= c < ScreenWidth ::
      Under(s, vx, vy, n, r, c) && s.screen[r][c]
  }

  /**
   * DXYN: the pixels under set sprite bits are flipped, VF becomes 1 when one of
   * them was on (and is otherwise left as it was), and a redraw is requested.
   * The coordinates are Vx and Vy as they stand before VF is written.
   */
  function Drawn(s: State, x: u8, y: u8, n: u8): (r: State)
    requires WellFormed(s) && x < 16 && y < 16 && SpriteInMemory(s, s.v[y], n)
    ensures WellFormed(r)
  {
    var vx, vy := s.v[x], s.v[y];
    var screen := seq(ScreenHeight, r requires 0 <= r < ScreenHeight =>
                    seq(ScreenWidth, c requires 0 <= c < ScreenWidth =>
                      if Under(s, vx, vy, n, r, c) then !s.screen[r][c] else s.screen[r][c]));
    s.(screen := screen,
       v := if Collides(s, vx, vy, n) then s.v[0xF := 1] else s.v,
       redraw := true)
  }

  // The whole of `execute` ----------------------------------------------------

  /** How `execute` (with the panics of `step` and the halt check) ends. */
  datatype Status = Ok | Halt | InvalidInstruction(word: u16)

  datatype Transition = Transition(status: Status, next: State)

  /**
   * The memory accesses of `execute` stay inside the 4096-byte array (otherwise the
   * Go code panics with an index out of range).
   */
  predicate ExecSafe(s: State, ins: Instruction)
    requires WellFormed(s)
  {
    var x, y, n := X(ins.data), Y(ins.data), N(ins.data);
    match ins.kind
    case Ret => s.sp + 1 < MemSize
    case CallNnn => 2 <= s.sp <= MemSize
    case DrwVxVyN => SpriteInMemory(s, s.v[y], n)
    case LdBVx => s.i + 2 < MemSize
    case LdIVx => s.i + x < MemSize
    case LdVxI => s.i + x < MemSize
    case _ => true
  }

  /**
   * `execute` for the kinds that always complete: the new state. Operands are taken
   * from the word as `execute` does (x, y, n, nn, nnn).
   */
  function Effect(s: State, ins: Instruction, rnd: u8, key: u8): (r: State)
    requires WellFormed(s) && ExecSafe(s, ins) && ins.kind != Jmp && ins.kind != Invalid
    ensures WellFormed(r)
  {
    var x, y, n, nn, nnn := X(ins.data), Y(ins.data), N(ins.data), NN(ins.data), NNN(ins.data);
    match ins.kind
    case Cls => Cleared(s)
    case Ret => Returned(s)
    case CallNnn => Called(s, nnn)
    case SeVxNn => SkipIf(s, s.v[x] == nn)
    case SneVxNn => SkipIf(s, s.v[x] != nn)
    case SeVxVy => SkipIf(s, s.v[x] == s.v[y])
    case LdVxNn => s.(v := s.v[x := nn])
    case AddVxNn => s.(v := s.v[x := (s.v[x] as int + nn) % 0x100])
    case LdVxVy => s.(v := Arith(s.v, ins.kind, x, y))
    case OrVxVy => s.(v := Arith(s.v, ins.kind, x, y))
    case AndVxVy => s.(v := Arith(s.v, ins.kind, x, y))
    case XorVxVy => s.(v := Arith(s.v, ins.kind, x, y))
    case AddVxVy => s.(v := Arith(s.v, ins.kind, x, y))
    case SubVxVy => s.(v := Arith(s.v, ins.kind, x, y))
    case ShrVxVy => s.(v := Arith(s.v, ins.kind, x, y))
    case SubnVxVy => s.(v := Arith(s.v, ins.kind, x, y))
    case ShlVxVy => s.(v := Arith(s.v, ins.kind, x, y))
    case SneVxVy => SkipIf(s, s.v[x] != s.v[y])
    case LdINnn => s.(i := nnn)
    case JmpV0Nnn => s.(pc := (s.v[0] as int + nnn) % 0x1_0000)
    case RndVxNn => s.(v := s.v[x := And8(rnd, nn)])
    case DrwVxVyN => Drawn(s, x, y, n)
    case SkpVx => s
    case SknpVx => s
    case LdVxDt => s.(v := s.v[x := s.dt])
    case LdVxK => s.(v := s.v[x := key])
    case LdDtVx => s.(dt := s.v[x])
    case LdStVx => s.(st := s.v[x])
    case AddIVx => s.(i := (s.i as int + s.v[x]) % 0x1_0000)
    case LdFVx => s.(i := (s.v[x] as int * 0x05) % 0x1_0000)
    case LdBVx => BcdStored(s, x)
    case LdIVx => RegsStored(s, x)
    case LdVxI => RegsLoaded(s, x)
  }

  /**
   * `execute`, with the random byte of CXNN and the key byte of FX0A as inputs.
   * A jump to its own address halts and INVALID is an error carrying the word;
   * in both cases the state is left as it was.
   */
  function Exec(s: State, ins: Instruction, rnd: u8, key: u8): (t: Transition)
    requires WellFormed(s) && ExecSafe(s, ins)
    ensures WellFormed(t.next)
    ensures t.status != Ok ==> t.next == s
    ensures t.status == InvalidInstruction(ins.data) <==> ins.kind == Invalid
    ensures t.status == Halt <==>
      ins.kind == Jmp && HaltOnLoop && s.pc == NNN(ins.data) + 2
  {
    match ins.kind
    case Jmp =>
      var nnn := NNN(ins.data);
      if HaltOnLoop && s.pc == (nnn + 2) % 0x1_0000 then Transition(Halt, s)
      else Transition(Ok, s.(pc := nnn))
    case Invalid => Transition(InvalidInstruction(ins.data), s)
    case _ => Transition(Ok, Effect(s, ins, rnd, key))
  }

  // ---------------------------------------------------------------------------
  // Step
  // ---------------------------------------------------------------------------

  /** The instruction `step` would run next. */
  function Next(s: State): Instruction
    requires WellFormed(s) && CanFetch(s)
  {
    Decode(FetchWord(s), Fetched(s).pc)
  }

  /** The word at `pc` can be fetched and executed without leaving memory. */
  predicate StepSafe(s: State)
    requires WellFormed(s)
  {
    CanFetch(s) && ExecSafe(Fetched(s), Next(s))
  }

  /** `step`: fetch, decode, execute. */
  function Stepped(s: State, rnd: u8, key: u8): (t: Transition)
    requires WellFormed(s) && StepSafe(s)
    ensures WellFormed(t.next)
  {
    Exec(Fetched(s), Next(s), rnd, key)
  }

  /** `step`'s answer: the instruction completed and `pc` is now on a breakpoint. */
  predicate AtBreakpoint(t: Transition, breakpoints: seq<u16>) {
    t.status == Ok && t.next.pc in breakpoints
  }
}
