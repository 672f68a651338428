/**
 * The `Chip` struct of `chip.go` and its methods, updating memory, registers and the
 * display in place. Every method is proved to have the effect its counterpart in
 * module Semantics describes, through the abstraction `Abs()`.
 */
module Machine {
  import opened Instructions
  import opened Semantics

  /**
   * In the DXYN loops, pixel (r, c) has been visited once `row` whole sprite rows and
   * the first `col` columns of the next row are done.
   */
  predicate Visited(vx: u8, vy: u8, r: int, c: int, row: int, col: int) {
    var dr, dc := r - vy % ScreenHeight, c - vx % ScreenWidth;
    dr < row || (dr == row && dc < col)
  }

  /** A collision among the pixels visited so far. */
  ghost predicate CollidedSoFar(s: State, vx: u8, vy: u8, n: u8, row: int, col: int)
    requires WellFormed(s) && SpriteInMemory(s, vy, n)
  {
    exists r, c | 0 <= r < ScreenHeight && 0 <= c < ScreenWidth ::
      Under(s, vx, vy, n, r, c) && Visited(vx, vy, r, c, row, col) && s.screen[r][c]
  }

  /** `(a + k) % m` computed in `uint8` does not wrap while it stays on the screen. */
  lemma CoordinateNoWrap(a: u8, k: nat, m: int)
    requires m == ScreenHeight || m == ScreenWidth
    requires a % m + k < m
    ensures (a + k) % 0x100 % m == a % m + k
  {
    if m == ScreenHeight {
      assert a == a / 32 * 32 + a % 32 && a / 32 <= 7;
    } else {
      assert a == a / 64 * 64 + a % 64 && a / 64 <= 3;
    }
  }

  class Chip {
    const memory: array<u8>
    const display: array2<bool>
    const V: array<u8>
    var pc: u16
    var I: u16
    var dt: u8
    var st: u8
    var sp: u16
    var redraw: bool

    /** The sizes of the Go arrays; memory and registers are distinct arrays. */
    ghost predicate Valid() {
      memory.Length == MemSize && V.Length == 16 && memory != V &&
      display.Length0 == ScreenHeight && display.Length1 == ScreenWidth
    }

    /** The display grid as rows of pixels. */
    ghost function Screen(): (screen: seq<seq<bool>>)
      reads display
      requires Valid()
      ensures IsScreen(screen)
      ensures forall r, c | 0 <= r < ScreenHeight && 0 <= c < ScreenWidth :: screen[r][c] == display[r, c]
    {
      seq(ScreenHeight, r requires 0 <= r < ScreenHeight reads display =>
        seq(ScreenWidth, c requires 0 <= c < ScreenWidth reads display => display[r, c]))
    }

    /** The whole machine as a value. */
    ghost function Abs(): (s: State)
      reads this, memory, V, display
      requires Valid()
      ensures WellFormed(s)
    {
      State(memory[..], Screen(), pc, I, dt, st, sp, V[..], redraw)
    }

    /** `NewChip`, given the bytes of the ROM file. */
    constructor (rom: seq<u8>)
      ensures Valid() && fresh(memory) && fresh(V) && fresh(display)
      ensures Abs() == Initial(rom)
    {
      memory := new u8[MemSize](_ => 0);
      display := new bool[ScreenHeight, ScreenWidth]((_, _) => false);
      V := new u8[16](_ => 0);
      pc := StartAddr;
      sp := StackBase;
      I, dt, st := 0, 0, 0;
      redraw := false;
      new;
      assert memory[..] == seq(MemSize, _ => 0);
      CopyIntoMemory(FontBase, Font);
      CopyIntoMemory(pc, rom);
      redraw := true;
      assert V[..] == seq(16, _ => 0);
      assert Screen() == Blank() by {
        forall r | 0 <= r < ScreenHeight ensures Screen()[r] == Blank()[r] {
          assert forall c | 0 <= c < ScreenWidth :: Screen()[r][c] == Blank()[r][c];
        }
      }
    }

    /** Go's `copy(memory[base:], src)`. */
    method CopyIntoMemory(base: nat, src: seq<u8>)
      requires Valid() && base <= MemSize
      modifies memory
      ensures memory[..] == CopyBytes(old(memory[..]), base, src)
    {
      var count := Min(MemSize - base, |src|);
      forall a | base <= a < base + count {
        memory[a] := src[a - base];
      }
      ghost var want := CopyBytes(old(memory[..]), base, src);
      assert forall a | 0 <= a < MemSize :: memory[a] == want[a];
    }

    /** `timer_int`. */
    method TimerTick()
      requires Valid()
      modifies this`dt, this`st
      ensures Abs() == Ticked(old(Abs()))
    {
      if dt > 0 {
        dt := dt - 1;
      }
      if st > 0 {
        st := st - 1;
      }
    }

    /** `fetch`: the big-endian word at `pc`, with `pc` moved past it. */
    method Fetch() returns (word: u16)
      requires Valid() && CanFetch(Abs())
      modifies this`pc
      ensures word == FetchWord(old(Abs()))
      ensures Abs() == Fetched(old(Abs()))
    {
      var high := memory[pc];
      pc := (pc + 1) % 0x1_0000;
      word := high as int * 0x100 + memory[pc];
      pc := (pc + 1) % 0x1_0000;
    }

    /** 00E0: the display array is replaced by an all-clear one. */
    method ClearDisplay()
      requires Valid()
      modifies this`redraw, display
      ensures Abs() == Cleared(old(Abs()))
    {
      forall r, c | 0 <= r < ScreenHeight && 0 <= c < ScreenWidth {
        display[r, c] := false;
      }
      redraw := true;
      ClearedIsBlank();
    }

    /** A display with every pixel off is the blank screen. */
    lemma ClearedIsBlank()
      requires Valid()
      requires forall r, c | 0 <= r < ScreenHeight && 0 <= c < ScreenWidth :: !display[r, c]
      ensures Screen() == Blank()
    {
      forall r | 0 <= r < ScreenHeight ensures Screen()[r] == Blank()[r] {
        assert forall c | 0 <= c < ScreenWidth :: Screen()[r][c] == Blank()[r][c];
      }
    }

    /** 00EE. */
    method Return()
      requires Valid() && sp + 1 < MemSize
      modifies this`pc, this`sp
      ensures Abs() == Returned(old(Abs()))
    {
      ghost var high, low := memory[sp], memory[sp + 1];
      pc := memory[sp] as int * 0x100;
      sp := (sp + 1) % 0x1_0000;
      assert memory[sp] == low;
      pc := (pc + memory[sp]) % 0x1_0000;
      assert pc == high as int * 0x100 + low;
      sp := (sp + 1) % 0x1_0000;
    }

    /** 2NNN. */
    method Call(nnn: u16)
      requires Valid() && 2 <= sp <= MemSize
      modifies this`pc, this`sp, memory
      ensures Abs() == Called(old(Abs()), nnn)
    {
      sp := sp - 1;
      memory[sp] := pc % 0x100;
      sp := sp - 1;
      memory[sp] := pc / 0x100;
      pc := nnn;
    }

    /** 8XY0 to 8XYE. */
    method Arithmetic(k: Kind, x: u8, y: u8)
      requires Valid() && x < 16 && y < 16
      modifies V
      ensures V[..] == Arith(old(V[..]), k, x, y)
    {
      match k {
        case LdVxVy =>
          V[x] := V[y];
        case OrVxVy =>
          V[x] := Or8(V[x], V[y]);
        case AndVxVy =>
          V[x] := And8(V[x], V[y]);
        case XorVxVy =>
          V[x] := Xor8(V[x], V[y]);
        case AddVxVy | SubVxVy | SubnVxVy =>
          ArithmeticWithFlag(k, x, y);
        case ShrVxVy | ShlVxVy =>
          Shift(k, x, y);
        case _ =>
      }
    }

    /** 8XY4, 8XY5 and 8XY7: VF is written first, then Vx. */
    method ArithmeticWithFlag(k: Kind, x: u8, y: u8)
      requires Valid() && x < 16 && y < 16 && k in {AddVxVy, SubVxVy, SubnVxVy}
      modifies V
      ensures V[..] == Arith(old(V[..]), k, x, y)
    {
      match k {
        case AddVxVy =>
          // the comparison is on the wrapped uint8 sum, so the flag is never 1
          V[0xF] := Flag((V[x] as int + V[y]) % 0x100 > 0xFF);
          V[x] := (V[x] as int + V[y]) % 0x100;
        case SubVxVy =>
          if V[x] > V[y] {
            V[0xF] := 1;
          } else {
            V[0xF] := 1;
          }
          V[x] := (V[x] as int - V[y]) % 0x100;
        case SubnVxVy =>
          if V[y] > V[x] {
            V[0xF] := 1;
          } else {
            V[0xF] := 0;
          }
          V[x] := (V[x] as int - (0x100 - V[y] as int) % 0x100) % 0x100;
      }
    }

    /** 8XY6 and 8XYE: VF gets the bit shifted out (as a mask), then Vx is shifted. */
    method Shift(k: Kind, x: u8, y: u8)
      requires Valid() && x < 16 && y < 16 && k in {ShrVxVy, ShlVxVy}
      modifies V
      ensures V[..] == Arith(old(V[..]), k, x, y)
    {
      if k == ShrVxVy {
        V[0xF] := And8(V[x], 0x01);
        V[x] := Shr1(V[x]);
      } else {
        V[0xF] := And8(V[x], 0x80);
        V[x] := Shl8(V[x], 1);
      }
    }

    /**
     * The state of the DXYN loops once `row` whole sprite rows and the first `col`
     * columns of the next one are done: exactly the visited pixels under set bits are
     * flipped, and VF is 1 if one of them was on (otherwise as it was).
     */
    ghost predicate Painted(s: State, vx: u8, vy: u8, n: u8, row: int, col: int)
      reads display, V
      requires Valid() && WellFormed(s) && SpriteInMemory(s, vy, n)
    {
      (forall r, c | 0 <= r < ScreenHeight && 0 <= c < ScreenWidth ::
        display[r, c] == (s.screen[r][c] != (Under(s, vx, vy, n, r, c) && Visited(vx, vy, r, c, row, col)))) &&
      V[..] == if CollidedSoFar(s, vx, vy, n, row, col) then s.v[0xF := 1] else s.v
    }

    /** DXYN: the sprite loops of `execute`, one sprite row at a time. */
    method DrawSprite(x: u8, y: u8, n: u8)
      requires Valid() && x < 16 && y < 16 && n < 16
      requires SpriteInMemory(Abs(), V[y], n)
      modifies this`redraw, V, display
      ensures Abs() == Drawn(old(Abs()), x, y, n)
    {
      ghost var s := Abs();
      var xcoord := V[x];
      var ycoord := V[y];
      var row := 0;
      while row < n
        invariant 0 <= row <= n && ycoord % ScreenHeight + row < ScreenHeight
        invariant Painted(s, xcoord, ycoord, n, row, 0)
      {
        var bits := memory[I + row];
        CoordinateNoWrap(ycoord, row, ScreenHeight);
        var cy := (ycoord as int + row) % 0x100 % ScreenHeight;
        DrawRow(s, xcoord, ycoord, n, row, bits, cy);
        if cy == ScreenHeight - 1 {
          row := row + 1;
          break;
        }
        row := row + 1;
      }
      assert row == RowsDrawn(ycoord, n);
      PaintedIsDrawn(s, x, y, n);
      redraw := true;
    }

    /** Once every drawn row is painted, the screen and VF are those of `Drawn`. */
    lemma PaintedIsDrawn(s: State, x: u8, y: u8, n: u8)
      requires Valid() && WellFormed(s) && x < 16 && y < 16 && SpriteInMemory(s, s.v[y], n)
      requires Painted(s, s.v[x], s.v[y], n, RowsDrawn(s.v[y], n), 0)
      ensures Screen() == Drawn(s, x, y, n).screen && V[..] == Drawn(s, x, y, n).v
    {
      AllVisited(s, s.v[x], s.v[y], n);
      ghost var want := Drawn(s, x, y, n);
      forall r | 0 <= r < ScreenHeight ensures Screen()[r] == want.screen[r] {
        assert forall c | 0 <= c < ScreenWidth :: Screen()[r][c] == want.screen[r][c];
      }
    }

    /**
     * The inner DXYN loop over the eight bits of one sprite row, which stops early
     * after the column on the right edge.
     */
    method DrawRow(ghost s: State, xcoord: u8, ycoord: u8, n: u8, row: nat, bits: u8, cy: int)
      requires Valid() && WellFormed(s) && SpriteInMemory(s, ycoord, n)
      requires row < n && cy == ycoord % ScreenHeight + row < ScreenHeight
      requires s.i + row < MemSize && bits == s.mem[s.i + row]
      requires Painted(s, xcoord, ycoord, n, row, 0)
      modifies V, display
      ensures Painted(s, xcoord, ycoord, n, row + 1, 0)
    {
      var col := 0;
      while col < 8
        invariant 0 <= col <= 8 && xcoord % ScreenWidth + col < ScreenWidth
        invariant Painted(s, xcoord, ycoord, n, row, col)
      {
        CoordinateNoWrap(xcoord, col, ScreenWidth);
        var cx := (xcoord as int + col) % 0x100 % ScreenWidth;
        DrawPixel(s, xcoord, ycoord, n, row, col, bits, cy, cx);
        if cx == ScreenWidth - 1 {
          col := col + 1;
          break;
        }
        col := col + 1;
      }
      assert col == ColsDrawn(xcoord);
      RowComplete(s, xcoord, ycoord, n, row);
    }

    /** The body of the inner DXYN loop: one bit of the sprite row at pixel (cy, cx). */
    method DrawPixel(ghost s: State, xcoord: u8, ycoord: u8, n: u8, row: nat, col: nat, bits: u8, cy: int, cx: int)
      requires Valid() && WellFormed(s) && SpriteInMemory(s, ycoord, n)
      requires row < n && cy == ycoord % ScreenHeight + row < ScreenHeight
      requires col < 8 && cx == xcoord % ScreenWidth + col < ScreenWidth
      requires s.i + row < MemSize && bits == s.mem[s.i + row]
      requires Painted(s, xcoord, ycoord, n, row, col)
      modifies V, display
      ensures Painted(s, xcoord, ycoord, n, row, col + 1)
    {
      var curr := display[cy, cx];
      var colb := And8(bits, Shl8(0x01, 7 - col));
      assert curr == s.screen[cy][cx];
      assert Under(s, xcoord, ycoord, n, cy, cx) == (colb > 0);
      CollidedStep(s, xcoord, ycoord, n, row, col);
      label before:
      if colb > 0 {
        if curr {
          display[cy, cx] := false;
          V[0xF] := 1;
        } else {
          display[cy, cx] := true;
        }
      }
      forall r, c | 0 <= r < ScreenHeight && 0 <= c < ScreenWidth
        ensures display[r, c] ==
          (s.screen[r][c] != (Under(s, xcoord, ycoord, n, r, c) && Visited(xcoord, ycoord, r, c, row, col + 1)))
      {
        if r != cy || c != cx {
          assert display[r, c] == old@before(display[r, c]);
          assert Visited(xcoord, ycoord, r, c, row, col + 1) == Visited(xcoord, ycoord, r, c, row, col);
        }
      }
    }

    /** FX33. */
    method StoreDigits(x: u8)
      requires Valid() && x < 16 && I + 2 < MemSize
      modifies memory
      ensures Abs() == BcdStored(old(Abs()), x)
    {
      var h := V[x] / 100;
      var t := (V[x] - h * 100) / 10;
      var o := V[x] - h * 100 - t * 10;
      memory[I] := h;
      memory[I + 1] := t;
      memory[I + 2] := o;
    }

    /** FX55. */
    method StoreRegisters(x: u8)
      requires Valid() && x < 16 && I + x < MemSize
      modifies memory
      ensures Abs() == RegsStored(old(Abs()), x)
    {
      var reg := 0;
      while reg <= x
        invariant 0 <= reg <= x + 1
        invariant forall a | 0 <= a < MemSize ::
          memory[a] == if I <= a < I + reg then V[a - I] else old(memory[a])
      {
        memory[I + reg] := V[reg];
        reg := reg + 1;
      }
      assert memory[..] == RegsStored(old(Abs()), x).mem;
    }

    /** FX65. */
    method LoadRegisters(x: u8)
      requires Valid() && x < 16 && I + x < MemSize
      modifies V
      ensures Abs() == RegsLoaded(old(Abs()), x)
    {
      var reg := 0;
      while reg <= x
        invariant 0 <= reg <= x + 1
        invariant forall j | 0 <= j < 16 :: V[j] == if j < reg then memory[I + j] else old(V[j])
      {
        V[reg] := memory[I + reg];
        reg := reg + 1;
      }
      assert V[..] == RegsLoaded(old(Abs()), x).v;
    }

    /**
     * `execute`. The random byte of CXNN and the key byte of FX0A come in as
     * parameters; a jump to its own address and INVALID come back as a status.
     */
    method Execute(ins: Instruction, rnd: u8, key: u8) returns (status: Status)
      requires Valid() && ExecSafe(Abs(), ins)
      modifies this, memory, V, display
      ensures status == Exec(old(Abs()), ins, rnd, key).status
      ensures Abs() == Exec(old(Abs()), ins, rnd, key).next
    {
      if ins.kind == Jmp {
        var nnn := NNN(ins.data);
        if HaltOnLoop && pc == (nnn + 2) % 0x1_0000 {
          status := Halt;
        } else {
          status := Ok;
          pc := nnn;
        }
      } else if ins.kind == Invalid {
        status := InvalidInstruction(ins.data);
      } else {
        status := Ok;
        ExecuteEffect(ins, rnd, key);
      }
    }

    /** `execute` for the kinds that always complete, handed to the helper for their group. */
    method ExecuteEffect(ins: Instruction, rnd: u8, key: u8)
      requires Valid() && ExecSafe(Abs(), ins) && ins.kind != Jmp && ins.kind != Invalid
      modifies this, memory, V, display
      ensures Abs() == Effect(old(Abs()), ins, rnd, key)
    {
      if ins.kind in {Cls, Ret, CallNnn, SeVxNn, SneVxNn, SeVxVy, SneVxVy, JmpV0Nnn, SkpVx, SknpVx} {
        ExecuteFlow(ins);
      } else if ins.kind in {LdVxNn, AddVxNn, LdVxVy, OrVxVy, AndVxVy, XorVxVy, AddVxVy, SubVxVy, ShrVxVy,
                             SubnVxVy, ShlVxVy, RndVxNn, LdVxDt, LdVxK} {
        ExecuteRegisters(ins, rnd, key);
      } else if ins.kind in {LdINnn, LdDtVx, LdStVx, AddIVx, LdFVx} {
        ExecuteSpecial(ins);
      } else {
        ExecuteMemory(ins);
      }
    }

    /** The cases of `execute` that move `pc` or the stack, or clear the screen. */
    method ExecuteFlow(ins: Instruction)
      requires Valid() && ExecSafe(Abs(), ins)
      requires ins.kind in {Cls, Ret, CallNnn, SeVxNn, SneVxNn, SeVxVy, SneVxVy, JmpV0Nnn, SkpVx, SknpVx}
      modifies this`pc, this`sp, this`redraw, memory, display
      ensures Abs() == Effect(old(Abs()), ins, 0, 0)
    {
      var x, y, nn, nnn := X(ins.data), Y(ins.data), NN(ins.data), NNN(ins.data);
      match ins.kind {
        case Cls => ClearDisplay();
        case Ret => Return();
        case CallNnn => Call(nnn);
        case SeVxNn =>
          if V[x] == nn {
            pc := (pc + 2) % 0x1_0000;
          }
        case SneVxNn =>
          if V[x] != nn {
            pc := (pc + 2) % 0x1_0000;
          }
        case SeVxVy =>
          if V[x] == V[y] {
            pc := (pc + 2) % 0x1_0000;
          }
        case SneVxVy =>
          if V[x] != V[y] {
            pc := (pc + 2) % 0x1_0000;
          }
        case JmpV0Nnn => pc := (V[0] as int + nnn) % 0x1_0000;
        case SkpVx =>
        case SknpVx =>
      }
    }

    /** The cases of `execute` that write one register (VF included, for 8XYn). */
    method ExecuteRegisters(ins: Instruction, rnd: u8, key: u8)
      requires Valid() && ExecSafe(Abs(), ins)
      requires ins.kind in {LdVxNn, AddVxNn, LdVxVy, OrVxVy, AndVxVy, XorVxVy, AddVxVy, SubVxVy,
                            ShrVxVy, SubnVxVy, ShlVxVy, RndVxNn, LdVxDt, LdVxK}
      modifies V
      ensures Abs() == Effect(old(Abs()), ins, rnd, key)
    {
      var x, y, nn := X(ins.data), Y(ins.data), NN(ins.data);
      if ins.kind in {LdVxVy, OrVxVy, AndVxVy, XorVxVy, AddVxVy, SubVxVy, ShrVxVy, SubnVxVy, ShlVxVy} {
        ghost var s := Abs();
        Arithmetic(ins.kind, x, y);
        EffectOfArithmetic(s, ins, rnd, key);
      } else if ins.kind == LdVxNn {
        V[x] := nn;
      } else if ins.kind == AddVxNn {
        V[x] := (V[x] as int + nn) % 0x100;
      } else if ins.kind == RndVxNn {
        V[x] := And8(rnd, nn);
      } else if ins.kind == LdVxDt {
        V[x] := dt;
      } else {
        V[x] := key;
      }
    }

    /** The cases of `execute` that set `I` or a timer from an operand. */
    method ExecuteSpecial(ins: Instruction)
      requires Valid() && ExecSafe(Abs(), ins)
      requires ins.kind in {LdINnn, LdDtVx, LdStVx, AddIVx, LdFVx}
      modifies this`I, this`dt, this`st
      ensures Abs() == Effect(old(Abs()), ins, 0, 0)
    {
      var x, nnn := X(ins.data), NNN(ins.data);
      match ins.kind {
        case LdINnn => I := nnn;
        case LdDtVx => dt := V[x];
        case LdStVx => st := V[x];
        case AddIVx => I := (I as int + V[x]) % 0x1_0000;
        case LdFVx => I := (V[x] as int * 0x05) % 0x1_0000;
      }
    }

    /** The cases of `execute` that read or write memory through `I`. */
    method ExecuteMemory(ins: Instruction)
      requires Valid() && ExecSafe(Abs(), ins)
      requires ins.kind in {DrwVxVyN, LdBVx, LdIVx, LdVxI}
      modifies this`redraw, memory, V, display
      ensures Abs() == Effect(old(Abs()), ins, 0, 0)
    {
      var x, y, n := X(ins.data), Y(ins.data), N(ins.data);
      match ins.kind {
        case DrwVxVyN => DrawSprite(x, y, n);
        case LdBVx => StoreDigits(x);
        case LdIVx => StoreRegisters(x);
        case LdVxI => LoadRegisters(x);
      }
    }

    /** The breakpoint test at the end of `step`. */
    method OnBreakpoint(breakpoints: seq<u16>) returns (hit: bool)
      ensures hit <==> pc in breakpoints
    {
      for k := 0 to |breakpoints|
        invariant pc !in breakpoints[..k]
      {
        if breakpoints[k] == pc {
          return true;
        }
      }
      return false;
    }

    /**
     * `step`: fetch, decode and execute one instruction, then report whether `pc`
     * is on a breakpoint. Where the Go code panics (INVALID, or the halt on a jump
     * to itself) the status says so and no breakpoint is reported.
     */
    method Step(breakpoints: seq<u16>, rnd: u8, key: u8) returns (status: Status, hit: bool)
      requires Valid() && StepSafe(Abs())
      modifies this, memory, V, display
      ensures status == Stepped(old(Abs()), rnd, key).status
      ensures Abs() == Stepped(old(Abs()), rnd, key).next
      ensures hit <==> AtBreakpoint(Stepped(old(Abs()), rnd, key), breakpoints)
    {
      var data := Fetch();
      var ins := Decode(data, pc);
      status := Execute(ins, rnd, key);
      if status != Ok {
        return status, false;
      }
      hit := OnBreakpoint(breakpoints);
    }
  }

  /**
   * One pixel of the DXYN loops: visiting pixel (vy % 32 + row, vx % 64 + col) adds a
   * collision exactly when that pixel is under a set bit and was on.
   */
  lemma CollidedStep(s: State, vx: u8, vy: u8, n: u8, row: int, col: int)
    requires WellFormed(s) && SpriteInMemory(s, vy, n)
    requires 0 <= row && vy % ScreenHeight + row < ScreenHeight
    requires 0 <= col && vx % ScreenWidth + col < ScreenWidth
    ensures var cy, cx := vy % ScreenHeight + row, vx % ScreenWidth + col;
      CollidedSoFar(s, vx, vy, n, row, col + 1) ==
      (CollidedSoFar(s, vx, vy, n, row, col) || (Under(s, vx, vy, n, cy, cx) && s.screen[cy][cx]))
  {
    var cy, cx := vy % ScreenHeight + row, vx % ScreenWidth + col;
    if CollidedSoFar(s, vx, vy, n, row, col + 1) {
      var r, c :| 0 <= r < ScreenHeight && 0 <= c < ScreenWidth &&
        Under(s, vx, vy, n, r, c) && Visited(vx, vy, r, c, row, col + 1) && s.screen[r][c];
      if r != cy || c != cx {
        assert Visited(vx, vy, r, c, row, col);
      }
    }
    if Under(s, vx, vy, n, cy, cx) && s.screen[cy][cx] {
      assert Visited(vx, vy, cy, cx, row, col + 1);
    }
  }

  /** Every 8XYn instruction replaces the registers by `Arith` and changes nothing else. */
  lemma EffectOfArithmetic(s: State, ins: Instruction, rnd: u8, key: u8)
    requires WellFormed(s)
    requires ins.kind in {LdVxVy, OrVxVy, AndVxVy, XorVxVy, AddVxVy, SubVxVy, ShrVxVy, SubnVxVy, ShlVxVy}
    ensures Effect(s, ins, rnd, key) == s.(v := Arith(s.v, ins.kind, X(ins.data), Y(ins.data)))
  {
  }

  /** After the last drawn column of a row, the next row starts from the same pixels. */
  lemma RowComplete(s: State, vx: u8, vy: u8, n: u8, row: int)
    requires WellFormed(s) && SpriteInMemory(s, vy, n)
    ensures forall r, c | 0 <= r < ScreenHeight && 0 <= c < ScreenWidth && Under(s, vx, vy, n, r, c) ::
      Visited(vx, vy, r, c, row, ColsDrawn(vx)) == Visited(vx, vy, r, c, row + 1, 0)
    ensures CollidedSoFar(s, vx, vy, n, row, ColsDrawn(vx)) == CollidedSoFar(s, vx, vy, n, row + 1, 0)
  {
  }

  /** Once every drawn row is done, every pixel under the sprite has been visited. */
  lemma AllVisited(s: State, vx: u8, vy: u8, n: u8)
    requires WellFormed(s) && SpriteInMemory(s, vy, n)
    ensures forall r, c | 0 <= r < ScreenHeight && 0 <= c < ScreenWidth && Under(s, vx, vy, n, r, c) ::
      Visited(vx, vy, r, c, RowsDrawn(vy, n), 0)
    ensures CollidedSoFar(s, vx, vy, n, RowsDrawn(vy, n), 0) == Collides(s, vx, vy, n)
  {
  }
}
