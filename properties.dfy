/**
 * Properties of the reference semantics: what one fetch, one instruction or one
 * step does, the quirks of the arithmetic flags, the round trips (CALL then RET,
 * FX55 then FX65, drawing a sprite twice) and the layout `NewChip` produces.
 */
module Properties {
  import opened Instructions
  import opened Semantics

  // ---------------------------------------------------------------------------
  // Byte arithmetic behind the flags
  // ---------------------------------------------------------------------------

  /** `a & 0x01` is the low bit of `a`. */
  lemma LowBit(a: u8)
    ensures And8(a, 0x01) == a % 2
  {
    AndSingleBit(a, 0, 8);
  }

  /** `a & 0x80` is 0x80 or 0 according to the high bit of `a`. */
  lemma HighBit(a: u8)
    ensures And8(a, 0x80) == if a >= 0x80 then 0x80 else 0
  {
    AndSingleBit(a, 7, 8);
    TopBit(a, 7);
  }

  /** A power of two below bit 8 is at most 0x80. */
  lemma {:induction false} SmallPow2(j: nat)
    requires j <= 7
    ensures Pow2(j) <= 0x80
    decreases 7 - j
  {
    if j < 7 {
      SmallPow2(j + 1);
    }
  }

  /** DXYN's `bits & (0x01 << (7 - col)) > 0` tests bit 7 - col of the sprite row. */
  lemma SpriteBitIsBit(bits: u8, col: int)
    requires 0 <= col < 8
    ensures SpriteBit(bits, col) <==> Bit(bits, 7 - col)
  {
    SmallPow2(7 - col);
    assert Shl8(0x01, 7 - col) == Pow2(7 - col);
    AndSingleBit(bits, 7 - col, 8);
  }

  // ---------------------------------------------------------------------------
  // Fetch and decode
  // ---------------------------------------------------------------------------

  /**
   * One fetch reads the word at `pc` high byte first, moves `pc` on by two, and the
   * decoded instruction carries the address it was fetched from.
   */
  lemma FetchThenDecode(s: State)
    requires WellFormed(s) && CanFetch(s)
    ensures Fetched(s).pc == s.pc + 2
    ensures Fetched(s).(pc := s.pc) == s
    ensures Group(FetchWord(s)) == s.mem[s.pc] / 0x10 && X(FetchWord(s)) == s.mem[s.pc] % 0x10
    ensures Y(FetchWord(s)) == s.mem[s.pc + 1] / 0x10 && N(FetchWord(s)) == s.mem[s.pc + 1] % 0x10
    ensures Next(s).address == s.pc && Next(s).data == FetchWord(s)
  {
    NibblesOfBytes(FetchWord(s));
  }

  /** A few words and their kinds, including words the table leaves INVALID. */
  lemma DecodeExamples()
    ensures KindOf(0x0000) == Invalid && KindOf(0x00E0) == Cls && KindOf(0x00EE) == Ret
    ensures KindOf(0x01E0) == Invalid
    ensures KindOf(0x5AB7) == SeVxVy && KindOf(0x9AB1) == Invalid && KindOf(0x8AB8) == Invalid
    ensures KindOf(0xD125) == DrwVxVyN && KindOf(0xF233) == LdBVx && KindOf(0xE19F) == Invalid
  {
  }

  /** An INVALID word makes `step` stop with an error that carries the word. */
  lemma StepOnInvalidWord(s: State, rnd: u8, key: u8)
    requires WellFormed(s) && StepSafe(s)
    ensures Stepped(s, rnd, key).status == InvalidInstruction(FetchWord(s)) <==> KindOf(FetchWord(s)) == Invalid
    ensures KindOf(FetchWord(s)) == Invalid ==> Stepped(s, rnd, key).next == Fetched(s)
    ensures KindOf(FetchWord(s)) == Invalid ==> forall bps: seq<u16> :: !AtBreakpoint(Stepped(s, rnd, key), bps)
  {
  }

  // ---------------------------------------------------------------------------
  // Jumps and skips
  // ---------------------------------------------------------------------------

  /** The condition a skip instruction tests. */
  predicate SkipCondition(s: State, ins: Instruction)
    requires WellFormed(s)
  {
    var x, y, nn := X(ins.data), Y(ins.data), NN(ins.data);
    match ins.kind
    case SeVxNn => s.v[x] == nn
    case SneVxNn => s.v[x] != nn
    case SeVxVy => s.v[x] == s.v[y]
    case SneVxVy => s.v[x] != s.v[y]
    case _ => false
  }

  /**
   * 3XNN, 4XNN, 5XYN and 9XY0 move `pc` past the next word exactly when their
   * condition holds, and change nothing else.
   */
  lemma SkipsExactlyWhenConditionHolds(s: State, ins: Instruction, rnd: u8, key: u8)
    requires WellFormed(s) && ins.kind in {SeVxNn, SneVxNn, SeVxVy, SneVxVy}
    ensures Exec(s, ins, rnd, key).status == Ok
    ensures Exec(s, ins, rnd, key).next.(pc := s.pc) == s
    ensures Exec(s, ins, rnd, key).next.pc == (s.pc + 2) % 0x1_0000 <==> SkipCondition(s, ins)
    ensures !SkipCondition(s, ins) ==> Exec(s, ins, rnd, key).next == s
  {
  }

  /** EX9E and EXA1 read no key and never skip. */
  lemma KeySkipsDoNothing(s: State, ins: Instruction, rnd: u8, key: u8)
    requires WellFormed(s) && ins.kind in {SkpVx, SknpVx}
    ensures Exec(s, ins, rnd, key) == Transition(Ok, s)
  {
  }

  /**
   * 1NNN halts exactly when it jumps to its own address (`pc` is already two past
   * it); otherwise it sets `pc` to NNN and nothing else.
   */
  lemma JumpHaltsExactlyOnSelfLoop(s: State, ins: Instruction, rnd: u8, key: u8)
    requires WellFormed(s) && ins.kind == Jmp
    ensures Exec(s, ins, rnd, key).status == Halt <==> NNN(ins.data) + 2 == s.pc
    ensures Exec(s, ins, rnd, key).status != Halt ==>
      Exec(s, ins, rnd, key) == Transition(Ok, s.(pc := NNN(ins.data)))
  {
  }

  /** A word 1NNN at address NNN: `step` halts and only `pc` has moved (past the word). */
  lemma StepHaltsOnJumpToItself(s: State, rnd: u8, key: u8)
    requires WellFormed(s) && CanFetch(s)
    requires Group(FetchWord(s)) == 0x1 && NNN(FetchWord(s)) == s.pc
    ensures StepSafe(s)
    ensures Stepped(s, rnd, key) == Transition(Halt, Fetched(s))
  {
    assert KindOf(FetchWord(s)) == Jmp;
    assert Fetched(s).pc == s.pc + 2;
  }

  /** BNNN: `pc` becomes V0 + NNN, which never wraps. */
  lemma JumpPlusV0(s: State, ins: Instruction, rnd: u8, key: u8)
    requires WellFormed(s) && ins.kind == JmpV0Nnn
    ensures Exec(s, ins, rnd, key) == Transition(Ok, s.(pc := s.v[0] + NNN(ins.data)))
  {
  }

  // ---------------------------------------------------------------------------
  // CALL and RET
  // ---------------------------------------------------------------------------

  /**
   * CALL then RET gives back `pc` and `sp`; the only memory changed is the two stack
   * bytes below the old `sp`, which hold the return address high byte first.
   */
  lemma {:induction false} CallThenReturn(s: State, nnn: u16)
    requires WellFormed(s) && 2 <= s.sp <= MemSize
    ensures var c := Called(s, nnn);
      c.sp == s.sp - 2 && c.pc == nnn &&
      c.mem[s.sp - 2] as int * 0x100 + c.mem[s.sp - 1] == s.pc
    ensures var t := Returned(Called(s, nnn));
      t.pc == s.pc && t.sp == s.sp && t.(mem := s.mem) == s &&
      forall a | 0 <= a < MemSize && a != s.sp - 2 && a != s.sp - 1 :: t.mem[a] == s.mem[a]
  {
    var c := Called(s, nnn);
    assert c.mem[s.sp - 2] == s.pc / 0x100 && c.mem[s.sp - 1] == s.pc % 0x100;
  }

  /**
   * A step on a word whose high nibble is 2 is the CALL of its low twelve bits (the
   * low nibble of the first byte, then the second byte), made with `pc` already past
   * the word.
   */
  lemma StepOnCall(s: State, rnd: u8, key: u8)
    requires WellFormed(s) && CanFetch(s) && 2 <= s.sp <= MemSize && s.mem[s.pc] / 0x10 == 0x2
    ensures StepSafe(s)
    ensures Stepped(s, rnd, key) ==
      Transition(Ok, Called(s.(pc := s.pc + 2), s.mem[s.pc] as int % 0x10 * 0x100 + s.mem[s.pc + 1]))
  {
    var w, f := FetchWord(s), Fetched(s);
    NibblesOfBytes(w);
    FieldsRecompose(w);
    assert f.pc == s.pc + 2;
    assert KindOf(w) == CallNnn;
    var ins := Decode(w, f.pc);
    assert ins == Instruction(CallNnn, s.pc, w);
    assert ExecSafe(f, ins);
    assert Exec(f, ins, rnd, key) == Transition(Ok, Effect(f, ins, rnd, key));
    assert Effect(f, ins, rnd, key) == Called(f, NNN(w));
  }

  /** A step on a 00EE word is the RET. */
  lemma StepOnReturn(s: State, rnd: u8, key: u8)
    requires WellFormed(s) && CanFetch(s) && s.sp + 1 < MemSize
    requires s.mem[s.pc] == 0x00 && s.mem[s.pc + 1] == 0xEE
    ensures StepSafe(s)
    ensures Stepped(s, rnd, key) == Transition(Ok, Returned(s.(pc := s.pc + 2)))
  {
    assert FetchWord(s) == 0x00EE;
    assert KindOf(0x00EE) == Ret;
    var f, ins := Fetched(s), Next(s);
    assert ins.kind == Ret;
    assert ExecSafe(f, ins);
    assert Effect(f, ins, rnd, key) == Returned(f);
  }

  /**
   * A CALL followed by a RET, as `execute` runs them: `pc` and `sp` are back where
   * they were, and registers, I, timers and screen are as before; only the two stack
   * bytes below `sp` have changed.
   */
  lemma {:induction false} ExecCallThenReturn(s: State, call: Instruction, ret: Instruction, rnd: u8, key: u8)
    requires WellFormed(s) && 2 <= s.sp <= MemSize && call.kind == CallNnn && ret.kind == Ret
    ensures ExecSafe(s, call) && Exec(s, call, rnd, key).status == Ok
    ensures var s1 := Exec(s, call, rnd, key).next;
      s1.pc == NNN(call.data) && s1.sp == s.sp - 2 && ExecSafe(s1, ret)
    ensures var t := Exec(Exec(s, call, rnd, key).next, ret, rnd, key);
      t.status == Ok && t.next.pc == s.pc && t.next.sp == s.sp && t.next.(mem := s.mem) == s
  {
    CallThenReturn(s, NNN(call.data));
    assert Exec(s, call, rnd, key).next == Called(s, NNN(call.data));
  }

  // ---------------------------------------------------------------------------
  // 8XYn: results and flags
  // ---------------------------------------------------------------------------

  /** The registers other than Vx and VF are untouched by every 8XYn. */
  lemma ArithFrame(v: seq<u8>, k: Kind, x: u8, y: u8)
    requires |v| == 16 && x < 16 && y < 16
    ensures forall j | 0 <= j < 16 && j != x && j != 0xF :: Arith(v, k, x, y)[j] == v[j]
    ensures k in {LdVxVy, OrVxVy, AndVxVy, XorVxVy} ==> forall j | 0 <= j < 16 && j != x :: Arith(v, k, x, y)[j] == v[j]
  {
  }

  /** 8XY4: Vx gets the wrapped sum, and VF is always 0: the carry is lost. */
  lemma AddNeverCarries(v: seq<u8>, x: u8, y: u8)
    requires |v| == 16 && x < 0xF && y < 0xF
    ensures Arith(v, AddVxVy, x, y)[0xF] == 0
    ensures Arith(v, AddVxVy, x, y)[x] == (v[x] as int + v[y]) % 0x100
  {
  }

  /** 0xFF + 0x01 wraps to 0 with VF still 0. */
  lemma AddCarryExample(v: seq<u8>)
    requires |v| == 16 && v[0] == 0xFF && v[1] == 0x01
    ensures Arith(v, AddVxVy, 0, 1)[0] == 0 && Arith(v, AddVxVy, 0, 1)[0xF] == 0
  {
  }

  /** 8XY5: Vx gets the wrapped difference, and VF is 1 whether or not it borrowed. */
  lemma SubAlwaysSetsFlag(v: seq<u8>, x: u8, y: u8)
    requires |v| == 16 && x < 0xF && y < 0xF
    ensures Arith(v, SubVxVy, x, y)[0xF] == 1
    ensures Arith(v, SubVxVy, x, y)[x] == (v[x] as int - v[y]) % 0x100
  {
  }

  /**
   * 8XY7: VF is 1 exactly when Vy > Vx, and Vx gets Vx + Vy (wrapped) rather
   * than Vy - Vx: subtracting the negation of Vy adds it.
   */
  lemma {:induction false} SubnAdds(v: seq<u8>, x: u8, y: u8)
    requires |v| == 16 && x < 0xF && y < 0xF
    ensures Arith(v, SubnVxVy, x, y)[0xF] == 1 <==> v[y] > v[x]
    ensures Arith(v, SubnVxVy, x, y)[0xF] == 0 <==> v[y] <= v[x]
    ensures Arith(v, SubnVxVy, x, y)[x] == (v[x] as int + v[y]) % 0x100
  {
    var a, b := v[x] as int, v[y] as int;
    if b == 0 {
      assert (a - (0x100 - b) % 0x100) % 0x100 == a;
    } else {
      assert (0x100 - b) % 0x100 == 0x100 - b;
      assert (a - (0x100 - b)) % 0x100 == (a + b) % 0x100;
    }
  }

  /** 8XY6: VF gets the bit shifted out of Vx, and Vx is halved. */
  lemma ShrFlagIsLowBit(v: seq<u8>, x: u8, y: u8)
    requires |v| == 16 && x < 0xF && y < 16
    ensures Arith(v, ShrVxVy, x, y)[0xF] == v[x] % 2
    ensures Arith(v, ShrVxVy, x, y)[x] == v[x] / 2
  {
    LowBit(v[x]);
  }

  /** 8XYE: VF gets 0x80 (not 1) when the high bit is shifted out, and Vx is doubled. */
  lemma ShlFlagIsHighBitMask(v: seq<u8>, x: u8, y: u8)
    requires |v| == 16 && x < 0xF && y < 16
    ensures Arith(v, ShlVxVy, x, y)[0xF] == if v[x] >= 0x80 then 0x80 else 0
    ensures Arith(v, ShlVxVy, x, y)[x] == (2 * v[x] as int) % 0x100
  {
    HighBit(v[x]);
    ShiftLeftByOne(v[x]);
  }

  /**
   * With x = F the flag is written first and then overwritten by the result, which
   * is computed from the flag just written: 8FY6 and 8FYE leave VF = 0, 8FY4 leaves
   * VF = Vy.
   */
  lemma {:induction false} FlagThenResultWhenXIsF(v: seq<u8>, y: u8)
    requires |v| == 16 && y < 0xF
    ensures Arith(v, ShrVxVy, 0xF, y)[0xF] == 0
    ensures Arith(v, ShlVxVy, 0xF, y)[0xF] == 0
    ensures Arith(v, AddVxVy, 0xF, y)[0xF] == v[y]
    ensures Arith(v, SubVxVy, 0xF, y)[0xF] == (1 - v[y] as int) % 0x100
    ensures Arith(v, SubnVxVy, 0xF, y)[0xF] == ((if v[y] > v[0xF] then 1 else 0) + v[y] as int) % 0x100
  {
    LowBit(v[0xF]);
    HighBit(v[0xF]);
    ShiftLeftByOne(And8(v[0xF], 0x80));
    var f, b := if v[y] > v[0xF] then 1 else 0, v[y] as int;
    if b == 0 {
      assert (f - (0x100 - b) % 0x100) % 0x100 == (f + b) % 0x100;
    } else {
      assert (0x100 - b) % 0x100 == 0x100 - b;
      assert (f - (0x100 - b)) % 0x100 == (f + b) % 0x100;
    }
  }

  /**
   * With y = F the operand is read after the flag was written: 8XF4 adds the new
   * VF = 0 and leaves Vx unchanged, 8XF5 subtracts the new VF = 1, and 8XF7 adds
   * its own flag.
   */
  lemma {:induction false} OperandIsFlagWhenYIsF(v: seq<u8>, x: u8)
    requires |v| == 16 && x < 0xF
    ensures Arith(v, AddVxVy, x, 0xF)[0xF] == 0 && Arith(v, AddVxVy, x, 0xF)[x] == v[x]
    ensures Arith(v, SubVxVy, x, 0xF)[0xF] == 1 && Arith(v, SubVxVy, x, 0xF)[x] == (v[x] as int - 1) % 0x100
    ensures var f := if v[0xF] > v[x] then 1 else 0;
      Arith(v, SubnVxVy, x, 0xF)[0xF] == f && Arith(v, SubnVxVy, x, 0xF)[x] == (v[x] as int + f) % 0x100
  {
    var a, f := v[x] as int, if v[0xF] > v[x] then 1 else 0;
    if f == 0 {
      assert (a - (0x100 - f) % 0x100) % 0x100 == (a + f) % 0x100;
    } else {
      assert (a - (0x100 - f)) % 0x100 == (a + f) % 0x100;
    }
  }

  /** With x = y = F every flag-producing 8XYn leaves VF = 0. */
  lemma {:induction false} FlagOpsOnFlagRegister(v: seq<u8>)
    requires |v| == 16
    ensures forall k | k in {AddVxVy, SubVxVy, ShrVxVy, SubnVxVy, ShlVxVy} :: Arith(v, k, 0xF, 0xF)[0xF] == 0
  {
    LowBit(v[0xF]);
    HighBit(v[0xF]);
    ShiftLeftByOne(And8(v[0xF], 0x80));
    assert (0 - (0x100 - 0) % 0x100) % 0x100 == 0;
  }

  // ---------------------------------------------------------------------------
  // DXYN
  // ---------------------------------------------------------------------------

  /** Only pixels inside the clipped sprite rectangle can change; nothing wraps round. */
  lemma DrawStaysInRectangle(s: State, x: u8, y: u8, n: u8)
    requires WellFormed(s) && x < 16 && y < 16 && SpriteInMemory(s, s.v[y], n)
    ensures var vx, vy := s.v[x] % ScreenWidth, s.v[y] % ScreenHeight;
      forall r, c | 0 <= r < ScreenHeight && 0 <= c < ScreenWidth &&
          Drawn(s, x, y, n).screen[r][c] != s.screen[r][c] ::
        vy <= r < vy + RowsDrawn(s.v[y], n) && vx <= c < vx + ColsDrawn(s.v[x]) &&
        r < ScreenHeight && c < ScreenWidth
  {
  }

  /**
   * VF after DXYN: 1 exactly when some pixel was switched off; otherwise VF keeps
   * its old value (it is never cleared). A redraw is always requested.
   */
  lemma {:induction false} DrawFlagMeansErased(s: State, x: u8, y: u8, n: u8)
    requires WellFormed(s) && x < 16 && y < 16 && SpriteInMemory(s, s.v[y], n)
    ensures var t := Drawn(s, x, y, n);
      t.redraw && (t.v[0xF] == 1 || t.v[0xF] == s.v[0xF]) &&
      forall j | 0 <= j < 0xF :: t.v[j] == s.v[j]
    ensures var t := Drawn(s, x, y, n);
      (exists r, c | 0 <= r < ScreenHeight && 0 <= c < ScreenWidth :: s.screen[r][c] && !t.screen[r][c])
      <==> Collides(s, s.v[x], s.v[y], n)
    ensures var t := Drawn(s, x, y, n);
      Collides(s, s.v[x], s.v[y], n) ==> t.v[0xF] == 1
    ensures !Collides(s, s.v[x], s.v[y], n) ==> Drawn(s, x, y, n).v == s.v
  {
    var t := Drawn(s, x, y, n);
    var vx, vy := s.v[x], s.v[y];
    if exists r, c | 0 <= r < ScreenHeight && 0 <= c < ScreenWidth :: s.screen[r][c] && !t.screen[r][c] {
      var r, c :| 0 <= r < ScreenHeight && 0 <= c < ScreenWidth && s.screen[r][c] && !t.screen[r][c];
      assert Under(s, vx, vy, n, r, c);
    }
    if Collides(s, vx, vy, n) {
      var r, c :| 0 <= r < ScreenHeight && 0 <= c < ScreenWidth && Under(s, vx, vy, n, r, c) && s.screen[r][c];
      assert !t.screen[r][c];
    }
  }

  /** Drawing the same sprite twice (x, y other than F) gives back the screen. */
  lemma {:induction false} DrawTwiceRestoresScreen(s: State, x: u8, y: u8, n: u8)
    requires WellFormed(s) && x < 0xF && y < 0xF && SpriteInMemory(s, s.v[y], n)
    ensures var t := Drawn(s, x, y, n);
      SpriteInMemory(t, t.v[y], n) && Drawn(t, x, y, n).screen == s.screen
  {
    var t := Drawn(s, x, y, n);
    var u := Drawn(t, x, y, n);
    var vx, vy := s.v[x], s.v[y];
    assert t.v[x] == vx && t.v[y] == vy;
    forall r | 0 <= r < ScreenHeight ensures u.screen[r] == s.screen[r] {
      forall c | 0 <= c < ScreenWidth ensures u.screen[r][c] == s.screen[r][c] {
        assert Under(t, vx, vy, n, r, c) == Under(s, vx, vy, n, r, c);
      }
    }
  }

  /** Every bit of the sprite row 0xFF is set. */
  lemma SolidRowBits()
    ensures forall c | 0 <= c < 8 :: SpriteBit(0xFF, c)
  {
    forall c | 0 <= c < 8 ensures SpriteBit(0xFF, c) {
      SpriteBitIsBit(0xFF, c);
      AllOnes(8, 7 - c);
    }
  }

  /** Nothing drawn on a blank screen collides, so VF keeps its value. */
  lemma BlankNeverCollides(s: State, vx: u8, vy: u8, n: u8)
    requires WellFormed(s) && SpriteInMemory(s, vy, n) && s.screen == Blank()
    ensures !Collides(s, vx, vy, n)
  {
  }

  /**
   * A one-row sprite 0xFF at the top-left corner, on a blank screen: the eight
   * pixels come on and VF is left as it was; drawn again, they go off and VF = 1.
   */
  lemma {:induction false} SolidRowExample(s: State, x: u8, y: u8)
    requires WellFormed(s) && x < 0xF && y < 0xF && s.v[x] == 0 && s.v[y] == 0
    requires s.i < MemSize && s.mem[s.i] == 0xFF && s.screen == Blank()
    ensures var t := Drawn(s, x, y, 1);
      (forall c | 0 <= c < 8 :: t.screen[0][c]) && t.v[0xF] == s.v[0xF] &&
      SpriteInMemory(t, t.v[y], 1) && Drawn(t, x, y, 1).v[0xF] == 1
    ensures var t := Drawn(s, x, y, 1);
      forall c | 0 <= c < 8 :: !Drawn(t, x, y, 1).screen[0][c]
  {
    var t := Drawn(s, x, y, 1);
    DrawTwiceRestoresScreen(s, x, y, 1);
    SolidRowBits();
    forall c | 0 <= c < 8 ensures t.screen[0][c] {
      assert Under(s, 0, 0, 1, 0, c);
    }
    BlankNeverCollides(s, 0, 0, 1);
    assert Under(t, 0, 0, 1, 0, 0) && t.screen[0][0];
  }

  // ---------------------------------------------------------------------------
  // FX1E, FX29, FX33, FX55, FX65
  // ---------------------------------------------------------------------------

  /**
   * FX29: I becomes 5 * Vx without reducing Vx to a hex digit; for Vx < 16 that is
   * the glyph `NewChip` put there, past it for larger Vx.
   */
  lemma FontAddress(s: State, ins: Instruction, rnd: u8, key: u8, rom: seq<u8>)
    requires WellFormed(s) && ins.kind == LdFVx
    ensures var t := Exec(s, ins, rnd, key);
      t.status == Ok && t.next == s.(i := 5 * s.v[X(ins.data)] as int)
    ensures var d := s.v[X(ins.data)];
      d < 16 ==> Initial(rom).mem[5 * d .. 5 * d + 5] == Font[5 * d .. 5 * d + 5]
    ensures s.v[X(ins.data)] >= 16 ==> 5 * s.v[X(ins.data)] >= |Font|
  {
    var d := s.v[X(ins.data)];
    if d < 16 {
      InitialLayout(rom);
    }
  }

  /** FX33 worked through: 195 gives 1, 9, 5 and 7 gives 0, 0, 7. */
  lemma DigitsExamples()
    ensures Digits(195) == (1, 9, 5) && Digits(7) == (0, 0, 7) && Digits(255) == (2, 5, 5)
  {
  }

  /** The three digits are the decimal digits: any digits < 10 that spell `b` are them. */
  lemma {:induction false} DigitsAreDecimal(b: u8, d0: int, d1: int, d2: int)
    requires 0 <= d0 < 10 && 0 <= d1 < 10 && 0 <= d2 < 10 && 100 * d0 + 10 * d1 + d2 == b
    ensures Digits(b) == (d0, d1, d2)
  {
    var d := Digits(b);
    assert d0 == b / 100 && d.0 == b / 100;
    assert 10 * d1 + d2 == 10 * d.1 + d.2;
    assert d1 == (10 * d1 + d2) / 10;
  }

  /** FX33 writes exactly the three digit bytes at I, I + 1, I + 2. */
  lemma BcdFrame(s: State, x: u8)
    requires WellFormed(s) && x < 16 && s.i + 2 < MemSize
    ensures var t := BcdStored(s, x);
      t.(mem := s.mem) == s &&
      100 * t.mem[s.i] + 10 * t.mem[s.i + 1] + t.mem[s.i + 2] == s.v[x] &&
      t.mem[s.i] < 10 && t.mem[s.i + 1] < 10 && t.mem[s.i + 2] < 10 &&
      forall a | 0 <= a < MemSize && !(s.i <= a <= s.i + 2) :: t.mem[a] == s.mem[a]
  {
  }

  /**
   * FX55 then FX65 in any state whose bytes at I..I + x are those FX55 wrote, with
   * the same I: V0..Vx are restored, the other registers keep the values they have.
   */
  lemma {:induction false} StoreThenLoadRegisters(s: State, t: State, x: u8)
    requires WellFormed(s) && WellFormed(t) && x < 16 && s.i + x < MemSize && t.i == s.i
    requires t.mem[s.i .. s.i + x + 1] == RegsStored(s, x).mem[s.i .. s.i + x + 1]
    ensures RegsLoaded(t, x).v[.. x + 1] == s.v[.. x + 1]
    ensures RegsLoaded(t, x).v[x + 1 ..] == t.v[x + 1 ..]
    ensures RegsLoaded(t, x).(v := t.v) == t
  {
    var r, stored := RegsLoaded(t, x), RegsStored(s, x);
    forall j | 0 <= j <= x ensures r.v[j] == s.v[j] {
      assert r.v[j] == t.mem[s.i + j] == t.mem[s.i .. s.i + x + 1][j];
      assert stored.mem[s.i .. s.i + x + 1][j] == stored.mem[s.i + j] == s.v[j];
    }
  }

  /** FX65 right after FX55 changes nothing: the registers already hold those bytes. */
  lemma {:induction false} LoadAfterStoreIsIdentity(s: State, x: u8)
    requires WellFormed(s) && x < 16 && s.i + x < MemSize
    ensures RegsLoaded(RegsStored(s, x), x) == RegsStored(s, x)
    ensures RegsStored(s, x).i == s.i && RegsLoaded(s, x).i == s.i
  {
    var t := RegsStored(s, x);
    assert RegsLoaded(t, x).v == s.v;
  }

  /** FX55 stores V0..Vx at I.. and leaves the rest of memory and I unchanged. */
  lemma StoreRegistersFrame(s: State, x: u8)
    requires WellFormed(s) && x < 16 && s.i + x < MemSize
    ensures var t := RegsStored(s, x);
      t.(mem := s.mem) == s &&
      (forall j | 0 <= j <= x :: t.mem[s.i + j] == s.v[j]) &&
      (forall a | 0 <= a < MemSize && !(s.i <= a <= s.i + x) :: t.mem[a] == s.mem[a])
  {
  }

  // ---------------------------------------------------------------------------
  // Timers
  // ---------------------------------------------------------------------------

  function Sat(a: int): nat { if a > 0 then a else 0 }

  /** `k` ticks take each timer down by `k`, stopping at zero, and touch nothing else. */
  lemma {:induction false} TicksSaturate(s: State, k: nat)
    ensures TickedTimes(s, k).dt == Sat(s.dt - k)
    ensures TickedTimes(s, k).st == Sat(s.st - k)
    ensures TickedTimes(s, k).(dt := s.dt, st := s.st) == s
  {
    if k > 0 {
      TicksSaturate(s, k - 1);
    }
  }

  // ---------------------------------------------------------------------------
  // NewChip
  // ---------------------------------------------------------------------------

  /** Go's `copy`, element by element. */
  lemma {:induction false} CopyBytesAt(dst: seq<u8>, base: nat, src: seq<u8>)
    requires base <= |dst|
    ensures forall a | 0 <= a < |dst| ::
      CopyBytes(dst, base, src)[a] ==
        if base <= a < base + Min(|dst| - base, |src|) then src[a - base] else dst[a]
  {
    var count := Min(|dst| - base, |src|);
    var r := CopyBytes(dst, base, src);
    assert r == dst[..base] + src[..count] + dst[base + count..];
    forall a | 0 <= a < |dst|
      ensures r[a] == if base <= a < base + count then src[a - base] else dst[a]
    {
      if a < base {
        assert r[a] == dst[..base][a];
      } else if a < base + count {
        assert r[a] == src[..count][a - base];
      } else {
        assert r[a] == dst[base + count..][a - base - count];
      }
    }
  }

  /** The font bytes of `NewChip(rom)`: the font at 0..79. */
  lemma {:induction false} InitialFont(rom: seq<u8>)
    ensures forall a | 0 <= a < |Font| :: Initial(rom).mem[a] == Font[a]
  {
    var zero: seq<u8> := seq(MemSize, _ => 0);
    var withFont := CopyBytes(zero, FontBase, Font);
    CopyBytesAt(zero, FontBase, Font);
    CopyBytesAt(withFont, StartAddr, rom);
    forall a | 0 <= a < |Font| ensures Initial(rom).mem[a] == Font[a] {
      assert Initial(rom).mem[a] == withFont[a];
    }
  }

  /** The ROM bytes of `NewChip(rom)`: the ROM from 0x200 on, as much of it as fits. */
  lemma {:induction false} InitialRom(rom: seq<u8>)
    ensures forall a | StartAddr <= a < StartAddr + Min(|rom|, MemSize - StartAddr) ::
      Initial(rom).mem[a] == rom[a - StartAddr]
  {
    var zero: seq<u8> := seq(MemSize, _ => 0);
    CopyBytesAt(CopyBytes(zero, FontBase, Font), StartAddr, rom);
  }

  /** The other bytes of `NewChip(rom)` are zero. */
  lemma {:induction false} InitialZeros(rom: seq<u8>)
    ensures forall a | |Font| <= a < StartAddr || StartAddr + |rom| <= a < MemSize :: Initial(rom).mem[a] == 0
  {
    var zero: seq<u8> := seq(MemSize, _ => 0);
    var withFont := CopyBytes(zero, FontBase, Font);
    CopyBytesAt(zero, FontBase, Font);
    CopyBytesAt(withFont, StartAddr, rom);
    forall a | |Font| <= a < StartAddr || StartAddr + |rom| <= a < MemSize ensures Initial(rom).mem[a] == 0 {
      assert Initial(rom).mem[a] == withFont[a] == zero[a];
    }
  }

  /**
   * `NewChip(rom)` memory: the font at 0..79, the ROM from 0x200 on (as much of it as
   * fits), zeros elsewhere.
   */
  lemma {:induction false} InitialLayout(rom: seq<u8>)
    ensures var s := Initial(rom);
      (forall a | 0 <= a < |Font| :: s.mem[a] == Font[a]) &&
      (forall a | StartAddr <= a < StartAddr + Min(|rom|, MemSize - StartAddr) :: s.mem[a] == rom[a - StartAddr]) &&
      (forall a | |Font| <= a < StartAddr || StartAddr + |rom| <= a < MemSize :: s.mem[a] == 0)
  {
    InitialFont(rom);
    InitialRom(rom);
    InitialZeros(rom);
  }

  /**
   * `NewChip(rom)` registers: pc and sp at 0x200, everything else zero, a blank
   * screen and a redraw requested.
   */
  lemma InitialRegisters(rom: seq<u8>)
    ensures var s := Initial(rom);
      s.pc == 0x200 && s.sp == 0x200 && s.i == 0 && s.dt == 0 && s.st == 0 && s.redraw &&
      (forall j | 0 <= j < 16 :: s.v[j] == 0) &&
      (forall r, c | 0 <= r < ScreenHeight && 0 <= c < ScreenWidth :: !s.screen[r][c])
  {
  }

  // ---------------------------------------------------------------------------
  // What each instruction may touch
  // ---------------------------------------------------------------------------

  /**
   * Only 00E0 and DXYN change the screen; only 2NNN, FX33 and FX55 change memory;
   * only FX15 and FX18 change the timers.
   */
  lemma ExecFrame(s: State, ins: Instruction, rnd: u8, key: u8)
    requires WellFormed(s) && ExecSafe(s, ins)
    ensures var t := Exec(s, ins, rnd, key).next;
      (t.screen != s.screen ==> ins.kind in {Cls, DrwVxVyN}) &&
      (t.mem != s.mem ==> ins.kind in {CallNnn, LdBVx, LdIVx}) &&
      (t.dt != s.dt ==> ins.kind == LdDtVx) &&
      (t.st != s.st ==> ins.kind == LdStVx)
  {
    if ins.kind != Jmp && ins.kind != Invalid {
      assert Exec(s, ins, rnd, key).next == Effect(s, ins, rnd, key);
    }
  }

  /**
   * `redraw` is set by `NewChip` and no instruction clears it: only `Draw`, which
   * is not part of this model, does.
   */
  lemma RedrawNeverCleared(rom: seq<u8>, s: State, ins: Instruction, rnd: u8, key: u8)
    requires WellFormed(s) && ExecSafe(s, ins)
    ensures Initial(rom).redraw
    ensures s.redraw ==> Exec(s, ins, rnd, key).next.redraw
  {
  }
}
