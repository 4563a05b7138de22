/** Suspending and resuming an instruction stream by pushing, swapping the stack pointer and popping. */
module ContextSwitch {
  /** 64-bit words by address; what was never written reads as 0. */
  type Memory = map<nat, nat>

  function Read(m: Memory, a: nat): nat {
    if a in m then m[a] else 0
  }

  /** The stack pointer, where execution goes on, and the callee-saved registers. */
  datatype Cpu = Cpu(rsp: nat, rip: nat, rbp: nat, rbx: nat, r12: nat, r13: nat, r14: nat, r15: nat)

  /** A suspended context: six registers and a return address. */
  const FRAME_SIZE: nat := 56

  /** What a suspended stack pointer stands for: the state its frame will be popped into. */
  function Load(m: Memory, s: nat): Cpu {
    Cpu(s + FRAME_SIZE, Read(m, s + 48), Read(m, s + 40), Read(m, s + 32), Read(m, s + 24), Read(m, s + 16),
        Read(m, s + 8), Read(m, s))
  }

  /** The memory after `call switch_to` and its six pushes. */
  function Save(m: Memory, c: Cpu): Memory
    requires c.rsp >= FRAME_SIZE
  {
    var s := c.rsp - FRAME_SIZE;
    m[s + 48 := c.rip][s + 40 := c.rbp][s + 32 := c.rbx][s + 24 := c.r12][s + 16 := c.r13][s + 8 := c.r14][s := c.r15]
  }

  /** Nothing differs outside the bytes from `low` up to `high`. */
  ghost predicate SameOutside(m: Memory, n: Memory, low: nat, high: nat) {
    forall a: nat | !(low <= a < high) :: Read(m, a) == Read(n, a)
  }

  /** The seven words of the frame at `s` are the same. */
  ghost predicate FrameKept(m: Memory, n: Memory, s: nat) {
    forall j: nat | j < 7 :: Read(m, s + 8 * j) == Read(n, s + 8 * j)
  }

  lemma FrameKeptMeansSameLoad(m: Memory, n: Memory, s: nat)
    ensures FrameKept(m, n, s) <==> Load(m, s) == Load(n, s)
  {
    forall j: nat | j < 7 && Load(m, s) == Load(n, s) ensures Read(m, s + 8 * j) == Read(n, s + 8 * j) {
      assert j == 0 || j == 1 || j == 2 || j == 3 || j == 4 || j == 5 || j == 6;
    }
    if FrameKept(m, n, s) {
      assert Read(m, s + 8 * 0) == Read(n, s + 8 * 0) && Read(m, s + 8 * 1) == Read(n, s + 8 * 1)
        && Read(m, s + 8 * 2) == Read(n, s + 8 * 2) && Read(m, s + 8 * 3) == Read(n, s + 8 * 3)
        && Read(m, s + 8 * 4) == Read(n, s + 8 * 4) && Read(m, s + 8 * 5) == Read(n, s + 8 * 5)
        && Read(m, s + 8 * 6) == Read(n, s + 8 * 6);
    }
  }

  lemma SameOutsideKeepsFrame(m: Memory, n: Memory, low: nat, high: nat, s: nat)
    requires SameOutside(m, n, low, high) && (s + FRAME_SIZE <= low || high <= s)
    ensures Load(n, s) == Load(m, s)
  {
  }

  /** A suspended context is popped back exactly, as long as its frame is left alone. */
  lemma SaveThenLoad(m: Memory, c: Cpu, later: Memory)
    requires c.rsp >= FRAME_SIZE
    ensures SameOutside(m, Save(m, c), c.rsp - FRAME_SIZE, c.rsp)
    ensures Load(later, c.rsp - FRAME_SIZE) == c <==> FrameKept(Save(m, c), later, c.rsp - FRAME_SIZE)
  {
    FrameKeptMeansSameLoad(Save(m, c), later, c.rsp - FRAME_SIZE);
  }

  /** The words of a frame, from the return address down: rbp, rbx, r12 to r15. */
  lemma SavedWords(m: Memory, c: Cpu)
    requires c.rsp >= 56
    ensures Read(Save(m, c), c.rsp - 8) == c.rip
    ensures Read(Save(m, c), c.rsp - 16) == c.rbp && Read(Save(m, c), c.rsp - 24) == c.rbx
    ensures Read(Save(m, c), c.rsp - 32) == c.r12 && Read(Save(m, c), c.rsp - 40) == c.r13
    ensures Read(Save(m, c), c.rsp - 48) == c.r14 && Read(Save(m, c), c.rsp - 56) == c.r15
    ensures SameOutside(m, Save(m, c), c.rsp - 56, c.rsp)
  {
  }

  // --------------------------------------------------------- a task's first stack

  /** The highest multiple of 16 in the buffer, less the 8 bytes a call would have pushed. */
  function FirstTop(base: nat, length: nat): nat
    requires length >= 8 + 15
  {
    base + length - (base + length) % 16 - 8
  }

  /** Where a fresh task starts: in the trampoline, with the entry point in r15. */
  function FreshCpu(base: nat, length: nat, entry: nat, trampoline: nat): Cpu
    requires length >= 8 + 15
  {
    Cpu(FirstTop(base, length), trampoline, 0, 0, 0, 0, 0, entry)
  }

  /** The stack has room for the seven words however its end is aligned. */
  const MIN_STACK: nat := FRAME_SIZE + 8 + 15

  function InitStack(m: Memory, base: nat, length: nat, entry: nat, trampoline: nat): Memory
    requires length >= MIN_STACK
  {
    Save(m, FreshCpu(base, length, entry, trampoline))
  }

  /** `sti` and the jump to r15. */
  function Trampoline(c: Cpu): Cpu {
    c.(rip := c.r15)
  }

  /**
   The frame lies inside the buffer; switching to it enters the trampoline and from there
   the entry point, with the stack aligned as after a real call.
   */
  lemma FreshTaskStarts(m: Memory, base: nat, length: nat, entry: nat, trampoline: nat)
    requires length >= MIN_STACK
    ensures var n := InitStack(m, base, length, entry, trampoline);
      var s := FirstTop(base, length) - FRAME_SIZE;
      var c := Load(n, s);
      && base <= s && s + FRAME_SIZE <= base + length && s % 8 == 0
      && FirstTop(base, length) + 8 <= base + length < FirstTop(base, length) + 8 + 16
      && SameOutside(m, n, s, s + FRAME_SIZE)
      && c == FreshCpu(base, length, entry, trampoline)
      && c.rsp % 16 == 8 && c.rip == trampoline && c.r15 == entry
      && Trampoline(c).rip == entry && Trampoline(c).rsp == c.rsp
  {
    var n := InitStack(m, base, length, entry, trampoline);
    SaveThenLoad(m, FreshCpu(base, length, entry, trampoline), n);
    assert FirstTop(base, length) % 16 == 8;
    assert (FirstTop(base, length) - FRAME_SIZE) % 8 == 0;
  }

  lemma FirstTopBounds(base: nat, length: nat)
    requires length >= MIN_STACK
    ensures var rsp := FirstTop(base, length) - FRAME_SIZE;
      base <= rsp && rsp % 16 == 0 && rsp + 64 <= base + length < rsp + 80
  {
    var end := base + length;
    assert end == 16 * (end / 16) + end % 16;
    assert FirstTop(base, length) - FRAME_SIZE == 16 * (end / 16 - 4);
  }

  /** The first frame, word by word, as high in the buffer as it can be 16-aligned. */
  lemma FirstFrameWords(m: Memory, base: nat, length: nat, entry: nat, trampoline: nat)
    requires length >= MIN_STACK
    ensures var n := InitStack(m, base, length, entry, trampoline);
      var rsp := FirstTop(base, length) - FRAME_SIZE;
      && base <= rsp && rsp % 16 == 0 && rsp + 64 <= base + length < rsp + 80
      && Read(n, rsp + 48) == trampoline && Read(n, rsp) == entry
      && (forall i | 1 <= i <= 5 :: Read(n, rsp + 8 * i) == 0)
      && SameOutside(m, n, rsp, rsp + 56)
  {
    hide SameOutside, Save, Read, FirstTop;
    FirstTopBounds(base, length);
    SavedWords(m, FreshCpu(base, length, entry, trampoline));
    var n := InitStack(m, base, length, entry, trampoline);
    var rsp := FirstTop(base, length) - FRAME_SIZE;
    assert Read(n, rsp + 8 * 1) == 0 && Read(n, rsp + 8 * 2) == 0 && Read(n, rsp + 8 * 3) == 0;
    assert Read(n, rsp + 8 * 4) == 0 && Read(n, rsp + 8 * 5) == 0;
  }

  // ------------------------------------------------------------- the processor

  class Processor {
    var cpu: Cpu
    var memory: Memory

    constructor (cpu: Cpu, memory: Memory)
      ensures this.cpu == cpu && this.memory == memory
    {
      this.cpu, this.memory := cpu, memory;
    }

    method Push(value: nat)
      requires cpu.rsp >= 8
      modifies this
      ensures cpu == old(cpu).(rsp := old(cpu.rsp) - 8)
      ensures memory == old(memory)[cpu.rsp := value]
    {
      cpu := cpu.(rsp := cpu.rsp - 8);
      memory := memory[cpu.rsp := value];
    }

    method Pop() returns (value: nat)
      modifies this`cpu
      ensures cpu == old(cpu).(rsp := old(cpu.rsp) + 8)
      ensures value == Read(memory, old(cpu.rsp))
    {
      value := Read(memory, cpu.rsp);
      cpu := cpu.(rsp := cpu.rsp + 8);
    }

    /** The call and the pushes. */
    method PushFrame()
      requires cpu.rsp >= FRAME_SIZE
      modifies this
      ensures memory == Save(old(memory), old(cpu))
      ensures cpu == old(cpu).(rsp := old(cpu.rsp) - FRAME_SIZE)
    {
      Push(cpu.rip);
      Push(cpu.rbp);
      Push(cpu.rbx);
      Push(cpu.r12);
      Push(cpu.r13);
      Push(cpu.r14);
      Push(cpu.r15);
    }

    /** The pops and the return. */
    method PopFrame()
      modifies this`cpu
      ensures cpu == Load(memory, old(cpu.rsp))
    {
      var r15 := Pop();
      var r14 := Pop();
      var r13 := Pop();
      var r12 := Pop();
      var rbx := Pop();
      var rbp := Pop();
      var rip := Pop();
      cpu := Cpu(cpu.rsp, rip, rbp, rbx, r12, r13, r14, r15);
    }

    method SwitchTo(nextRsp: nat) returns (savedRsp: nat)
      requires cpu.rsp >= FRAME_SIZE
      modifies this
      ensures savedRsp == old(cpu.rsp) - FRAME_SIZE
      ensures memory == Save(old(memory), old(cpu))
      ensures cpu == Load(memory, nextRsp)
      ensures Read(memory, old(cpu.rsp) - 8) == old(cpu.rip)
      ensures Read(memory, old(cpu.rsp) - 16) == old(cpu.rbp) && Read(memory, old(cpu.rsp) - 24) == old(cpu.rbx)
      ensures Read(memory, old(cpu.rsp) - 32) == old(cpu.r12) && Read(memory, old(cpu.rsp) - 40) == old(cpu.r13)
      ensures Read(memory, old(cpu.rsp) - 48) == old(cpu.r14) && Read(memory, old(cpu.rsp) - 56) == old(cpu.r15)
      ensures SameOutside(old(memory), memory, old(cpu.rsp) - 56, old(cpu.rsp))
      ensures cpu.rsp == nextRsp + 56 && cpu.rip == Read(memory, nextRsp + 48)
      ensures cpu.rbp == Read(memory, nextRsp + 40) && cpu.rbx == Read(memory, nextRsp + 32)
      ensures cpu.r12 == Read(memory, nextRsp + 24) && cpu.r13 == Read(memory, nextRsp + 16)
      ensures cpu.r14 == Read(memory, nextRsp + 8) && cpu.r15 == Read(memory, nextRsp)
    {
      hide Save, SameOutside;
      SavedWords(memory, cpu);
      PushFrame();
      savedRsp := cpu.rsp;
      cpu := cpu.(rsp := nextRsp);
      PopFrame();
    }

    static method TopOf(base: nat, length: nat) returns (stackTop: nat)
      requires length >= MIN_STACK
      ensures stackTop == FirstTop(base, length)
    {
      var top16 := base + length - (base + length) % 16;
      stackTop := top16 - 8;
    }

    /** Writes the seven words from the top of the buffer down. */
    method WriteFirstFrame(base: nat, length: nat, entry: nat, trampoline: nat) returns (rsp: nat)
      requires length >= MIN_STACK
      modifies this`memory
      ensures memory == InitStack(old(memory), base, length, entry, trampoline)
      ensures rsp == FirstTop(base, length) - FRAME_SIZE
      ensures base <= rsp && rsp % 16 == 0 && rsp + 64 <= base + length < rsp + 80
      ensures Read(memory, rsp + 48) == trampoline && Read(memory, rsp) == entry
      ensures forall i | 1 <= i <= 5 :: Read(memory, rsp + 8 * i) == 0
      ensures SameOutside(old(memory), memory, rsp, rsp + 56)
    {
      hide SameOutside, Read, FirstTop;
      FirstFrameWords(memory, base, length, entry, trampoline);
      var sp := TopOf(base, length);
      sp := sp - 8;
      memory := memory[sp := trampoline];
      sp := sp - 8;
      memory := memory[sp := 0];
      sp := sp - 8;
      memory := memory[sp := 0];
      sp := sp - 8;
      memory := memory[sp := 0];
      sp := sp - 8;
      memory := memory[sp := 0];
      sp := sp - 8;
      memory := memory[sp := 0];
      sp := sp - 8;
      memory := memory[sp := entry];
      rsp := sp;
    }
  }
}
