/** Preemptive multitasking: timer ticks, spawns, exits and ordinary running, as transitions of one kernel state. */
module Kernel {
  import opened Results
  import opened ContextSwitch
  import opened TaskStack
  import opened RunQueues
  import opened Fairness

  const BOOT_PID: nat := 0xffff_ffff_ffff_ffff
  const SWITCH_TICK_BUDGET: nat := 400

  datatype Slot = Slot(pid: Option<nat>, rsp: nat, addressSpace: Option<nat>)

  function EmptySlots(): seq<Slot> {
    seq(MAX_SLOTS, _ => Slot(None, 0, None))
  }

  /** Fixed addresses: the boot flow's stack, and the code a fresh task starts in. */
  datatype Layout = Layout(bootLow: nat, bootHigh: nat, trampoline: nat)

  datatype Kernel = Kernel(
    layout: Layout,
    slots: seq<Slot>,
    bootRsp: nat,
    nextPid: nat,
    scheduler: Option<Queue>,
    current: nat,
    ticks: nat,
    defaultL4: Option<nat>,
    cr3: nat,
    cpu: Cpu,
    memory: Memory)

  /** The first slot whose pid field is `x`, or the number of slots. */
  function FirstWith(slots: seq<Slot>, x: Option<nat>): (i: nat)
    ensures i <= |slots| && (i < |slots| ==> slots[i].pid == x)
    ensures forall j | 0 <= j < i :: slots[j].pid != x
  {
    if slots == [] || slots[0].pid == x then 0 else 1 + FirstWith(slots[1..], x)
  }

  /** Where a suspended stack pointer is recorded. */
  datatype Place = BootContext | SlotContext(index: nat) | Discarded

  function ContextPtr(k: Kernel, pid: nat): (p: Place)
    ensures p.SlotContext? ==> p.index < |k.slots|
  {
    var i := FirstWith(k.slots, Some(pid));
    if pid == BOOT_PID || i == |k.slots| then BootContext else SlotContext(i)
  }

  function ContextRsp(k: Kernel, pid: nat): nat {
    var i := FirstWith(k.slots, Some(pid));
    if pid == BOOT_PID then k.bootRsp else if i == |k.slots| then 0 else k.slots[i].rsp
  }

  function DesiredL4(k: Kernel, pid: nat): Option<nat> {
    var i := FirstWith(k.slots, Some(pid));
    if pid == BOOT_PID || i == |k.slots| || k.slots[i].addressSpace.None? then k.defaultL4
    else k.slots[i].addressSpace
  }

  /** Makes `pid` current, in the address space it should have. */
  function Activate(k: Kernel, pid: nat): Kernel {
    k.(current := pid, cr3 := if DesiredL4(k, pid).Some? then DesiredL4(k, pid).value else k.cr3)
  }

  function SwitchTo(k: Kernel, save: Place, nextRsp: nat): Kernel
    requires k.cpu.rsp >= FRAME_SIZE && (save.SlotContext? ==> save.index < |k.slots|)
  {
    var s, m := k.cpu.rsp - FRAME_SIZE, Save(k.memory, k.cpu);
    var j := k.(memory := m, cpu := Load(m, nextRsp));
    match save
    case BootContext => j.(bootRsp := s)
    case SlotContext(i) => j.(slots := k.slots[i := k.slots[i].(rsp := s)])
    case Discarded => j
  }

  ghost function NextTask(q: Queue, tick: nat): nat {
    if tick > SWITCH_TICK_BUDGET then BOOT_PID
    else match Pick(q) case Some(p) => p case None => BOOT_PID
  }

  /** A timer tick: choose, charge whoever was running, and switch if the choice is another. */
  ghost function Tick(k: Kernel): Kernel
    requires k.cpu.rsp >= FRAME_SIZE
  {
    if k.scheduler.None? then k.(ticks := k.ticks + 1)
    else
      var q, prev := k.scheduler.value, k.current;
      var next := NextTask(q, k.ticks + 1);
      var charged := k.(ticks := k.ticks + 1, scheduler := Some(if prev != BOOT_PID then Charge(q, prev, 1) else q));
      if prev == next then charged
      else SwitchTo(Activate(charged, next), ContextPtr(charged, prev), ContextRsp(charged, next))
  }

  /** The first part of a spawn: a pid is taken, while ticks can still intervene. */
  function TakePid(k: Kernel): (Kernel, nat) {
    (k.(nextPid := k.nextPid + 1), k.nextPid)
  }

  /** The masked part of a spawn: a new task in the first free slot; the pid is used up even when there is none. */
  function Install(k: Kernel, pid: nat, entry: nat, space: Option<nat>): (Kernel, Option<nat>) {
    var i := FirstWith(k.slots, None);
    if i == |k.slots| then (k, None)
    else
      (k.(memory := InitStack(k.memory, StackBase(i), STACK_SIZE, entry, k.layout.trampoline),
          slots := k.slots[i := Slot(Some(pid), FirstTop(StackBase(i), STACK_SIZE) - FRAME_SIZE, space)],
          scheduler := match k.scheduler
                       case Some(q) => Some(Add(q, Process(pid, Normal, Ready, 0)))
                       case None => None),
       Some(pid))
  }

  /** A spawn that nothing interrupts. */
  function Spawn(k: Kernel, entry: nat, space: Option<nat>): (Kernel, Option<nat>) {
    var (j, pid) := TakePid(k);
    Install(j, pid, entry, space)
  }

  /** The running task leaves the queue and its slot, and never comes back. */
  ghost function Exit(k: Kernel): Kernel
    requires k.cpu.rsp >= FRAME_SIZE
  {
    var pid, i := k.current, FirstWith(k.slots, Some(k.current));
    var j := k.(scheduler := if k.scheduler.Some? then Some(Remove(k.scheduler.value, pid)) else None,
                slots := if i == |k.slots| then k.slots else k.slots[i := k.slots[i].(pid := None)]);
    var next := if j.scheduler.Some? then NextTask(j.scheduler.value, k.ticks) else BOOT_PID;
    SwitchTo(Activate(j, next), Discarded, ContextRsp(j, next))
  }

  // ------------------------------------------------------------------- runs

  /** `Execute` is the current context running, with whatever registers and memory it leaves. */
  datatype Event =
    | TimerTick
    | ReservePid
    | InstallTask(pid: nat, entry: nat, space: Option<nat>)
    | ExitTask
    | Execute(cpu: Cpu, memory: Memory)

  /**
   A kernel, and what an observer has noted: each context's state when it was last suspended
   (a fresh task counts as suspended at its start), the pids that spawns have taken and not
   installed yet, and the pids that exited.
   */
  datatype Observed = Observed(k: Kernel, suspended: map<nat, Cpu>, reserved: set<nat>, exited: set<nat>)

  /**
   What ordinary code may do: keep its stack pointer on its own stack, aligned, with room
   for a switch, and leave the words of the suspended frames alone.
   */
  ghost predicate CanExecute(k: Kernel, cpu: Cpu, memory: Memory) {
    && RunsOnItsStack(k, k.current, cpu.rsp)
    && (k.current != BOOT_PID ==> FrameKept(k.memory, memory, k.bootRsp))
    && (forall i | 0 <= i < |k.slots| && k.slots[i].pid.Some? && k.slots[i].pid != Some(k.current) ::
          FrameKept(k.memory, memory, k.slots[i].rsp))
  }

  ghost predicate CanHappen(o: Observed, e: Event) {
    match e
    case TimerTick => true
    case ReservePid => o.k.nextPid < BOOT_PID
    case InstallTask(pid, _, _) => pid in o.reserved
    case ExitTask => o.k.current != BOOT_PID
    case Execute(cpu, memory) => CanExecute(o.k, cpu, memory)
  }

  ghost function Perform(k: Kernel, e: Event): Kernel
    requires k.cpu.rsp >= FRAME_SIZE
  {
    match e
    case TimerTick => Tick(k)
    case ReservePid => TakePid(k).0
    case InstallTask(pid, entry, space) => Install(k, pid, entry, space).0
    case ExitTask => Exit(k)
    case Execute(cpu, memory) => k.(cpu := cpu, memory := memory)
  }

  ghost function Step(o: Observed, e: Event): Observed
    requires o.k.cpu.rsp >= FRAME_SIZE
  {
    var j := Perform(o.k, e);
    match e
    case TimerTick =>
      o.(k := j, suspended := if j.current != o.k.current then o.suspended[o.k.current := o.k.cpu] else o.suspended)
    case ReservePid => o.(k := j, reserved := o.reserved + {o.k.nextPid})
    case InstallTask(pid, entry, _) =>
      var i := FirstWith(o.k.slots, None);
      o.(k := j, reserved := o.reserved - {pid},
         suspended := if i == |o.k.slots| then o.suspended
                      else o.suspended[pid := FreshCpu(StackBase(i), STACK_SIZE, entry, o.k.layout.trampoline)])
    case ExitTask => o.(k := j, exited := o.exited + {o.k.current})
    case Execute(_, _) => o.(k := j)
  }

  // -------------------------------------------------------------- invariant

  function Pids(slots: seq<Slot>): set<nat> {
    set i | 0 <= i < |slots| && slots[i].pid.Some? :: slots[i].pid.value
  }

  predicate DistinctPids(slots: seq<Slot>) {
    forall i, j | 0 <= i < |slots| && 0 <= j < |slots| && slots[i].pid.Some? && slots[i].pid == slots[j].pid :: i == j
  }

  predicate OnStack(low: nat, high: nat, rsp: nat) {
    low + FRAME_SIZE <= rsp <= high && rsp % 8 == 0
  }

  /** `rsp` is on the stack of `pid`, with room for a frame below it. */
  ghost predicate RunsOnItsStack(k: Kernel, pid: nat, rsp: nat) {
    && (pid == BOOT_PID ==> OnStack(k.layout.bootLow, k.layout.bootHigh, rsp))
    && (forall i | 0 <= i < |k.slots| && k.slots[i].pid == Some(pid) :: OnStack(StackBase(i), StackTop(i), rsp))
  }

  /** A frame on this stack that will resume `p` where it was suspended. */
  ghost predicate Resumable(m: Memory, low: nat, high: nat, s: nat, suspended: map<nat, Cpu>, p: nat) {
    && OnStack(low, high, s + FRAME_SIZE)
    && p in suspended && Load(m, s) == suspended[p]
  }

  /** Every context but `running` is resumable. */
  ghost predicate AllResumable(k: Kernel, suspended: map<nat, Cpu>, running: Option<nat>) {
    && (running != Some(BOOT_PID) ==>
          Resumable(k.memory, k.layout.bootLow, k.layout.bootHigh, k.bootRsp, suspended, BOOT_PID))
    && (forall i | 0 <= i < |k.slots| && k.slots[i].pid.Some? && k.slots[i].pid != running ::
          Resumable(k.memory, StackBase(i), StackTop(i), k.slots[i].rsp, suspended, k.slots[i].pid.value))
  }

  /** The boot stack is outside the region of the task stacks. */
  predicate LayoutOk(layout: Layout) {
    layout.bootHigh <= REGION_BASE || StackTop(MAX_SLOTS - 1) <= layout.bootLow
  }

  /** Slots, queue and current pid fit together. */
  ghost predicate BooksOk(k: Kernel, reserved: set<nat>, exited: set<nat>) {
    && |k.slots| == MAX_SLOTS && LayoutOk(k.layout) && DistinctPids(k.slots)
    && k.scheduler.Some? && NormalOnly(k.scheduler.value) && k.scheduler.value.processes.Keys == Pids(k.slots)
    && (forall p | p in Pids(k.slots) || p in reserved || p in exited :: p < k.nextPid) && k.nextPid <= BOOT_PID
    && Pids(k.slots) !! reserved && Pids(k.slots) !! exited && reserved !! exited
    && (k.current == BOOT_PID || k.current in Pids(k.slots))
    && (k.ticks > SWITCH_TICK_BUDGET ==> k.current == BOOT_PID)
    && k.defaultL4.Some? && Some(k.cr3) == DesiredL4(k, k.current)
  }

  ghost predicate Inv(o: Observed) {
    && BooksOk(o.k, o.reserved, o.exited)
    && RunsOnItsStack(o.k, o.k.current, o.k.cpu.rsp)
    && AllResumable(o.k, o.suspended, Some(o.k.current))
  }

  /** What `find` finds when no two slots share a pid. */
  lemma FindPid(slots: seq<Slot>, p: nat)
    requires DistinctPids(slots)
    ensures p in Pids(slots) <==> FirstWith(slots, Some(p)) < |slots|
    ensures forall i | 0 <= i < |slots| :: slots[i].pid == Some(p) <==> i == FirstWith(slots, Some(p))
  {
    assert FirstWith(slots, Some(p)) < |slots| ==> slots[FirstWith(slots, Some(p))].pid == Some(p);
  }

  lemma SamePids(s: seq<Slot>, t: seq<Slot>)
    requires |s| == |t| && forall i | 0 <= i < |s| :: s[i].pid == t[i].pid
    ensures forall x :: FirstWith(s, x) == FirstWith(t, x)
    ensures Pids(s) == Pids(t)
    ensures DistinctPids(s) ==> DistinctPids(t)
  {
    forall x ensures FirstWith(s, x) == FirstWith(t, x) {
      var i, j := FirstWith(s, x), FirstWith(t, x);
      assert i < |s| ==> t[i].pid == x;
      assert j < |t| ==> s[j].pid == x;
    }
    forall p ensures p in Pids(s) <==> p in Pids(t) {
      if p in Pids(s) {
        var i :| 0 <= i < |s| && s[i].pid == Some(p);
        assert t[i].pid == Some(p);
      }
    }
  }

  /** No two contexts share a byte of stack. */
  lemma ContextStacksApart(layout: Layout)
    requires LayoutOk(layout)
    ensures forall i, j | 0 <= i < MAX_SLOTS && 0 <= j < MAX_SLOTS && i != j ::
              StackTop(i) <= StackBase(j) || StackTop(j) <= StackBase(i)
    ensures forall i | 0 <= i < MAX_SLOTS :: StackTop(i) <= layout.bootLow || layout.bootHigh <= StackBase(i)
  {
    hide StackBase, StackTop, GuardPage;
    forall i: nat, j: nat | i < j ensures StackTop(i) <= StackBase(j) {
      StacksApart(i, j);
    }
    forall i: nat | i < MAX_SLOTS ensures StackTop(i) <= StackTop(MAX_SLOTS - 1) && REGION_BASE <= StackBase(i) {
      StacksApart(i, MAX_SLOTS - 1);
    }
  }

  lemma KeepResumable(m: Memory, n: Memory, low: nat, high: nat, a: nat, b: nat, s: nat,
                      suspended: map<nat, Cpu>, p: nat)
    requires SameOutside(m, n, low, high) && (high <= a || b <= low)
    requires Resumable(m, a, b, s, suspended, p)
    ensures Resumable(n, a, b, s, suspended, p)
  {
    SameOutsideKeepsFrame(m, n, low, high, s);
  }

  ghost predicate SlotsOk(k: Kernel) {
    && |k.slots| == MAX_SLOTS && LayoutOk(k.layout) && DistinctPids(k.slots)
    && forall p | p in Pids(k.slots) :: p < BOOT_PID
  }

  /** Saving context `p` where its pid says leaves every context resumable, `p` at what was saved. */
  lemma SuspendKeepsResumable(k: Kernel, p: nat, nextRsp: nat, suspended: map<nat, Cpu>)
    requires SlotsOk(k) && (p == BOOT_PID || p in Pids(k.slots))
    requires RunsOnItsStack(k, p, k.cpu.rsp) && k.cpu.rsp >= FRAME_SIZE
    requires AllResumable(k, suspended, Some(p))
    ensures AllResumable(SwitchTo(k, ContextPtr(k, p), nextRsp), suspended[p := k.cpu], None)
  {
    hide DistinctPids, Pids, FirstWith, Save, Load, StackBase, GuardPage, SameOutside;
    ContextStacksApart(k.layout);
    FindPid(k.slots, p);
    var s, m := k.cpu.rsp - FRAME_SIZE, Save(k.memory, k.cpu);
    SaveThenLoad(k.memory, k.cpu, m);
    assert FrameKept(m, m, s);
    var j := SwitchTo(k, ContextPtr(k, p), nextRsp);
    var t := suspended[p := k.cpu];
    if p != BOOT_PID {
      KeepResumable(k.memory, m, s, k.cpu.rsp, k.layout.bootLow, k.layout.bootHigh, k.bootRsp, suspended, BOOT_PID);
    }
    forall i | 0 <= i < |j.slots| && j.slots[i].pid.Some?
      ensures Resumable(j.memory, StackBase(i), StackTop(i), j.slots[i].rsp, t, j.slots[i].pid.value)
    {
      if j.slots[i].pid != Some(p) {
        KeepResumable(k.memory, m, s, k.cpu.rsp, StackBase(i), StackTop(i), k.slots[i].rsp, suspended,
                      k.slots[i].pid.value);
      }
    }
  }

  lemma ResumeSuspended(k: Kernel, suspended: map<nat, Cpu>, p: nat)
    requires SlotsOk(k) && (p == BOOT_PID || p in Pids(k.slots))
    requires AllResumable(k, suspended, None)
    ensures var s := ContextRsp(k, p);
      p in suspended && Load(k.memory, s) == suspended[p] && RunsOnItsStack(k, p, s + FRAME_SIZE)
  {
    hide Load, StackBase, GuardPage;
    FindPid(k.slots, p);
  }

  lemma RspOfOthers(k: Kernel, p: nat, q: nat, nextRsp: nat)
    requires SlotsOk(k) && k.cpu.rsp >= FRAME_SIZE && p != q
    requires (p == BOOT_PID || p in Pids(k.slots)) && (q == BOOT_PID || q in Pids(k.slots))
    ensures ContextRsp(SwitchTo(k, ContextPtr(k, p), nextRsp), q) == ContextRsp(k, q)
  {
    hide Load, Save;
    FindPid(k.slots, p);
    FindPid(k.slots, q);
    SamePids(k.slots, SwitchTo(k, ContextPtr(k, p), nextRsp).slots);
  }

  /** Switching from `p` to `q` restores `q` exactly, and leaves every other context resumable. */
  lemma SwitchIsExact(k: Kernel, p: nat, q: nat, suspended: map<nat, Cpu>)
    requires SlotsOk(k) && p != q
    requires (p == BOOT_PID || p in Pids(k.slots)) && (q == BOOT_PID || q in Pids(k.slots))
    requires RunsOnItsStack(k, p, k.cpu.rsp) && k.cpu.rsp >= FRAME_SIZE
    requires AllResumable(k, suspended, Some(p))
    ensures var j := SwitchTo(k, ContextPtr(k, p), ContextRsp(k, q));
      && q in suspended && j.cpu == suspended[q] && RunsOnItsStack(j, q, j.cpu.rsp)
      && AllResumable(j, suspended[p := k.cpu], Some(q))
  {
    hide Pids, Save, StackBase, GuardPage, Resumable, DistinctPids;
    var j := SwitchTo(k, ContextPtr(k, p), ContextRsp(k, q));
    SuspendKeepsResumable(k, p, ContextRsp(k, q), suspended);
    RspOfOthers(k, p, q, ContextRsp(k, q));
    SamePids(k.slots, j.slots);
    ResumeSuspended(j, suspended[p := k.cpu], q);
  }

  lemma ClearPid(slots: seq<Slot>, p: nat)
    requires DistinctPids(slots) && p in Pids(slots)
    ensures var i := FirstWith(slots, Some(p));
      && i < |slots|
      && var t := slots[i := slots[i].(pid := None)];
         && DistinctPids(t) && Pids(t) == Pids(slots) - {p}
         && forall q | q != p :: FirstWith(t, Some(q)) == FirstWith(slots, Some(q))
  {
    FindPid(slots, p);
    var i := FirstWith(slots, Some(p));
    var t := slots[i := slots[i].(pid := None)];
    forall q ensures q in Pids(t) <==> q in Pids(slots) && q != p {
      if q in Pids(slots) && q != p {
        var j :| 0 <= j < |slots| && slots[j].pid == Some(q);
        assert t[j].pid == Some(q);
      }
    }
    forall q | q != p ensures FirstWith(t, Some(q)) == FirstWith(slots, Some(q)) {
      FindPid(slots, q);
      FindPid(t, q);
      var j := FirstWith(slots, Some(q));
      assert j < |slots| ==> t[j].pid == Some(q);
    }
  }

  /** Leaving `p` for good: its frame goes nowhere, and every other context stays resumable. */
  lemma AbandonIsExact(k: Kernel, p: nat, c: Kernel, q: nat, suspended: map<nat, Cpu>)
    requires SlotsOk(k) && p in Pids(k.slots) && p != BOOT_PID && p != q
    requires RunsOnItsStack(k, p, k.cpu.rsp) && k.cpu.rsp >= FRAME_SIZE
    requires AllResumable(k, suspended, Some(p))
    requires FirstWith(k.slots, Some(p)) < |k.slots|
    requires var i := FirstWith(k.slots, Some(p)); c.slots == k.slots[i := k.slots[i].(pid := None)]
    requires (c.layout, c.bootRsp, c.cpu, c.memory) == (k.layout, k.bootRsp, k.cpu, k.memory)
    requires q == BOOT_PID || q in Pids(c.slots)
    ensures var j := SwitchTo(c, Discarded, ContextRsp(c, q));
      q in suspended && j.cpu == suspended[q] && RunsOnItsStack(j, q, j.cpu.rsp) && AllResumable(j, suspended, Some(q))
  {
    hide Pids, Save, StackBase, GuardPage, SameOutside, DistinctPids, FirstWith;
    ClearPid(k.slots, p);
    FindPid(k.slots, p);
    ContextStacksApart(k.layout);
    var j := SwitchTo(c, Discarded, ContextRsp(c, q));
    var s := k.cpu.rsp - FRAME_SIZE;
    SaveThenLoad(k.memory, k.cpu, j.memory);
    KeepResumable(k.memory, j.memory, s, k.cpu.rsp, k.layout.bootLow, k.layout.bootHigh, k.bootRsp, suspended,
                  BOOT_PID);
    forall i | 0 <= i < |j.slots| && j.slots[i].pid.Some?
      ensures Resumable(j.memory, StackBase(i), StackTop(i), j.slots[i].rsp, suspended, j.slots[i].pid.value)
    {
      KeepResumable(k.memory, j.memory, s, k.cpu.rsp, StackBase(i), StackTop(i), k.slots[i].rsp, suspended,
                    k.slots[i].pid.value);
    }
    ResumeSuspended(j, suspended, q);
  }

  // ---------------------------------------------------------- the bookkeeping

  lemma NextIsContext(q: Queue, tick: nat)
    requires NormalOnly(q)
    ensures NextTask(q, tick) == BOOT_PID || NextTask(q, tick) in q.processes
    ensures tick <= SWITCH_TICK_BUDGET && q.processes != map[] ==>
              Pick(q).Some? && NextTask(q, tick) in q.processes && Pick(q) == Some(NextTask(q, tick))
    ensures tick > SWITCH_TICK_BUDGET || q.processes == map[] ==> NextTask(q, tick) == BOOT_PID
  {
    if q.processes != map[] {
      PickIsLeast(q);
    } else {
      PickIsScan(q);
    }
  }

  lemma SwitchKeepsSlotData(k: Kernel, save: Place, nextRsp: nat, p: nat)
    requires k.cpu.rsp >= FRAME_SIZE && (save.SlotContext? ==> save.index < |k.slots|) && DistinctPids(k.slots)
    ensures var j := SwitchTo(k, save, nextRsp);
      DistinctPids(j.slots) && Pids(j.slots) == Pids(k.slots) && DesiredL4(j, p) == DesiredL4(k, p)
  {
    hide Save, Load;
    SamePids(k.slots, SwitchTo(k, save, nextRsp).slots);
  }

  lemma ChargeKeepsNormal(q: Queue, p: nat)
    requires NormalOnly(q)
    ensures NormalOnly(Charge(q, p, 1)) && Charge(q, p, 1).processes.Keys == q.processes.Keys
  {
    if p in q.processes {
      ChargeEffect(q, p, 1);
    }
  }

  lemma TickKeepsBooks(k: Kernel, reserved: set<nat>, exited: set<nat>)
    requires BooksOk(k, reserved, exited) && k.cpu.rsp >= FRAME_SIZE
    ensures BooksOk(Tick(k), reserved, exited)
  {
    hide NormalOnly, Pids, DistinctPids, LayoutOk, Charge, Pick, Save, Load, NextTask, FirstWith;
    var q := k.scheduler.value;
    NextIsContext(q, k.ticks + 1);
    ChargeKeepsNormal(q, k.current);
    var next := NextTask(q, k.ticks + 1);
    if k.current != next {
      var r := if k.current != BOOT_PID then Charge(q, k.current, 1) else q;
      var charged := k.(ticks := k.ticks + 1, scheduler := Some(r));
      SwitchKeepsSlotData(Activate(charged, next), ContextPtr(charged, k.current), ContextRsp(charged, next), next);
    }
  }

  lemma FillSlot(slots: seq<Slot>, s: Slot)
    requires DistinctPids(slots) && s.pid.Some? && s.pid.value !in Pids(slots) && FirstWith(slots, None) < |slots|
    ensures var t := slots[FirstWith(slots, None) := s];
      && DistinctPids(t) && Pids(t) == Pids(slots) + {s.pid.value}
      && FirstWith(t, s.pid) == FirstWith(slots, None)
      && forall p | p != s.pid.value :: FirstWith(t, Some(p)) == FirstWith(slots, Some(p))
  {
    var i := FirstWith(slots, None);
    var t := slots[i := s];
    assert forall j | 0 <= j < |slots| && slots[j].pid.Some? :: slots[j].pid.value in Pids(slots);
    forall q ensures q in Pids(t) <==> q in Pids(slots) || q == s.pid.value {
      if q in Pids(slots) {
        var j :| 0 <= j < |slots| && slots[j].pid == Some(q);
        assert t[j].pid == Some(q);
      }
      if q == s.pid.value {
        assert t[i].pid == Some(q);
      }
    }
    FindPid(t, s.pid.value);
    forall p | p != s.pid.value ensures FirstWith(t, Some(p)) == FirstWith(slots, Some(p)) {
      FindPid(slots, p);
      FindPid(t, p);
      var j := FirstWith(slots, Some(p));
      assert j < |slots| ==> t[j].pid == Some(p);
    }
  }

  lemma AddKeepsNormal(q: Queue, pid: nat)
    requires NormalOnly(q) && pid !in q.processes
    ensures var r := Add(q, Process(pid, Normal, Ready, 0));
      NormalOnly(r) && r.processes.Keys == q.processes.Keys + {pid}
  {
    AddAgreesIff(q, Process(pid, Normal, Ready, 0));
  }

  lemma TakePidKeepsBooks(k: Kernel, reserved: set<nat>, exited: set<nat>)
    requires BooksOk(k, reserved, exited) && k.nextPid < BOOT_PID
    ensures var (j, pid) := TakePid(k);
      BooksOk(j, reserved + {pid}, exited) && pid !in reserved && pid !in Pids(k.slots) && pid !in exited
  {
    hide NormalOnly, Pids, DistinctPids, LayoutOk, FirstWith;
  }

  lemma InstallKeepsBooks(k: Kernel, reserved: set<nat>, exited: set<nat>, pid: nat, entry: nat, space: Option<nat>)
    requires BooksOk(k, reserved, exited) && pid in reserved
    ensures BooksOk(Install(k, pid, entry, space).0, reserved - {pid}, exited)
  {
    hide NormalOnly, Pids, DistinctPids, LayoutOk, Add, InitStack, FirstWith;
    var i := FirstWith(k.slots, None);
    if i < |k.slots| {
      FillSlot(k.slots, Slot(Some(pid), FirstTop(StackBase(i), STACK_SIZE) - FRAME_SIZE, space));
      AddKeepsNormal(k.scheduler.value, pid);
    }
  }

  lemma RemoveKeepsNormal(q: Queue, pid: nat)
    requires NormalOnly(q)
    ensures NormalOnly(Remove(q, pid)) && Remove(q, pid).processes.Keys == q.processes.Keys - {pid}
  {
    RemoveAgrees(q, pid);
  }

  lemma ExitKeepsBooks(k: Kernel, reserved: set<nat>, exited: set<nat>)
    requires BooksOk(k, reserved, exited) && k.cpu.rsp >= FRAME_SIZE && k.current != BOOT_PID
    ensures BooksOk(Exit(k), reserved, exited + {k.current}) && Exit(k).current != k.current
  {
    hide NormalOnly, Pids, DistinctPids, LayoutOk, Remove, Pick, Save, Load, NextTask, FirstWith;
    var q, pid, i := k.scheduler.value, k.current, FirstWith(k.slots, Some(k.current));
    ClearPid(k.slots, pid);
    RemoveKeepsNormal(q, pid);
    var r := Remove(q, pid);
    NextIsContext(r, k.ticks);
    var j := k.(scheduler := Some(r), slots := k.slots[i := k.slots[i].(pid := None)]);
    var next := NextTask(r, k.ticks);
    SwitchKeepsSlotData(Activate(j, next), Discarded, ContextRsp(j, next), next);
  }

  lemma BooksGiveSlots(k: Kernel, reserved: set<nat>, exited: set<nat>)
    requires BooksOk(k, reserved, exited)
    ensures SlotsOk(k) && (k.current == BOOT_PID || k.current in Pids(k.slots))
  {
  }

  // ------------------------------------------- what the transitions come down to

  /** The slots hold the same pids and address spaces; only saved stack pointers may differ. */
  ghost predicate SameOccupants(s: seq<Slot>, t: seq<Slot>) {
    |s| == |t| && forall i | 0 <= i < |s| :: s[i].pid == t[i].pid && s[i].addressSpace == t[i].addressSpace
  }

  /**
   Every tick is counted, with a run queue or without, before and after the budget.  With one,
   whoever was running is charged 1 and nobody else is; the choice was made before that, and
   is the boot flow once the budget is spent or nobody is queued.
   */
  lemma TickExactly(k: Kernel)
    requires k.cpu.rsp >= FRAME_SIZE
    ensures var j := Tick(k);
      && j.ticks == k.ticks + 1
      && (j.layout, j.nextPid, j.defaultL4) == (k.layout, k.nextPid, k.defaultL4) && SameOccupants(k.slots, j.slots)
      && (k.scheduler.None? ==> j == k.(ticks := k.ticks + 1))
      && (k.scheduler.Some? ==>
            && j.scheduler.Some?
            && j.current == (if k.ticks < 400 && Pick(k.scheduler.value).Some? then Pick(k.scheduler.value).value
                             else 0xffff_ffff_ffff_ffff)
            && (j.current == k.current ==> j == k.(ticks := k.ticks + 1, scheduler := j.scheduler))
            && var before, after := k.scheduler.value.processes, j.scheduler.value.processes;
               && after.Keys == before.Keys
               && forall p | p in before :: after[p] ==
                    if p == k.current && p != 0xffff_ffff_ffff_ffff && before[p].priority == Normal then
                      before[p].(vruntime := before[p].vruntime + 1)
                    else before[p])
  {
    hide Save, Load, Pick, FirstWith, DesiredL4;
  }

  /** An exit empties the slot of the running task and leaves the others, counts nothing and charges nobody. */
  lemma ExitExactly(k: Kernel)
    requires k.cpu.rsp >= FRAME_SIZE
    ensures var j := Exit(k);
      && (j.layout, j.nextPid, j.defaultL4) == (k.layout, k.nextPid, k.defaultL4)
      && (j.ticks, j.bootRsp) == (k.ticks, k.bootRsp)
      && |j.slots| == |k.slots|
      && (forall i | 0 <= i < |k.slots| :: j.slots[i] ==
            if k.slots[i].pid == Some(k.current) && (forall n | 0 <= n < i :: k.slots[n].pid != Some(k.current)) then
              k.slots[i].(pid := None)
            else k.slots[i])
      && (k.scheduler.None? ==> j.scheduler.None? && j.current == 0xffff_ffff_ffff_ffff)
      && (k.scheduler.Some? ==>
            && j.scheduler.Some? && j.scheduler.value.processes == k.scheduler.value.processes - {k.current}
            && j.current == if k.ticks <= 400 && Pick(j.scheduler.value).Some? then Pick(j.scheduler.value).value
                            else 0xffff_ffff_ffff_ffff)
  {
    hide Save, Load, Pick, DesiredL4;
    if k.scheduler.Some? {
      RemovedProcesses(k.scheduler.value, k.current);
    }
    var i := FirstWith(k.slots, Some(k.current));
    assert forall n | 0 <= n < i :: k.slots[n].pid != Some(k.current);
  }

  lemma RemovedProcesses(q: Queue, p: nat)
    ensures Remove(q, p).processes == q.processes - {p}
  {
  }

  /**
   Installing a task fills the first free slot with it, writes its first frame below the top
   of that slot's stack, and queues it as a normal process with no runtime; nothing else changes.
   */
  lemma InstallExactly(k: Kernel, pid: nat, entry: nat, space: Option<nat>)
    ensures var (j, r) := Install(k, pid, entry, space);
      var i := FirstWith(k.slots, None);
      && (r == None <==> i == |k.slots|) && (r == None ==> j == k)
      && (r.Some? ==>
            && r.value == pid
            && j.slots == k.slots[i := Slot(Some(pid), StackTop(i) - 64, space)]
            && Read(j.memory, StackTop(i) - 16) == k.layout.trampoline && Read(j.memory, StackTop(i) - 64) == entry
            && (forall n | 1 <= n <= 5 :: Read(j.memory, StackTop(i) - 64 + 8 * n) == 0)
            && SameOutside(k.memory, j.memory, StackTop(i) - 64, StackTop(i) - 8)
            && (k.scheduler.Some? ==>
                  && j.scheduler.Some?
                  && j.scheduler.value.processes == k.scheduler.value.processes[pid := Process(pid, Normal, Ready, 0)])
            && j == k.(slots := j.slots, memory := j.memory, scheduler := j.scheduler))
  {
    hide Save, SameOutside, Read;
    var i := FirstWith(k.slots, None);
    FirstFrameWords(k.memory, StackBase(i), STACK_SIZE, entry, k.layout.trampoline);
    FirstTopOfSlot(i);
    SlotAddresses(i);
    hide FirstTop, StackBase, StackTop, GuardPage;
  }

  lemma FirstTopOfSlot(i: nat)
    ensures FirstTop(StackBase(i), STACK_SIZE) == StackTop(i) - 8
  {
    SlotAddresses(i);
    hide StackBase, StackTop, GuardPage;
  }

  lemma Widen(m: Memory, n: Memory, low: nat, high: nat, lower: nat, higher: nat)
    requires SameOutside(m, n, low, high) && lower <= low && high <= higher
    ensures SameOutside(m, n, lower, higher)
  {
  }

  /** A task runs in its own address space if it has one; the boot flow and all others run in the default one. */
  lemma DesiredL4Is(k: Kernel, p: nat)
    requires DistinctPids(k.slots)
    ensures p == 0xffff_ffff_ffff_ffff ==> DesiredL4(k, p) == k.defaultL4
    ensures p !in Pids(k.slots) ==> DesiredL4(k, p) == k.defaultL4
    ensures forall i | 0 <= i < |k.slots| && k.slots[i].pid == Some(p) && p != 0xffff_ffff_ffff_ffff ::
              DesiredL4(k, p) == if k.slots[i].addressSpace.Some? then k.slots[i].addressSpace else k.defaultL4
  {
    FindPid(k.slots, p);
  }

  // ------------------------------------------------------------- every step

  /** A tick that changes the current context suspends it as it is and resumes the other as it was. */
  lemma TickIsExact(o: Observed)
    requires Inv(o) && o.k.cpu.rsp >= FRAME_SIZE
    ensures var j := Tick(o.k);
      if j.current == o.k.current then
        (j.cpu, j.memory, j.slots, j.bootRsp) == (o.k.cpu, o.k.memory, o.k.slots, o.k.bootRsp)
      else
        && j.current in o.suspended && j.cpu == o.suspended[j.current]
        && RunsOnItsStack(j, j.current, j.cpu.rsp)
        && AllResumable(j, o.suspended[o.k.current := o.k.cpu], Some(j.current))
  {
    hide Charge, Save, Load, AllResumable, RunsOnItsStack, FirstWith;
    var k := o.k;
    var q, p := k.scheduler.value, k.current;
    BooksGiveSlots(k, o.reserved, o.exited);
    NextIsContext(q, k.ticks + 1);
    var next := NextTask(q, k.ticks + 1);
    if p != next {
      var r := if p != BOOT_PID then Charge(q, p, 1) else q;
      var a := Activate(k.(ticks := k.ticks + 1, scheduler := Some(r)), next);
      SameContexts(k, a, o.suspended, p);
      SwitchIsExact(a, p, next, o.suspended);
    }
  }

  lemma SameContexts(k: Kernel, a: Kernel, suspended: map<nat, Cpu>, p: nat)
    requires (k.layout, k.slots, k.bootRsp, k.memory) == (a.layout, a.slots, a.bootRsp, a.memory)
    ensures AllResumable(k, suspended, Some(p)) == AllResumable(a, suspended, Some(p))
    ensures RunsOnItsStack(k, p, k.cpu.rsp) == RunsOnItsStack(a, p, k.cpu.rsp)
    ensures forall q :: ContextPtr(a, q) == ContextPtr(k, q) && ContextRsp(a, q) == ContextRsp(k, q)
  {
  }

  /** An exit resumes some other context as it was, and every remaining one stays resumable. */
  lemma ExitIsExact(o: Observed)
    requires Inv(o) && o.k.cpu.rsp >= FRAME_SIZE && o.k.current != BOOT_PID
    ensures var j := Exit(o.k);
      && j.current != o.k.current && j.current in o.suspended && j.cpu == o.suspended[j.current]
      && RunsOnItsStack(j, j.current, j.cpu.rsp) && AllResumable(j, o.suspended, Some(j.current))
  {
    hide Charge, Save, Load, AllResumable, RunsOnItsStack, NormalOnly, Remove, Pids, DistinctPids, FirstWith, NextTask;
    var k := o.k;
    var q, p, i := k.scheduler.value, k.current, FirstWith(k.slots, Some(k.current));
    BooksGiveSlots(k, o.reserved, o.exited);
    ClearPid(k.slots, p);
    RemoveKeepsNormal(q, p);
    var r := Remove(q, p);
    NextIsContext(r, k.ticks);
    var next := NextTask(r, k.ticks);
    var c := Activate(k.(scheduler := Some(r), slots := k.slots[i := k.slots[i].(pid := None)]), next);
    AbandonIsExact(k, p, c, next, o.suspended);
  }

  /** A fresh task is resumable at its start: in the trampoline, entry in r15, stack as after a call. */
  lemma FreshFrame(m: Memory, i: nat, entry: nat, trampoline: nat)
    ensures var n := InitStack(m, StackBase(i), STACK_SIZE, entry, trampoline);
      var start := FreshCpu(StackBase(i), STACK_SIZE, entry, trampoline);
      && SameOutside(m, n, StackBase(i), StackTop(i))
      && OnStack(StackBase(i), StackTop(i), start.rsp) && Load(n, start.rsp - FRAME_SIZE) == start
      && start.rip == trampoline && start.r15 == entry && Trampoline(start).rip == entry
      && start.rsp == StackTop(i) - 8 && start.rsp % 16 == 8
  {
    hide Save, Load, SameOutside, FirstTop, StackBase, StackTop, GuardPage;
    FreshTaskStarts(m, StackBase(i), STACK_SIZE, entry, trampoline);
    FirstTopOfSlot(i);
    SlotAddresses(i);
    Widen(m, InitStack(m, StackBase(i), STACK_SIZE, entry, trampoline), StackTop(i) - 64, StackTop(i) - 8,
          StackBase(i), StackTop(i));
  }

  /** Installing a task changes no memory but the stack of a slot that nobody occupies, and nothing without one. */
  lemma InstallTakesFreeSlot(o: Observed, pid: nat, entry: nat, space: Option<nat>)
    requires Inv(o) && pid in o.reserved
    ensures var (j, r) := Install(o.k, pid, entry, space);
      var i := FirstWith(o.k.slots, None);
      && (r == None <==> forall n | 0 <= n < |o.k.slots| :: o.k.slots[n].pid.Some?)
      && (r == None ==> j == o.k)
      && (r.Some? ==>
            && r.value == pid && pid !in Pids(o.k.slots) && pid !in o.exited && i < MAX_SLOTS
            && SameOutside(o.k.memory, j.memory, StackBase(i), StackTop(i))
            && (forall p | p == BOOT_PID || p in Pids(o.k.slots) :: ContextPtr(o.k, p) != SlotContext(i))
            && ContextPtr(j, pid) == SlotContext(i)
            && DesiredL4(j, pid) == if space.Some? then space else o.k.defaultL4)
  {
    hide Save, Load, NormalOnly, Add, StackBase, GuardPage, InitStack, FirstTop, DistinctPids, Pids, SameOutside,
      FirstWith, AllResumable, RunsOnItsStack;
    var k, i := o.k, FirstWith(o.k.slots, None);
    PidsIn(k.slots);
    if i < |k.slots| {
      FreshFrame(k.memory, i, entry, k.layout.trampoline);
      FillSlot(k.slots, Slot(Some(pid), FirstTop(StackBase(i), STACK_SIZE) - FRAME_SIZE, space));
    }
  }

  /** The stack of a slot nobody occupies holds neither the running stack pointer nor any suspended frame. */
  lemma FreeStackIsUnused(o: Observed, i: nat)
    requires Inv(o) && i < MAX_SLOTS && o.k.slots[i].pid.None?
    ensures o.k.cpu.rsp <= StackBase(i) || StackTop(i) + FRAME_SIZE <= o.k.cpu.rsp
    ensures forall p | (p == BOOT_PID || p in Pids(o.k.slots)) && p != o.k.current ::
              ContextRsp(o.k, p) + FRAME_SIZE <= StackBase(i) || StackTop(i) <= ContextRsp(o.k, p)
  {
    hide Load, StackBase, GuardPage;
    ContextStacksApart(o.k.layout);
    FindPid(o.k.slots, o.k.current);
    forall p | (p == BOOT_PID || p in Pids(o.k.slots)) && p != o.k.current
      ensures ContextRsp(o.k, p) + FRAME_SIZE <= StackBase(i) || StackTop(i) <= ContextRsp(o.k, p)
    {
      FindPid(o.k.slots, p);
    }
  }

  lemma InstallKeepsContexts(o: Observed, pid: nat, entry: nat, space: Option<nat>)
    requires Inv(o) && pid in o.reserved && FirstWith(o.k.slots, None) < |o.k.slots|
    ensures var j := Install(o.k, pid, entry, space).0;
      var start := FreshCpu(StackBase(FirstWith(o.k.slots, None)), STACK_SIZE, entry, o.k.layout.trampoline);
      && RunsOnItsStack(j, j.current, j.cpu.rsp)
      && AllResumable(j, o.suspended[pid := start], Some(j.current))
  {
    hide Save, Load, Pids, DistinctPids, NormalOnly, Add, StackBase, GuardPage, DesiredL4, InitStack, FirstTop,
      SameOutside;
    var k, i := o.k, FirstWith(o.k.slots, None);
    var j := Install(k, pid, entry, space).0;
    var low, high := StackBase(i), StackTop(i);
    PidsIn(k.slots);
    FreshFrame(k.memory, i, entry, k.layout.trampoline);
    ContextStacksApart(k.layout);
    var t := o.suspended[pid := FreshCpu(low, STACK_SIZE, entry, k.layout.trampoline)];
    if k.current != BOOT_PID {
      KeepResumable(k.memory, j.memory, low, high, k.layout.bootLow, k.layout.bootHigh, k.bootRsp, o.suspended,
                    BOOT_PID);
    }
    forall n | 0 <= n < |j.slots| && j.slots[n].pid.Some? && j.slots[n].pid != Some(k.current)
      ensures Resumable(j.memory, StackBase(n), StackTop(n), j.slots[n].rsp, t, j.slots[n].pid.value)
    {
      if n != i {
        KeepResumable(k.memory, j.memory, low, high, StackBase(n), StackTop(n), k.slots[n].rsp, o.suspended,
                      k.slots[n].pid.value);
      }
    }
  }

  lemma PidsIn(slots: seq<Slot>)
    ensures forall i | 0 <= i < |slots| && slots[i].pid.Some? :: slots[i].pid.value in Pids(slots)
  {
  }

  lemma ExecuteKeepsInv(o: Observed, cpu: Cpu, memory: Memory)
    requires Inv(o) && CanExecute(o.k, cpu, memory)
    ensures Inv(o.(k := o.k.(cpu := cpu, memory := memory)))
  {
    hide Load, StackBase, GuardPage, FrameKept, Pids, DistinctPids, NormalOnly;
    var j := o.k.(cpu := cpu, memory := memory);
    if o.k.current != BOOT_PID {
      FrameKeptMeansSameLoad(o.k.memory, memory, o.k.bootRsp);
    }
    forall i | 0 <= i < |j.slots| && j.slots[i].pid.Some? && j.slots[i].pid != Some(j.current)
      ensures Resumable(j.memory, StackBase(i), StackTop(i), j.slots[i].rsp, o.suspended, j.slots[i].pid.value)
    {
      FrameKeptMeansSameLoad(o.k.memory, memory, o.k.slots[i].rsp);
    }
    assert DesiredL4(j, j.current) == DesiredL4(o.k, o.k.current);
  }

  lemma HasRoom(o: Observed)
    requires Inv(o)
    ensures o.k.cpu.rsp >= FRAME_SIZE
  {
    if o.k.current != BOOT_PID {
      FindPid(o.k.slots, o.k.current);
    }
  }

  lemma TickInPlace(o: Observed)
    requires Inv(o) && o.k.cpu.rsp >= FRAME_SIZE && Tick(o.k).current == o.k.current
    ensures RunsOnItsStack(Tick(o.k), o.k.current, o.k.cpu.rsp)
    ensures AllResumable(Tick(o.k), o.suspended, Some(o.k.current))
  {
    hide Charge, Save, Load, AllResumable, RunsOnItsStack;
    TickIsExact(o);
    SameContexts(o.k, Tick(o.k), o.suspended, o.k.current);
  }

  lemma StepKeepsInv(o: Observed, e: Event)
    requires Inv(o) && CanHappen(o, e)
    ensures o.k.cpu.rsp >= FRAME_SIZE && Inv(Step(o, e))
  {
    hide BooksOk, RunsOnItsStack, AllResumable, Tick, Exit, CanExecute, Resumable;
    HasRoom(o);
    match e
    case TimerTick =>
      TickIsExact(o);
      TickKeepsBooks(o.k, o.reserved, o.exited);
      if Tick(o.k).current == o.k.current {
        TickInPlace(o);
      }
    case ReservePid =>
      TakePidKeepsBooks(o.k, o.reserved, o.exited);
      SameContexts(o.k, TakePid(o.k).0, o.suspended, o.k.current);
    case InstallTask(pid, entry, space) =>
      InstallKeepsBooks(o.k, o.reserved, o.exited, pid, entry, space);
      if FirstWith(o.k.slots, None) < |o.k.slots| {
        InstallKeepsContexts(o, pid, entry, space);
      }
    case ExitTask =>
      ExitIsExact(o);
      ExitKeepsBooks(o.k, o.reserved, o.exited);
    case Execute(cpu, memory) =>
      ExecuteKeepsInv(o, cpu, memory);
  }
}
