/** The scheduler bridge's global state, updated in place, proved against Kernel. */
module Bridge {
  import opened Results
  import opened ContextSwitch
  import opened TaskStack
  import opened RunQueues
  import opened Kernel

  lemma CurrentDoesNotMatter(k: Kernel, pid: nat)
    ensures Activate(k.(current := pid), pid).(current := pid) == Activate(k, pid)
    ensures forall q :: ContextPtr(Activate(k, pid), q) == ContextPtr(k, q)
    ensures forall q :: ContextRsp(Activate(k, pid), q) == ContextRsp(k, q)
  {
  }

  class SchedulerBridge {
    const layout: Layout
    const slots: array<Slot>
    const processor: Processor
    const stacks: TaskStacks
    var bootRsp: nat
    var nextPid: nat
    var scheduler: RunQueue?
    var current: nat
    var ticks: nat
    var defaultL4: Option<nat>
    var cr3: nat

    ghost function View(): Kernel
      reads this, slots, processor, scheduler
    {
      var queue := if scheduler == null then None else Some(scheduler.View());
      Kernel(layout, slots[..], bootRsp, nextPid, queue, current, ticks, defaultL4, cr3,
             processor.cpu, processor.memory)
    }

    ghost predicate Valid()
      reads this, stacks, stacks.mapped
    {
      slots.Length == MAX_SLOTS && stacks.Valid()
    }

    constructor (layout: Layout, cpu: Cpu, memory: Memory, cr3: nat)
      ensures Valid() && fresh(slots) && fresh(processor) && fresh(stacks) && fresh(stacks.mapped)
      ensures View() == Kernel(layout, EmptySlots(), 0, 0, None, BOOT_PID, 0, None, cr3, cpu, memory)
    {
      this.layout := layout;
      slots := new Slot[MAX_SLOTS](_ => Slot(None, 0, None));
      processor := new Processor(cpu, memory);
      stacks := new TaskStacks();
      bootRsp, nextPid, scheduler, current, ticks := 0, 0, null, BOOT_PID, 0;
      defaultL4, this.cr3 := None, cr3;
      new;
      assert slots[..] == EmptySlots();
    }

    /** The start of `init`: an empty queue, and the active address space as everybody's default. */
    method Init()
      requires Valid()
      modifies this
      ensures Valid() && fresh(scheduler)
      ensures View() == old(View()).(scheduler := Some(EMPTY_QUEUE), defaultL4 := Some(old(cr3)))
    {
      scheduler := new RunQueue();
      defaultL4 := Some(cr3);
    }

    method Find(x: Option<nat>) returns (i: nat)
      ensures i == FirstWith(slots[..], x)
    {
      i := 0;
      while i < slots.Length && slots[i].pid != x
        invariant 0 <= i <= slots.Length && FirstWith(slots[..], x) >= i
      {
        i := i + 1;
      }
    }

    method ContextPtrOf(pid: nat) returns (p: Place)
      ensures p == ContextPtr(View(), pid)
    {
      if pid == BOOT_PID {
        return BootContext;
      }
      var i := Find(Some(pid));
      return if i == slots.Length then BootContext else SlotContext(i);
    }

    method ContextRspOf(pid: nat) returns (rsp: nat)
      ensures rsp == ContextRsp(View(), pid)
    {
      if pid == BOOT_PID {
        return bootRsp;
      }
      var i := Find(Some(pid));
      return if i == slots.Length then 0 else slots[i].rsp;
    }

    method DesiredL4Frame(pid: nat) returns (frame: Option<nat>)
      ensures frame == DesiredL4(View(), pid)
    {
      if pid == BOOT_PID {
        return defaultL4;
      }
      var i := Find(Some(pid));
      if i == slots.Length || slots[i].addressSpace.None? {
        return defaultL4;
      }
      return slots[i].addressSpace;
    }

    method SwitchAddressSpaceTo(pid: nat)
      modifies this`cr3
      ensures View() == Activate(old(View()), pid).(current := current)
    {
      var desired := DesiredL4Frame(pid);
      if desired.None? {
        return;
      }
      if cr3 != desired.value {
        cr3 := desired.value;
      }
    }

    /** Saves the running context at `save` and resumes the one suspended at `nextRsp`. */
    method SwitchContext(save: Place, nextRsp: nat)
      requires processor.cpu.rsp >= FRAME_SIZE && (save.SlotContext? ==> save.index < slots.Length)
      modifies this`bootRsp, slots, processor
      ensures View() == SwitchTo(old(View()), save, nextRsp)
    {
      hide Save, Load, Read, SameOutside;
      var saved := processor.SwitchTo(nextRsp);
      match save {
        case BootContext => bootRsp := saved;
        case SlotContext(i) => slots[i] := slots[i].(rsp := saved);
        case Discarded =>
      }
    }

    /** Whom the run queue picks, or the boot flow when it picks nobody or the budget is spent. */
    method PickOrBoot(tick: nat) returns (next: nat)
      ensures next == if scheduler == null then BOOT_PID else NextTask(scheduler.View(), tick)
    {
      hide Pick, Agree, ScanChooses;
      next := BOOT_PID;
      if tick <= SWITCH_TICK_BUDGET && scheduler != null {
        var picked := scheduler.PickNextTask();
        if picked.Some? {
          next := picked.value;
        }
      }
    }

    method OnTimerTick()
      requires Valid() && processor.cpu.rsp >= FRAME_SIZE
      modifies this`ticks, this`current, this`cr3, this`bootRsp, slots, processor, scheduler
      ensures Valid() && View() == Tick(old(View()))
      ensures ticks == old(ticks) + 1
    {
      hide Save, Load, Charge, NextTask, FirstWith, Agree, ScanChooses, Activate, ContextPtr, ContextRsp, SwitchTo;
      ticks := ticks + 1;
      var tick := ticks;
      if scheduler == null {
        return;
      }
      var prev := current;
      var next := PickOrBoot(tick);
      if prev != BOOT_PID {
        scheduler.UpdateVruntime(prev, 1);
      }
      if prev == next {
        return;
      }
      ghost var charged := View();
      current := next;
      SwitchAddressSpaceTo(next);
      CurrentDoesNotMatter(charged, next);
      assert View() == Activate(charged, next);
      var prevPtr := ContextPtrOf(prev);
      var nextRsp := ContextRspOf(next);
      SwitchContext(prevPtr, nextRsp);
    }

    /** The fetch-and-add on `NEXT_PID`, which comes before interrupts are masked. */
    method ReserveNextPid() returns (pid: nat)
      modifies this`nextPid
      ensures (View(), pid) == TakePid(old(View()))
      ensures pid == old(nextPid) && nextPid == old(nextPid) + 1
    {
      pid := nextPid;
      nextPid := nextPid + 1;
    }

    /** The masked section of `spawn_task_impl`. */
    method InstallNewTask(pid: nat, entry: nat, addressSpace: Option<nat>) returns (r: Option<nat>)
      requires Valid()
      modifies slots, processor`memory, scheduler, stacks, stacks.mapped
      ensures Valid() && (View(), r) == Install(old(View()), pid, entry, addressSpace)
      ensures r.Some? ==> stacks.mapped[FirstWith(old(slots[..]), None)]
    {
      hide Save, Read, SameOutside, InitStack, FirstTop, Add;
      var freeIndex := Find(None);
      if freeIndex == slots.Length {
        return None;
      }
      var stackTop := stacks.EnsureSlotMapped(freeIndex);
      var stackBase := stackTop - STACK_SIZE;
      var rsp := processor.WriteFirstFrame(stackBase, STACK_SIZE, entry, layout.trampoline);
      slots[freeIndex] := Slot(Some(pid), rsp, addressSpace);
      if scheduler != null {
        scheduler.AddProcess(Process(pid, Normal, Ready, 0));
      }
      return Some(pid);
    }

    /** A spawn when nothing happens between its two parts. */
    method SpawnTaskImpl(entry: nat, addressSpace: Option<nat>) returns (r: Option<nat>)
      requires Valid()
      modifies this`nextPid, slots, processor`memory, scheduler, stacks, stacks.mapped
      ensures Valid() && (View(), r) == Spawn(old(View()), entry, addressSpace)
    {
      hide TakePid, Install;
      var pid := ReserveNextPid();
      r := InstallNewTask(pid, entry, addressSpace);
    }

    method ExitCurrentTask()
      requires Valid() && processor.cpu.rsp >= FRAME_SIZE
      modifies this`current, this`cr3, this`bootRsp, slots, processor, scheduler
      ensures Valid() && View() == Exit(old(View()))
      ensures ticks == old(ticks) && nextPid == old(nextPid)
    {
      hide Save, Load, Remove, NextTask, FirstWith, Agree, ScanChooses, Activate, ContextPtr, ContextRsp, SwitchTo;
      var pid := current;
      if scheduler != null {
        var removed := scheduler.RemoveProcess(pid);
      }
      var i := Find(Some(pid));
      if i < slots.Length {
        slots[i] := slots[i].(pid := None);
      }
      var next := PickOrBoot(ticks);
      ghost var left := View();
      current := next;
      SwitchAddressSpaceTo(next);
      CurrentDoesNotMatter(left, next);
      assert View() == Activate(left, next);
      var nextRsp := ContextRspOf(next);
      SwitchContext(Discarded, nextRsp);
    }
  }
}
