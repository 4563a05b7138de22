/** What holds over every run of the kernel's transitions. */
module KernelRuns {
  import opened Results
  import opened ContextSwitch
  import opened TaskStack
  import opened RunQueues
  import opened Fairness
  import opened Kernel

  /** An event that cannot happen in this state is passed over. */
  ghost function Advance(o: Observed, e: Event): (r: Observed)
    requires Inv(o)
    ensures
      && Inv(r)
      && (CanHappen(o, e) ==> o.k.cpu.rsp >= FRAME_SIZE && r == Step(o, e))
      && (!CanHappen(o, e) ==> r == o)
  {
    if CanHappen(o, e) then
      StepKeepsInv(o, e);
      Step(o, e)
    else o
  }

  ghost function RunAll(o: Observed, es: seq<Event>): (r: Observed)
    requires Inv(o)
    ensures Inv(r)
    decreases |es|
  {
    if es == [] then o else RunAll(Advance(o, es[0]), es[1..])
  }

  /** The kernel as `init` leaves it, before its first spawn, in whatever state boot got to. */
  function Booted(layout: Layout, cpu: Cpu, memory: Memory, cr3: nat, ticks: nat): Observed {
    Observed(Kernel(layout, EmptySlots(), 0, 0, Some(EMPTY_QUEUE), BOOT_PID, ticks, Some(cr3), cr3, cpu, memory),
             map[], {}, {})
  }

  lemma BootedInv(layout: Layout, cpu: Cpu, memory: Memory, cr3: nat, ticks: nat)
    requires LayoutOk(layout) && OnStack(layout.bootLow, layout.bootHigh, cpu.rsp)
    ensures Inv(Booted(layout, cpu, memory, cr3, ticks))
  {
    var o := Booted(layout, cpu, memory, cr3, ticks);
    assert Pids(o.k.slots) == {};
    assert NormalOnly(EMPTY_QUEUE);
  }

  /**
   The bridge's invariant, for every run since boot: slots have distinct pids, the ones in
   the run queue; the current pid is the boot flow's or has a slot; nobody who exited has one;
   and the active address space is the one the current pid should have.
   */
  lemma EveryRunKeepsBooks(layout: Layout, cpu: Cpu, memory: Memory, cr3: nat, ticks: nat, es: seq<Event>)
    requires LayoutOk(layout) && OnStack(layout.bootLow, layout.bootHigh, cpu.rsp)
    ensures Inv(Booted(layout, cpu, memory, cr3, ticks))
    ensures var o := RunAll(Booted(layout, cpu, memory, cr3, ticks), es);
      && (forall i, j | 0 <= i < |o.k.slots| && 0 <= j < |o.k.slots| && i != j && o.k.slots[i].pid.Some? ::
            o.k.slots[i].pid != o.k.slots[j].pid)
      && o.k.scheduler.Some? && Agree(o.k.scheduler.value)
      && o.k.scheduler.value.processes.Keys == Pids(o.k.slots)
      && (o.k.current == BOOT_PID || o.k.current in Pids(o.k.slots))
      && BOOT_PID !in Pids(o.k.slots) && Pids(o.k.slots) !! o.exited
      && o.k.defaultL4 == Some(cr3) && (o.k.current == BOOT_PID ==> o.k.cr3 == cr3)
      && (forall i | 0 <= i < |o.k.slots| && o.k.slots[i].pid == Some(o.k.current) ::
            o.k.cr3 == if o.k.slots[i].addressSpace.Some? then o.k.slots[i].addressSpace.value else cr3)
  {
    BootedInv(layout, cpu, memory, cr3, ticks);
    var o := RunAll(Booted(layout, cpu, memory, cr3, ticks), es);
    RunKeepsDefault(Booted(layout, cpu, memory, cr3, ticks), es);
    DesiredL4Is(o.k, o.k.current);
  }

  // --------------------------------------------------------- context integrity

  /** `p` is never current in this run, its start and end included. */
  ghost predicate Away(o: Observed, es: seq<Event>, p: nat)
    requires Inv(o)
    decreases |es|
  {
    o.k.current != p && (es == [] || Away(Advance(o, es[0]), es[1..], p))
  }

  lemma StepKeepsSuspended(o: Observed, e: Event, p: nat)
    requires Inv(o) && p in o.suspended && o.k.current != p
    requires p !in o.reserved && (p == BOOT_PID || p < o.k.nextPid)
    ensures var r := Advance(o, e);
      p in r.suspended && r.suspended[p] == o.suspended[p] && p !in r.reserved && r.k.nextPid >= o.k.nextPid
  {
    hide Inv, Save, Load, InitStack, FreshCpu, FirstWith, Pick, Charge, Add, Remove;
  }

  lemma {:induction false} AwayKeepsSuspended(o: Observed, es: seq<Event>, p: nat)
    requires Inv(o) && p in o.suspended && Away(o, es, p)
    requires p !in o.reserved && (p == BOOT_PID || p < o.k.nextPid)
    ensures var r := RunAll(o, es); p in r.suspended && r.suspended[p] == o.suspended[p] && r.k.current != p
    decreases |es|
  {
    hide Inv, Step, CanHappen;
    if es != [] {
      StepKeepsSuspended(o, es[0], p);
      AwayKeepsSuspended(Advance(o, es[0]), es[1..], p);
    }
  }

  lemma SwitchResumes(o: Observed, e: Event)
    requires Inv(o) && Advance(o, e).k.current != o.k.current
    ensures var r := Advance(o, e); r.k.current in o.suspended && r.k.cpu == o.suspended[r.k.current]
  {
    hide BooksOk, RunsOnItsStack, AllResumable, Tick, Exit, CanExecute, Resumable;
    HasRoom(o);
    match e
    case TimerTick => TickIsExact(o);
    case ExitTask => ExitIsExact(o);
    case ReservePid =>
    case InstallTask(_, _, _) =>
    case Execute(_, _) =>
  }

  /**
   Context integrity: whoever a tick preempts, boot flow or task, is resumed with the very
   stack pointer, return address and callee-saved registers it was preempted with, whatever
   ran, exited or was spawned in between.
   */
  lemma PreemptedResumesExactly(o: Observed, es: seq<Event>, e: Event)
    requires Inv(o)
    requires Away(Advance(o, TimerTick), es, o.k.current)
    requires Advance(RunAll(Advance(o, TimerTick), es), e).k.current == o.k.current
    ensures Advance(RunAll(Advance(o, TimerTick), es), e).k.cpu == o.k.cpu
  {
    hide Tick, Exit, AllResumable, RunsOnItsStack;
    var p, a := o.k.current, Advance(o, TimerTick);
    var b := RunAll(a, es);
    StepKeepsNextPid(o, TimerTick);
    AwayKeepsSuspended(a, es, p);
    SwitchResumes(b, e);
  }

  lemma StepKeepsNextPid(o: Observed, e: Event)
    requires Inv(o)
    ensures Advance(o, e).k.nextPid >= o.k.nextPid
    ensures (o.k.current == BOOT_PID || o.k.current < o.k.nextPid) && o.k.current !in o.reserved
  {
    hide AllResumable, RunsOnItsStack, Save, Load, InitStack, FreshCpu, FirstWith, Pick, Charge, Add, Remove;
  }

  /** A task that has never run starts in the trampoline, with its entry in r15 and an aligned stack. */
  lemma FirstRunIsFresh(o: Observed, pid: nat, entry: nat, space: Option<nat>, es: seq<Event>, e: Event)
    requires Inv(o) && pid in o.reserved && Install(o.k, pid, entry, space).1.Some?
    requires Away(Advance(o, InstallTask(pid, entry, space)), es, pid)
    requires Advance(RunAll(Advance(o, InstallTask(pid, entry, space)), es), e).k.current == pid
    ensures var c := Advance(RunAll(Advance(o, InstallTask(pid, entry, space)), es), e).k.cpu;
      c.rip == o.k.layout.trampoline && c.r15 == entry && Trampoline(c).rip == entry && c.rsp % 16 == 8
  {
    hide AllResumable, RunsOnItsStack, Save, Load, InitStack, FreshCpu, Pids, DistinctPids, DesiredL4;
    var a := Advance(o, InstallTask(pid, entry, space));
    var b := RunAll(a, es);
    FreshFrame(o.k.memory, FirstWith(o.k.slots, None), entry, o.k.layout.trampoline);
    AwayKeepsSuspended(a, es, pid);
    SwitchResumes(b, e);
  }

  // ---------------------------------------------------------- exits, handback

  lemma StepKeepsExited(o: Observed, e: Event)
    requires Inv(o)
    ensures o.exited <= Advance(o, e).exited && o.k.ticks <= Advance(o, e).k.ticks
  {
    hide Inv, Save, Load, InitStack, FreshCpu, FirstWith, Pick, Charge, Add, Remove;
  }

  lemma {:induction false} RunKeepsExited(o: Observed, es: seq<Event>)
    requires Inv(o)
    ensures o.exited <= RunAll(o, es).exited && o.k.ticks <= RunAll(o, es).k.ticks
    decreases |es|
  {
    hide Inv, Step, CanHappen;
    if es != [] {
      StepKeepsExited(o, es[0]);
      RunKeepsExited(Advance(o, es[0]), es[1..]);
    }
  }

  /** Whoever exits never runs again, and its pid is never given out again. */
  lemma ExitedNeverRuns(o: Observed, es: seq<Event>)
    requires Inv(o) && o.k.current != BOOT_PID
    ensures var r := RunAll(Advance(o, ExitTask), es); r.k.current != o.k.current && o.k.current !in Pids(r.k.slots)
  {
    hide AllResumable, RunsOnItsStack, Exit;
    var a := Advance(o, ExitTask);
    RunKeepsExited(a, es);
    assert o.k.current in a.exited;
  }

  /** Once the budget is spent the boot flow is current, for good, whatever is spawned later. */
  lemma HandbackIsFinal(o: Observed, es: seq<Event>)
    requires Inv(o)
    ensures o.k.ticks > SWITCH_TICK_BUDGET ==> RunAll(o, es).k.current == BOOT_PID
    ensures o.k.ticks == SWITCH_TICK_BUDGET ==> RunAll(Advance(o, TimerTick), es).k.current == BOOT_PID
    ensures CanHappen(o, ExitTask) ==> o.k.ticks <= SWITCH_TICK_BUDGET
  {
    hide AllResumable, RunsOnItsStack;
    HasRoom(o);
    RunKeepsExited(o, es);
    if o.k.ticks == SWITCH_TICK_BUDGET {
      var a := Advance(o, TimerTick);
      assert a.k.ticks == o.k.ticks + 1;
      RunKeepsExited(a, es);
    }
  }

  /** The look-ups of a switch always find their slot, so neither fallback is ever taken. */
  lemma FallbacksUnreachable(o: Observed)
    requires Inv(o)
    ensures o.k.current != BOOT_PID ==> ContextPtr(o.k, o.k.current).SlotContext?
    ensures var next := NextTask(o.k.scheduler.value, o.k.ticks + 1);
      next != BOOT_PID ==> ContextPtr(o.k, next).SlotContext? && FirstWith(o.k.slots, Some(next)) < |o.k.slots|
    ensures o.k.current != BOOT_PID ==>
      var next := NextTask(Remove(o.k.scheduler.value, o.k.current), o.k.ticks);
      var i := FirstWith(o.k.slots, Some(o.k.current));
      i < |o.k.slots|
      && var left := o.k.slots[i := o.k.slots[i].(pid := None)];
         next != BOOT_PID ==> next != o.k.current && FirstWith(left, Some(next)) < |left|
  {
    hide AllResumable, RunsOnItsStack, NextTask, NormalOnly, Pids, DistinctPids, Remove, DesiredL4, FirstWith;
    var q := o.k.scheduler.value;
    NextIsContext(q, o.k.ticks + 1);
    FindPid(o.k.slots, NextTask(q, o.k.ticks + 1));
    if o.k.current != BOOT_PID {
      FindPid(o.k.slots, o.k.current);
      RemoveKeepsNormal(q, o.k.current);
      var r := Remove(q, o.k.current);
      NextIsContext(r, o.k.ticks);
      ClearPid(o.k.slots, o.k.current);
      FindPid(o.k.slots, NextTask(r, o.k.ticks));
    }
  }

  /** An exit takes one process off the queue and turns to the least of the rest, or to the boot flow without any. */
  lemma ExitChoosesLeast(o: Observed)
    requires Inv(o) && o.k.current != BOOT_PID
    ensures var j := Advance(o, ExitTask).k;
      && j.scheduler.Some? && j.scheduler.value.processes == o.k.scheduler.value.processes - {o.k.current}
      && var q := j.scheduler.value;
         if q.processes == map[] then j.current == BOOT_PID
         else
           && j.current in q.processes
           && forall p | p in q.processes && p != j.current :: PidKey(q, j.current).Below(PidKey(q, p))
  {
    hide AllResumable, RunsOnItsStack, Save, Load, NextTask, NormalOnly, Remove, Pids, DistinctPids, FirstWith,
      DesiredL4;
    HasRoom(o);
    var q := o.k.scheduler.value;
    RemoveKeepsNormal(q, o.k.current);
    var r := Remove(q, o.k.current);
    RemovedProcesses(q, o.k.current);
    NextIsContext(r, o.k.ticks);
    if r.processes != map[] {
      PickIsLeast(r);
    }
  }

  /**
   A whole cycle: on an idle kernel a spawned task gets the next tick, starts in the
   trampoline, and when it exits the boot flow goes on exactly where that tick caught it.
   */
  lemma SpawnRunExitReturns(o: Observed, entry: nat, space: Option<nat>)
    requires Inv(o) && o.k.current == BOOT_PID && o.k.scheduler.value.processes == map[]
    requires o.k.nextPid < BOOT_PID && o.k.ticks < SWITCH_TICK_BUDGET && Spawn(o.k, entry, space).1.Some?
    ensures var spawned := Advance(Advance(o, ReservePid), InstallTask(o.k.nextPid, entry, space));
      var ran := Advance(spawned, TimerTick);
      var left := Advance(ran, ExitTask);
      && spawned.k == Spawn(o.k, entry, space).0
      && ran.k.current == o.k.nextPid && ran.k.cpu.rip == o.k.layout.trampoline && ran.k.cpu.r15 == entry
      && left.k.current == BOOT_PID && left.k.cpu == o.k.cpu && left.k.cr3 == o.k.cr3
      && left.k.scheduler.Some? && left.k.scheduler.value.processes == map[]
  {
    hide AllResumable, RunsOnItsStack, Tick, Exit, Save, Load, InitStack, FreshCpu, NormalOnly, Pids, DistinctPids;
    var pid, reserved := o.k.nextPid, Advance(o, ReservePid);
    var spawned := Advance(reserved, InstallTask(pid, entry, space));
    var ran := Advance(spawned, TimerTick);
    var left := Advance(ran, ExitTask);
    InstallEnqueues(reserved, pid, entry, space);
    var q := spawned.k.scheduler.value;
    assert pid in q.processes;
    HasRoom(spawned);
    NextIsContext(q, spawned.k.ticks + 1);
    TickSchedules(spawned.k, spawned.reserved, spawned.exited);
    assert ran.k.current == pid;
    TickKeepsKeys(spawned);
    ExitChoosesLeast(ran);
    assert left.k.scheduler.value.processes.Keys == {};
    FirstRunIsFresh(reserved, pid, entry, space, [], TimerTick);
    PreemptedResumesExactly(spawned, [], ExitTask);
    StepKeepsDefault(o, ReservePid);
    StepKeepsDefault(reserved, InstallTask(pid, entry, space));
    StepKeepsDefault(spawned, TimerTick);
    StepKeepsDefault(ran, ExitTask);
  }

  lemma StepKeepsDefault(o: Observed, e: Event)
    requires Inv(o)
    ensures Advance(o, e).k.defaultL4 == o.k.defaultL4
    ensures o.k.current == BOOT_PID ==> Some(o.k.cr3) == o.k.defaultL4
  {
    hide AllResumable, RunsOnItsStack, Save, Load, InitStack, FreshCpu, NormalOnly, FirstWith, Pick, Charge, Add,
      Remove, Pids;
  }

  lemma {:induction false} RunKeepsDefault(o: Observed, es: seq<Event>)
    requires Inv(o)
    ensures RunAll(o, es).k.defaultL4 == o.k.defaultL4
    decreases |es|
  {
    hide Inv, Step, CanHappen;
    if es != [] {
      StepKeepsDefault(o, es[0]);
      RunKeepsDefault(Advance(o, es[0]), es[1..]);
    }
  }

  lemma TickKeepsKeys(o: Observed)
    requires Inv(o)
    ensures var r := Advance(o, TimerTick);
      r.k.scheduler.Some? && r.k.scheduler.value.processes.Keys == o.k.scheduler.value.processes.Keys
  {
    hide AllResumable, RunsOnItsStack, Save, Load, NormalOnly, Charge, Pick, Pids, DistinctPids, FirstWith;
    ChargeKeepsNormal(o.k.scheduler.value, o.k.current);
  }

  /** A task that finds a slot is queued as a normal process with no runtime, beside the others as they were. */
  lemma InstallEnqueues(o: Observed, pid: nat, entry: nat, space: Option<nat>)
    requires Inv(o) && pid in o.reserved
    ensures var (j, r) := Install(o.k, pid, entry, space);
      && j.scheduler.Some? && NormalOnly(j.scheduler.value)
      && var before, after := o.k.scheduler.value.processes, j.scheduler.value.processes;
         && after.Keys == before.Keys + (if r.Some? then {pid} else {})
         && (r.Some? ==> pid !in before && Runtime(j.scheduler.value, pid) == 0)
         && (forall p | p in before :: after[p] == before[p])
  {
    hide AllResumable, RunsOnItsStack, InitStack, FirstWith, DesiredL4, Pids, DistinctPids, NormalOnly;
    if FirstWith(o.k.slots, None) < |o.k.slots| {
      AddKeepsNormal(o.k.scheduler.value, pid);
    }
  }

  // --------------------------------------------------------------- fairness

  function AsTask(pid: nat): Option<nat> {
    if pid == BOOT_PID then None else Some(pid)
  }

  /** Within the budget, a tick schedules as the pick-then-charge loop does. */
  lemma TickSchedules(k: Kernel, reserved: set<nat>, exited: set<nat>)
    requires BooksOk(k, reserved, exited) && k.cpu.rsp >= FRAME_SIZE
    requires k.ticks < SWITCH_TICK_BUDGET && k.scheduler.value.processes != map[]
    ensures Tick(k).scheduler.Some?
    ensures (Tick(k).scheduler.value, AsTask(Tick(k).current)) == TickOnce(k.scheduler.value, AsTask(k.current))
    ensures Tick(k).scheduler.value.processes != map[] && Tick(k).ticks == k.ticks + 1
  {
    hide NormalOnly, Pids, DistinctPids, Charge, Pick, Save, Load, FirstWith;
    var q := k.scheduler.value;
    NextIsContext(q, k.ticks + 1);
    ChargeKeepsNormal(q, k.current);
    assert Charge(q, k.current, 1).processes != map[] by {
      assert Charge(q, k.current, 1).processes.Keys != {};
    }
  }

  function TickCount(es: seq<Event>): nat {
    if es == [] then 0 else TickCount(es[1..]) + if es[0].TimerTick? then 1 else 0
  }

  lemma StepCountsTicks(o: Observed, e: Event)
    requires Inv(o)
    ensures Advance(o, e).k.ticks == o.k.ticks + if e.TimerTick? then 1 else 0
  {
    hide Inv, Tick, Exit, InitStack, FreshCpu, FirstWith, Add;
    HasRoom(o);
    TickExactly(o.k);
    ExitExactly(o.k);
  }

  /** Over every run, past the budget or not, the count of ticks is the number of ticks there were. */
  lemma {:induction false} EveryTickIsCounted(o: Observed, es: seq<Event>)
    requires Inv(o)
    ensures RunAll(o, es).k.ticks == o.k.ticks + TickCount(es)
    decreases |es|
  {
    hide Inv, Step, CanHappen;
    if es != [] {
      StepCountsTicks(o, es[0]);
      EveryTickIsCounted(Advance(o, es[0]), es[1..]);
    }
  }

  /** No task is installed and none exits. */
  predicate Quiet(es: seq<Event>) {
    forall e | e in es :: !e.InstallTask? && !e.ExitTask?
  }

  /** No task is installed; tasks may exit. */
  predicate NobodyNew(es: seq<Event>) {
    forall e | e in es :: !e.InstallTask?
  }

  lemma {:induction false} QuietRunTicks(o: Observed, es: seq<Event>)
    requires Inv(o) && Quiet(es) && o.k.scheduler.value.processes != map[]
    requires o.k.ticks + TickCount(es) <= SWITCH_TICK_BUDGET
    ensures var r := RunAll(o, es);
      (r.k.scheduler.value, AsTask(r.k.current)) == Ticks(o.k.scheduler.value, AsTask(o.k.current), TickCount(es))
    decreases |es|
  {
    hide BooksOk, RunsOnItsStack, AllResumable, Tick, TickOnce;
    assert o.k.scheduler.Some? by { BooksGiveQueue(o); }
    if es != [] {
      assert es[0] in es;
      var a := Advance(o, es[0]);
      BooksGiveQueue(a);
      if es[0].TimerTick? {
        HasRoom(o);
        TickSchedules(o.k, o.reserved, o.exited);
      }
      QuietRunTicks(a, es[1..]);
    }
  }

  lemma BooksGiveQueue(o: Observed)
    requires Inv(o)
    ensures o.k.scheduler.Some?
  {
  }

  /** Whatever was running, boot flow included, after one tick the current task is at most 1 ahead of the least. */
  lemma FirstTickLeads(o: Observed)
    requires Inv(o) && o.k.ticks < SWITCH_TICK_BUDGET && o.k.scheduler.value.processes != map[]
    ensures var r := Advance(o, TimerTick);
      r.k.scheduler.Some? && r.k.current != BOOT_PID && Leads(r.k.scheduler.value, Some(r.k.current))
  {
    hide RunsOnItsStack, AllResumable, Leads, Tick, TickOnce, Pids, DistinctPids, NormalOnly, Charge, DesiredL4;
    HasRoom(o);
    var q := o.k.scheduler.value;
    TickSchedules(o.k, o.reserved, o.exited);
    assert AsTask(o.k.current).Some? ==> o.k.current in q.processes;
    TickLeads(q, AsTask(o.k.current));
    LeadsIsTask(TickOnce(q, AsTask(o.k.current)).0, TickOnce(q, AsTask(o.k.current)).1);
  }

  lemma LeadsIsTask(q: Queue, current: Option<nat>)
    requires Leads(q, current)
    ensures current.Some?
  {
  }

  /** Runtimes are at most `s` apart, and the current task, if any is left, at most 1 ahead of the least. */
  ghost predicate Even(o: Observed, s: nat) {
    && o.k.scheduler.Some? && Spread(o.k.scheduler.value, s)
    && if o.k.scheduler.value.processes == map[] then o.k.current == BOOT_PID
       else o.k.current != BOOT_PID && Leads(o.k.scheduler.value, Some(o.k.current))
  }

  lemma ExitKeepsEven(o: Observed, s: nat)
    requires Inv(o) && Even(o, s) && o.k.current != BOOT_PID
    ensures Even(Advance(o, ExitTask), s)
  {
    hide AllResumable, RunsOnItsStack, Exit, NormalOnly, Pids, DistinctPids, DesiredL4;
    ExitChoosesLeast(o);
    var j := Advance(o, ExitTask).k;
    var q := j.scheduler.value;
    if q.processes != map[] {
      assert j.current in q.processes;
      CurrentIsTask(Advance(o, ExitTask));
      forall p | p in q.processes ensures Runtime(q, j.current) <= Runtime(q, p) + 1 {
        if p != j.current {
          assert PidKey(q, j.current).Below(PidKey(q, p));
        }
      }
    }
  }

  lemma CurrentIsTask(o: Observed)
    requires Inv(o)
    ensures o.k.scheduler.Some?
    ensures forall p | p in o.k.scheduler.value.processes :: p < BOOT_PID
    ensures o.k.current != BOOT_PID ==> o.k.current in o.k.scheduler.value.processes
  {
  }

  lemma TickKeepsEven(o: Observed, s: nat)
    requires Inv(o) && Even(o, s) && s >= 2 && o.k.ticks < SWITCH_TICK_BUDGET
    ensures Even(Advance(o, TimerTick), s)
  {
    hide AllResumable, RunsOnItsStack, Save, Load, NormalOnly, Pids, DistinctPids, DesiredL4, NextTask, Charge,
      FirstWith, Leads, Spread;
    HasRoom(o);
    CurrentIsTask(o);
    var q := o.k.scheduler.value;
    if q.processes == map[] {
      NextIsContext(q, o.k.ticks + 1);
    } else {
      FirstTickLeads(o);
      TickSchedules(o.k, o.reserved, o.exited);
      TickKeepsSpread(q, Some(o.k.current), s);
    }
  }

  /**
   And from then on, while nothing new is installed, exits or not, the spread of runtimes
   never passes the larger of itself and 2.
   */
  lemma {:induction false} SpreadStaysBounded(o: Observed, es: seq<Event>, s: nat)
    requires Inv(o) && NobodyNew(es) && Even(o, s)
    requires o.k.ticks + TickCount(es) <= SWITCH_TICK_BUDGET
    ensures Even(RunAll(o, es), if s < 2 then 2 else s)
    decreases |es|
  {
    hide Inv, Step, Spread, Leads;
    var most := if s < 2 then 2 else s;
    EvenGrows(o, s, most);
    if es != [] {
      assert es[0] in es;
      var a := Advance(o, es[0]);
      StepKeepsEven(o, es[0], most);
      SpreadStaysBounded(a, es[1..], most);
    }
  }

  lemma EvenGrows(o: Observed, s: nat, most: nat)
    requires Even(o, s) && s <= most
    ensures Even(o, most)
  {
  }

  lemma StepKeepsEven(o: Observed, e: Event, s: nat)
    requires Inv(o) && Even(o, s) && s >= 2 && !e.InstallTask?
    requires e.TimerTick? ==> o.k.ticks < SWITCH_TICK_BUDGET
    ensures var a := Advance(o, e);
      Even(a, s) && a.k.ticks == o.k.ticks + if e.TimerTick? then 1 else 0
  {
    hide Inv, Spread, Leads, Save, Load, Charge, Pick, Remove, FirstWith;
    match e
    case TimerTick => TickKeepsEven(o, s);
    case ExitTask =>
      if CanHappen(o, e) {
        ExitKeepsEven(o, s);
      }
    case ReservePid =>
    case Execute(_, _) =>
  }

  /** When another task exits, `t` does not have to wait any longer. */
  lemma ExitKeepsLags(o: Observed, t: nat)
    requires Inv(o) && o.k.current != BOOT_PID && t != o.k.current && t in o.k.scheduler.value.processes
    ensures var r := Advance(o, ExitTask).k;
      r.scheduler.Some? && t in r.scheduler.value.processes
      && Sum(Lags(r.scheduler.value, t)) <= Sum(Lags(o.k.scheduler.value, t))
  {
    hide Inv, Exit, Sum;
    ExitChoosesLeast(o);
    CurrentIsTask(o);
    var m, n := Lags(o.k.scheduler.value, t), Lags(Advance(o, ExitTask).k.scheduler.value, t);
    assert n == m - {o.k.current};
    SumRemove(m, o.k.current);
  }

  /** One event while `t` waits: a tick uses up one of the ticks it may have to wait, nothing else adds any. */
  lemma WaitShrinks(o: Observed, e: Event, t: nat, s: nat)
    requires Inv(o) && Even(o, s) && !e.InstallTask? && o.k.current != t && t in o.k.scheduler.value.processes
    requires e.TimerTick? ==> o.k.ticks < SWITCH_TICK_BUDGET
    ensures var a := Advance(o, e);
      a.k.scheduler.Some? && t in a.k.scheduler.value.processes
      && Sum(Lags(a.k.scheduler.value, t)) + (if e.TimerTick? then 1 else 0) <= Sum(Lags(o.k.scheduler.value, t))
  {
    hide AllResumable, RunsOnItsStack, Tick, Exit, TickOnce, Sum, Lags, Leads, NormalOnly, Pids, DistinctPids,
      DesiredL4;
    match e
    case TimerTick =>
      HasRoom(o);
      CurrentIsTask(o);
      TickSchedules(o.k, o.reserved, o.exited);
      LagStep(o.k.scheduler.value, Some(o.k.current), t);
    case ExitTask =>
      if CanHappen(o, e) {
        ExitKeepsLags(o, t);
      }
    case ReservePid =>
    case Execute(_, _) =>
  }

  /**
   No starvation in the kernel: while nothing new is installed and the budget lasts, and
   whoever else exits, a queued task becomes current after no more ticks than the others lag
   behind two past it.
   */
  lemma {:induction false} EveryQueuedTaskRuns(o: Observed, t: nat, es: seq<Event>, s: nat) returns (n: nat)
    requires Inv(o) && NobodyNew(es) && Even(o, s) && t in o.k.scheduler.value.processes
    requires o.k.ticks + TickCount(es) <= SWITCH_TICK_BUDGET
    requires Sum(Lags(o.k.scheduler.value, t)) <= TickCount(es)
    ensures n <= |es| && RunAll(o, es[..n]).k.current == t
    ensures TickCount(es[..n]) <= Sum(Lags(o.k.scheduler.value, t))
    decreases |es|
  {
    hide Inv, Step, CanHappen, Sum, Lags, Spread, Leads;
    var most := if s < 2 then 2 else s;
    EvenGrows(o, s, most);
    n := 0;
    if o.k.current != t {
      assert es != [] by {
        SomethingLags(o, t, s);
      }
      assert es[0] in es;
      WaitShrinks(o, es[0], t, s);
      StepKeepsEven(o, es[0], most);
      var m := EveryQueuedTaskRuns(Advance(o, es[0]), t, es[1..], most);
      n := m + 1;
      assert es[..n][0] == es[0] && es[..n][1..] == es[1..][..m];
    }
  }

  lemma SomethingLags(o: Observed, t: nat, s: nat)
    requires Inv(o) && Even(o, s) && o.k.current != t && t in o.k.scheduler.value.processes
    ensures Sum(Lags(o.k.scheduler.value, t)) > 0
  {
    hide AllResumable, RunsOnItsStack, NormalOnly, Pids, DistinctPids, DesiredL4, TickOnce, Sum;
    CurrentIsTask(o);
    LagStep(o.k.scheduler.value, Some(o.k.current), t);
  }
}
