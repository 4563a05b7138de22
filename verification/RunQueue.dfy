/** The run queue: processes by pid, and two ordered indexes over them. */
module RunQueues {
  import opened Results

  /** The scheduling class; a real-time one carries its deadline. */
  datatype PriorityClass = RealTime(deadline: nat) | Normal | Idle

  datatype ProcessState = Ready | Running | Sleeping | Zombie

  datatype Process = Process(pid: nat, priority: PriorityClass, state: ProcessState, vruntime: nat)

  /** (deadline, pid) or (vruntime, pid), ordered lexicographically. */
  datatype Key = Key(rank: nat, pid: nat)
  {
    predicate Below(other: Key) {
      rank < other.rank || (rank == other.rank && pid < other.pid)
    }
  }

  datatype Queue = Queue(processes: map<nat, Process>, realTimeOrder: set<Key>, normalOrder: set<Key>)

  const EMPTY_QUEUE: Queue := Queue(map[], {}, {})

  ghost predicate IsFirst(s: set<Key>, k: Key) {
    k in s && forall j | j in s && j != k :: k.Below(j)
  }

  ghost function First(s: set<Key>): (k: Key)
    requires s != {}
    ensures IsFirst(s, k)
  {
    var j :| j in s;
    if s - {j} == {} then
      assert forall i | i in s :: i in s - {j} || i == j;
      j
    else
      var k := First(s - {j});
      assert forall i | i in s :: i in s - {j} || i == j;
      if j.Below(k) then j else k
  }

  function Add(q: Queue, p: Process): Queue {
    Queue(q.processes[p.pid := p],
          if p.priority.RealTime? then q.realTimeOrder + {Key(p.priority.deadline, p.pid)} else q.realTimeOrder,
          if p.priority.Normal? then q.normalOrder + {Key(p.vruntime, p.pid)} else q.normalOrder)
  }

  function Remove(q: Queue, pid: nat): Queue {
    if pid !in q.processes then q
    else
      var p := q.processes[pid];
      Queue(q.processes - {pid},
            if p.priority.RealTime? then q.realTimeOrder - {Key(p.priority.deadline, pid)} else q.realTimeOrder,
            if p.priority.Normal? then q.normalOrder - {Key(p.vruntime, pid)} else q.normalOrder)
  }

  ghost function Pick(q: Queue): Option<nat> {
    if q.realTimeOrder != {} then Some(First(q.realTimeOrder).pid)
    else if q.normalOrder != {} then Some(First(q.normalOrder).pid)
    else None
  }

  function Charge(q: Queue, pid: nat, used: nat): Queue {
    if pid !in q.processes || !q.processes[pid].priority.Normal? then q
    else
      var p := q.processes[pid];
      q.(processes := q.processes[pid := p.(vruntime := p.vruntime + used)],
         normalOrder := q.normalOrder - {Key(p.vruntime, pid)} + {Key(p.vruntime + used, pid)})
  }

  // --------------------------------------------------------- index agreement

  ghost function RealTimeKeys(ps: map<nat, Process>): set<Key> {
    set p | p in ps && ps[p].priority.RealTime? :: Key(ps[p].priority.deadline, p)
  }

  ghost function NormalKeys(ps: map<nat, Process>): set<Key> {
    set p | p in ps && ps[p].priority.Normal? :: Key(ps[p].vruntime, p)
  }

  /** The indexes hold exactly the keys of the stored processes. */
  ghost predicate Agree(q: Queue) {
    && (forall p | p in q.processes :: q.processes[p].pid == p)
    && q.realTimeOrder == RealTimeKeys(q.processes)
    && q.normalOrder == NormalKeys(q.processes)
  }

  /** What stands in for a fresh pid: the entry being replaced has no index key, or the same one. */
  predicate ReplacesNoKey(q: Queue, p: Process) {
    p.pid in q.processes ==>
      var prior := q.processes[p.pid];
      || prior.priority.Idle?
      || (prior.priority.RealTime? && p.priority == prior.priority)
      || (prior.priority.Normal? && p.priority.Normal? && p.vruntime == prior.vruntime)
  }

  lemma AddedKeys(q: Queue, p: Process)
    requires Agree(q)
    ensures RealTimeKeys(Add(q, p).processes) <= Add(q, p).realTimeOrder
    ensures NormalKeys(Add(q, p).processes) <= Add(q, p).normalOrder
    ensures forall k | k in Add(q, p).realTimeOrder && k.pid != p.pid :: k in RealTimeKeys(Add(q, p).processes)
    ensures forall k | k in Add(q, p).normalOrder && k.pid != p.pid :: k in NormalKeys(Add(q, p).processes)
  {
    var t := Add(q, p);
    forall k | k in t.realTimeOrder && k.pid != p.pid ensures k in RealTimeKeys(t.processes) {
      assert k in q.realTimeOrder;
      assert k.pid in t.processes && t.processes[k.pid] == q.processes[k.pid];
    }
    forall k | k in t.normalOrder && k.pid != p.pid ensures k in NormalKeys(t.processes) {
      assert k in q.normalOrder;
      assert k.pid in t.processes && t.processes[k.pid] == q.processes[k.pid];
    }
  }

  /**
   Adding keeps the indexes in agreement exactly when it leaves no stale key behind; a pid
   that is not queued never does.
   */
  lemma AddAgreesIff(q: Queue, p: Process)
    requires Agree(q)
    ensures Add(q, p).processes == q.processes[p.pid := p]
    ensures Agree(Add(q, p)) <==> ReplacesNoKey(q, p)
    ensures p.pid !in q.processes ==> Agree(Add(q, p))
  {
    var t := Add(q, p);
    AddedKeys(q, p);
    if p.pid in q.processes {
      var prior := q.processes[p.pid];
      if prior.priority.RealTime? {
        assert Key(prior.priority.deadline, p.pid) in t.realTimeOrder;
      }
      if prior.priority.Normal? {
        assert Key(prior.vruntime, p.pid) in t.normalOrder;
      }
    }
    if ReplacesNoKey(q, p) {
      forall k | k in t.realTimeOrder ensures k in RealTimeKeys(t.processes) {
        assert p.pid in t.processes;
      }
      forall k | k in t.normalOrder ensures k in NormalKeys(t.processes) {
        assert p.pid in t.processes;
      }
      assert t.realTimeOrder == RealTimeKeys(t.processes);
      assert t.normalOrder == NormalKeys(t.processes);
    }
  }

  /** A pid added twice with different virtual runtimes leaves its first key in the index. */
  lemma ReAddingLeavesStaleKey(pid: nat)
    ensures var q := Add(EMPTY_QUEUE, Process(pid, Normal, Ready, 0));
      Agree(q) && !Agree(Add(q, Process(pid, Normal, Ready, 1)))
  {
    assert Agree(EMPTY_QUEUE);
    var q := Add(EMPTY_QUEUE, Process(pid, Normal, Ready, 0));
    AddAgreesIff(EMPTY_QUEUE, Process(pid, Normal, Ready, 0));
    AddAgreesIff(q, Process(pid, Normal, Ready, 1));
  }

  lemma RemoveAgrees(q: Queue, pid: nat)
    requires Agree(q)
    ensures Agree(Remove(q, pid)) && Remove(q, pid).processes == q.processes - {pid}
  {
    var t := Remove(q, pid);
    if pid in q.processes {
      forall k ensures k in t.realTimeOrder <==> k in RealTimeKeys(t.processes) {
        if k in t.realTimeOrder {
          assert k.pid in t.processes;
        }
      }
      forall k ensures k in t.normalOrder <==> k in NormalKeys(t.processes) {
        if k in t.normalOrder {
          assert k.pid in t.processes;
        }
      }
    } else {
      assert q.processes - {pid} == q.processes;
    }
  }

  /** Charging adds to one normal process's runtime and changes nothing else; no other class is charged. */
  lemma ChargeAgrees(q: Queue, pid: nat, used: nat)
    requires Agree(q)
    ensures Agree(Charge(q, pid, used)) && Charge(q, pid, used).processes.Keys == q.processes.Keys
    ensures forall p | p in q.processes :: Charge(q, pid, used).processes[p] ==
              if p == pid && q.processes[p].priority == Normal then
                q.processes[p].(vruntime := q.processes[p].vruntime + used)
              else q.processes[p]
  {
    var t := Charge(q, pid, used);
    if t != q {
      forall k ensures k in t.realTimeOrder <==> k in RealTimeKeys(t.processes) {
        if k in RealTimeKeys(q.processes) || k in RealTimeKeys(t.processes) {
          assert k.pid in q.processes && k.pid in t.processes;
        }
      }
      forall k ensures k in t.normalOrder <==> k in NormalKeys(t.processes) {
        if k in NormalKeys(q.processes) || k in NormalKeys(t.processes) {
          assert k.pid in q.processes && k.pid in t.processes;
        }
        if k == Key(q.processes[pid].vruntime + used, pid) {
          assert pid in t.processes;
        }
      }
    }
  }

  // ---------------------------------------------------------------- picking

  /** No queued process of the same class comes before `pid`, and real-time ones come before all others. */
  ghost predicate ScanChooses(q: Queue, pid: nat) {
    && pid in q.processes && !q.processes[pid].priority.Idle?
    && (q.processes[pid].priority.RealTime? ==>
          forall o | o in q.processes && o != pid && q.processes[o].priority.RealTime? ::
            Key(q.processes[pid].priority.deadline, pid).Below(Key(q.processes[o].priority.deadline, o)))
    && (q.processes[pid].priority.Normal? ==>
          forall o | o in q.processes && o != pid ::
            && !q.processes[o].priority.RealTime?
            && (q.processes[o].priority.Normal? ==>
                  Key(q.processes[pid].vruntime, pid).Below(Key(q.processes[o].vruntime, o))))
  }

  /** `pick_next_task` is a scan of the queue: earliest deadline, else least virtual runtime, else nobody. */
  lemma PickIsScan(q: Queue)
    requires Agree(q)
    ensures Pick(q).None? <==> forall p | p in q.processes :: q.processes[p].priority.Idle?
    ensures forall p: nat :: Pick(q) == Some(p) <==> ScanChooses(q, p)
  {
    forall p | p in q.processes && q.processes[p].priority.RealTime?
      ensures Key(q.processes[p].priority.deadline, p) in q.realTimeOrder {}
    forall p | p in q.processes && q.processes[p].priority.Normal?
      ensures Key(q.processes[p].vruntime, p) in q.normalOrder {}
    if q.realTimeOrder != {} {
      var k := First(q.realTimeOrder);
      assert k.pid in q.processes;
      forall p: nat ensures Pick(q) == Some(p) <==> ScanChooses(q, p) {
        if ScanChooses(q, p) && p != k.pid {
          assert k.Below(Key(q.processes[p].priority.deadline, p));
        }
      }
    } else if q.normalOrder != {} {
      var k := First(q.normalOrder);
      assert k.pid in q.processes;
      forall p: nat ensures Pick(q) == Some(p) <==> ScanChooses(q, p) {
        if ScanChooses(q, p) && p != k.pid {
          assert k.Below(Key(q.processes[p].vruntime, p));
        }
      }
    }
  }

  /** While a real-time task is queued, charging anybody leaves the choice as it is. */
  lemma ChargeKeepsRealTimePick(q: Queue, pid: nat, used: nat)
    requires q.realTimeOrder != {}
    ensures Pick(Charge(q, pid, used)) == Pick(q)
  {
  }

  // -------------------------------------------------------- the queue object

  class RunQueue {
    var processes: map<nat, Process>
    var realTimeOrder: set<Key>
    var normalOrder: set<Key>

    function View(): Queue
      reads this
    {
      Queue(processes, realTimeOrder, normalOrder)
    }

    constructor ()
      ensures View() == EMPTY_QUEUE && Agree(View())
    {
      processes, realTimeOrder, normalOrder := map[], {}, {};
    }

    method AddProcess(p: Process)
      modifies this
      ensures View() == Add(old(View()), p)
      ensures processes == old(processes)[p.pid := p]
      ensures realTimeOrder == old(realTimeOrder) +
        if p.priority.RealTime? then {Key(p.priority.deadline, p.pid)} else {}
      ensures normalOrder == old(normalOrder) + if p.priority == Normal then {Key(p.vruntime, p.pid)} else {}
      ensures old(Agree(View())) ==> (Agree(View()) <==> old(ReplacesNoKey(View(), p)))
    {
      if Agree(View()) {
        AddAgreesIff(View(), p);
      }
      match p.priority {
        case RealTime(deadline) => realTimeOrder := realTimeOrder + {Key(deadline, p.pid)};
        case Normal => normalOrder := normalOrder + {Key(p.vruntime, p.pid)};
        case Idle =>
      }
      processes := processes[p.pid := p];
    }

    method RemoveProcess(pid: nat) returns (r: Option<Process>)
      modifies this
      ensures View() == Remove(old(View()), pid)
      ensures processes == old(processes) - {pid}
      ensures realTimeOrder == old(realTimeOrder) -
        if r.Some? && r.value.priority.RealTime? then {Key(r.value.priority.deadline, pid)} else {}
      ensures normalOrder == old(normalOrder) -
        if r.Some? && r.value.priority == Normal then {Key(r.value.vruntime, pid)} else {}
      ensures old(Agree(View())) ==> Agree(View())
      ensures r == if pid in old(processes) then Some(old(processes)[pid]) else None
    {
      if Agree(View()) {
        RemoveAgrees(View(), pid);
      }
      if pid !in processes {
        return None;
      }
      var p := processes[pid];
      processes := processes - {pid};
      match p.priority {
        case RealTime(deadline) => realTimeOrder := realTimeOrder - {Key(deadline, pid)};
        case Normal => normalOrder := normalOrder - {Key(p.vruntime, pid)};
        case Idle =>
      }
      return Some(p);
    }

    /** The least key of an ordered index. */
    static method Least(s: set<Key>) returns (k: Key)
      requires s != {}
      ensures IsFirst(s, k)
    {
      k :| k in s;
      var rest := s - {k};
      while rest != {}
        invariant rest < s && IsFirst(s - rest, k)
        decreases |rest|
      {
        var j :| j in rest;
        if j.Below(k) {
          k := j;
        }
        assert forall i | i in s - (rest - {j}) :: i in s - rest || i == j;
        rest := rest - {j};
      }
    }

    method PickNextTask() returns (r: Option<nat>)
      ensures r == Pick(View())
      ensures Agree(View()) ==> forall p: nat :: r == Some(p) <==> ScanChooses(View(), p)
    {
      if Agree(View()) {
        PickIsScan(View());
      }
      if realTimeOrder != {} {
        var k := Least(realTimeOrder);
        return Some(k.pid);
      }
      if normalOrder != {} {
        var k := Least(normalOrder);
        return Some(k.pid);
      }
      return None;
    }

    method UpdateVruntime(pid: nat, timeUsed: nat)
      modifies this
      ensures View() == Charge(old(View()), pid, timeUsed)
      ensures realTimeOrder == old(realTimeOrder) && processes.Keys == old(processes).Keys
      ensures forall p | p in processes :: processes[p] ==
                if p == pid && old(processes)[p].priority == Normal then
                  old(processes)[p].(vruntime := old(processes)[p].vruntime + timeUsed)
                else old(processes)[p]
      ensures old(Agree(View())) ==> Agree(View())
    {
      if Agree(View()) {
        ChargeAgrees(View(), pid, timeUsed);
      }
      if pid !in processes {
        return;
      }
      var p := processes[pid];
      if p.priority != Normal {
        return;
      }
      processes := processes[pid := p.(vruntime := p.vruntime + timeUsed)];
      normalOrder := normalOrder - {Key(p.vruntime, pid)};
      normalOrder := normalOrder + {Key(p.vruntime + timeUsed, pid)};
    }
  }
}
