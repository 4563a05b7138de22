/** How long a normal task waits, in the pick-and-charge loop and in the timer's pick-then-charge-the-previous loop. */
module Fairness {
  import opened Results
  import opened RunQueues

  /** Agreeing indexes over normal tasks only, which is all the kernel ever queues. */
  ghost predicate NormalOnly(q: Queue) {
    Agree(q) && forall p | p in q.processes :: q.processes[p].priority.Normal?
  }

  function Runtime(q: Queue, p: nat): nat
    requires p in q.processes
  {
    q.processes[p].vruntime
  }

  function PidKey(q: Queue, p: nat): Key
    requires p in q.processes
  {
    Key(Runtime(q, p), p)
  }

  lemma PickIsLeast(q: Queue)
    requires NormalOnly(q) && q.processes != map[]
    ensures Pick(q).Some? && Pick(q).value in q.processes
    ensures forall j | j in q.processes && j != Pick(q).value :: PidKey(q, Pick(q).value).Below(PidKey(q, j))
  {
    PickIsScan(q);
    var p :| p in q.processes;
    assert !q.processes[p].priority.Idle?;
    assert ScanChooses(q, Pick(q).value);
  }

  lemma ChargeEffect(q: Queue, p: nat, d: nat)
    requires NormalOnly(q) && p in q.processes
    ensures var r := Charge(q, p, d);
      && NormalOnly(r) && r.processes.Keys == q.processes.Keys
      && Runtime(r, p) == Runtime(q, p) + d
      && forall j | j in q.processes && j != p :: Runtime(r, j) == Runtime(q, j)
  {
    ChargeAgrees(q, p, d);
  }

  // -------------------------------------------------------------------- sums

  ghost function Sum(m: map<nat, nat>): nat {
    if m == map[] then 0
    else
      var k :| k in m;
      m[k] + Sum(m - {k})
  }

  lemma {:induction false} SumRemove(m: map<nat, nat>, k: nat)
    requires k in m
    ensures Sum(m) == m[k] + Sum(m - {k})
    decreases |m|
  {
    var j :| j in m && Sum(m) == m[j] + Sum(m - {j});
    if j != k {
      SumRemove(m - {j}, k);
      SumRemove(m - {k}, j);
      assert m - {j} - {k} == m - {k} - {j};
    }
  }

  lemma SumUpdate(m: map<nat, nat>, k: nat, v: nat)
    requires k in m
    ensures Sum(m[k := v]) + m[k] == Sum(m) + v
  {
    SumRemove(m, k);
    SumRemove(m[k := v], k);
    assert m[k := v] - {k} == m - {k};
  }

  lemma {:induction false} SumZero(m: map<nat, nat>)
    ensures Sum(m) == 0 <==> forall k | k in m :: m[k] == 0
    decreases |m|
  {
    if m == map[] {
    } else {
      var j :| j in m && Sum(m) == m[j] + Sum(m - {j});
      SumZero(m - {j});
      assert forall k | k in m :: k == j || k in m - {j};
    }
  }

  // ----------------------------------------- the pick-and-charge loop, exactly

  /** `n` rounds of picking a task and charging it `d`. */
  ghost function After(q: Queue, d: nat, n: nat): Queue {
    if n == 0 then q
    else
      var r := After(q, d, n - 1);
      match Pick(r)
      case Some(p) => Charge(r, p, d)
      case None => r
  }

  lemma {:induction false} AfterFirst(q: Queue, d: nat, n: nat)
    requires n > 0
    ensures After(q, d, n) == After(After(q, d, 1), d, n - 1)
  {
    if n > 1 {
      AfterFirst(q, d, n - 1);
    }
  }

  /** How often a task with runtime `vj`, charged `d` each time, is picked before one with key (vt, t). */
  function Ahead(vj: nat, j: nat, vt: nat, t: nat, d: nat): nat
    requires d > 0
    decreases if vj <= vt then vt - vj + 1 else 0
  {
    if Key(vj, j).Below(Key(vt, t)) then 1 + Ahead(vj + d, j, vt, t, d) else 0
  }

  /** That is the number of k >= 0 with (vj + k * d, j) lexicographically below (vt, t). */
  lemma {:induction false} AheadCounts(vj: nat, j: nat, vt: nat, t: nat, d: nat, k: nat)
    requires d > 0
    ensures k < Ahead(vj, j, vt, t, d) <==> Key(vj + k * d, j).Below(Key(vt, t))
    decreases if vj <= vt then vt - vj + 1 else 0
  {
    if Key(vj, j).Below(Key(vt, t)) {
      if k > 0 {
        AheadCounts(vj + d, j, vt, t, d, k - 1);
        assert vj + k * d == vj + d + (k - 1) * d;
      }
    } else {
      assert k * d >= 0;
    }
  }

  ghost function AheadOf(q: Queue, t: nat, d: nat): map<nat, nat>
    requires t in q.processes && d > 0
  {
    map j | j in q.processes && j != t :: Ahead(Runtime(q, j), j, Runtime(q, t), t, d)
  }

  lemma AheadStep(q: Queue, t: nat, d: nat, p: nat)
    requires NormalOnly(q) && t in q.processes && d > 0 && p in q.processes && p != t
    requires PidKey(q, p).Below(PidKey(q, t))
    ensures NormalOnly(Charge(q, p, d)) && t in Charge(q, p, d).processes
    ensures Sum(AheadOf(q, t, d)) == 1 + Sum(AheadOf(Charge(q, p, d), t, d))
  {
    ChargeEffect(q, p, d);
    var m := AheadOf(q, t, d);
    var n := AheadOf(Charge(q, p, d), t, d);
    assert n == m[p := n[p]];
    SumUpdate(m, p, n[p]);
  }

  /** The task picked first is one ahead of `t`, or `t` itself when none is. */
  lemma FirstPick(q: Queue, t: nat, d: nat)
    requires NormalOnly(q) && t in q.processes && d > 0
    ensures Pick(q).Some? && Pick(q).value in q.processes
    ensures Pick(q) == Some(t) <==> Sum(AheadOf(q, t, d)) == 0
    ensures Pick(q) != Some(t) ==> PidKey(q, Pick(q).value).Below(PidKey(q, t))
  {
    PickIsLeast(q);
    var p, m := Pick(q).value, AheadOf(q, t, d);
    SumZero(m);
    if p == t {
      forall j | j in m ensures m[j] == 0 {
        assert PidKey(q, t).Below(PidKey(q, j));
      }
    } else {
      assert p in m && m[p] > 0;
    }
  }

  /**
   Exact waiting time: before task `t` is picked, the number of other picks is the sum over
   the other tasks of how often each comes before it.
   */
  lemma {:induction false} WaitIsExact(q: Queue, t: nat, d: nat)
    requires NormalOnly(q) && t in q.processes && d > 0
    ensures Pick(After(q, d, Sum(AheadOf(q, t, d)))) == Some(t)
    ensures forall n: nat | n < Sum(AheadOf(q, t, d)) :: Pick(After(q, d, n)) != Some(t)
    decreases Sum(AheadOf(q, t, d))
  {
    hide NormalOnly, Pick, Charge, AheadOf, PidKey, Sum;
    FirstPick(q, t, d);
    var p := Pick(q).value;
    if p != t {
      AheadStep(q, t, d, p);
      var r := Charge(q, p, d);
      assert After(q, d, 1) == r by {
        assert After(q, d, 0) == q;
      }
      WaitIsExact(r, t, d);
      AfterFirst(q, d, Sum(AheadOf(q, t, d)));
      forall n: nat | n < Sum(AheadOf(q, t, d)) ensures Pick(After(q, d, n)) != Some(t) {
        if n > 0 {
          AfterFirst(q, d, n);
        }
      }
    }
  }

  /** In how many of the first `n` rounds `p` was picked. */
  ghost function Picks(q: Queue, d: nat, n: nat, p: nat): nat {
    if n == 0 then 0 else Picks(q, d, n - 1, p) + if Pick(After(q, d, n - 1)) == Some(p) then 1 else 0
  }

  ghost predicate Spread(q: Queue, s: nat) {
    forall i, j | i in q.processes && j in q.processes :: Runtime(q, i) <= Runtime(q, j) + s
  }

  function Charged(picks: nat, d: nat): nat {
    picks * d
  }

  lemma ChargedOnce(picks: nat, d: nat)
    ensures Charged(0, d) == 0 && Charged(picks + 1, d) == Charged(picks, d) + d
  {
  }

  lemma ChargedApart(a: nat, b: nat, d: nat)
    requires d > 0 && Charged(a, d) <= Charged(b, d) + d
    ensures a <= b + 1
  {
    ChargedOnce(b, d);
    ChargedOnce(b + 1, d);
    if a >= b + 2 {
      ChargedMore(a, b + 2, d);
    }
  }

  lemma {:induction false} ChargedMore(a: nat, b: nat, d: nat)
    requires a >= b
    ensures Charged(a, d) >= Charged(b, d)
  {
    if a > b {
      ChargedMore(a - 1, b, d);
      ChargedOnce(a - 1, d);
    }
  }

  /** One round, seen from the runtimes: the picked task goes up by `d`, so the spread stays within `d`. */
  lemma RoundCharges(r: Queue, d: nat)
    requires NormalOnly(r) && r.processes != map[] && Spread(r, d)
    ensures Pick(r).Some? && Pick(r).value in r.processes
    ensures var t := Charge(r, Pick(r).value, d);
      && NormalOnly(t) && t.processes.Keys == r.processes.Keys && Spread(t, d)
      && (forall p | p in r.processes :: Runtime(t, p) == Runtime(r, p) + if Pick(r) == Some(p) then d else 0)
  {
    PickIsLeast(r);
    ChargeEffect(r, Pick(r).value, d);
  }

  lemma {:induction false} RoundsCharge(q: Queue, d: nat, n: nat)
    requires NormalOnly(q) && q.processes != map[] && Spread(q, d)
    ensures var r := After(q, d, n);
      && NormalOnly(r) && r.processes.Keys == q.processes.Keys && Spread(r, d)
      && (forall p | p in q.processes :: Runtime(r, p) == Runtime(q, p) + Charged(Picks(q, d, n, p), d))
  {
    hide NormalOnly, Spread, Charged, Pick, Charge;
    ChargedOnce(0, d);
    if n > 0 {
      RoundsCharge(q, d, n - 1);
      var r := After(q, d, n - 1);
      assert r.processes != map[] by {
        assert r.processes.Keys != {};
      }
      RoundCharges(r, d);
      forall p | p in q.processes
        ensures Runtime(After(q, d, n), p) == Runtime(q, p) + Charged(Picks(q, d, n, p), d)
      {
        ChargedOnce(Picks(q, d, n - 1, p), d);
      }
    }
  }

  /** From equal runtimes, no task is ever picked two times more than another. */
  lemma EqualStartsStayEven(q: Queue, d: nat, n: nat, i: nat, j: nat)
    requires NormalOnly(q) && d > 0 && Spread(q, 0) && i in q.processes && j in q.processes
    ensures Picks(q, d, n, i) <= Picks(q, d, n, j) + 1
  {
    hide Picks, After, NormalOnly, Charged;
    assert Spread(q, d);
    RoundsCharge(q, d, n);
    ChargedApart(Picks(q, d, n, i), Picks(q, d, n, j), d);
  }

  // ------------------------------------------------- the timer's own order

  /** The scheduling part of a tick within the budget: pick first, then charge the previous task 1. */
  ghost function TickOnce(q: Queue, current: Option<nat>): (Queue, Option<nat>) {
    (if current.Some? then Charge(q, current.value, 1) else q, Pick(q))
  }

  ghost function Ticks(q: Queue, current: Option<nat>, n: nat): (Queue, Option<nat>)
    decreases n
  {
    if n == 0 then (q, current)
    else
      var (r, c) := TickOnce(q, current);
      Ticks(r, c, n - 1)
  }

  /** The current task is at most 1 ahead of the least runtime. */
  ghost predicate Leads(q: Queue, current: Option<nat>) {
    current.Some? && current.value in q.processes
    && forall j | j in q.processes :: Runtime(q, current.value) <= Runtime(q, j) + 1
  }

  ghost predicate Queued(q: Queue, current: Option<nat>) {
    NormalOnly(q) && q.processes != map[] && (current.Some? ==> current.value in q.processes)
  }

  /** After any tick the chosen task is at most 1 ahead of the least, whatever was running. */
  lemma TickLeads(q: Queue, current: Option<nat>)
    requires Queued(q, current)
    ensures var (r, c) := TickOnce(q, current);
      Queued(r, c) && Leads(r, c) && r.processes.Keys == q.processes.Keys
  {
    PickIsLeast(q);
    if current.Some? {
      ChargeEffect(q, current.value, 1);
      assert TickOnce(q, current).0.processes != map[] by {
        assert TickOnce(q, current).0.processes.Keys != {};
      }
    }
  }

  /** From then on the spread of runtimes never grows past the larger of itself and 2. */
  lemma TickKeepsSpread(q: Queue, current: Option<nat>, s: nat)
    requires Queued(q, current) && Leads(q, current) && Spread(q, s) && s >= 2
    ensures Spread(TickOnce(q, current).0, s)
  {
    ChargeEffect(q, current.value, 1);
  }

  lemma {:induction false} TicksKeepSpread(q: Queue, current: Option<nat>, s: nat, n: nat)
    requires Queued(q, current) && Leads(q, current) && Spread(q, s) && s >= 2
    ensures var (r, c) := Ticks(q, current, n);
      Queued(r, c) && Leads(r, c) && Spread(r, s) && r.processes.Keys == q.processes.Keys
    decreases n
  {
    hide Queued, Leads, Spread, Charge, Pick;
    if n > 0 {
      TickLeads(q, current);
      TickKeepsSpread(q, current, s);
      var (r, c) := TickOnce(q, current);
      TicksKeepSpread(r, c, s, n - 1);
    }
  }

  function Lag(vj: nat, vt: nat): nat {
    if vj < vt + 2 then vt + 2 - vj else 0
  }

  /** How much the other tasks can still be charged before `t` must run. */
  ghost function Lags(q: Queue, t: nat): map<nat, nat>
    requires t in q.processes
  {
    map j | j in q.processes && j != t :: Lag(Runtime(q, j), Runtime(q, t))
  }

  lemma LagStep(q: Queue, current: Option<nat>, t: nat)
    requires Queued(q, current) && Leads(q, current) && t in q.processes && current != Some(t)
    ensures var r := TickOnce(q, current).0;
      t in r.processes && Sum(Lags(q, t)) == 1 + Sum(Lags(r, t))
  {
    var p := current.value;
    ChargeEffect(q, p, 1);
    var m, n := Lags(q, t), Lags(TickOnce(q, current).0, t);
    assert n == m[p := n[p]];
    SumUpdate(m, p, n[p]);
  }

  /**
   No starvation in the real tick loop: every queued task becomes current after at most as
   many ticks as the others lag behind two past its runtime.
   */
  lemma {:induction false} EveryTaskRuns(q: Queue, current: Option<nat>, t: nat) returns (n: nat)
    requires Queued(q, current) && Leads(q, current) && t in q.processes
    ensures n <= Sum(Lags(q, t)) && Ticks(q, current, n).1 == Some(t)
    decreases Sum(Lags(q, t))
  {
    hide NormalOnly, Pick, Charge, Lags, Sum;
    if current == Some(t) {
      n := 0;
    } else {
      TickLeads(q, current);
      LagStep(q, current, t);
      var (r, c) := TickOnce(q, current);
      var m := EveryTaskRuns(r, c, t);
      n := m + 1;
    }
  }
}
