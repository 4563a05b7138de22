/**
 The single-producer single-consumer ring buffer, as a machine that makes one atomic
 access per step, so that a schedule can interleave the two threads between any two accesses.
 */
module RingBuffers {
  import opened Results

  datatype Message = Message(sender: nat, payload: seq<bv8>)

  /** The memory both threads share; the capacity is the number of slots. */
  datatype Shared = Shared(slots: seq<Option<Message>>, writeIndex: nat, readIndex: nat, len: nat)

  /** What the producer has done of the current `enqueue`. */
  datatype Producer =
    | Ready
    | FoundRoom(m: Message)
    | LoadedWrite(m: Message, idx: nat)
    | Wrote(m: Message, idx: nat)
    | StoredWrite(m: Message)

  /** What the consumer has done of the current `dequeue`. */
  datatype Consumer =
    | Waiting
    | FoundItem
    | LoadedRead(idx: nat)
    | Took(taken: Option<Message>, idx: nat)
    | StoredRead(taken: Option<Message>)

  /** How calls end, each logged at the access that decides it; `Missing` is the fallback for an empty slot. */
  datatype Event = Accepted(m: Message) | Full | Delivered(m: Message) | Empty | Missing

  datatype Machine = Machine(shared: Shared, producer: Producer, consumer: Consumer, log: seq<Event>)

  /** Which thread moves next; a producer that is ready starts to enqueue `m`. */
  datatype Choice = Produce(m: Message) | Consume

  function Init(capacity: nat): Machine {
    Machine(Shared(seq(capacity, _ => None), 0, 0, 0), Ready, Waiting, [])
  }

  function Slot(idx: nat, capacity: nat): (i: nat)
    requires capacity > 0
    ensures i < capacity
  {
    idx % capacity
  }

  predicate TouchesSlot(s: Machine) {
    s.producer.LoadedWrite? || s.consumer.LoadedRead?
  }

  function StepProducer(s: Machine, next: Message): Machine
    requires s.producer.LoadedWrite? ==> s.shared.slots != []
  {
    var sh := s.shared;
    match s.producer
    case Ready =>
      if sh.len >= |sh.slots| then s.(log := s.log + [Full]) else s.(producer := FoundRoom(next))
    case FoundRoom(m) => s.(producer := LoadedWrite(m, sh.writeIndex))
    case LoadedWrite(m, idx) =>
      s.(shared := sh.(slots := sh.slots[Slot(idx, |sh.slots|) := Some(m)]), producer := Wrote(m, idx))
    case Wrote(m, idx) => s.(shared := sh.(writeIndex := idx + 1), producer := StoredWrite(m))
    case StoredWrite(m) =>
      s.(shared := sh.(len := sh.len + 1), producer := Ready, log := s.log + [Accepted(m)])
  }

  function StepConsumer(s: Machine): Machine
    requires s.consumer.LoadedRead? ==> s.shared.slots != []
    requires s.consumer.StoredRead? ==> s.shared.len > 0
  {
    var sh := s.shared;
    match s.consumer
    case Waiting => if sh.len == 0 then s.(log := s.log + [Empty]) else s.(consumer := FoundItem)
    case FoundItem => s.(consumer := LoadedRead(sh.readIndex))
    case LoadedRead(idx) =>
      var i := Slot(idx, |sh.slots|);
      s.(shared := sh.(slots := sh.slots[i := None]), consumer := Took(sh.slots[i], idx))
    case Took(taken, idx) => s.(shared := sh.(readIndex := idx + 1), consumer := StoredRead(taken))
    case StoredRead(taken) =>
      s.(shared := sh.(len := sh.len - 1), consumer := Waiting,
         log := s.log + [if taken.Some? then Delivered(taken.value) else Missing])
  }

  predicate CanStep(s: Machine) {
    && (TouchesSlot(s) ==> s.shared.slots != [])
    && (s.consumer.StoredRead? ==> s.shared.len > 0)
  }

  function Step(s: Machine, c: Choice): Machine
    requires CanStep(s)
  {
    if c.Produce? then StepProducer(s, c.m) else StepConsumer(s)
  }

  // ------------------------------------------------- the bounded FIFO queue

  /** What a call that ends in `e` does to the queue. */
  function Enact(q: seq<Message>, e: Event): seq<Message> {
    match e
    case Accepted(m) => q + [m]
    case Delivered(_) => if q == [] then [] else q[1..]
    case _ => q
  }

  /** Whether a call on a queue of the given capacity holding `q` may end in `e`. */
  predicate Permits(capacity: nat, q: seq<Message>, e: Event) {
    match e
    case Accepted(_) => |q| < capacity
    case Full => |q| == capacity
    case Delivered(m) => q != [] && q[0] == m
    case Empty => q == []
    case Missing => false
  }

  /** The queue after the calls in `log`. */
  function Queue(log: seq<Event>): seq<Message> {
    if log == [] then [] else Enact(Queue(log[..|log| - 1]), log[|log| - 1])
  }

  /** `log` is a history of a FIFO queue of the given capacity. */
  predicate Legal(capacity: nat, log: seq<Event>) {
    log == [] ||
    (Legal(capacity, log[..|log| - 1]) && Permits(capacity, Queue(log[..|log| - 1]), log[|log| - 1]))
  }

  function AcceptedMessages(log: seq<Event>): seq<Message> {
    if log == [] then []
    else
      var e := log[|log| - 1];
      AcceptedMessages(log[..|log| - 1]) + if e.Accepted? then [e.m] else []
  }

  function DeliveredMessages(log: seq<Event>): seq<Message> {
    if log == [] then []
    else
      var e := log[|log| - 1];
      DeliveredMessages(log[..|log| - 1]) + if e.Delivered? then [e.m] else []
  }

  /** In a FIFO history the delivered messages are the accepted ones, in order, up to what is still queued. */
  lemma {:induction false} DeliveredIsPrefix(capacity: nat, log: seq<Event>)
    requires Legal(capacity, log)
    ensures DeliveredMessages(log) + Queue(log) == AcceptedMessages(log)
    ensures Missing !in log && |Queue(log)| <= capacity
  {
    if log == [] {
    } else {
      var before, e := log[..|log| - 1], log[|log| - 1];
      assert log == before + [e];
      DeliveredIsPrefix(capacity, before);
      var q := Queue(before);
      if e.Delivered? {
        assert q == [e.m] + q[1..];
      }
    }
  }

  lemma LogOne(capacity: nat, log: seq<Event>, e: Event)
    ensures Queue(log + [e]) == Enact(Queue(log), e)
    ensures Legal(capacity, log + [e]) <==> Legal(capacity, log) && Permits(capacity, Queue(log), e)
  {
    assert (log + [e])[..|log + [e]| - 1] == log;
  }

  // ------------------------------------------------------------- invariant

  /** Slot positions: `q[j]` is in slot (r + j) mod capacity, except a first one the consumer holds. */
  function SlotAt(r: nat, j: nat, capacity: nat): (i: nat)
    requires capacity > 0
    ensures i < capacity
  {
    Slot(r + j, capacity)
  }

  ghost predicate Holds(slots: seq<Option<Message>>, r: nat, q: seq<Message>, firstTaken: bool) {
    && |q| <= |slots|
    && forall j | 0 <= j < |q| :: slots[SlotAt(r, j, |slots|)] == if firstTaken && j == 0 then None else Some(q[j])
  }

  /** Messages published, and messages released, so far. */
  function Published(s: Machine): int {
    s.shared.writeIndex - if s.producer.StoredWrite? then 1 else 0
  }

  function Released(s: Machine): int {
    s.shared.readIndex - if s.consumer.StoredRead? then 1 else 0
  }

  ghost predicate ProducerOk(s: Machine, q: seq<Message>) {
    var n := |s.shared.slots|;
    match s.producer
    case Ready => true
    case FoundRoom(_) => |q| < n
    case LoadedWrite(_, idx) => |q| < n && idx == s.shared.writeIndex
    case Wrote(m, idx) => |q| < n && idx == s.shared.writeIndex && s.shared.slots[Slot(idx, n)] == Some(m)
    case StoredWrite(m) => |q| < n && Published(s) >= 0 && s.shared.slots[Slot(Published(s), n)] == Some(m)
  }

  ghost predicate ConsumerOk(s: Machine, q: seq<Message>) {
    match s.consumer
    case Waiting => true
    case FoundItem => q != []
    case LoadedRead(idx) => q != [] && idx == s.shared.readIndex
    case Took(taken, idx) => q != [] && idx == s.shared.readIndex && taken == Some(q[0])
    case StoredRead(taken) => q != [] && taken == Some(q[0])
  }

  predicate HasTaken(s: Machine) {
    s.consumer.Took? || s.consumer.StoredRead?
  }

  ghost predicate Inv(s: Machine) {
    var q := Queue(s.log);
    && Legal(|s.shared.slots|, s.log)
    && s.shared.len == |q| == Published(s) - Released(s)
    && Released(s) >= 0
    && Holds(s.shared.slots, Released(s), q, HasTaken(s))
    && ProducerOk(s, q) && ConsumerOk(s, q)
  }

  lemma MultipleIsFar(x: nat, n: nat)
    requires x > 0
    ensures x * n >= n
  {
  }

  /** Two indices less than one capacity apart use different slots. */
  lemma DistinctSlots(a: nat, b: nat, n: nat)
    requires a < b < a + n
    ensures Slot(a, n) != Slot(b, n)
  {
    var x := b / n - a / n;
    assert b - a == x * n + (b % n - a % n) by {
      assert b == b / n * n + b % n && a == a / n * n + a % n;
    }
    assert (-x) * n == -(x * n);
    if x > 0 {
      MultipleIsFar(x, n);
    } else if x < 0 {
      MultipleIsFar(-x, n);
    }
  }

  lemma WindowSlotsDistinct(r: nat, i: nat, n: nat)
    requires n > 0 && i < n
    ensures forall j | 0 <= j < n && j != i :: SlotAt(r, j, n) != SlotAt(r, i, n)
  {
    forall j | 0 <= j < n && j != i ensures SlotAt(r, j, n) != SlotAt(r, i, n) {
      if j < i {
        DistinctSlots(r + j, r + i, n);
      } else {
        DistinctSlots(r + i, r + j, n);
      }
    }
  }

  lemma WriteFreeSlot(slots: seq<Option<Message>>, r: nat, q: seq<Message>, taken: bool, v: Option<Message>)
    requires Holds(slots, r, q, taken) && |q| < |slots|
    ensures Holds(slots[SlotAt(r, |q|, |slots|) := v], r, q, taken)
  {
    WindowSlotsDistinct(r, |q|, |slots|);
    hide Slot, SlotAt;
  }

  lemma TakeFirstSlot(slots: seq<Option<Message>>, r: nat, q: seq<Message>)
    requires Holds(slots, r, q, false) && q != []
    ensures slots[Slot(r, |slots|)] == Some(q[0])
    ensures Holds(slots[Slot(r, |slots|) := None], r, q, true)
    ensures |q| < |slots| ==> Slot(r, |slots|) != Slot(r + |q|, |slots|)
  {
    WindowSlotsDistinct(r, 0, |slots|);
    assert SlotAt(r, 0, |slots|) == Slot(r, |slots|);
    assert SlotAt(r, |q|, |slots|) == Slot(r + |q|, |slots|);
    hide Slot, SlotAt;
  }

  lemma PublishSlot(slots: seq<Option<Message>>, r: nat, q: seq<Message>, taken: bool, m: Message)
    requires Holds(slots, r, q, taken) && |q| < |slots| && (taken ==> q != [])
    requires slots[SlotAt(r, |q|, |slots|)] == Some(m)
    ensures Holds(slots, r, q + [m], taken)
  {
    hide Slot, SlotAt;
  }

  lemma ReleaseSlot(slots: seq<Option<Message>>, r: nat, q: seq<Message>)
    requires Holds(slots, r, q, true) && q != []
    ensures Holds(slots, r + 1, q[1..], false)
  {
    forall j | 0 <= j < |q| - 1 ensures slots[SlotAt(r + 1, j, |slots|)] == Some(q[1..][j]) {
      assert SlotAt(r + 1, j, |slots|) == SlotAt(r, j + 1, |slots|);
    }
  }

  lemma ProducerStepKeepsInv(s: Machine, m: Message)
    requires Inv(s)
    ensures CanStep(s) && Inv(StepProducer(s, m))
  {
    hide Slot, Holds, Queue, Legal;
    var sh, q := s.shared, Queue(s.log);
    HoldsBound(sh.slots, Released(s), q, HasTaken(s));
    match s.producer
    case Ready =>
      LogOne(|sh.slots|, s.log, Full);
    case FoundRoom(_) =>
    case LoadedWrite(p, idx) =>
      assert SlotAt(Released(s), |q|, |sh.slots|) == Slot(idx, |sh.slots|);
      WriteFreeSlot(sh.slots, Released(s), q, HasTaken(s), Some(p));
    case Wrote(_, _) =>
    case StoredWrite(p) =>
      LogOne(|sh.slots|, s.log, Accepted(p));
      assert SlotAt(Released(s), |q|, |sh.slots|) == Slot(Published(s), |sh.slots|);
      PublishSlot(sh.slots, Released(s), q, HasTaken(s), p);
  }

  lemma ConsumerStepKeepsInv(s: Machine)
    requires Inv(s)
    ensures CanStep(s) && Inv(StepConsumer(s))
  {
    hide Slot, Holds, Queue, Legal;
    var sh, q := s.shared, Queue(s.log);
    HoldsBound(sh.slots, Released(s), q, HasTaken(s));
    match s.consumer
    case Waiting =>
      LogOne(|sh.slots|, s.log, Empty);
    case FoundItem =>
    case LoadedRead(_) =>
      TakeFirstSlot(sh.slots, Released(s), q);
    case Took(_, _) =>
    case StoredRead(taken) =>
      LogOne(|sh.slots|, s.log, Delivered(taken.value));
      ReleaseSlot(sh.slots, Released(s), q);
  }

  lemma HoldsBound(slots: seq<Option<Message>>, r: nat, q: seq<Message>, taken: bool)
    requires Holds(slots, r, q, taken)
    ensures |q| <= |slots|
  {
  }

  lemma InitInv(capacity: nat)
    ensures Inv(Init(capacity))
  {
  }

  function Run(s: Machine, schedule: seq<Choice>): (t: Machine)
    requires Inv(s)
    ensures Inv(t) && |t.shared.slots| == |s.shared.slots|
    decreases |schedule|
  {
    if schedule == [] then s
    else
      StepKeepsInv(s, schedule[0]);
      Run(Step(s, schedule[0]), schedule[1..])
  }

  lemma StepKeepsInv(s: Machine, c: Choice)
    requires Inv(s)
    ensures CanStep(s) && Inv(Step(s, c)) && |Step(s, c).shared.slots| == |s.shared.slots|
  {
    if c.Produce? {
      ProducerStepKeepsInv(s, c.m);
    } else {
      ConsumerStepKeepsInv(s);
    }
  }

  /**
   Linearizability: under every schedule the calls, in the order of their deciding accesses,
   form a history of a FIFO queue of this capacity, whose length is `len` at every moment.
   So what was delivered is a prefix of what was accepted, and no taken slot was empty.
   */
  lemma EveryScheduleIsFifo(capacity: nat, schedule: seq<Choice>)
    ensures Inv(Init(capacity))
    ensures var s := Run(Init(capacity), schedule);
      && Legal(capacity, s.log) && s.shared.len == |Queue(s.log)| <= capacity
      && DeliveredMessages(s.log) <= AcceptedMessages(s.log)
      && AcceptedMessages(s.log) == DeliveredMessages(s.log) + Queue(s.log)
      && Missing !in s.log
  {
    InitInv(capacity);
    var s := Run(Init(capacity), schedule);
    DeliveredIsPrefix(capacity, s.log);
  }

  /** How the producer's calls ended, oldest first. */
  function Outcomes(log: seq<Event>): seq<Event> {
    if log == [] then []
    else
      var e := log[|log| - 1];
      Outcomes(log[..|log| - 1]) + if e.Accepted? || e.Full? then [e] else []
  }

  /** The message of the `enqueue` that is under way, if one is. */
  function UnderWay(s: Machine): seq<Message> {
    if s.producer.Ready? then [] else [s.producer.m]
  }

  /** The messages that `enqueue` is called with, in order. */
  function Offers(s: Machine, schedule: seq<Choice>): seq<Message>
    requires Inv(s)
    decreases |schedule|
  {
    if schedule == [] then []
    else
      StepKeepsInv(s, schedule[0]);
      (if schedule[0].Produce? && s.producer.Ready? then [schedule[0].m] else [])
      + Offers(Step(s, schedule[0]), schedule[1..])
  }

  /** Each call either accepted the very message it was given or was turned away. */
  ghost predicate Answers(offers: seq<Message>, s: Machine) {
    var outcomes := Outcomes(s.log);
    && |offers| == |outcomes| + |UnderWay(s)|
    && (forall i | 0 <= i < |outcomes| && outcomes[i].Accepted? :: outcomes[i].m == offers[i])
    && (!s.producer.Ready? ==> s.producer.m == offers[|offers| - 1])
  }

  lemma OutcomesGrow(log: seq<Event>, e: Event)
    ensures Outcomes(log + [e]) == Outcomes(log) + if e.Accepted? || e.Full? then [e] else []
  {
    assert (log + [e])[..|log + [e]| - 1] == log;
  }

  lemma StepAnswers(offers: seq<Message>, s: Machine, c: Choice)
    requires CanStep(s) && Answers(offers, s)
    ensures Answers(offers + (if c.Produce? && s.producer.Ready? then [c.m] else []), Step(s, c))
  {
    hide Slot, Outcomes;
    var t := Step(s, c);
    if t.log != s.log {
      OutcomesGrow(s.log, t.log[|s.log|]);
      assert t.log == s.log + [t.log[|s.log|]];
    }
  }

  lemma {:induction false} RunAnswers(offers: seq<Message>, s: Machine, schedule: seq<Choice>)
    requires Inv(s) && Answers(offers, s)
    ensures Answers(offers + Offers(s, schedule), Run(s, schedule))
    decreases |schedule|
  {
    hide Inv, Answers, Step, CanStep;
    if schedule == [] {
      assert offers + [] == offers;
    } else {
      var c := schedule[0];
      StepKeepsInv(s, c);
      StepAnswers(offers, s, c);
      var more := offers + if c.Produce? && s.producer.Ready? then [c.m] else [];
      RunAnswers(more, Step(s, c), schedule[1..]);
      assert offers + Offers(s, schedule) == more + Offers(Step(s, c), schedule[1..]);
    }
  }

  /** Under every schedule the i-th `enqueue` to end accepts the i-th message offered, or finds the queue full. */
  lemma EveryOfferIsAnswered(capacity: nat, schedule: seq<Choice>)
    ensures Inv(Init(capacity))
    ensures Answers(Offers(Init(capacity), schedule), Run(Init(capacity), schedule))
  {
    InitInv(capacity);
    RunAnswers([], Init(capacity), schedule);
    assert [] + Offers(Init(capacity), schedule) == Offers(Init(capacity), schedule);
  }

  /** The slot a thread is about to touch, touches or has touched, between its check and its update of `len`. */
  function ProducerSlot(s: Machine): Option<nat>
    requires !s.producer.Ready? ==> s.shared.slots != [] && Published(s) >= 0
  {
    if s.producer.Ready? then None else Some(Slot(Published(s), |s.shared.slots|))
  }

  function ConsumerSlot(s: Machine): Option<nat>
    requires !s.consumer.Waiting? ==> s.shared.slots != [] && Released(s) >= 0
  {
    if s.consumer.Waiting? then None else Some(Slot(Released(s), |s.shared.slots|))
  }

  /**
   Slot exclusion: under every schedule, while both threads are between their check and
   their update of `len`, they are at different slots; and the indices differ by `len`,
   adjusted by what each thread has already stored.
   */
  lemma SlotsNeverShared(capacity: nat, schedule: seq<Choice>)
    ensures Inv(Init(capacity))
    ensures var s := Run(Init(capacity), schedule);
      && Published(s) - Released(s) == s.shared.len && Released(s) >= 0
      && (!s.producer.Ready? || !s.consumer.Waiting? ==> s.shared.slots != [])
      && (!s.producer.Ready? && !s.consumer.Waiting? ==> ProducerSlot(s) != ConsumerSlot(s))
  {
    InitInv(capacity);
    var s := Run(Init(capacity), schedule);
    if !s.producer.Ready? && !s.consumer.Waiting? {
      DistinctSlots(Released(s), Published(s), |s.shared.slots|);
    }
  }

  // --------------------------------------------------------- the queue object

  datatype IpcError = PortNotFound | QueueFull | QueueEmpty | CapabilityDenied

  /** A whole `enqueue` with no consumer step in between. */
  function EnqueueAlone(s: Machine, m: Message): (t: Machine)
    requires Inv(s) && s.producer.Ready?
    ensures Inv(t)
  {
    if s.shared.len >= |s.shared.slots| then Run(s, [Produce(m)])
    else Run(s, [Produce(m), Produce(m), Produce(m), Produce(m), Produce(m)])
  }

  function DequeueAlone(s: Machine): (t: Machine)
    requires Inv(s) && s.consumer.Waiting?
    ensures Inv(t)
  {
    if s.shared.len == 0 then Run(s, [Consume]) else Run(s, [Consume, Consume, Consume, Consume, Consume])
  }

  lemma RunCons(s: Machine, c: Choice, rest: seq<Choice>)
    requires Inv(s)
    ensures CanStep(s) && Inv(Step(s, c)) && Run(s, [c] + rest) == Run(Step(s, c), rest)
  {
    StepKeepsInv(s, c);
    assert ([c] + rest)[1..] == rest;
  }

  lemma RunFive(s: Machine, c: Choice)
    requires Inv(s)
    ensures var s1 := Run(s, [c]); var s2 := Run(s1, [c]); var s3 := Run(s2, [c]); var s4 := Run(s3, [c]);
      Run(s, [c, c, c, c, c]) == Run(s4, [c])
    ensures CanStep(s) && Run(s, [c]) == Step(s, c)
  {
    hide Inv, Step;
    RunCons(s, c, []);
    RunCons(s, c, [c, c, c, c]);
    RunCons(Run(s, [c]), c, []);
    RunCons(Run(s, [c]), c, [c, c, c]);
    var s2 := Run(Run(s, [c]), [c]);
    RunCons(s2, c, []);
    RunCons(s2, c, [c, c]);
    var s3 := Run(s2, [c]);
    RunCons(s3, c, []);
    RunCons(s3, c, [c]);
    assert [c] + [c] == [c, c] && [c] + [c, c] == [c, c, c] && [c] + [c, c, c] == [c, c, c, c];
    assert [c] + [c, c, c, c] == [c, c, c, c, c] && [c] + [] == [c];
  }

  lemma EnqueueAloneEffect(s: Machine, m: Message)
    requires Inv(s) && s.producer.Ready?
    ensures var t, sh := EnqueueAlone(s, m), s.shared;
      if sh.len >= |sh.slots| then t == s.(log := s.log + [Full])
      else t == s.(shared := Shared(sh.slots[Slot(sh.writeIndex, |sh.slots|) := Some(m)],
                                    sh.writeIndex + 1, sh.readIndex, sh.len + 1),
                   log := s.log + [Accepted(m)])
  {
    hide Inv, Slot;
    RunFive(s, Produce(m));
    if s.shared.len < |s.shared.slots| {
      var s1 := Run(s, [Produce(m)]);
      RunFive(s1, Produce(m));
      var s2 := Run(s1, [Produce(m)]);
      RunFive(s2, Produce(m));
      var s3 := Run(s2, [Produce(m)]);
      RunFive(s3, Produce(m));
      var s4 := Run(s3, [Produce(m)]);
      RunFive(s4, Produce(m));
    }
  }

  lemma FirstSlotHolds(s: Machine)
    requires Inv(s) && s.consumer.Waiting?
    ensures s.shared.len == |Queue(s.log)| <= |s.shared.slots|
    ensures var q := Queue(s.log);
      q != [] ==> s.shared.slots[Slot(s.shared.readIndex, |s.shared.slots|)] == Some(q[0])
  {
    if Queue(s.log) != [] {
      TakeFirstSlot(s.shared.slots, Released(s), Queue(s.log));
    }
  }

  lemma DequeueAloneEffect(s: Machine)
    requires Inv(s) && s.consumer.Waiting?
    ensures var t, sh, q := DequeueAlone(s), s.shared, Queue(s.log);
      if sh.len == 0 then t == s.(log := s.log + [Empty])
      else
        && q != [] && sh.slots != [] && sh.slots[Slot(sh.readIndex, |sh.slots|)] == Some(q[0])
        && t == s.(shared := Shared(sh.slots[Slot(sh.readIndex, |sh.slots|) := None],
                                    sh.writeIndex, sh.readIndex + 1, sh.len - 1),
                   log := s.log + [Delivered(q[0])])
  {
    hide Inv, Slot, Queue;
    FirstSlotHolds(s);
    RunFive(s, Consume);
    if s.shared.len > 0 {
      var s1 := Run(s, [Consume]);
      RunFive(s1, Consume);
      var s2 := Run(s1, [Consume]);
      RunFive(s2, Consume);
      var s3 := Run(s2, [Consume]);
      RunFive(s3, Consume);
      var s4 := Run(s3, [Consume]);
      RunFive(s4, Consume);
    }
  }

  class RingBuffer {
    const slots: array<Option<Message>>
    var writeIndex: nat
    var readIndex: nat
    var len: nat
    /** How the calls so far ended. */
    ghost var log: seq<Event>

    ghost function View(): Machine
      reads this, slots
    {
      Machine(Shared(slots[..], writeIndex, readIndex, len), Ready, Waiting, log)
    }

    ghost predicate Valid()
      reads this, slots
    {
      Inv(View())
    }

    ghost function Contents(): seq<Message>
      reads this
    {
      Queue(log)
    }

    constructor (capacity: nat)
      ensures Valid() && fresh(slots) && slots.Length == capacity && Contents() == [] && log == []
      ensures View() == Init(capacity)
    {
      slots := new Option<Message>[capacity](_ => None);
      writeIndex, readIndex, len := 0, 0, 0;
      log := [];
      new;
      InitInv(capacity);
      assert slots[..] == Init(capacity).shared.slots;
    }

    method Enqueue(message: Message) returns (r: Result<(), IpcError>)
      requires Valid()
      modifies this, slots
      ensures Valid() && old(Valid()) && View() == EnqueueAlone(old(View()), message)
      ensures r == if |old(Contents())| < slots.Length then Ok(()) else Err(QueueFull)
      ensures Contents() == if r.Ok? then old(Contents()) + [message] else old(Contents())
    {
      hide Inv, Queue;
      FirstSlotHolds(View());
      EnqueueAloneEffect(View(), message);
      LogOne(slots.Length, log, Accepted(message));
      LogOne(slots.Length, log, Full);
      if len >= slots.Length {
        log := log + [Full];
        return Err(QueueFull);
      }
      ghost var before := slots[..];
      var idx := writeIndex;
      slots[idx % slots.Length] := Some(message);
      assert slots[..] == before[Slot(idx, |before|) := Some(message)];
      writeIndex := idx + 1;
      len := len + 1;
      log := log + [Accepted(message)];
      return Ok(());
    }

    method Len() returns (n: nat)
      requires Valid()
      ensures n == |Contents()| <= slots.Length
    {
      FirstSlotHolds(View());
      n := len;
    }

    method IsEmpty() returns (empty: bool)
      requires Valid()
      ensures empty <==> Contents() == []
    {
      var n := Len();
      empty := n == 0;
    }

    method Dequeue() returns (r: Result<Message, IpcError>)
      requires Valid()
      modifies this, slots
      ensures Valid() && old(Valid()) && View() == DequeueAlone(old(View()))
      ensures r == if old(Contents()) == [] then Err(QueueEmpty) else Ok(old(Contents())[0])
      ensures Contents() == if r.Ok? then old(Contents())[1..] else old(Contents())
    {
      hide Inv, Queue;
      FirstSlotHolds(View());
      DequeueAloneEffect(View());
      if len == 0 {
        LogOne(slots.Length, log, Empty);
        log := log + [Empty];
        return Err(QueueEmpty);
      }
      LogOne(slots.Length, log, Delivered(Contents()[0]));
      ghost var before, first := slots[..], Contents()[0];
      var idx := readIndex;
      var message := slots[idx % slots.Length];
      slots[idx % slots.Length] := None;
      assert slots[..] == before[Slot(idx, |before|) := None];
      readIndex := idx + 1;
      len := len - 1;
      log := log + [Delivered(first)];
      return if message.Some? then Ok(message.value) else Err(QueueEmpty);
    }
  }
}
