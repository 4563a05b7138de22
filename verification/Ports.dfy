/** Ports: ring buffers behind capability checks, and what gets delivered over a whole history. */
module Ports {
  import opened Results
  import opened Capability
  import opened RingBuffers

  // ------------------------------------------------------------ port paths

  function Digit(d: nat): char
    requires d < 10
  {
    ['0', '1', '2', '3', '4', '5', '6', '7', '8', '9'][d]
  }

  function Decimal(n: nat): (s: string)
    ensures s != ""
  {
    if n < 10 then [Digit(n)] else Decimal(n / 10) + [Digit(n % 10)]
  }

  function PortPath(port: nat): string {
    "port:" + Decimal(port)
  }

  /** The number a string of decimal digits stands for. */
  function Value(s: string): (n: int) {
    if s == "" then 0 else 10 * Value(s[..|s| - 1]) + (s[|s| - 1] as int - '0' as int)
  }

  lemma DigitValue(d: nat)
    requires d < 10
    ensures '0' <= Digit(d) <= '9' && Digit(d) as int - '0' as int == d
  {
  }

  /** Printing is the inverse of reading: digits only, no leading zeros, the same number. */
  lemma {:induction false} DecimalReadsBack(n: nat)
    ensures Value(Decimal(n)) == n
    ensures forall i | 0 <= i < |Decimal(n)| :: '0' <= Decimal(n)[i] <= '9'
    ensures n > 0 ==> Decimal(n)[0] != '0'
  {
    DigitValue(n % 10);
    if n < 10 {
      assert Decimal(n) == [Digit(n)];
      assert Decimal(n)[..0] == "";
    } else {
      DecimalReadsBack(n / 10);
      var s := Decimal(n);
      assert s[..|s| - 1] == Decimal(n / 10) && s[0] == Decimal(n / 10)[0];
    }
  }

  lemma PortPathReadsBack(port: nat)
    ensures PortPath(port)[..5] == "port:" && Value(PortPath(port)[5..]) == port
  {
    DecimalReadsBack(port);
    assert PortPath(port)[5..] == Decimal(port);
  }

  lemma DigitInjective(c: nat, d: nat)
    requires c < 10 && d < 10 && Digit(c) == Digit(d)
    ensures c == d
  {
  }

  lemma {:induction false} DecimalInjective(a: nat, b: nat)
    requires Decimal(a) == Decimal(b)
    ensures a == b
    decreases a
  {
    var s, t := Decimal(a), Decimal(b);
    assert s[|s| - 1] == Digit(a % 10) && t[|t| - 1] == Digit(b % 10);
    DigitInjective(a % 10, b % 10);
    if a >= 10 && b >= 10 {
      assert s[..|s| - 1] == Decimal(a / 10) && t[..|t| - 1] == Decimal(b / 10);
      DecimalInjective(a / 10, b / 10);
    }
  }

  /** The token a port's owner gets covers that port and no other. */
  lemma PortPathCoversOnlyItself(p: nat, q: nat)
    ensures PathCovers(PortPath(p), PortPath(q)) <==> p == q
  {
    var s := PortPath(p);
    assert s[|s| - 1] == Decimal(p)[|Decimal(p)| - 1];
    assert Decimal(p)[|Decimal(p)| - 1] == Digit(p % 10);
    assert Digit(p % 10) != '*';
    if PortPath(p) == PortPath(q) {
      assert PortPath(p)[5..] == Decimal(p) && PortPath(q)[5..] == Decimal(q);
      DecimalInjective(p, q);
    }
  }

  // ------------------------------------------------- the system as a value

  datatype Port = Port(owner: nat, capacity: nat, queue: seq<Message>)

  datatype PortSystem = PortSystem(ports: map<nat, Port>, nextPortId: nat, broker: Broker)

  const U64_MAX: nat := 0xFFFF_FFFF_FFFF_FFFF

  const OWNER_PERMISSIONS: Permissions := NO_PERMISSIONS.(read := true, write := true, delegate := true)

  const NEW_SYSTEM: PortSystem := PortSystem(map[], 1, NEW_BROKER)

  function SendAccess(sender: nat, port: nat, now: nat): Access {
    Access(sender, Ipc, PortPath(port), NO_PERMISSIONS.(write := true), now)
  }

  function ReceiveAccess(receiver: nat, port: nat, now: nat): Access {
    Access(receiver, Ipc, PortPath(port), NO_PERMISSIONS.(read := true), now)
  }

  function Create(s: PortSystem, owner: nat, capacity: nat, now: nat): PortSystem {
    var id := s.nextPortId;
    PortSystem(s.ports[id := Port(owner, capacity, [])], id + 1,
               IssueIn(s.broker, 0, owner, Ipc, PortPath(id), OWNER_PERMISSIONS, now, U64_MAX))
  }

  function Delete(s: PortSystem, port: nat): (PortSystem, Result<(), IpcError>) {
    if port !in s.ports then (s, Err(PortNotFound)) else (s.(ports := s.ports - {port}), Ok(()))
  }

  ghost function Send(s: PortSystem, sender: nat, port: nat, payload: seq<bv8>, now: nat)
    : (PortSystem, Result<(), IpcError>)
  {
    if Decide(s.broker.tokens, SendAccess(sender, port, now)) != Allowed then (s, Err(CapabilityDenied))
    else if port !in s.ports then (s, Err(PortNotFound))
    else
      var p := s.ports[port];
      if |p.queue| >= p.capacity then (s, Err(QueueFull))
      else (s.(ports := s.ports[port := p.(queue := p.queue + [Message(sender, payload)])]), Ok(()))
  }

  ghost function Receive(s: PortSystem, receiver: nat, port: nat, now: nat): (PortSystem, Result<Message, IpcError>) {
    if Decide(s.broker.tokens, ReceiveAccess(receiver, port, now)) != Allowed then (s, Err(CapabilityDenied))
    else if port !in s.ports then (s, Err(PortNotFound))
    else
      var p := s.ports[port];
      if p.queue == [] then (s, Err(QueueEmpty))
      else (s.(ports := s.ports[port := p.(queue := p.queue[1..])]), Ok(p.queue[0]))
  }

  // ------------------------------------------ what the operations come down to

  /** `who` holds an unrevoked, unexpired IPC token whose path covers the port and that includes this right. */
  ghost predicate HoldsToken(tokens: map<nat, Token>, who: nat, port: nat, now: nat, right: Right) {
    exists id | id in tokens ::
      && tokens[id].subject == who && tokens[id].resourceType == Ipc
      && PathCovers(tokens[id].resourcePath, PortPath(port))
      && !tokens[id].revoked && now < tokens[id].expiresAt
      && Has(tokens[id].permissions, right)
  }

  /** Sending asks for the right to write, receiving for the right to read, and nothing else. */
  lemma AccessIff(tokens: map<nat, Token>, who: nat, port: nat, now: nat)
    ensures Decide(tokens, SendAccess(who, port, now)) == Allowed <==> HoldsToken(tokens, who, port, now, CanWrite)
    ensures Decide(tokens, ReceiveAccess(who, port, now)) == Allowed <==> HoldsToken(tokens, who, port, now, CanRead)
  {
    hide Decide, PathCovers, PortPath;
    DecideIff(tokens, SendAccess(who, port, now));
    DecideIff(tokens, ReceiveAccess(who, port, now));
    forall id | id in tokens
      ensures tokens[id].permissions.Covers(SendAccess(who, port, now).needs) == Has(tokens[id].permissions, CanWrite)
      ensures tokens[id].permissions.Covers(ReceiveAccess(who, port, now).needs)
              == Has(tokens[id].permissions, CanRead) {}
  }

  /** When sending succeeds, which error it gives otherwise, and all that it changes. */
  lemma SendIff(s: PortSystem, sender: nat, port: nat, payload: seq<bv8>, now: nat)
    ensures var (t, r) := Send(s, sender, port, payload, now);
      var holds := HoldsToken(s.broker.tokens, sender, port, now, CanWrite);
      && (r == Err(CapabilityDenied) <==> !holds)
      && (r == Err(PortNotFound) <==> holds && port !in s.ports)
      && (r == Err(QueueFull) <==> holds && port in s.ports && s.ports[port].capacity <= |s.ports[port].queue|)
      && (r.Ok? <==> holds && port in s.ports && |s.ports[port].queue| < s.ports[port].capacity)
      && (r.Err? ==> t == s)
      && (r.Ok? ==>
            && t.nextPortId == s.nextPortId && t.broker == s.broker && t.ports.Keys == s.ports.Keys
            && (forall p | p in s.ports && p != port :: t.ports[p] == s.ports[p])
            && t.ports[port].owner == s.ports[port].owner && t.ports[port].capacity == s.ports[port].capacity
            && t.ports[port].queue == s.ports[port].queue + [Message(sender, payload)])
  {
    hide Decide, HoldsToken, SendAccess;
    AccessIff(s.broker.tokens, sender, port, now);
  }

  /** The same for receiving: the oldest message leaves the queue. */
  lemma ReceiveIff(s: PortSystem, receiver: nat, port: nat, now: nat)
    ensures var (t, r) := Receive(s, receiver, port, now);
      var holds := HoldsToken(s.broker.tokens, receiver, port, now, CanRead);
      && (r == Err(CapabilityDenied) <==> !holds)
      && (r == Err(PortNotFound) <==> holds && port !in s.ports)
      && (r == Err(QueueEmpty) <==> holds && port in s.ports && s.ports[port].queue == [])
      && (r.Ok? <==> holds && port in s.ports && s.ports[port].queue != [])
      && (r.Err? ==> t == s)
      && (r.Ok? ==>
            && t.nextPortId == s.nextPortId && t.broker == s.broker && t.ports.Keys == s.ports.Keys
            && (forall p | p in s.ports && p != port :: t.ports[p] == s.ports[p])
            && t.ports[port].owner == s.ports[port].owner && t.ports[port].capacity == s.ports[port].capacity
            && s.ports[port].queue == [r.value] + t.ports[port].queue)
  {
    hide Decide, HoldsToken, ReceiveAccess;
    AccessIff(s.broker.tokens, receiver, port, now);
  }

  /** Deleting removes that port, if there is one, and nothing else. */
  lemma DeleteIff(s: PortSystem, port: nat)
    ensures var (t, r) := Delete(s, port);
      && (r.Ok? <==> port in s.ports) && (r.Err? ==> t == s && r.error == PortNotFound)
      && port !in t.ports && t.ports.Keys == s.ports.Keys - {port}
      && (forall p | p in t.ports :: t.ports[p] == s.ports[p])
      && t.nextPortId == s.nextPortId && t.broker == s.broker
  {
  }

  /**
   Creating a port adds an empty one under the next id.  Its owner may at once, and as long
   as the clock is below the greatest time stamp, send to it, receive from it and delegate
   both, by a token that covers this port and no other.
   */
  lemma OwnerMay(s: PortSystem, owner: nat, capacity: nat, created: nat, port: nat, now: nat)
    requires Fresh(s.broker) && now < 0xFFFF_FFFF_FFFF_FFFF
    ensures var t := Create(s, owner, capacity, created);
      var id := s.broker.nextTokenId;
      && t.ports == s.ports[s.nextPortId := Port(owner, capacity, [])] && t.nextPortId == s.nextPortId + 1
      && id !in s.broker.tokens && t.broker.tokens.Keys == s.broker.tokens.Keys + {id}
      && (forall i | i in s.broker.tokens :: t.broker.tokens[i] == s.broker.tokens[i])
      && t.broker.tokens[id].subject == owner
      && (forall r: Right :: Has(t.broker.tokens[id].permissions, r) <==> r in {CanRead, CanWrite, CanDelegate})
      && (PathCovers(t.broker.tokens[id].resourcePath, PortPath(port)) <==> port == s.nextPortId)
      && HoldsToken(t.broker.tokens, owner, s.nextPortId, now, CanWrite)
      && HoldsToken(t.broker.tokens, owner, s.nextPortId, now, CanRead)
      && HoldsToken(t.broker.tokens, owner, s.nextPortId, now, CanDelegate)
      && t.broker.tokens[id].issuer == 0 && t.broker.tokens[id].issuedAt == created
      && t.broker.tokens[id].expiresAt == 0xFFFF_FFFF_FFFF_FFFF
  {
    var t := Create(s, owner, capacity, created);
    var id := s.broker.nextTokenId;
    PortPathCoversOnlyItself(s.nextPortId, port);
    PortPathCoversOnlyItself(s.nextPortId, s.nextPortId);
    hide PathCovers, PortPath;
    var token := t.broker.tokens[id];
    assert id in t.broker.tokens && Has(token.permissions, CanWrite) && Has(token.permissions, CanRead);
    assert Has(token.permissions, CanDelegate);
  }

  // --------------------------------------------------------------- history

  datatype Op =
    | CreateOp(owner: nat, capacity: nat, now: nat)
    | DeleteOp(port: nat)
    | SendOp(sender: nat, port: nat, payload: seq<bv8>, now: nat)
    | ReceiveOp(receiver: nat, port: nat, now: nat)
    | BrokerOp(call: Call)

  /** A message accepted by, or received from, a port, with the tokens that existed at that moment. */
  datatype Entry =
    | Sent(port: nat, message: Message, now: nat, tokens: map<nat, Token>)
    | Received(port: nat, message: Message, receiver: nat, now: nat, tokens: map<nat, Token>)

  datatype Recorded = Recorded(system: PortSystem, log: seq<Entry>)

  ghost function Do(s: Recorded, op: Op): Recorded {
    var sys := s.system;
    match op
    case CreateOp(owner, capacity, now) => s.(system := Create(sys, owner, capacity, now))
    case DeleteOp(port) => s.(system := Delete(sys, port).0)
    case SendOp(sender, port, payload, now) =>
      var (t, r) := Send(sys, sender, port, payload, now);
      Recorded(t, if r.Ok? then s.log + [Sent(port, Message(sender, payload), now, sys.broker.tokens)] else s.log)
    case ReceiveOp(receiver, port, now) =>
      var (t, r) := Receive(sys, receiver, port, now);
      Recorded(t, if r.Ok? then s.log + [Received(port, r.value, receiver, now, sys.broker.tokens)] else s.log)
    case BrokerOp(call) => s.(system := sys.(broker := Apply(History(sys.broker, map[]), call).broker))
  }

  ghost function DoAll(s: Recorded, ops: seq<Op>): Recorded
    decreases |ops|
  {
    if ops == [] then s else DoAll(Do(s, ops[0]), ops[1..])
  }

  /** The messages accepted for `port`, and those received from it, oldest first. */
  function SentTo(log: seq<Entry>, port: nat): seq<Message> {
    if log == [] then []
    else
      var e := log[|log| - 1];
      SentTo(log[..|log| - 1], port) + if e.Sent? && e.port == port then [e.message] else []
  }

  function ReceivedFrom(log: seq<Entry>, port: nat): seq<Message> {
    if log == [] then []
    else
      var e := log[|log| - 1];
      ReceivedFrom(log[..|log| - 1], port) + if e.Received? && e.port == port then [e.message] else []
  }

  lemma LogGrows(log: seq<Entry>, e: Entry, port: nat)
    ensures SentTo(log + [e], port) == SentTo(log, port) + if e.Sent? && e.port == port then [e.message] else []
    ensures ReceivedFrom(log + [e], port) ==
      ReceivedFrom(log, port) + if e.Received? && e.port == port then [e.message] else []
  {
    assert (log + [e])[..|log + [e]| - 1] == log;
  }

  /** What the broker was asked for that message. */
  function AccessOf(e: Entry): Access {
    if e.Sent? then SendAccess(e.message.sender, e.port, e.now) else ReceiveAccess(e.receiver, e.port, e.now)
  }

  /** The sender or receiver held, at that moment, a live token granting the access. */
  ghost predicate Authorised(e: Entry) {
    exists id | id in e.tokens :: Grants(e.tokens[id], AccessOf(e))
  }

  /** Per port: what was received plus what is queued is what was sent; a deleted port keeps a prefix. */
  ghost predicate InOrder(s: Recorded) {
    && (forall p | p in s.system.ports :: p < s.system.nextPortId)
    && (forall p | p in s.system.ports ::
          && |s.system.ports[p].queue| <= s.system.ports[p].capacity
          && SentTo(s.log, p) == ReceivedFrom(s.log, p) + s.system.ports[p].queue)
    && (forall p :: ReceivedFrom(s.log, p) <= SentTo(s.log, p))
    && (forall p | p >= s.system.nextPortId :: SentTo(s.log, p) == [])
    && (forall i | 0 <= i < |s.log| :: Authorised(s.log[i]))
  }

  lemma SentInOrder(s: Recorded, port: nat, e: Entry)
    requires InOrder(s) && port in s.system.ports && e.Sent? && e.port == port && Authorised(e)
    requires |s.system.ports[port].queue| < s.system.ports[port].capacity
    ensures var p := s.system.ports[port];
      InOrder(Recorded(s.system.(ports := s.system.ports[port := p.(queue := p.queue + [e.message])]), s.log + [e]))
  {
    hide Authorised, SentTo, ReceivedFrom;
    forall p ensures SentTo(s.log + [e], p) == SentTo(s.log, p) + if p == port then [e.message] else []
             ensures ReceivedFrom(s.log + [e], p) == ReceivedFrom(s.log, p)
    {
      LogGrows(s.log, e, p);
    }
  }

  lemma ReceivedInOrder(s: Recorded, port: nat, e: Entry)
    requires InOrder(s) && port in s.system.ports && e.Received? && e.port == port && Authorised(e)
    requires s.system.ports[port].queue != [] && e.message == s.system.ports[port].queue[0]
    ensures var p := s.system.ports[port];
      InOrder(Recorded(s.system.(ports := s.system.ports[port := p.(queue := p.queue[1..])]), s.log + [e]))
  {
    hide Authorised, SentTo, ReceivedFrom;
    forall p ensures SentTo(s.log + [e], p) == SentTo(s.log, p)
             ensures ReceivedFrom(s.log + [e], p) == ReceivedFrom(s.log, p) + if p == port then [e.message] else []
    {
      LogGrows(s.log, e, p);
    }
    var q := s.system.ports[port].queue;
    assert q == [q[0]] + q[1..];
  }

  lemma CreatedInOrder(s: Recorded, owner: nat, capacity: nat, now: nat)
    requires InOrder(s)
    ensures InOrder(s.(system := Create(s.system, owner, capacity, now)))
  {
    hide Authorised, SentTo, ReceivedFrom, IssueIn;
    assert ReceivedFrom(s.log, s.system.nextPortId) <= SentTo(s.log, s.system.nextPortId);
  }

  lemma DoKeepsInOrder(s: Recorded, op: Op)
    requires InOrder(s)
    ensures InOrder(Do(s, op))
  {
    hide Authorised, Decide, IssueIn, Apply, Create, SentTo, ReceivedFrom;
    var t := Do(s, op);
    match op
    case CreateOp(owner, capacity, now) =>
      CreatedInOrder(s, owner, capacity, now);
    case DeleteOp(_) =>
    case SendOp(sender, port, payload, now) =>
      var e := Sent(port, Message(sender, payload), now, s.system.broker.tokens);
      AllowedEntry(e);
      if t.log != s.log {
        SentInOrder(s, port, e);
      }
    case ReceiveOp(receiver, port, now) =>
      if t.log != s.log {
        var e := Received(port, s.system.ports[port].queue[0], receiver, now, s.system.broker.tokens);
        AllowedEntry(e);
        ReceivedInOrder(s, port, e);
      }
    case BrokerOp(_) =>
  }

  lemma AllowedEntry(e: Entry)
    ensures Decide(e.tokens, AccessOf(e)) == Allowed <==> Authorised(e)
  {
  }

  lemma {:induction false} DoAllKeepsInOrder(s: Recorded, ops: seq<Op>)
    requires InOrder(s)
    ensures InOrder(DoAll(s, ops))
    decreases |ops|
  {
    if ops == [] {
    } else {
      DoKeepsInOrder(s, ops[0]);
      DoAllKeepsInOrder(Do(s, ops[0]), ops[1..]);
    }
  }

  /**
   End to end: after any history, on every port the received messages are the accepted ones
   in order, up to the queue; every accepted message was sent by a holder of a live token to
   write, and every received one went to a holder of a live token to read, at that moment;
   and a receive that now succeeds returns the oldest message accepted and not yet received.
   */
  lemma EveryDeliveryIsInOrder(ops: seq<Op>, port: nat, receiver: nat, now: nat)
    ensures var s := DoAll(Recorded(NEW_SYSTEM, []), ops);
      && ReceivedFrom(s.log, port) <= SentTo(s.log, port)
      && (port in s.system.ports ==> SentTo(s.log, port) == ReceivedFrom(s.log, port) + s.system.ports[port].queue)
      && (forall i | 0 <= i < |s.log| && s.log[i].Sent? ::
            HoldsToken(s.log[i].tokens, s.log[i].message.sender, s.log[i].port, s.log[i].now, CanWrite))
      && (forall i | 0 <= i < |s.log| && s.log[i].Received? ::
            HoldsToken(s.log[i].tokens, s.log[i].receiver, s.log[i].port, s.log[i].now, CanRead))
      && var r := Receive(s.system, receiver, port, now).1;
         r.Ok? ==> |ReceivedFrom(s.log, port)| < |SentTo(s.log, port)|
                   && r.value == SentTo(s.log, port)[|ReceivedFrom(s.log, port)|]
  {
    hide HoldsToken, Authorised, PathCovers, PortPath;
    DoAllKeepsInOrder(Recorded(NEW_SYSTEM, []), ops);
    var s := DoAll(Recorded(NEW_SYSTEM, []), ops);
    forall i | 0 <= i < |s.log|
      ensures if s.log[i].Sent? then
                HoldsToken(s.log[i].tokens, s.log[i].message.sender, s.log[i].port, s.log[i].now, CanWrite)
              else HoldsToken(s.log[i].tokens, s.log[i].receiver, s.log[i].port, s.log[i].now, CanRead)
    {
      AuthorisedHolds(s.log[i]);
    }
  }

  lemma AuthorisedHolds(e: Entry)
    requires Authorised(e)
    ensures e.Sent? ==> HoldsToken(e.tokens, e.message.sender, e.port, e.now, CanWrite)
    ensures e.Received? ==> HoldsToken(e.tokens, e.receiver, e.port, e.now, CanRead)
  {
    AllowedEntry(e);
    AccessIff(e.tokens, if e.Sent? then e.message.sender else e.receiver, e.port, e.now);
  }

  /** Once deleted, a port accepts and delivers nothing any more, whatever is done later and whoever asks. */
  lemma DeletedIsGone(s: Recorded, port: nat, ops: seq<Op>, who: nat, payload: seq<bv8>, now: nat)
    requires InOrder(s) && port in s.system.ports
    ensures var t := DoAll(Do(s, DeleteOp(port)), ops);
      && port !in t.system.ports
      && Send(t.system, who, port, payload, now).1.Err? && Receive(t.system, who, port, now).1.Err?
      && SentTo(t.log, port) == SentTo(s.log, port) && ReceivedFrom(t.log, port) == ReceivedFrom(s.log, port)
  {
    DeleteIff(s.system, port);
    DeletedStaysDeleted(Do(s, DeleteOp(port)), port, ops);
  }

  /** A deleted port never comes back, and never accepts or delivers a message again. */
  lemma {:induction false} DeletedStaysDeleted(s: Recorded, port: nat, ops: seq<Op>)
    requires port !in s.system.ports && port < s.system.nextPortId
    ensures var t := DoAll(s, ops);
      && port !in t.system.ports
      && SentTo(t.log, port) == SentTo(s.log, port) && ReceivedFrom(t.log, port) == ReceivedFrom(s.log, port)
    decreases |ops|
  {
    if ops == [] {
    } else {
      var t := Do(s, ops[0]);
      if t.log != s.log {
        LogGrows(s.log, t.log[|s.log|], port);
        assert t.log == s.log + [t.log[|s.log|]];
      }
      DeletedStaysDeleted(t, port, ops[1..]);
    }
  }

  // ------------------------------------------------ confinement, end to end

  /** The calls that operations on ports make to the broker, if the next port to be created is `next`. */
  function BrokerCalls(ops: seq<Op>, next: nat): seq<Call>
    decreases |ops|
  {
    if ops == [] then []
    else
      match ops[0]
      case CreateOp(owner, _, now) =>
        [IssueCall(0, owner, Ipc, PortPath(next), OWNER_PERMISSIONS, now, U64_MAX)] + BrokerCalls(ops[1..], next + 1)
      case DeleteOp(_) => BrokerCalls(ops[1..], next)
      case SendOp(sender, port, _, now) => [CheckCall(SendAccess(sender, port, now))] + BrokerCalls(ops[1..], next)
      case ReceiveOp(receiver, port, now) =>
        [CheckCall(ReceiveAccess(receiver, port, now))] + BrokerCalls(ops[1..], next)
      case BrokerOp(call) => [call] + BrokerCalls(ops[1..], next)
  }

  lemma ApplyToBroker(h: History, g: History, c: Call)
    requires h.broker == g.broker
    ensures Apply(h, c).broker == Apply(g, c).broker
  {
  }

  /** The broker is in the state those calls leave it in. */
  lemma {:induction false} BrokerReplays(s: Recorded, h: History, ops: seq<Op>)
    requires s.system.broker == h.broker
    ensures DoAll(s, ops).system.broker == Replay(h, BrokerCalls(ops, s.system.nextPortId)).broker
    decreases |ops|
  {
    if ops != [] {
      hide Decide, PortPath, IssueIn, RevokeIn, DelegateIn;
      var t, calls := Do(s, ops[0]), BrokerCalls(ops, s.system.nextPortId);
      var rest := BrokerCalls(ops[1..], t.system.nextPortId);
      if ops[0].DeleteOp? {
        BrokerReplays(t, h, ops[1..]);
      } else {
        assert calls == [calls[0]] + rest && calls[1..] == rest;
        if ops[0].BrokerOp? {
          ApplyToBroker(History(s.system.broker, map[]), h, ops[0].call);
        }
        BrokerReplays(t, Apply(h, calls[0]), ops[1..]);
      }
    }
  }

  lemma {:induction false} LogExtends(s: Recorded, ops: seq<Op>)
    ensures s.log <= DoAll(s, ops).log
    decreases |ops|
  {
    if ops != [] {
      LogExtends(Do(s, ops[0]), ops[1..]);
    }
  }

  /** The token is for that port, includes the right to write or to read it, and has not expired. */
  ghost predicate Serves(t: Token, e: Entry) {
    && t.resourceType == Ipc && PathCovers(t.resourcePath, PortPath(e.port)) && e.now < t.expiresAt
    && Has(t.permissions, if e.Sent? then CanWrite else CanRead)
  }

  /** The operation that logs such an entry. */
  function OperationOf(e: Entry): Op {
    if e.Sent? then SendOp(e.message.sender, e.port, e.message.payload, e.now) else ReceiveOp(e.receiver, e.port, e.now)
  }

  /** When a message was logged: by the operation after the first `n`, with the tokens those leave. */
  lemma {:induction false} LoggedAt(s: Recorded, ops: seq<Op>, i: nat) returns (n: nat)
    requires |s.log| <= i < |DoAll(s, ops).log|
    ensures n < |ops| && ops[n] == OperationOf(DoAll(s, ops).log[i])
    ensures DoAll(s, ops[..n]).system.broker.tokens == DoAll(s, ops).log[i].tokens
    decreases |ops|
  {
    var t := Do(s, ops[0]);
    LogExtends(t, ops[1..]);
    if i < |t.log| {
      n := 0;
    } else {
      var m := LoggedAt(t, ops[1..], i);
      n := m + 1;
      assert ops[..n][1..] == ops[1..][..m];
    }
  }

  /**
   No message without a grant: whatever a port accepted or delivered was covered by a token
   that traces, through sound delegations, to one that the calls made before then issued
   directly.
   */
  lemma EveryMessageIsTraced(ops: seq<Op>, i: nat) returns (n: nat, id: nat)
    requires i < |DoAll(Recorded(NEW_SYSTEM, []), ops).log|
    ensures n < |ops| && ops[n] == OperationOf(DoAll(Recorded(NEW_SYSTEM, []), ops).log[i])
    ensures var e := DoAll(Recorded(NEW_SYSTEM, []), ops).log[i];
      var calls := BrokerCalls(ops[..n], 1);
      var h := Replay(NEW_HISTORY, calls);
      && e.tokens == h.broker.tokens && Traced(h) && id in e.tokens && Grants(e.tokens[id], AccessOf(e))
      && SoundChain(h, Chain(h, id), AccessOf(e))
      && e.tokens[id].subject == (if e.Sent? then e.message.sender else e.receiver)
      && Serves(e.tokens[id], e) && !e.tokens[id].revoked
      && var t := e.tokens[Chain(h, id)[0]];
         Serves(t, e) &&
         IssueCall(t.issuer, t.subject, t.resourceType, t.resourcePath, t.permissions, t.issuedAt, t.expiresAt) in calls
  {
    var s := Recorded(NEW_SYSTEM, []);
    hide InOrder, Decide, Do, BrokerCalls, SoundChain, Traced, Grants, AccessOf;
    n := LoggedAt(s, ops, i);
    assert InOrder(s) by { EmptyInOrder(); }
    DoAllKeepsInOrder(s, ops);
    var e := DoAll(s, ops).log[i];
    LoggedIsAllowed(DoAll(s, ops), i);
    BrokerReplays(s, NEW_HISTORY, ops[..n]);
    id := AllowedIsTraced(BrokerCalls(ops[..n], 1), AccessOf(e));
    var h := Replay(NEW_HISTORY, BrokerCalls(ops[..n], 1));
    ChainServes(h, Chain(h, id), e);
  }

  lemma ChainServes(h: History, c: seq<nat>, e: Entry)
    requires SoundChain(h, c, AccessOf(e))
    ensures forall i | 0 <= i < |c| :: c[i] in h.broker.tokens && Serves(h.broker.tokens[c[i]], e)
    ensures AccessOf(e).subject == if e.Sent? then e.message.sender else e.receiver
  {
    hide PathCovers, PortPath;
  }

  lemma EmptyInOrder()
    ensures InOrder(Recorded(NEW_SYSTEM, []))
  {
  }

  lemma LoggedIsAllowed(s: Recorded, i: nat)
    requires InOrder(s) && i < |s.log|
    ensures Decide(s.log[i].tokens, AccessOf(s.log[i])) == Allowed
  {
    AllowedEntry(s.log[i]);
  }

  // ---------------------------------------------------------- the port table

  /** A port as the table stores it: its queue is an object. */
  datatype PortRecord = PortRecord(portId: nat, ownerPid: nat, queue: RingBuffer)

  class PortTable {
    var ports: map<nat, PortRecord>
    var nextPortId: nat

    ghost function Queues(): set<object>
      reads this
    {
      (set p | p in ports :: ports[p].queue as object) + (set p | p in ports :: ports[p].queue.slots as object)
    }

    ghost predicate Valid()
      reads this, Queues()
    {
      && (forall p | p in ports :: p < nextPortId && ports[p].portId == p && ports[p].queue.Valid())
      && (forall p, q | p in ports && q in ports && p != q ::
            ports[p].queue != ports[q].queue && ports[p].queue.slots != ports[q].queue.slots)
    }

    ghost function PortAt(p: nat): Port
      requires p in ports
      reads this, ports[p].queue
    {
      Port(ports[p].ownerPid, ports[p].queue.slots.Length, ports[p].queue.Contents())
    }

    ghost function View(): map<nat, Port>
      reads this, Queues()
    {
      map p | p in ports :: PortAt(p)
    }

    constructor ()
      ensures Valid() && PortSystem(View(), nextPortId, NEW_BROKER) == NEW_SYSTEM
    {
      ports := map[];
      nextPortId := 1;
    }

    /** The table's part of creating a port: the next id, for an empty queue that no port has yet. */
    method Insert(owner: nat, queue: RingBuffer) returns (id: nat)
      requires Valid() && queue.Valid() && queue.Contents() == []
      requires forall p | p in ports :: ports[p].queue != queue && ports[p].queue.slots != queue.slots
      modifies this
      ensures Valid() && id == old(nextPortId) && nextPortId == id + 1
      ensures forall o | o in Queues() :: o in old(Queues()) || o == queue || o == queue.slots
      ensures View() == old(View())[id := Port(owner, queue.slots.Length, [])]
    {
      hide RingBuffer.Valid, RingBuffer.View, RingBuffer.Contents;
      id := nextPortId;
      nextPortId := nextPortId + 1;
      ports := ports[id := PortRecord(id, owner, queue)];
    }

    method AddPort(owner: nat, capacity: nat) returns (id: nat)
      requires Valid()
      modifies this
      ensures Valid() && id == old(nextPortId) && nextPortId == id + 1
      ensures forall o | o in Queues() :: o in old(Queues()) || fresh(o)
      ensures View() == old(View())[id := Port(owner, capacity, [])]
    {
      hide RingBuffer.Valid, RingBuffer.View, RingBuffer.Contents;
      var queue := new RingBuffer(capacity);
      assert View() == old(View()) && Queues() == old(Queues());
      id := Insert(owner, queue);
    }

    method CreatePort(owner: nat, capacity: nat, caps: CapabilityBroker, now: nat) returns (id: nat)
      requires Valid() && caps.Valid()
      modifies this, caps`tokens, caps`nextTokenId
      ensures Valid() && caps.Valid() && id == old(nextPortId)
      ensures forall o | o in Queues() :: o in old(Queues()) || fresh(o)
      ensures PortSystem(View(), nextPortId, caps.View()) ==
        Create(PortSystem(old(View()), old(nextPortId), old(caps.View())), owner, capacity, now)
      ensures nextPortId == id + 1 && View() == old(View())[id := Port(owner, capacity, [])]
    {
      hide RingBuffer.Valid, RingBuffer.View, RingBuffer.Contents, IssueIn, Fresh, PortPath;
      id := AddPort(owner, capacity);
      assert caps !in Queues();
      var token := caps.Issue(0, owner, Ipc, PortPath(id),
                              OWNER_PERMISSIONS, now, U64_MAX);
    }

    method DeletePort(port: nat) returns (r: Result<(), IpcError>)
      requires Valid()
      modifies this
      ensures Valid() && Queues() <= old(Queues())
      ensures forall broker ::
        (PortSystem(View(), nextPortId, broker), r) == Delete(PortSystem(old(View()), old(nextPortId), broker), port)
      ensures ports == old(ports) - {port} && nextPortId == old(nextPortId)
      ensures r == if port in old(ports) then Ok(()) else Err(PortNotFound)
    {
      hide Inv, Queue;
      if port !in ports {
        return Err(PortNotFound);
      }
      ports := ports - {port};
      assert View() == old(View()) - {port};
      return Ok(());
    }

    lemma KnownPorts()
      requires Valid()
      ensures forall p: nat :: p in View() <==> p in ports
    {
    }

    /** The table's part of sending, once allowed. */
    method EnqueueAt(port: nat, message: Message) returns (r: Result<(), IpcError>)
      requires Valid() && port in ports
      modifies Queues()
      ensures Valid() && port in old(View())
      ensures var p := old(View())[port];
        if |p.queue| >= p.capacity then r == Err(QueueFull) && View() == old(View())
        else r == Ok(()) && View() == old(View())[port := p.(queue := p.queue + [message])]
    {
      hide RingBuffer.Valid, RingBuffer.View, RingBuffer.Contents, EnqueueAlone;
      r := ports[port].queue.Enqueue(message);
      assert View() == old(View())[port := PortAt(port)];
    }

    /** The table's part of receiving, once allowed. */
    method DequeueAt(port: nat) returns (r: Result<Message, IpcError>)
      requires Valid() && port in ports
      modifies Queues()
      ensures Valid() && port in old(View())
      ensures var p := old(View())[port];
        if p.queue == [] then r == Err(QueueEmpty) && View() == old(View())
        else r == Ok(p.queue[0]) && View() == old(View())[port := p.(queue := p.queue[1..])]
    {
      hide RingBuffer.Valid, RingBuffer.View, RingBuffer.Contents, DequeueAlone;
      r := ports[port].queue.Dequeue();
      assert View() == old(View())[port := PortAt(port)];
    }

    method SendMessage(sender: nat, port: nat, payload: seq<bv8>, caps: CapabilityBroker, now: nat)
      returns (r: Result<(), IpcError>)
      requires Valid() && caps.Valid()
      modifies Queues(), caps`auditLog
      ensures Valid() && caps.Valid()
      ensures (PortSystem(View(), nextPortId, caps.View()), r) ==
        Send(PortSystem(old(View()), old(nextPortId), old(caps.View())), sender, port, payload, now)
      ensures r == Err(CapabilityDenied) <==> !HoldsToken(caps.tokens, sender, port, now, CanWrite)
      ensures var d := old(Decide(caps.tokens, SendAccess(sender, port, now)));
        caps.auditLog == old(caps.auditLog) + [AuditEntry(now, sender, Ipc, PortPath(port), d)]
      ensures r.Ok? ==>
        && port in old(View()) && |old(View())[port].queue| < old(View())[port].capacity
        && var p := old(View())[port];
           View() == old(View())[port := Port(p.owner, p.capacity, p.queue + [Message(sender, payload)])]
      ensures r.Err? ==> View() == old(View())
    {
      hide Decide, Fresh, PortTable.View, PortTable.Valid, HoldsToken, PathCovers;
      AccessIff(caps.tokens, sender, port, now);
      var decision := caps.CheckAccess(SendAccess(sender, port, now));
      KnownPorts();
      if decision != Allowed {
        return Err(CapabilityDenied);
      }
      if port !in ports {
        return Err(PortNotFound);
      }
      r := EnqueueAt(port, Message(sender, payload));
    }

    method ReceiveMessage(receiver: nat, port: nat, caps: CapabilityBroker, now: nat)
      returns (r: Result<Message, IpcError>)
      requires Valid() && caps.Valid()
      modifies Queues(), caps`auditLog
      ensures Valid() && caps.Valid()
      ensures (PortSystem(View(), nextPortId, caps.View()), r) ==
        Receive(PortSystem(old(View()), old(nextPortId), old(caps.View())), receiver, port, now)
      ensures r == Err(CapabilityDenied) <==> !HoldsToken(caps.tokens, receiver, port, now, CanRead)
      ensures var d := old(Decide(caps.tokens, ReceiveAccess(receiver, port, now)));
        caps.auditLog == old(caps.auditLog) + [AuditEntry(now, receiver, Ipc, PortPath(port), d)]
      ensures r.Ok? ==>
        && port in old(View()) && old(View())[port].queue != [] && r.value == old(View())[port].queue[0]
        && var p := old(View())[port];
           View() == old(View())[port := Port(p.owner, p.capacity, p.queue[1..])]
      ensures r.Err? ==> View() == old(View())
    {
      hide Decide, Fresh, PortTable.View, PortTable.Valid, HoldsToken, PathCovers;
      AccessIff(caps.tokens, receiver, port, now);
      var decision := caps.CheckAccess(ReceiveAccess(receiver, port, now));
      KnownPorts();
      if decision != Allowed {
        return Err(CapabilityDenied);
      }
      if port !in ports {
        return Err(PortNotFound);
      }
      r := DequeueAt(port);
    }
  }
}
