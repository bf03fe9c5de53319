// internal/messagebus/kafka/kafka.go: the connection cache and the one
// reconnect, used from a single thread.
module Kafka {
  import opened Options

  // What DialLeader and WriteMessages answer in the coming calls. Once a list
  // has run out every further call succeeds.
  datatype DialAnswer = Dialled | DialFails(code: nat) | DialNothing
  datatype WriteError = Stale(code: nat) | Other(code: nat) // Stale: shouldRestartOnErr

  type Dials = seq<DialAnswer>
  type Writes = seq<Option<WriteError>>

  type Conn = nat

  // One write: its connection, the message and how it ended.
  type WriteRecord = (Conn, Message, Option<WriteError>)

  // A message as written: value and headers, which SendMessage leaves empty.
  datatype Message = Message(value: string, headers: map<string, string>)

  // The broker's side: connections in the order they were dialled, which of
  // them are closed, and every write with its outcome.
  datatype Broker = Broker(
    dialled: nat,
    closed: multiset<Conn>,
    writes: seq<WriteRecord>,
    dials: Dials,
    answers: Writes)

  // conns, by topic, and the broker.
  datatype Bus = Bus(conns: map<string, Conn>, broker: Broker)

  datatype Outcome =
    | Sent            // a nil error
    | NotDialled(code: nat)
    | WriteFailed(code: nat)
    | Exits           // os.Exit(1)

  // ---- specification ------------------------------------------------------------------

  // strings.ReplaceAll(queue, "/", "_").
  function Topic(queue: string): string {
    seq(|queue|, i requires 0 <= i < |queue| => if queue[i] == '/' then '_' else queue[i])
  }

  function Front<T>(xs: seq<T>, default: T): T { if xs == [] then default else xs[0] }

  function Rest<T>(xs: seq<T>): seq<T> { if xs == [] then [] else xs[1..] }

  // TopicConnect: the cached connection or a new one.
  datatype Connected = Connected(bus: Bus, conn: Option<Conn>, error: Option<nat>)

  function Connect(bus: Bus, topic: string): Connected {
    if topic in bus.conns then Connected(bus, Some(bus.conns[topic]), None)
    else
      var b := bus.broker.(dials := Rest(bus.broker.dials));
      match Front(bus.broker.dials, Dialled)
      case Dialled =>
        Connected(Bus(bus.conns[topic := b.dialled], b.(dialled := b.dialled + 1)), Some(b.dialled), None)
      case DialFails(code) => Connected(bus.(broker := b), None, Some(code))
      case DialNothing => Connected(bus.(broker := b), None, None)
  }

  function Write(bus: Bus, conn: Conn, message: Message): (r: (Bus, Option<WriteError>)) {
    var b := bus.broker;
    var e := Front(b.answers, None);
    (bus.(broker := b.(writes := b.writes + [(conn, message, e)], answers := Rest(b.answers))), e)
  }

  // Closes the cached connection of a topic and forgets it.
  function Drop(bus: Bus, topic: string): Bus {
    if topic in bus.conns then
      Bus(bus.conns - {topic}, bus.broker.(closed := bus.broker.closed + multiset{bus.conns[topic]}))
    else bus
  }

  // SendMessage and SendMessageWithHeaders.
  function Send(bus: Bus, topic: string, message: Message): (Bus, Outcome) {
    var c := Connect(bus, topic);
    if c.conn == None then (c.bus, match c.error case Some(code) => NotDialled(code) case None => Sent)
    else
      var w := Write(c.bus, c.conn.value, message);
      match w.1
      case None => (w.0, Sent)
      case Some(Other(code)) => (w.0, WriteFailed(code))
      case Some(Stale(_)) => Resend(Drop(w.0, topic), topic, message)
  }

  // The one reconnect; a second failure ends the process.
  function Resend(bus: Bus, topic: string, message: Message): (Bus, Outcome) {
    var c := Connect(bus, topic);
    if c.conn == None then (c.bus, Exits)
    else
      var w := Write(c.bus, c.conn.value, message);
      (w.0, if w.1.Some? then Exits else Sent)
  }

  // ---- invariant -------------------------------------------------------------------------

  // Every dialled connection is in the cache under one topic or closed, and is
  // closed at most once; what is in the cache is open.
  ghost predicate Valid(bus: Bus) {
    && (forall t :: t in bus.conns ==> bus.conns[t] < bus.broker.dialled && bus.broker.closed[bus.conns[t]] == 0)
    && (forall t, u :: t in bus.conns && u in bus.conns && t != u ==> bus.conns[t] != bus.conns[u])
    && (forall c: Conn :: c < bus.broker.dialled ==> bus.broker.closed[c] == 1 || c in bus.conns.Values)
    && (forall c: Conn :: bus.broker.closed[c] <= 1 && (c in bus.broker.closed ==> c < bus.broker.dialled))
  }

  // A cache with one more, freshly dialled, connection.
  lemma DialledValid(bus: Bus, topic: string, after: Bus)
    requires Valid(bus) && topic !in bus.conns
    requires after.conns == bus.conns[topic := bus.broker.dialled]
    requires after.broker.dialled == bus.broker.dialled + 1 && after.broker.closed == bus.broker.closed
    ensures Valid(after)
  {
    forall c: Conn | c < after.broker.dialled ensures after.broker.closed[c] == 1 || c in after.conns.Values {
      if c == bus.broker.dialled {
        assert after.conns[topic] == c;
      } else if bus.broker.closed[c] != 1 {
        var t :| t in bus.conns && bus.conns[t] == c;
        assert after.conns[t] == c;
      }
    }
  }

  lemma ConnectValid(bus: Bus, topic: string)
    requires Valid(bus)
    ensures var r := Connect(bus, topic);
            && Valid(r.bus)
            && (r.conn.Some? ==> topic in r.bus.conns && r.bus.conns[topic] == r.conn.value && r.error == None)
            && (r.conn == None ==> r.bus.conns == bus.conns)
            && r.bus.broker.writes == bus.broker.writes && r.bus.broker.closed == bus.broker.closed
            && bus.broker.dialled <= r.bus.broker.dialled
            && (topic !in bus.conns && r.conn.Some? ==> r.conn.value == bus.broker.dialled)
  {
    var r := Connect(bus, topic);
    if topic !in bus.conns && r.conn.Some? {
      DialledValid(bus, topic, r.bus);
    }
  }

  lemma DropValid(bus: Bus, topic: string)
    requires Valid(bus)
    ensures Valid(Drop(bus, topic)) && topic !in Drop(bus, topic).conns
    ensures Drop(bus, topic).broker.writes == bus.broker.writes
    ensures topic in bus.conns ==>
              bus.conns[topic] < Drop(bus, topic).broker.dialled
              && Drop(bus, topic).broker.closed[bus.conns[topic]] == 1
  {
    var r := Drop(bus, topic);
    if topic in bus.conns {
      forall c: Conn | c < r.broker.dialled ensures r.broker.closed[c] == 1 || c in r.conns.Values {
        if c != bus.conns[topic] && bus.broker.closed[c] != 1 {
          var t :| t in bus.conns && bus.conns[t] == c;
          assert r.conns[t] == c;
        }
      }
    }
  }

  // ---- what a send promises --------------------------------------------------------------

  // The writes a send added.
  function Added(before: Bus, after: Bus): seq<WriteRecord>
    requires before.broker.writes <= after.broker.writes
  {
    after.broker.writes[|before.broker.writes|..]
  }

  predicate IsStale(e: Option<WriteError>) { e.Some? && e.value.Stale? }

  // At most two writes, each of this message, and a second one only after the
  // first found its connection stale.
  ghost predicate FewWrites(before: Bus, after: Bus, message: Message) {
    && before.broker.writes <= after.broker.writes
    && var writes := Added(before, after);
       && |writes| <= 2
       && (forall w :: w in writes ==> w.1 == message)
       && (|writes| == 2 ==> IsStale(writes[0].2) && writes[0].0 != writes[1].0)
  }

  // A nil error means exactly one successful write, the last; the one other way
  // to get it is a dial that yields neither a connection nor an error.
  ghost predicate OutcomeTold(before: Bus, after: Bus, topic: string, outcome: Outcome) {
    && before.broker.writes <= after.broker.writes
    && var writes := Added(before, after);
       match outcome
       case Sent =>
         || (1 <= |writes| <= 2 && writes[|writes| - 1].2 == None && (|writes| == 2 ==> writes[0].2.Some?))
         || (writes == [] && topic !in before.conns && Front(before.broker.dials, Dialled) == DialNothing)
       case NotDialled(code) =>
         writes == [] && topic !in before.conns && Front(before.broker.dials, Dialled) == DialFails(code)
       case WriteFailed(code) => |writes| == 1 && writes[0].2 == Some(Other(code))
       case Exits => writes != [] && forall w :: w in writes ==> w.2.Some?
  }

  // After a recovered failure the topic has a new connection and the old one is
  // closed; without a stale connection nothing is closed; other topics keep
  // their connections.
  ghost predicate CacheRenewed(before: Bus, after: Bus, topic: string, outcome: Outcome) {
    && before.broker.writes <= after.broker.writes
    && var writes := Added(before, after);
       && (outcome == Sent && |writes| == 2 ==>
             && topic in after.conns && after.conns[topic] == writes[1].0
             && writes[1].0 >= before.broker.dialled
             && after.broker.closed[writes[0].0] == 1)
       && (writes == [] || !IsStale(writes[0].2) ==> after.broker.closed == before.broker.closed)
       && OthersKept(before, after, topic)
  }

  ghost predicate SendPost(before: Bus, after: Bus, topic: string, message: Message, outcome: Outcome) {
    && FewWrites(before, after, message)
    && OutcomeTold(before, after, topic, outcome)
    && CacheRenewed(before, after, topic, outcome)
  }

  lemma AddedTwo(before: Bus, after: Bus, v: WriteRecord, w: WriteRecord)
    requires after.broker.writes == before.broker.writes + [v] + [w]
    ensures before.broker.writes <= after.broker.writes && Added(before, after) == [v, w]
  {
  }

  lemma WriteValid(bus: Bus, conn: Conn, message: Message)
    requires Valid(bus)
    ensures Valid(Write(bus, conn, message).0)
  {
  }

  // Topics other than the one sent to are served as before.
  ghost predicate OthersKept(before: Bus, after: Bus, topic: string) {
    forall t :: t != topic ==>
      && (t in after.conns <==> t in before.conns)
      && (t in before.conns ==> after.conns[t] == before.conns[t])
  }

  lemma ConnectKeepsOthers(before: Bus, bus: Bus, topic: string)
    requires OthersKept(before, bus, topic)
    ensures OthersKept(before, Connect(bus, topic).bus, topic)
  {
  }

  lemma NotConnected(bus: Bus, topic: string)
    requires Connect(bus, topic).conn == None
    ensures var c := Connect(bus, topic);
            SendPost(bus, c.bus, topic, Message("", map[]),
                     match c.error case Some(code) => NotDialled(code) case None => Sent)
    ensures Added(bus, Connect(bus, topic).bus) == []
  {
    assert Added(bus, Connect(bus, topic).bus) == [];
  }

  // One write that did not find its connection stale.
  lemma WrittenOnce(before: Bus, after: Bus, topic: string, message: Message, conn: Conn, e: Option<WriteError>)
    requires after.broker.writes == before.broker.writes + [(conn, message, e)] && !IsStale(e)
    requires after.broker.closed == before.broker.closed && OthersKept(before, after, topic)
    ensures SendPost(before, after, topic, message, match e case Some(x) => WriteFailed(x.code) case None => Sent)
  {
  }

  // A stale write and no new connection.
  lemma StaleOnce(before: Bus, after: Bus, topic: string, message: Message, v: WriteRecord)
    requires after.broker.writes == before.broker.writes + [v] && v.1 == message && IsStale(v.2)
    requires OthersKept(before, after, topic)
    ensures SendPost(before, after, topic, message, Exits)
  {
  }

  // A stale write and another one on a new connection.
  lemma StaleThenWritten(before: Bus, after: Bus, topic: string, message: Message,
                         v: WriteRecord, conn: Conn, e: Option<WriteError>)
    requires after.broker.writes == before.broker.writes + [v] + [(conn, message, e)] && v.1 == message && IsStale(v.2)
    requires v.0 < conn && before.broker.dialled <= conn && topic in after.conns && after.conns[topic] == conn
    requires after.broker.closed[v.0] == 1 && OthersKept(before, after, topic)
    ensures SendPost(before, after, topic, message, if e.Some? then Exits else Sent)
  {
    AddedTwo(before, after, v, (conn, message, e));
  }

  // The second half of a send, from the state in which the stale write was made
  // and the connection dropped.
  lemma ResendKeeps(before: Bus, bus: Bus, topic: string, message: Message, v: WriteRecord)
    requires Valid(bus) && topic !in bus.conns
    requires bus.broker.writes == before.broker.writes + [v] && v.1 == message && IsStale(v.2)
    requires v.0 < bus.broker.dialled && bus.broker.closed[v.0] == 1 && before.broker.dialled <= bus.broker.dialled
    requires OthersKept(before, bus, topic)
    ensures var (after, outcome) := Resend(bus, topic, message);
            Valid(after) && SendPost(before, after, topic, message, outcome)
  {
    ConnectValid(bus, topic);
    ConnectKeepsOthers(before, bus, topic);
    var c := Connect(bus, topic);
    hide Valid, Connect, SendPost, OthersKept;
    if c.conn == None {
      StaleOnce(before, c.bus, topic, message, v);
    } else {
      WriteValid(c.bus, c.conn.value, message);
      var w := Write(c.bus, c.conn.value, message);
      assert OthersKept(before, w.0, topic) by { SameConns(before, c.bus, w.0, topic); }
      StaleThenWritten(before, w.0, topic, message, v, c.conn.value, w.1);
    }
  }

  lemma SameConns(before: Bus, bus: Bus, after: Bus, topic: string)
    requires OthersKept(before, bus, topic) && after.conns == bus.conns
    ensures OthersKept(before, after, topic)
  {
  }

  lemma DropKeepsOthers(before: Bus, bus: Bus, topic: string)
    requires OthersKept(before, bus, topic)
    ensures OthersKept(before, Drop(bus, topic), topic)
  {
  }

  lemma SendKeeps(bus: Bus, topic: string, message: Message)
    requires Valid(bus)
    ensures var (after, outcome) := Send(bus, topic, message);
            Valid(after) && SendPost(bus, after, topic, message, outcome)
  {
    ConnectValid(bus, topic);
    var c := Connect(bus, topic);
    assert OthersKept(bus, bus, topic);
    ConnectKeepsOthers(bus, bus, topic);
    if c.conn == None {
      hide Valid;
      NotConnected(bus, topic);
    } else {
      hide Valid, Connect, SendPost, OthersKept, Resend;
      WriteValid(c.bus, c.conn.value, message);
      var w := Write(c.bus, c.conn.value, message);
      SameConns(bus, c.bus, w.0, topic);
      if !IsStale(w.1) {
        WrittenOnce(bus, w.0, topic, message, c.conn.value, w.1);
      } else {
        DropValid(w.0, topic);
        DropKeepsOthers(bus, w.0, topic);
        ResendKeeps(bus, Drop(w.0, topic), topic, message, (c.conn.value, message, w.1));
      }
    }
  }

  // A nil error without any write: exactly when the topic has no connection and
  // the dial yields neither a connection nor an error.
  lemma SilentLoss(bus: Bus, topic: string, message: Message)
    requires Valid(bus)
    ensures var (after, outcome) := Send(bus, topic, message);
            outcome == Sent && after.broker.writes == bus.broker.writes
            <==> topic !in bus.conns && Front(bus.broker.dials, Dialled) == DialNothing
  {
    SendKeeps(bus, topic, message);
    var (after, outcome) := Send(bus, topic, message);
    assert after.broker.writes == bus.broker.writes ==> Added(bus, after) == [];
  }

  // An input on which it happens.
  lemma LostMessage(message: Message)
    ensures var start := Bus(map[], Broker(0, multiset{}, [], [DialNothing], []));
            Valid(start) && Send(start, "metrics", message).1 == Sent
            && Send(start, "metrics", message).0.broker.writes == []
  {
  }

  // ---- a send, case by case --------------------------------------------------------------

  // Every outcome from the cache and from what the next dials and writes answer:
  // d0 is the first dial, if one is needed, d1 the one after a stale write, w0 and
  // w1 the writes.
  lemma OutcomeExactly(bus: Bus, topic: string, message: Message)
    requires Valid(bus)
    ensures var (after, outcome) := Send(bus, topic, message);
            var cached, dials, answers := topic in bus.conns, bus.broker.dials, bus.broker.answers;
            var d0 := if cached || dials == [] then Dialled else dials[0];
            var left := if cached || dials == [] then dials else dials[1..];
            var d1 := if left == [] then Dialled else left[0];
            var w0 := if answers == [] then None else answers[0];
            var w1 := if |answers| < 2 then None else answers[1];
            var conn := if cached then bus.conns[topic] else bus.broker.dialled;
            var writes := bus.broker.writes;
            match d0
            case DialFails(code) => outcome == NotDialled(code) && after.broker.writes == writes
            case DialNothing => outcome == Sent && after.broker.writes == writes
            case Dialled =>
              match w0
              case None =>
                && outcome == Sent && after.broker.writes == writes + [(conn, message, w0)]
                && topic in after.conns && after.conns[topic] == conn
              case Some(Other(code)) =>
                && outcome == WriteFailed(code) && after.broker.writes == writes + [(conn, message, w0)]
                && topic in after.conns && after.conns[topic] == conn
              case Some(Stale(_)) =>
                if d1 != Dialled then outcome == Exits && after.broker.writes == writes + [(conn, message, w0)]
                else
                  var again := if cached then bus.broker.dialled else bus.broker.dialled + 1;
                  && outcome == (if w1 == None then Sent else Exits)
                  && after.broker.writes == writes + [(conn, message, w0)] + [(again, message, w1)]
                  && topic in after.conns && after.conns[topic] == again
  {
    var c := Connect(bus, topic);
    if c.conn.Some? {
      var w := Write(c.bus, c.conn.value, message);
      assert topic in w.0.conns;
      assert topic !in Drop(w.0, topic).conns;
    }
  }

  // Two queues share a topic exactly when they differ only in "/" against "_".
  lemma SharedTopic(a: string, b: string)
    ensures Topic(a) == Topic(b) <==>
              |a| == |b| && forall i :: 0 <= i < |a| ==> a[i] == b[i] || {a[i], b[i]} == {'/', '_'}
    ensures '/' !in Topic(a) && |Topic(a)| == |a|
    ensures forall i :: 0 <= i < |a| && a[i] != '/' ==> Topic(a)[i] == a[i]
    ensures forall i :: 0 <= i < |a| && a[i] == '/' ==> Topic(a)[i] == '_'
  {
    if Topic(a) == Topic(b) {
      assert |Topic(a)| == |a| && |Topic(b)| == |b|;
      forall i | 0 <= i < |a| ensures a[i] == b[i] || {a[i], b[i]} == {'/', '_'} {
        assert Topic(a)[i] == Topic(b)[i];
      }
    } else if |a| == |b| {
      var i :| 0 <= i < |a| && Topic(a)[i] != Topic(b)[i];
      assert !(a[i] == b[i] || {a[i], b[i]} == {'/', '_'});
    }
  }

  // ---- whole histories ---------------------------------------------------------------------

  datatype Op = SendOp(queue: string, message: Message) | CloseOp

  // Close: every cached connection is closed and forgotten.
  function CloseAll(bus: Bus): Bus {
    Bus(map[], bus.broker.(closed := bus.broker.closed + multiset(bus.conns.Values)))
  }

  // The state after some operations, unless one of them ended the process.
  function After(bus: Bus, ops: seq<Op>): Option<Bus> {
    if ops == [] then Some(bus)
    else
      match After(bus, ops[..|ops| - 1])
      case None => None
      case Some(b) =>
        match ops[|ops| - 1]
        case CloseOp => Some(CloseAll(b))
        case SendOp(queue, message) =>
          var (c, outcome) := Send(b, Topic(queue), message);
          if outcome == Exits then None else Some(c)
  }

  lemma CloseAllValid(bus: Bus)
    requires Valid(bus)
    ensures Valid(CloseAll(bus))
    ensures forall c: Conn :: CloseAll(bus).broker.closed[c] == if c < bus.broker.dialled then 1 else 0
  {
    forall c: Conn ensures CloseAll(bus).broker.closed[c] == if c < bus.broker.dialled then 1 else 0 {
      assert multiset(bus.conns.Values)[c] == if c in bus.conns.Values then 1 else 0;
    }
  }

  // Over any single-threaded history, from a new bus or any other valid one,
  // every dialled connection is cached or closed, never both, and after a final
  // Close all are closed.
  lemma {:induction false} HistoryKeepsConnections(start: Bus, ops: seq<Op>)
    requires Valid(start)
    ensures match After(start, ops)
            case None => true
            case Some(b) =>
              && Valid(b)
              && (forall c: Conn :: c < b.broker.dialled ==> (c in b.conns.Values <==> b.broker.closed[c] == 0))
              && (ops != [] && ops[|ops| - 1] == CloseOp ==>
                   forall c: Conn :: c < b.broker.dialled ==> b.broker.closed[c] == 1)
    decreases |ops|
  {
    if ops != [] {
      HistoryKeepsConnections(start, ops[..|ops| - 1]);
      var before := After(start, ops[..|ops| - 1]);
      if before.Some? {
        match ops[|ops| - 1]
        case CloseOp => CloseAllValid(before.value);
        case SendOp(queue, message) => SendKeeps(before.value, Topic(queue), message);
      }
    }
  }

  // ---- the class ---------------------------------------------------------------------------

  class KafkaMessagebus {
    var conns: map<string, Conn>
    var broker: Broker

    constructor (dials: Dials, answers: Writes)
      ensures State() == Bus(map[], Broker(0, multiset{}, [], dials, answers)) && Valid(State())
    {
      conns, broker := map[], Broker(0, multiset{}, [], dials, answers);
    }

    function State(): Bus
      reads this
    {
      Bus(conns, broker)
    }

    method TopicConnect(queue: string) returns (kconn: Option<Conn>, err: Option<nat>)
      modifies this
      ensures Connected(State(), kconn, err) == Connect(old(State()), Topic(queue))
    {
      var topic := Topic(queue);
      if topic !in conns {
        var answer := Front(broker.dials, Dialled);
        broker := broker.(dials := Rest(broker.dials));
        match answer {
          case Dialled =>
            var conn := broker.dialled;
            broker := broker.(dialled := broker.dialled + 1);
            conns := conns[topic := conn];
            return Some(conn), None;
          case DialFails(code) => return None, Some(code);
          case DialNothing => return None, None;
        }
      }
      kconn, err := Some(conns[topic]), None;
    }

    method WriteMessages(conn: Conn, message: Message) returns (err: Option<WriteError>)
      modifies this`broker
      ensures (State(), err) == Write(old(State()), conn, message)
    {
      err := Front(broker.answers, None);
      broker := broker.(writes := broker.writes + [(conn, message, err)], answers := Rest(broker.answers));
    }

    method SendMessageWithHeaders(message: string, queue: string, headers: map<string, string>)
      returns (outcome: Outcome)
      requires Valid(State())
      modifies this
      ensures (State(), outcome) == Send(old(State()), Topic(queue), Message(message, headers))
      ensures Valid(State()) && SendPost(old(State()), State(), Topic(queue), Message(message, headers), outcome)
    {
      hide Valid, SendPost, Topic;
      SendKeeps(State(), Topic(queue), Message(message, headers));
      var kconn, err := TopicConnect(queue);
      if err.Some? || kconn == None {
        return if err.Some? then NotDialled(err.value) else Sent;
      }
      var werr := WriteMessages(kconn.value, Message(message, headers));
      if werr.Some? {
        if werr.value.Other? {
          return WriteFailed(werr.value.code);
        }
        var topic := Topic(queue);
        if topic in conns {
          var staleConn := conns[topic];
          broker := broker.(closed := broker.closed + multiset{staleConn});
          conns := conns - {topic};
        }
        kconn, err := TopicConnect(queue);
        if err.Some? || kconn == None {
          return Exits;
        }
        werr := WriteMessages(kconn.value, Message(message, headers));
        if werr.Some? {
          return Exits;
        }
      }
      outcome := Sent;
    }

    // The same without headers; the two bodies of the source differ in nothing
    // else.
    method SendMessage(message: string, queue: string) returns (outcome: Outcome)
      requires Valid(State())
      modifies this
      ensures (State(), outcome) == Send(old(State()), Topic(queue), Message(message, map[]))
      ensures Valid(State()) && SendPost(old(State()), State(), Topic(queue), Message(message, map[]), outcome)
    {
      outcome := SendMessageWithHeaders(message, queue, map[]);
    }

    // closeErrors says which connections fail to close; they count as closed all
    // the same.
    method Close(closeErrors: map<Conn, nat>) returns (err: Option<nat>)
      requires Valid(State())
      modifies this
      ensures Valid(State())
      ensures State() == CloseAll(old(State()))
      ensures ErrorTold(old(conns.Values), closeErrors, err)
    {
      CloseAllValid(State());
      ghost var before, done := State(), {};
      NoneClosed(before);
      NoError(before.conns, closeErrors);
      var todo := conns.Keys;
      err := None;
      hide *;
      while todo != {}
        invariant todo == before.conns.Keys - done && done <= before.conns.Keys
        invariant State() == ClosedSome(before, done)
        invariant ErrorTold(Values(before.conns, done), closeErrors, err)
        decreases todo
      {
        var topic :| topic in todo;
        OneMoreClosed(before, done, topic);
        ErrorMore(before.conns, done, topic, closeErrors, err);
        if conns[topic] in closeErrors {
          err := Some(closeErrors[conns[topic]]);
        }
        broker := broker.(closed := broker.closed + multiset{conns[topic]});
        conns := conns - {topic};
        todo, done := todo - {topic}, done + {topic};
      }
      AllClosed(before, done);
    }
  }

  // The error returned after closing these connections: none exactly when all
  // closed well, otherwise one that occurred.
  ghost predicate ErrorTold(conns: set<Conn>, closeErrors: map<Conn, nat>, err: Option<nat>) {
    match err
    case None => conns !! closeErrors.Keys
    case Some(code) => exists c :: c in conns && c in closeErrors && closeErrors[c] == code
  }

  lemma NoError(conns: map<string, Conn>, closeErrors: map<Conn, nat>)
    ensures ErrorTold(Values(conns, {}), closeErrors, None)
  {
  }

  lemma ErrorMore(conns: map<string, Conn>, done: set<string>, topic: string,
                  closeErrors: map<Conn, nat>, err: Option<nat>)
    requires done <= conns.Keys && topic in conns && ErrorTold(Values(conns, done), closeErrors, err)
    ensures var c := conns[topic];
            ErrorTold(Values(conns, done + {topic}), closeErrors,
                      if c in closeErrors then Some(closeErrors[c]) else err)
  {
    var c := conns[topic];
    assert Values(conns, done + {topic}) == Values(conns, done) + {c};
  }

  function Values(conns: map<string, Conn>, topics: set<string>): set<Conn>
    requires topics <= conns.Keys
  {
    set t | t in topics :: conns[t]
  }

  // Close after it has dealt with some of the topics.
  function ClosedSome(bus: Bus, done: set<string>): Bus
    requires done <= bus.conns.Keys
  {
    Bus(bus.conns - done, bus.broker.(closed := bus.broker.closed + multiset(Values(bus.conns, done))))
  }

  lemma NoneClosed(bus: Bus)
    ensures ClosedSome(bus, {}) == bus
  {
    assert bus.conns - {} == bus.conns;
    assert Values(bus.conns, {}) == {};
  }

  lemma AllClosed(bus: Bus, done: set<string>)
    requires done <= bus.conns.Keys && bus.conns.Keys - done == {}
    ensures ClosedSome(bus, done) == CloseAll(bus) && Values(bus.conns, done) == bus.conns.Values
  {
    forall t | t in bus.conns.Keys ensures t in done {
      assert t in done || t in bus.conns.Keys - done;
    }
    assert bus.conns - done == map[];
    assert Values(bus.conns, done) == bus.conns.Values;
  }

  lemma OneMoreClosed(bus: Bus, done: set<string>, topic: string)
    requires Valid(bus) && done <= bus.conns.Keys && topic in bus.conns.Keys - done
    ensures topic in ClosedSome(bus, done).conns && ClosedSome(bus, done).conns[topic] == bus.conns[topic]
    ensures ClosedSome(bus, done + {topic}) == Drop(ClosedSome(bus, done), topic)
  {
    ValuesMore(bus.conns, done, topic);
    assert bus.conns - (done + {topic}) == (bus.conns - done) - {topic};
  }

  lemma ValuesMore(conns: map<string, Conn>, topics: set<string>, topic: string)
    requires topics <= conns.Keys && topic in conns && topic !in topics
    requires forall t, u :: t in conns && u in conns && t != u ==> conns[t] != conns[u]
    ensures multiset(Values(conns, topics + {topic})) == multiset(Values(conns, topics)) + multiset{conns[topic]}
  {
    assert Values(conns, topics + {topic}) == Values(conns, topics) + {conns[topic]};
    assert conns[topic] !in Values(conns, topics);
  }
}
