// Publish and subscribe: HandleSubscribeEnvelope, SendGroup and GetGroup of
// internal/databus/databus.go over ListenToQueueFiltered of
// internal/service/service.go.
module Databus {
  import opened Options
  import opened Sequences
  import opened Wire

  const GET: string := "get"
  const SUBSCRIBE: string := "subscribe"
  const DATAGROUP: string := "datagroup"

  // make(chan ..., 10), twice on the way to a pump.
  const CAPACITY: nat := 10

  datatype Group = Group(code: nat)

  // The JSON form of a DataGroup.
  datatype Codec = Codec(encode: Group -> string, decode: string -> Option<Group>)

  ghost predicate Inverse(codec: Codec) {
    forall g :: codec.decode(codec.encode(g)) == Some(g)
  }

  function GroupEnvelope(codec: Codec, g: Group): Envelope {
    Envelope(DATAGROUP, "", "", "", "", codec.encode(g))
  }

  // ---- the service ------------------------------------------------------------------

  // The receivers after an envelope of any kind has passed the hook.
  function Subscribed(receivers: seq<string>, env: Envelope): seq<string> {
    if env.kind == SUBSCRIBE then WithReceiver(receivers, env.replyTo) else receivers
  }

  function WithReceiver(receivers: seq<string>, queue: string): seq<string> {
    if queue == "" || queue in receivers then receivers else receivers + [queue]
  }

  // A subscriber is listed once however often it subscribes, nobody is dropped,
  // and nobody else appears.
  lemma SubscribedKeeps(receivers: seq<string>, env: Envelope)
    requires Distinct(receivers) && "" !in receivers
    ensures Distinct(Subscribed(receivers, env)) && "" !in Subscribed(receivers, env)
    ensures receivers <= Subscribed(receivers, env)
    ensures forall q :: q in Subscribed(receivers, env) <==>
              q in receivers || (env.kind == SUBSCRIBE && q == env.replyTo && q != "")
  {
    var more := Subscribed(receivers, env);
    if more != receivers {
      assert more[|receivers|] == env.replyTo;
      forall q | q in receivers ensures q in more {
        var i :| 0 <= i < |receivers| && receivers[i] == q;
        assert more[i] == q;
      }
    }
  }

  // A message bus that records every attempt to send. Which attempts fail is
  // open.
  class MessageBus {
    var attempts: seq<(string, Envelope)>
    var failures: seq<bool>

    constructor (failures: seq<bool>)
      ensures attempts == [] && this.failures == failures
    {
      attempts, this.failures := [], failures;
    }

    method SendMessage(queue: string, env: Envelope) returns (ok: bool)
      modifies this
      ensures attempts == old(attempts) + [(queue, env)]
      ensures ok == (old(failures) == [] || !old(failures)[0])
    {
      attempts := attempts + [(queue, env)];
      ok := true;
      if failures != [] {
        ok := !failures[0];
        failures := failures[1..];
      }
    }
  }

  function Fanout(env: Envelope, receivers: seq<string>): seq<(string, Envelope)> {
    seq(|receivers|, i requires 0 <= i < |receivers| => (receivers[i], env))
  }

  class DataBusService {
    const bus: MessageBus
    var Recievers: seq<string>

    constructor (bus: MessageBus)
      ensures this.bus == bus && Recievers == []
    {
      this.bus, Recievers := bus, [];
    }

    method HandleEnvelope(env: Envelope)
      modifies this`Recievers
      ensures Recievers == Subscribed(old(Recievers), env)
    {
      if env.kind == SUBSCRIBE {
        HandleSubscribeEnvelope(env);
      }
    }

    method HandleSubscribeEnvelope(env: Envelope)
      modifies this`Recievers
      ensures Recievers == WithReceiver(old(Recievers), env.replyTo)
    {
      var queue := env.replyTo;
      if queue == "" {
        return;
      }
      if queue in Recievers {
        return;
      }
      Recievers := Recievers + [queue];
    }

    // Every receiver gets one attempt, in order, whatever fails on the way.
    method SendGroup(codec: Codec, group: Group)
      modifies bus
      ensures bus.attempts == old(bus.attempts) + Fanout(GroupEnvelope(codec, group), Recievers)
      ensures Recievers == old(Recievers)
    {
      var receivers := Recievers;
      for i := 0 to |receivers|
        invariant bus.attempts == old(bus.attempts) + Fanout(GroupEnvelope(codec, group), receivers[..i])
      {
        var _ := bus.SendMessage(receivers[i], GroupEnvelope(codec, group));
        assert receivers[..i + 1] == receivers[..i] + [receivers[i]];
        assert Fanout(GroupEnvelope(codec, group), receivers[..i + 1])
            == Fanout(GroupEnvelope(codec, group), receivers[..i]) + [(receivers[i], GroupEnvelope(codec, group))];
      }
      assert receivers[..|receivers|] == receivers;
    }
  }

  // ---- fan-outs, bus and pumps as steps ----------------------------------------------

  // A SendGroup under way: Go's range works on the receivers it started with.
  datatype Sending = Sending(group: Group, snapshot: seq<string>, done: nat)

  // The way from the bus to one pump, which listens on its own queue: the bus
  // queue, the channel of raw messages, the channel of filtered envelopes, and
  // the groups handed to the pump.
  datatype Line = Line(queue: seq<Envelope>, messages: seq<Envelope>, envelopes: seq<Envelope>, groups: seq<Group>)

  const EMPTY_LINE: Line := Line([], [], [], [])

  datatype State = State(
    receivers: seq<string>,
    sendings: seq<Sending>,
    lines: map<string, Line>,
    broadcast: map<string, seq<nat>>) // per queue, the sendings that reached it, in order

  predicate Init(s: State) { s == State([], [], map[], map[]) }

  function LineOf(s: State, q: string): Line {
    if q in s.lines then s.lines[q] else EMPTY_LINE
  }

  function BroadcastTo(s: State, q: string): seq<nat> {
    if q in s.broadcast then s.broadcast[q] else []
  }

  function Enqueue(s: State, q: string, env: Envelope): State {
    var line := LineOf(s, q);
    s.(lines := s.lines[q := line.(queue := line.queue + [env])])
  }

  datatype Step =
    | Hook(env: Envelope)                 // ReceiveEnvelopes passes env to the hook
    | StartSendGroup(group: Group)
    | SendNext(f: nat)
    | ReplyToGet(req: Envelope, group: Group)
    | OtherTraffic(q: string, env: Envelope) // anyone sends anything but a group
    | Pull(q: string)                     // bus to the raw channel
    | Filter(q: string)                   // ListenToQueueFiltered
    | Decode(q: string)                   // GetGroup

  predicate Enabled(s: State, step: Step) {
    match step
    case Hook(_) => true
    case StartSendGroup(_) => true
    case SendNext(f) => f < |s.sendings| && s.sendings[f].done < |s.sendings[f].snapshot|
    case ReplyToGet(req, _) => req.kind == GET && req.replyTo != ""
    case OtherTraffic(_, env) => env.kind != DATAGROUP
    case Pull(q) => LineOf(s, q).queue != [] && |LineOf(s, q).messages| < CAPACITY
    case Filter(q) =>
      var l := LineOf(s, q);
      l.messages != [] && (l.messages[0].kind == DATAGROUP ==> |l.envelopes| < CAPACITY)
    case Decode(q) => LineOf(s, q).envelopes != []
  }

  function Apply(codec: Codec, s: State, step: Step): State
    requires Enabled(s, step)
  {
    match step
    case Hook(env) => s.(receivers := Subscribed(s.receivers, env))
    case StartSendGroup(group) => s.(sendings := s.sendings + [Sending(group, s.receivers, 0)])
    case SendNext(f) =>
      var sending := s.sendings[f];
      var q := sending.snapshot[sending.done];
      Enqueue(s, q, GroupEnvelope(codec, sending.group)).(
        sendings := s.sendings[f := sending.(done := sending.done + 1)],
        broadcast := s.broadcast[q := BroadcastTo(s, q) + [f]])
    case ReplyToGet(req, group) =>
      Enqueue(s, req.replyTo, ReplyOK(req, Some(codec.encode(group))).value)
    case OtherTraffic(q, env) => Enqueue(s, q, env)
    case Pull(q) =>
      var l := LineOf(s, q);
      s.(lines := s.lines[q := l.(queue := l.queue[1..], messages := l.messages + [l.queue[0]])])
    case Filter(q) =>
      var l := LineOf(s, q);
      s.(lines := s.lines[q := l.(messages := l.messages[1..], envelopes := l.envelopes + Kept(l.messages[0]))])
    case Decode(q) =>
      var l := LineOf(s, q);
      var got := match codec.decode(l.envelopes[0].payload) case Some(g) => [g] case None => [];
      s.(lines := s.lines[q := l.(envelopes := l.envelopes[1..], groups := l.groups + got)])
  }

  datatype Run = Run(states: seq<State>, steps: seq<Step>)

  ghost predicate IsRun(codec: Codec, r: Run) {
    && |r.states| == |r.steps| + 1
    && Init(r.states[0])
    && (forall i {:trigger r.steps[i]} :: 0 <= i < |r.steps| ==>
          Enabled(r.states[i], r.steps[i]) && r.states[i + 1] == Apply(codec, r.states[i], r.steps[i]))
  }

  // ---- invariant ----------------------------------------------------------------------

  // The groups a sequence of envelopes still stands for.
  function GroupsIn(codec: Codec, envs: seq<Envelope>): seq<Group> {
    if envs == [] then []
    else
      (if envs[0].kind != DATAGROUP then []
       else match codec.decode(envs[0].payload) case Some(g) => [g] case None => [])
      + GroupsIn(codec, envs[1..])
  }

  function GroupsOf(sendings: seq<Sending>, fs: seq<nat>): seq<Group>
    requires forall f :: f in fs ==> f < |sendings|
  {
    seq(|fs|, i requires 0 <= i < |fs| => assert fs[i] in fs; sendings[fs[i]].group)
  }

  // Everything on its way to the pump, oldest first.
  function OnTheWay(codec: Codec, l: Line): seq<Group> {
    l.groups + (GroupsIn(codec, l.envelopes) + (GroupsIn(codec, l.messages) + GroupsIn(codec, l.queue)))
  }

  predicate KnownSendings(s: State) {
    forall q :: q in s.broadcast ==> forall f :: f in s.broadcast[q] ==> f < |s.sendings|
  }

  predicate OnlyGroups(envs: seq<Envelope>) { forall env :: env in envs ==> env.kind == DATAGROUP }

  ghost predicate LineInv(codec: Codec, s: State, q: string)
    requires KnownSendings(s)
  {
    && OnTheWay(codec, LineOf(s, q)) == GroupsOf(s.sendings, BroadcastTo(s, q))
    && OnlyGroups(LineOf(s, q).envelopes)
  }

  // A sending has reached each queue of its snapshot it is past, once, and no
  // other.
  ghost predicate ReachInv(s: State, f: nat, q: string)
    requires f < |s.sendings| && s.sendings[f].done <= |s.sendings[f].snapshot|
  {
    multiset(BroadcastTo(s, q))[f] == if q in s.sendings[f].snapshot[..s.sendings[f].done] then 1 else 0
  }

  ghost predicate SendingsInv(s: State) {
    forall f: nat :: f < |s.sendings| ==>
      && s.sendings[f].done <= |s.sendings[f].snapshot|
      && Distinct(s.sendings[f].snapshot)
      && forall q :: ReachInv(s, f, q)
  }

  ghost predicate Inv(codec: Codec, s: State) {
    && Distinct(s.receivers) && "" !in s.receivers
    && KnownSendings(s)
    && SendingsInv(s)
    && (forall q :: LineInv(codec, s, q))
  }

  lemma {:induction false} GroupsInConcat(codec: Codec, a: seq<Envelope>, b: seq<Envelope>)
    ensures GroupsIn(codec, a + b) == GroupsIn(codec, a) + GroupsIn(codec, b)
    decreases |a|
  {
    if a == [] {
      assert a + b == b;
    } else {
      assert (a + b)[0] == a[0] && (a + b)[1..] == a[1..] + b;
      GroupsInConcat(codec, a[1..], b);
    }
  }

  lemma GroupsInOne(codec: Codec, env: Envelope)
    ensures GroupsIn(codec, [env]) ==
            if env.kind != DATAGROUP then [] else match codec.decode(env.payload) case Some(g) => [g] case None => []
  {
    assert [env][1..] == [];
  }

  // Each hop keeps what is on the way.
  lemma PullKeeps(codec: Codec, l: Line)
    requires l.queue != []
    ensures OnTheWay(codec, l.(queue := l.queue[1..], messages := l.messages + [l.queue[0]])) == OnTheWay(codec, l)
  {
    hide GroupsIn;
    var head, rest := [l.queue[0]], l.queue[1..];
    Uncons(l.queue);
    GroupsInConcat(codec, l.messages, head);
    GroupsInConcat(codec, head, rest);
    Assoc(GroupsIn(codec, l.messages), GroupsIn(codec, head), GroupsIn(codec, rest));
  }

  function Kept(env: Envelope): seq<Envelope> {
    if env.kind == DATAGROUP then [env] else []
  }

  lemma KeptGroups(codec: Codec, env: Envelope)
    ensures GroupsIn(codec, Kept(env)) == GroupsIn(codec, [env])
  {
  }

  lemma FilterKeeps(codec: Codec, l: Line)
    requires l.messages != []
    ensures OnTheWay(codec, l.(messages := l.messages[1..], envelopes := l.envelopes + Kept(l.messages[0])))
        == OnTheWay(codec, l)
  {
    KeptGroups(codec, l.messages[0]);
    hide GroupsIn;
    var head, rest := [l.messages[0]], l.messages[1..];
    var e, h, m, q := GroupsIn(codec, l.envelopes), GroupsIn(codec, head), GroupsIn(codec, rest),
                        GroupsIn(codec, l.queue);
    Uncons(l.messages);
    GroupsInConcat(codec, l.envelopes, Kept(l.messages[0]));
    GroupsInConcat(codec, head, rest);
    Assoc(e, h, m + q);
    Assoc(h, m, q);
  }

  lemma DecodeKeeps(codec: Codec, l: Line)
    requires l.envelopes != [] && OnlyGroups(l.envelopes)
    ensures var got := match codec.decode(l.envelopes[0].payload) case Some(g) => [g] case None => [];
            OnTheWay(codec, l.(envelopes := l.envelopes[1..], groups := l.groups + got)) == OnTheWay(codec, l)
  {
    assert l.envelopes[0] in l.envelopes;
    GroupsInOne(codec, l.envelopes[0]);
    hide GroupsIn;
    var head, rest := [l.envelopes[0]], l.envelopes[1..];
    var h, e, m := GroupsIn(codec, head), GroupsIn(codec, rest), GroupsIn(codec, l.messages) + GroupsIn(codec, l.queue);
    Uncons(l.envelopes);
    GroupsInConcat(codec, head, rest);
    Assoc(l.groups, h, e + m);
    Assoc(h, e, m);
  }

  lemma EnqueueAdds(codec: Codec, l: Line, env: Envelope)
    ensures OnTheWay(codec, l.(queue := l.queue + [env])) == OnTheWay(codec, l) + GroupsIn(codec, [env])
  {
    hide GroupsIn;
    var e, m, q, x := GroupsIn(codec, l.envelopes), GroupsIn(codec, l.messages), GroupsIn(codec, l.queue),
                        GroupsIn(codec, [env]);
    GroupsInConcat(codec, l.queue, [env]);
    Assoc(m, q, x);
    Assoc(e, m + q, x);
    Assoc(l.groups, e + (m + q), x);
  }

  lemma GroupsOfSnoc(sendings: seq<Sending>, fs: seq<nat>, f: nat)
    requires f < |sendings| && forall g :: g in fs ==> g < |sendings|
    ensures forall g :: g in fs + [f] ==> g < |sendings|
    ensures GroupsOf(sendings, fs + [f]) == GroupsOf(sendings, fs) + [sendings[f].group]
  {
  }

  // What a queue has been sent depends on the groups alone.
  lemma GroupsOfSame(sendings: seq<Sending>, more: seq<Sending>, fs: seq<nat>)
    requires |sendings| <= |more| && forall f :: 0 <= f < |sendings| ==> more[f].group == sendings[f].group
    requires forall f :: f in fs ==> f < |sendings|
    ensures forall f :: f in fs ==> f < |more|
    ensures GroupsOf(more, fs) == GroupsOf(sendings, fs)
  {
    assert forall i :: 0 <= i < |fs| ==> fs[i] in fs;
  }

  lemma SendNextLine(codec: Codec, s: State, f: nat, q: string)
    requires Inverse(codec) && KnownSendings(s) && LineInv(codec, s, q) && Enabled(s, SendNext(f))
    requires KnownSendings(Apply(codec, s, SendNext(f)))
    ensures LineInv(codec, Apply(codec, s, SendNext(f)), q)
  {
    var t, l := Apply(codec, s, SendNext(f)), LineOf(s, q);
    var env := GroupEnvelope(codec, s.sendings[f].group);
    var fs := BroadcastTo(s, q);
    EnqueueAdds(codec, l, env);
    GroupsInOne(codec, env);
    GroupsOfSame(s.sendings, t.sendings, fs);
    GroupsOfSnoc(t.sendings, fs, f);
    hide GroupsIn, OnTheWay, GroupsOf;
    if q == s.sendings[f].snapshot[s.sendings[f].done] {
      assert BroadcastTo(t, q) == fs + [f];
      assert LineOf(t, q) == l.(queue := l.queue + [env]);
    } else {
      assert BroadcastTo(t, q) == fs;
      assert LineOf(t, q) == l;
    }
  }

  // An envelope of another type changes nothing, whichever queue it goes to.
  lemma OtherLine(codec: Codec, s: State, to: string, env: Envelope, q: string)
    requires KnownSendings(s) && LineInv(codec, s, q) && env.kind != DATAGROUP
    ensures LineInv(codec, Enqueue(s, to, env), q)
  {
    var t, l := Enqueue(s, to, env), LineOf(s, q);
    EnqueueAdds(codec, l, env);
    GroupsInOne(codec, env);
    hide GroupsIn, OnTheWay, GroupsOf;
    assert LineOf(t, q) == if q == to then l.(queue := l.queue + [env]) else l;
  }

  lemma ReplyLine(codec: Codec, s: State, req: Envelope, group: Group, q: string)
    requires KnownSendings(s) && LineInv(codec, s, q) && Enabled(s, ReplyToGet(req, group))
    ensures LineInv(codec, Apply(codec, s, ReplyToGet(req, group)), q)
  {
    assert GET[0] != DATAGROUP[0];
    hide LineInv;
    OtherLine(codec, s, req.replyTo, ReplyOK(req, Some(codec.encode(group))).value, q);
  }

  predicate IsHop(step: Step) { step.Pull? || step.Filter? || step.Decode? }

  lemma HopLine(codec: Codec, s: State, step: Step, q: string)
    requires KnownSendings(s) && LineInv(codec, s, q) && Enabled(s, step) && IsHop(step)
    ensures LineInv(codec, Apply(codec, s, step), q)
  {
    hide GroupsIn, OnTheWay, GroupsOf;
    var t, l := Apply(codec, s, step), LineOf(s, q);
    if step.q != q {
      assert LineOf(t, q) == l;
    } else if step.Pull? {
      PullKeeps(codec, l);
    } else if step.Filter? {
      FilterKeeps(codec, l);
    } else {
      DecodeKeeps(codec, l);
    }
  }

  lemma StartLine(codec: Codec, s: State, group: Group, q: string)
    requires KnownSendings(s) && LineInv(codec, s, q)
    ensures LineInv(codec, Apply(codec, s, StartSendGroup(group)), q)
  {
    GroupsOfSame(s.sendings, s.sendings + [Sending(group, s.receivers, 0)], BroadcastTo(s, q));
    hide OnTheWay, GroupsOf;
  }

  lemma StepLines(codec: Codec, s: State, step: Step, q: string)
    requires Inverse(codec) && Inv(codec, s) && Enabled(s, step)
    requires KnownSendings(Apply(codec, s, step))
    ensures LineInv(codec, Apply(codec, s, step), q)
  {
    assert LineInv(codec, s, q);
    hide OnTheWay, GroupsOf, OnlyGroups, SendingsInv;
    if step.Hook? {
      assert LineOf(Apply(codec, s, step), q) == LineOf(s, q);
    } else if step.OtherTraffic? {
      OtherLine(codec, s, step.q, step.env, q);
    } else {
      hide Apply, Enabled, LineInv;
      match step
      case StartSendGroup(group) => StartLine(codec, s, group, q);
      case SendNext(f) => SendNextLine(codec, s, f, q);
      case ReplyToGet(req, group) => ReplyLine(codec, s, req, group, q);
      case _ => HopLine(codec, s, step, q);
    }
  }

  lemma SendNextReach(codec: Codec, s: State, f: nat, g: nat, q: string)
    requires SendingsInv(s) && Enabled(s, SendNext(f)) && g < |s.sendings|
    ensures ReachInv(Apply(codec, s, SendNext(f)), g, q)
  {
    var sending := s.sendings[f];
    var n := sending.done;
    assert ReachInv(s, g, q);
    TakeSnoc(sending.snapshot, n);
    assert Distinct(sending.snapshot);
    assert sending.snapshot[n] !in sending.snapshot[..n];
    var t := Apply(codec, s, SendNext(f));
    assert BroadcastTo(t, q) == BroadcastTo(s, q) + if q == sending.snapshot[n] then [f] else [];
  }

  lemma StepSendings(codec: Codec, s: State, step: Step)
    requires Inv(codec, s) && Enabled(s, step)
    ensures KnownSendings(Apply(codec, s, step))
    ensures SendingsInv(Apply(codec, s, step))
  {
    hide LineInv;
    var t := Apply(codec, s, step);
    forall g: nat, q | g < |t.sendings| ensures ReachInv(t, g, q) {
      if step.SendNext? {
        SendNextReach(codec, s, step.f, g, q);
      } else if g < |s.sendings| {
        assert ReachInv(s, g, q);
      } else {
        assert |s.sendings| !in BroadcastTo(s, q);
      }
    }
  }

  lemma StepInv(codec: Codec, s: State, step: Step)
    requires Inverse(codec) && Inv(codec, s) && Enabled(s, step)
    ensures Inv(codec, Apply(codec, s, step))
  {
    StepSendings(codec, s, step);
    if step.Hook? {
      SubscribedKeeps(s.receivers, step.env);
    }
    forall q ensures LineInv(codec, Apply(codec, s, step), q) {
      StepLines(codec, s, step, q);
    }
  }

  lemma {:induction false} RunInv(codec: Codec, r: Run, i: nat)
    requires Inverse(codec) && IsRun(codec, r) && i < |r.states|
    ensures Inv(codec, r.states[i])
    decreases i
  {
    if i > 0 {
      RunInv(codec, r, i - 1);
      assert Enabled(r.states[i - 1], r.steps[i - 1]);
      StepInv(codec, r.states[i - 1], r.steps[i - 1]);
      assert r.states[i - 1 + 1] == Apply(codec, r.states[i - 1], r.steps[i - 1]);
    }
  }

  // ---- main results --------------------------------------------------------------------

  // The groups a pump has been handed are, in order and nothing missing in
  // between, the first of those broadcast to its queue: GET replies and other
  // traffic on the queue never show.
  lemma PumpSeesBroadcastPrefix(codec: Codec, r: Run, i: nat, q: string)
    requires Inverse(codec) && IsRun(codec, r) && i < |r.states|
    ensures var s := r.states[i];
            && KnownSendings(s)
            && LineOf(s, q).groups <= GroupsOf(s.sendings, BroadcastTo(s, q))
  {
    RunInv(codec, r, i);
    assert LineInv(codec, r.states[i], q);
  }

  // Once its channels have drained the pump has all of them.
  lemma DrainedPumpHasAll(codec: Codec, r: Run, i: nat, q: string)
    requires Inverse(codec) && IsRun(codec, r) && i < |r.states|
    requires var l := LineOf(r.states[i], q); l.queue == [] && l.messages == [] && l.envelopes == []
    ensures var s := r.states[i];
            && KnownSendings(s)
            && LineOf(s, q).groups == GroupsOf(s.sendings, BroadcastTo(s, q))
  {
    RunInv(codec, r, i);
    assert LineInv(codec, r.states[i], q);
  }

  // Once its SUBSCRIBE has passed the hook a queue stays subscribed.
  lemma {:induction false} StaysSubscribed(codec: Codec, r: Run, j: nat, i: nat)
    requires IsRun(codec, r) && j < i < |r.states|
    requires r.steps[j].Hook? && r.steps[j].env.kind == "subscribe" && r.steps[j].env.replyTo != ""
    ensures r.steps[j].env.replyTo in r.states[i].receivers
    decreases i
  {
    var s, step := r.states[i - 1], r.steps[i - 1];
    assert Enabled(s, step) && r.states[i - 1 + 1] == Apply(codec, s, step);
    if j < i - 1 {
      StaysSubscribed(codec, r, j, i - 1);
    }
    if step.Hook? {
      assert forall q :: q in s.receivers ==> q in WithReceiver(s.receivers, step.env.replyTo);
    }
  }

  // A fan-out keeps the group it was started with and the receivers there were
  // then.
  lemma {:induction false} StartedWith(codec: Codec, r: Run, j: nat, i: nat)
    requires IsRun(codec, r) && j < i < |r.states| && r.steps[j].StartSendGroup?
    ensures var f := |r.states[j].sendings|;
            && f < |r.states[i].sendings|
            && r.states[i].sendings[f].group == r.steps[j].group
            && r.states[i].sendings[f].snapshot == r.states[j].receivers
    decreases i
  {
    assert Enabled(r.states[i - 1], r.steps[i - 1]);
    assert r.states[i - 1 + 1] == Apply(codec, r.states[i - 1], r.steps[i - 1]);
    if j < i - 1 {
      StartedWith(codec, r, j, i - 1);
    }
  }

  // Every fan-out was started by a SendGroup.
  lemma {:induction false} SendingStarted(codec: Codec, r: Run, i: nat, f: nat) returns (j: nat)
    requires IsRun(codec, r) && i < |r.states| && f < |r.states[i].sendings|
    ensures j < i && r.steps[j].StartSendGroup? && f == |r.states[j].sendings|
    decreases i
  {
    assert i > 0;
    assert Enabled(r.states[i - 1], r.steps[i - 1]);
    assert r.states[i - 1 + 1] == Apply(codec, r.states[i - 1], r.steps[i - 1]);
    if f < |r.states[i - 1].sendings| {
      j := SendingStarted(codec, r, i - 1, f);
    } else {
      j := i - 1;
    }
  }

  lemma ReachedOnce(codec: Codec, r: Run, i: nat, f: nat, q: string)
    requires Inverse(codec) && IsRun(codec, r) && i < |r.states| && f < |r.states[i].sendings|
    ensures var s := r.states[i];
            && multiset(BroadcastTo(s, q))[f] <= 1
            && (s.sendings[f].done == |s.sendings[f].snapshot| ==>
                 (multiset(BroadcastTo(s, q))[f] == 1 <==> q in s.sendings[f].snapshot))
            && (q !in s.sendings[f].snapshot ==> multiset(BroadcastTo(s, q))[f] == 0)
  {
    RunInv(codec, r, i);
    var s := r.states[i];
    assert ReachInv(s, f, q);
    assert s.sendings[f].snapshot[..|s.sendings[f].snapshot|] == s.sendings[f].snapshot;
  }

  // A SendGroup reaches a queue at most once, only if the queue was subscribed
  // when it began, and when it is done every such queue. A subscribed pump whose
  // channels have drained by then has the group.
  lemma EachSendingOnce(codec: Codec, r: Run, j: nat, i: nat, q: string)
    requires Inverse(codec) && IsRun(codec, r) && j < i < |r.states| && r.steps[j].StartSendGroup?
    ensures var f, s, subscribed := |r.states[j].sendings|, r.states[i], q in r.states[j].receivers;
            && f < |s.sendings|
            && multiset(BroadcastTo(s, q))[f] <= 1
            && (!subscribed ==> multiset(BroadcastTo(s, q))[f] == 0)
            && (s.sendings[f].done == |r.states[j].receivers| && subscribed ==>
                 && multiset(BroadcastTo(s, q))[f] == 1
                 && (Drained(LineOf(s, q)) ==> r.steps[j].group in LineOf(s, q).groups))
  {
    var f, s := |r.states[j].sendings|, r.states[i];
    StartedWith(codec, r, j, i);
    ReachedOnce(codec, r, i, f, q);
    if s.sendings[f].done == |r.states[j].receivers| && q in r.states[j].receivers && Drained(LineOf(s, q)) {
      DrainedPumpHasAll(codec, r, i, q);
      assert f in multiset(BroadcastTo(s, q));
      var k :| 0 <= k < |BroadcastTo(s, q)| && BroadcastTo(s, q)[k] == f;
      assert GroupsOf(s.sendings, BroadcastTo(s, q))[k] == r.steps[j].group;
    }
  }

  predicate Drained(l: Line) { l.queue == [] && l.messages == [] && l.envelopes == [] }

  // ---- nothing stands in the way ---------------------------------------------------------

  // A fan-out that is not done can go on, and puts its group at the end of the
  // next receiver's queue and nowhere else.
  lemma FanoutGoesOn(codec: Codec, s: State, f: nat)
    requires f < |s.sendings| && s.sendings[f].done < |s.sendings[f].snapshot|
    ensures Enabled(s, SendNext(f))
    ensures var t, to := Apply(codec, s, SendNext(f)), s.sendings[f].snapshot[s.sendings[f].done];
            && t.sendings[f].done == s.sendings[f].done + 1
            && LineOf(t, to).queue
               == LineOf(s, to).queue + [Envelope("datagroup", "", "", "", "", codec.encode(s.sendings[f].group))]
            && forall q :: q != to ==> LineOf(t, q) == LineOf(s, q)
  {
  }

  // A group at the head of an otherwise idle line reaches the pump in three
  // steps.
  lemma PumpTakes(codec: Codec, s: State, q: string, g: Group, rest: seq<Envelope>, got: seq<Group>)
    requires Inverse(codec) && LineOf(s, q) == Line([GroupEnvelope(codec, g)] + rest, [], [], got)
    ensures && Enabled(s, Pull(q))
            && var s1 := Apply(codec, s, Pull(q));
            && Enabled(s1, Filter(q))
            && var s2 := Apply(codec, s1, Filter(q));
            && Enabled(s2, Decode(q))
            && LineOf(Apply(codec, s2, Decode(q)), q) == Line(rest, [], [], got + [g])
  {
    var env := GroupEnvelope(codec, g);
    var s1 := Apply(codec, s, Pull(q));
    assert LineOf(s1, q) == Line(rest, [env], [], got);
    var s2 := Apply(codec, s1, Filter(q));
    assert LineOf(s2, q) == Line(rest, [], [env], got);
  }

  // A GET is answered on the queue it names, with its own type and id.
  lemma GetIsAnswered(codec: Codec, s: State, req: Envelope, group: Group)
    requires req.kind == "get" && req.replyTo != ""
    ensures Enabled(s, ReplyToGet(req, group))
    ensures LineOf(Apply(codec, s, ReplyToGet(req, group)), req.replyTo).queue
         == LineOf(s, req.replyTo).queue + [Envelope("get", req.correlationID, "", "ok", "", codec.encode(group))]
  {
  }
}
