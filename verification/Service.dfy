// Request and reply over a message bus: Call, listenForReplies and Reply of
// internal/service/service.go.
module Service {
  import opened Options
  import opened Wire

  // Pending as the reply listener sees it: per correlation id the envelopes
  // buffered in the caller's channel.
  type Pending = map<string, seq<Envelope>>

  // make(chan Envelope, 1)
  const REPLY_CAPACITY: nat := 1

  function Register(pending: Pending, id: string): Pending { pending[id := []] }

  function Unregister(pending: Pending, id: string): Pending { pending - {id} }

  // The listener never waits: a reply nobody expects, or one for a full channel,
  // is dropped.
  function Deliver(pending: Pending, env: Envelope): Pending {
    var id := env.correlationID;
    if id in pending && |pending[id]| < REPLY_CAPACITY then pending[id := pending[id] + [env]] else pending
  }

  function TakeOne(pending: Pending, id: string): Pending
    requires id in pending && pending[id] != []
  {
    pending[id := pending[id][1..]]
  }

  // ---- the client ------------------------------------------------------------------

  // A buffered channel of envelopes.
  class ReplyChannel {
    var buffered: seq<Envelope>

    constructor ()
      ensures buffered == []
    {
      buffered := [];
    }

    // select { case ch <- env: default: }
    method TrySend(env: Envelope) returns (sent: bool)
      modifies this
      ensures sent == (old(|buffered|) < REPLY_CAPACITY)
      ensures buffered == if sent then old(buffered) + [env] else old(buffered)
    {
      sent := |buffered| < REPLY_CAPACITY;
      if sent {
        buffered := buffered + [env];
      }
    }
  }

  // The part of BaseClient that changes under ReplyMu, one method per critical
  // section.
  class BaseClient {
    var Pending: map<string, ReplyChannel>

    constructor ()
      ensures Pending == map[] && Valid() && View() == map[]
    {
      Pending := map[];
    }

    // Calls do not share channels.
    ghost predicate Valid()
      reads this
    {
      forall a, b :: a in Pending && b in Pending && a != b ==> Pending[a] != Pending[b]
    }

    ghost function View(): Pending
      reads this, Pending.Values
    {
      map id | id in Pending :: Pending[id].buffered
    }

    // Call, before sending.
    method AddPending(id: string) returns (replyCh: ReplyChannel)
      requires Valid()
      modifies this
      ensures Valid() && fresh(replyCh) && Pending == old(Pending)[id := replyCh]
      ensures View() == Register(old(View()), id)
    {
      replyCh := new ReplyChannel();
      Pending := Pending[id := replyCh];
    }

    // The reply listener.
    method HandleReply(env: Envelope)
      requires Valid()
      modifies Pending.Values
      ensures Valid() && Pending == old(Pending)
      ensures View() == Deliver(old(View()), env)
    {
      if env.correlationID in Pending {
        var ch := Pending[env.correlationID];
        var _ := ch.TrySend(env);
      }
    }

    // Call's deferred delete.
    method DeletePending(id: string)
      requires Valid()
      modifies this
      ensures Valid() && Pending == old(Pending) - {id}
      ensures View() == Unregister(old(View()), id)
    {
      Pending := Pending - {id};
    }
  }

  // ---- all clients, the service and the network ---------------------------------------

  datatype Phase =
    | Sending                      // registered, SendEnvelope not done
    | Waiting                      // in the select
    | Leaving(result: CallResult, reply: Option<Envelope>) // result known, not yet unregistered
    | Returned(result: CallResult, reply: Option<Envelope>)

  datatype Call = Call(req: Envelope, phase: Phase)

  // Replies are never consumed by the network: one that was made may arrive any
  // number of times, at any time, in any order, or not at all.
  datatype State = State(
    calls: seq<Call>,
    pending: Pending,
    requests: set<Envelope>,             // every request made so far, by anyone
    replies: set<(Envelope, Envelope)>)  // every reply made so far, with its request

  predicate Init(s: State) { s == State([], map[], {}, {}) }

  datatype Step =
    | Begin(req: Envelope)
    | OtherRequest(req: Envelope)
    | Send(c: nat, ok: bool)
    | MakeReply(req: Envelope, env: Envelope)
    | Arrive(req: Envelope, env: Envelope)
    | Receive(c: nat)
    | TimeOut(c: nat)
    | Delete(c: nat)

  predicate FreshID(s: State, id: string) {
    forall r :: r in s.requests ==> r.correlationID != id
  }

  predicate In(s: State, c: nat, phase: Phase) { c < |s.calls| && s.calls[c].phase == phase }

  ghost predicate Enabled(s: State, step: Step) {
    match step
    case Begin(req) => req.correlationID != "" && FreshID(s, req.correlationID)
    // Commands sent without Call carry no id.
    case OtherRequest(req) => req.correlationID == "" || FreshID(s, req.correlationID)
    case Send(c, _) => In(s, c, Sending)
    case MakeReply(req, env) => req in s.requests && req.replyTo != "" && Answers(req, env)
    case Arrive(req, env) => (req, env) in s.replies
    case Receive(c) =>
      && In(s, c, Waiting)
      && s.calls[c].req.correlationID in s.pending && s.pending[s.calls[c].req.correlationID] != []
    case TimeOut(c) => In(s, c, Waiting)
    case Delete(c) => c < |s.calls| && s.calls[c].phase.Leaving?
  }

  function Move(s: State, c: nat, phase: Phase): State
    requires c < |s.calls|
  {
    s.(calls := s.calls[c := s.calls[c].(phase := phase)])
  }

  ghost function Apply(s: State, step: Step): State
    requires Enabled(s, step)
  {
    match step
    case Begin(req) =>
      s.(calls := s.calls + [Call(req, Sending)],
         pending := Register(s.pending, req.correlationID),
         requests := s.requests + {req})
    case OtherRequest(req) => s.(requests := s.requests + {req})
    case Send(c, ok) => Move(s, c, if ok then Waiting else Leaving(SendFailed, None))
    case MakeReply(req, env) => s.(replies := s.replies + {(req, env)})
    case Arrive(req, env) => s.(pending := Deliver(s.pending, env))
    case Receive(c) =>
      var id := s.calls[c].req.correlationID;
      var env := s.pending[id][0];
      Move(s, c, Leaving(Interpret(env), Some(env))).(pending := TakeOne(s.pending, id))
    case TimeOut(c) => Move(s, c, Leaving(TimedOut, None))
    case Delete(c) =>
      Move(s, c, Returned(s.calls[c].phase.result, s.calls[c].phase.reply)).(
        pending := Unregister(s.pending, s.calls[c].req.correlationID))
  }

  datatype Run = Run(states: seq<State>, steps: seq<Step>)

  ghost predicate IsRun(r: Run) {
    && |r.states| == |r.steps| + 1
    && Init(r.states[0])
    && (forall i {:trigger r.steps[i]} :: 0 <= i < |r.steps| ==>
          Enabled(r.states[i], r.steps[i]) && r.states[i + 1] == Apply(r.states[i], r.steps[i]))
  }

  // ---- invariant --------------------------------------------------------------------

  predicate InFlight(call: Call) { !call.phase.Returned? }

  // The ids of the calls between registration and deferred delete.
  function InFlightIDs(calls: seq<Call>): set<string> {
    set c | 0 <= c < |calls| && InFlight(calls[c]) :: calls[c].req.correlationID
  }

  ghost predicate OwnIDs(s: State) {
    && (forall a, b :: a in s.requests && b in s.requests && a.correlationID == b.correlationID != "" ==> a == b)
    && (forall c :: 0 <= c < |s.calls| ==> s.calls[c].req in s.requests && s.calls[c].req.correlationID != "")
    && (forall c, d :: 0 <= c < d < |s.calls| ==> s.calls[c].req.correlationID != s.calls[d].req.correlationID)
  }

  ghost predicate MadeFor(replies: set<(Envelope, Envelope)>, id: string, env: Envelope) {
    exists req :: (req, env) in replies && req.correlationID == id
  }

  // A channel holds at most one envelope, made for the request it belongs to.
  ghost predicate Fits(replies: set<(Envelope, Envelope)>, id: string, buffered: seq<Envelope>) {
    && |buffered| <= REPLY_CAPACITY
    && forall env :: env in buffered ==> env.correlationID == id && MadeFor(replies, id, env)
  }

  ghost predicate RepliesFit(s: State) {
    forall r :: r in s.replies ==> r.0 in s.requests && Answers(r.0, r.1) && r.1.correlationID == r.0.correlationID
  }

  ghost predicate Channels(s: State) {
    forall id :: id in s.pending ==> Fits(s.replies, id, s.pending[id])
  }

  // The outcome of a call that has one.
  ghost predicate Explained(s: State, call: Call, result: CallResult, reply: Option<Envelope>) {
    match reply
    case Some(env) => result == Interpret(env) && (call.req, env) in s.replies
    case None => result == SendFailed || result == TimedOut
  }

  ghost predicate Outcomes(s: State) {
    forall c :: 0 <= c < |s.calls| ==>
      match s.calls[c].phase
      case Leaving(result, reply) => Explained(s, s.calls[c], result, reply)
      case Returned(result, reply) => Explained(s, s.calls[c], result, reply)
      case _ => true
  }

  ghost predicate Inv(s: State) {
    && OwnIDs(s) && RepliesFit(s) && Channels(s) && Outcomes(s)
    && s.pending.Keys == InFlightIDs(s.calls)
  }

  lemma InFlightAfterMove(s: State, c: nat, phase: Phase)
    requires c < |s.calls| && OwnIDs(s) && InFlight(s.calls[c])
    ensures var id, calls := s.calls[c].req.correlationID, Move(s, c, phase).calls;
            InFlightIDs(calls) == if phase.Returned? then InFlightIDs(s.calls) - {id} else InFlightIDs(s.calls)
  {
    var calls := Move(s, c, phase).calls;
    var id := s.calls[c].req.correlationID;
    forall d | 0 <= d < |calls| && d != c ensures calls[d].req.correlationID != id {
    }
    assert s.calls[c].req.correlationID in InFlightIDs(s.calls);
    assert calls[c].req.correlationID == id;
    var after := if phase.Returned? then InFlightIDs(s.calls) - {id} else InFlightIDs(s.calls);
    forall x ensures x in InFlightIDs(calls) <==> x in after {
      if x in InFlightIDs(s.calls) {
        var d :| 0 <= d < |s.calls| && InFlight(s.calls[d]) && s.calls[d].req.correlationID == x;
        assert d != c ==> calls[d] == s.calls[d];
      }
      if x in InFlightIDs(calls) {
        var d :| 0 <= d < |calls| && InFlight(calls[d]) && calls[d].req.correlationID == x;
        assert d != c ==> calls[d] == s.calls[d];
      }
    }
  }

  lemma InFlightAfterBegin(calls: seq<Call>, req: Envelope)
    ensures InFlightIDs(calls + [Call(req, Sending)]) == InFlightIDs(calls) + {req.correlationID}
  {
    var more := calls + [Call(req, Sending)];
    assert more[|calls|] == Call(req, Sending);
    forall x | x in InFlightIDs(calls) ensures x in InFlightIDs(more) {
      var d :| 0 <= d < |calls| && InFlight(calls[d]) && calls[d].req.correlationID == x;
      assert more[d] == calls[d];
    }
  }

  lemma BeginOwnIDs(s: State, req: Envelope)
    requires OwnIDs(s) && req.correlationID != "" && FreshID(s, req.correlationID)
    ensures OwnIDs(s.(calls := s.calls + [Call(req, Sending)], requests := s.requests + {req}))
  {
  }

  lemma OtherOwnIDs(s: State, req: Envelope)
    requires OwnIDs(s) && (req.correlationID == "" || FreshID(s, req.correlationID))
    ensures OwnIDs(s.(requests := s.requests + {req}))
  {
  }

  lemma MoveOwnIDs(s: State, c: nat, phase: Phase)
    requires OwnIDs(s) && c < |s.calls|
    ensures OwnIDs(Move(s, c, phase))
  {
  }

  lemma StepOwnIDs(s: State, step: Step)
    requires Inv(s) && Enabled(s, step)
    ensures OwnIDs(Apply(s, step))
  {
    var t := Apply(s, step);
    match step
    case Begin(req) => BeginOwnIDs(s, req);
    case OtherRequest(req) => OtherOwnIDs(s, req);
    case Send(c, _) => MoveOwnIDs(s, c, t.calls[c].phase);
    case Receive(c) => MoveOwnIDs(s, c, t.calls[c].phase);
    case TimeOut(c) => MoveOwnIDs(s, c, t.calls[c].phase);
    case Delete(c) => MoveOwnIDs(s, c, t.calls[c].phase);
    case _ =>
  }

  lemma StepReplies(s: State, step: Step)
    requires Inv(s) && Enabled(s, step)
    ensures RepliesFit(Apply(s, step))
  {
    if step.MakeReply? {
      ReplyCarries(step.req, step.env);
    }
  }

  lemma StepKeys(s: State, step: Step)
    requires Inv(s) && Enabled(s, step)
    ensures Apply(s, step).pending.Keys == InFlightIDs(Apply(s, step).calls)
  {
    match step
    case Begin(req) => InFlightAfterBegin(s.calls, req);
    case Send(c, ok) => InFlightAfterMove(s, c, if ok then Waiting else Leaving(SendFailed, None));
    case Receive(c) =>
      var env := s.pending[s.calls[c].req.correlationID][0];
      InFlightAfterMove(s, c, Leaving(Interpret(env), Some(env)));
    case TimeOut(c) => InFlightAfterMove(s, c, Leaving(TimedOut, None));
    case Delete(c) => InFlightAfterMove(s, c, Returned(s.calls[c].phase.result, s.calls[c].phase.reply));
    case _ =>
  }

  lemma FitsGrows(replies: set<(Envelope, Envelope)>, more: set<(Envelope, Envelope)>,
                  id: string, buffered: seq<Envelope>)
    requires replies <= more && Fits(replies, id, buffered)
    ensures Fits(more, id, buffered)
  {
    forall env | env in buffered ensures MadeFor(more, id, env) {
      var req :| (req, env) in replies && req.correlationID == id;
      assert (req, env) in more;
    }
  }

  lemma FitsOne(replies: set<(Envelope, Envelope)>, req: Envelope, env: Envelope)
    requires (req, env) in replies && env.correlationID == req.correlationID
    ensures Fits(replies, env.correlationID, [] + [env])
  {
  }

  lemma StepChannels(s: State, step: Step)
    requires Inv(s) && Enabled(s, step)
    ensures Channels(Apply(s, step))
  {
    var t := Apply(s, step);
    forall id | id in t.pending ensures Fits(t.replies, id, t.pending[id]) {
      if id in s.pending {
        FitsGrows(s.replies, t.replies, id, s.pending[id]);
      }
      if step.Arrive? {
        FitsOne(s.replies, step.req, step.env);
      }
      hide OwnIDs, Outcomes, InFlightIDs, MadeFor;
    }
  }

  lemma StepOutcomes(s: State, step: Step)
    requires Inv(s) && Enabled(s, step)
    ensures Outcomes(Apply(s, step))
  {
    var t := Apply(s, step);
    assert s.replies <= t.replies;
    if step.Receive? {
      var call := s.calls[step.c];
      var id := call.req.correlationID;
      var env := s.pending[id][0];
      assert env in s.pending[id];
      var req :| (req, env) in s.replies && req.correlationID == id;
      assert (req, env) in s.replies && req == call.req;
    }
  }

  lemma StepInv(s: State, step: Step)
    requires Inv(s) && Enabled(s, step)
    ensures Inv(Apply(s, step))
  {
    hide Apply, Enabled;
    StepOwnIDs(s, step);
    StepReplies(s, step);
    StepKeys(s, step);
    StepChannels(s, step);
    StepOutcomes(s, step);
  }

  lemma {:induction false} RunInv(r: Run, i: nat)
    requires IsRun(r) && i < |r.states|
    ensures Inv(r.states[i])
    decreases i
  {
    if i > 0 {
      RunInv(r, i - 1);
      StepInv(r.states[i - 1], r.steps[i - 1]);
      assert r.states[i - 1 + 1] == Apply(r.states[i - 1], r.steps[i - 1]);
    }
  }

  // ---- main results ---------------------------------------------------------------------

  // A call that returns a payload or a remote error returns the content of a
  // reply made for that very request, whatever else was lost, late, duplicated
  // or reordered.
  lemma ReplyCorrelation(r: Run, i: nat, c: nat)
    requires IsRun(r) && i < |r.states| && c < |r.states[i].calls|
    requires r.states[i].calls[c].phase.Returned?
    ensures var s, call := r.states[i], r.states[i].calls[c];
            call.phase.result.Payload? || call.phase.result.RemoteError? ==>
              exists env :: (call.req, env) in s.replies && Answers(call.req, env)
                            && call.phase.result == Interpret(env)
  {
    RunInv(r, i);
    var s, call := r.states[i], r.states[i].calls[c];
    if call.phase.reply.Some? {
      assert (call.req, call.phase.reply.value) in s.replies;
    }
  }

  // No reply reaches two calls, so none made for a call that timed out reaches
  // another one.
  lemma ReplyReachesItsOwnCall(r: Run, i: nat, c: nat, d: nat, env: Envelope)
    requires IsRun(r) && i < |r.states| && c < |r.states[i].calls| && d < |r.states[i].calls|
    requires (r.states[i].calls[c].req, env) in r.states[i].replies
    requires r.states[i].calls[d].phase.Returned? && r.states[i].calls[d].phase.reply == Some(env)
    ensures c == d
  {
    RunInv(r, i);
    var s := r.states[i];
    assert (s.calls[d].req, env) in s.replies;
    assert s.calls[c].req.correlationID == env.correlationID == s.calls[d].req.correlationID;
  }

  // Pending is exactly the calls in flight, each with room for one reply of its
  // own.
  lemma PendingIsInFlight(r: Run, i: nat)
    requires IsRun(r) && i < |r.states|
    ensures var s := r.states[i];
            && (forall id :: id in s.pending <==>
                  exists c :: 0 <= c < |s.calls| && InFlight(s.calls[c]) && s.calls[c].req.correlationID == id)
            && (forall id :: id in s.pending ==>
                  |s.pending[id]| <= 1 && forall env :: env in s.pending[id] ==> env.correlationID == id)
            && ((forall c :: 0 <= c < |s.calls| ==> s.calls[c].phase.Returned?) ==> s.pending == map[])
  {
    RunInv(r, i);
    var s := r.states[i];
    assert s.pending.Keys == InFlightIDs(s.calls);
  }

  // A reply that arrives for a waiting call is never lost on it: afterwards the
  // call has one to receive.
  lemma ArrivalServesCall(r: Run, i: nat, c: nat, env: Envelope)
    requires IsRun(r) && i < |r.states|
    requires In(r.states[i], c, Waiting) && (r.states[i].calls[c].req, env) in r.states[i].replies
    ensures var s := r.states[i];
            Enabled(Apply(s, Arrive(s.calls[c].req, env)), Receive(c))
  {
    RunInv(r, i);
    var s := r.states[i];
    assert Enabled(s, Arrive(s.calls[c].req, env));
    assert s.calls[c].req.correlationID in InFlightIDs(s.calls);
    assert env.correlationID == s.calls[c].req.correlationID;
  }

  // ---- what each step decides ---------------------------------------------------------------

  // The call has this result and will not wait again.
  predicate Decided(s: State, c: nat, result: CallResult, reply: Option<Envelope>) {
    && c < |s.calls|
    && (s.calls[c].phase == Leaving(result, reply) || s.calls[c].phase == Returned(result, reply))
  }

  lemma StaysDecided(s: State, step: Step, c: nat, result: CallResult, reply: Option<Envelope>)
    requires Enabled(s, step) && Decided(s, c, result, reply)
    ensures Decided(Apply(s, step), c, result, reply)
  {
  }

  lemma {:induction false} RunKeepsDecided(r: Run, i: nat, j: nat, c: nat, result: CallResult, reply: Option<Envelope>)
    requires IsRun(r) && i <= j < |r.states| && Decided(r.states[i], c, result, reply)
    ensures Decided(r.states[j], c, result, reply)
    decreases j
  {
    if i < j {
      RunKeepsDecided(r, i, j - 1, c, result, reply);
      StaysDecided(r.states[j - 1], r.steps[j - 1], c, result, reply);
      assert r.states[j - 1 + 1] == Apply(r.states[j - 1], r.steps[j - 1]);
    }
  }

  // A call that receives an envelope returns what that envelope says, a call that
  // runs out of time returns the timeout, and one that could not send returns
  // that: from the step on, in every later state.
  lemma ReceiveDecides(r: Run, i: nat, j: nat, c: nat)
    requires IsRun(r) && i < j < |r.states| && r.steps[i] == Receive(c)
    ensures Enabled(r.states[i], Receive(c))
    ensures var env := r.states[i].pending[r.states[i].calls[c].req.correlationID][0];
            Decided(r.states[j], c, Interpret(env), Some(env))
  {
    assert Enabled(r.states[i], r.steps[i]) && r.states[i + 1] == Apply(r.states[i], r.steps[i]);
    var env := r.states[i].pending[r.states[i].calls[c].req.correlationID][0];
    RunKeepsDecided(r, i + 1, j, c, Interpret(env), Some(env));
  }

  lemma TimeOutDecides(r: Run, i: nat, j: nat, c: nat)
    requires IsRun(r) && i < j < |r.states| && r.steps[i] == TimeOut(c)
    ensures Decided(r.states[j], c, TimedOut, None)
  {
    assert Enabled(r.states[i], r.steps[i]) && r.states[i + 1] == Apply(r.states[i], r.steps[i]);
    RunKeepsDecided(r, i + 1, j, c, TimedOut, None);
  }

  lemma SendFailureDecides(r: Run, i: nat, j: nat, c: nat)
    requires IsRun(r) && i < j < |r.states| && r.steps[i] == Send(c, false)
    ensures Decided(r.states[j], c, SendFailed, None)
  {
    assert Enabled(r.states[i], r.steps[i]) && r.states[i + 1] == Apply(r.states[i], r.steps[i]);
    RunKeepsDecided(r, i + 1, j, c, SendFailed, None);
  }

  // And those are the only ways: a timeout or a failed send is never returned
  // without such a step of the call's own.
  lemma {:induction false} OnlyThen(r: Run, j: nat, c: nat, result: CallResult, reply: Option<Envelope>)
    requires IsRun(r) && j < |r.states| && Decided(r.states[j], c, result, reply)
    ensures result == TimedOut ==> exists i :: 0 <= i < j && r.steps[i] == TimeOut(c)
    ensures result == SendFailed ==> exists i :: 0 <= i < j && r.steps[i] == Send(c, false)
    ensures reply.Some? ==> exists i :: 0 <= i < j && r.steps[i] == Receive(c)
    decreases j
  {
    if j > 0 {
      var s, step := r.states[j - 1], r.steps[j - 1];
      assert Enabled(s, step) && r.states[j - 1 + 1] == Apply(s, step);
      if Decided(s, c, result, reply) {
        OnlyThen(r, j - 1, c, result, reply);
      } else {
        DecidedNow(s, step, c, result, reply);
        assert 0 <= j - 1 < j && r.steps[j - 1] == step;
      }
    }
  }

  lemma DecidedNow(s: State, step: Step, c: nat, result: CallResult, reply: Option<Envelope>)
    requires Enabled(s, step) && !Decided(s, c, result, reply) && Decided(Apply(s, step), c, result, reply)
    ensures result == TimedOut ==> step == TimeOut(c)
    ensures result == SendFailed ==> step == Send(c, false)
    ensures reply.Some? ==> step == Receive(c)
  {
  }

  // From the arrival of its reply to the end of a waiting call.
  lemma ReplyIsReturned(s: State, c: nat, env: Envelope)
    requires In(s, c, Waiting)
    requires var req := s.calls[c].req;
             (req, env) in s.replies && env.correlationID == req.correlationID
             && req.correlationID in s.pending && s.pending[req.correlationID] == []
    ensures var req := s.calls[c].req;
            && Enabled(s, Arrive(req, env))
            && var s1 := Apply(s, Arrive(req, env));
            && Enabled(s1, Receive(c))
            && var s2 := Apply(s1, Receive(c));
            && Enabled(s2, Delete(c))
            && var s3 := Apply(s2, Delete(c));
            && s3.calls == s.calls[c := Call(req, Returned(Interpret(env), Some(env)))]
            && s3.pending == s.pending - {req.correlationID}
  {
    hide Interpret;
  }

  // Nothing stands in the way of a call whose reply arrives: from every reachable
  // state a call can begin, be sent and be answered, and then ReplyIsReturned
  // applies.
  lemma CallSucceeds(s: State, req: Envelope, env: Envelope)
    requires Inv(s) && req.correlationID != "" && req.replyTo != "" && FreshID(s, req.correlationID)
    requires Answers(req, env)
    ensures var c := |s.calls|;
            && Enabled(s, Begin(req))
            && var s1 := Apply(s, Begin(req));
            && Enabled(s1, Send(c, true))
            && var s2 := Apply(s1, Send(c, true));
            && Enabled(s2, MakeReply(req, env))
            && var s3 := Apply(s2, MakeReply(req, env));
            && s3.calls == s.calls + [Call(req, Waiting)]
            && s3.pending == s.pending[req.correlationID := []] && req.correlationID !in s.pending
            && (req, env) in s3.replies && env.correlationID == req.correlationID
  {
    ReplyCarries(req, env);
    IDNotPending(s, req);
    hide Inv, Answers, FreshID;
  }

  lemma IDNotPending(s: State, req: Envelope)
    requires Inv(s) && FreshID(s, req.correlationID)
    ensures req.correlationID !in s.pending
  {
    assert s.pending.Keys == InFlightIDs(s.calls);
  }
}
