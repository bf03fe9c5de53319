// The listener restart protocol: StartSSE and ListenForMetricReports /
// ListenForAlerts of internal/redfish/redfish.go, StartMetricListener /
// StartAlertListener of pkg/redfishread/redfishdevice.go. Each goroutine feeds
// one bounded channel; the consumer starts a new one for every error event.
module Listener {
  import opened Options
  import opened Sequences

  // make(chan *redfish.RedfishEvent, 10)
  const CAPACITY: nat := 10

  // The data of an SSE event, and the report it parses to, if any.
  type Raw = nat
  type Report = nat

  datatype Event = Payload(report: Report) | Failure

  datatype Goroutine =
    | Starting                  // service root, event service, connect
    | Checking                  // at the select on Ctx.Done
    | Reading                   // in sseSource.Next
    | Sending(report: Report)   // a parsed event in hand
    | Failing                   // an error event in hand
    | Leaving                   // error sent, closing the source
    | Gone

  predicate Active(g: Goroutine) { !g.Leaving? && !g.Gone? }

  datatype Consumer =
    | Receiving
    | Handling(report: Report)
    | Restarting                // an error event in hand, possibly sleeping

  datatype State = State(
    cancelled: bool,
    channel: seq<Event>,
    goroutines: seq<Goroutine>,   // in the order they were started
    streams: seq<seq<Raw>>,       // what the SSE stream of each one has sent
    consumer: Consumer,
    handled: seq<Report>,
    failures: nat,                // error events that have entered the channel
    late: nat)                    // reports that entered it after the cancellation

  predicate Init(s: State) {
    s == State(false, [], [Starting], [[]], Receiving, [], 0, 0)
  }

  datatype Step =
    | StartFails(g: nat)
    | Connects(g: nat)
    | Check(g: nat)
    | StreamSends(g: nat, raw: Raw)
    | StreamBreaks(g: nat)
    | SendReport(g: nat)
    | SendFailure(g: nat)
    | CloseSource(g: nat)
    | Receive
    | Handle
    | Restart
    | Cancel

  predicate At(s: State, g: nat, state: Goroutine) {
    g < |s.goroutines| && s.goroutines[g] == state
  }

  predicate Enabled(s: State, step: Step) {
    match step
    case StartFails(g) => At(s, g, Starting)
    case Connects(g) => At(s, g, Starting)
    case Check(g) => At(s, g, Checking)
    case StreamSends(g, _) => At(s, g, Reading) && g < |s.streams|
    case StreamBreaks(g) => At(s, g, Reading)
    case SendReport(g) => g < |s.goroutines| && s.goroutines[g].Sending? && |s.channel| < CAPACITY
    case SendFailure(g) => At(s, g, Failing) && |s.channel| < CAPACITY
    case CloseSource(g) => At(s, g, Leaving)
    case Receive => s.consumer.Receiving? && s.channel != []
    case Handle => s.consumer.Handling?
    case Restart => s.consumer.Restarting?
    case Cancel => true
  }

  function Move(s: State, g: nat, to: Goroutine): State
    requires g < |s.goroutines|
  {
    s.(goroutines := s.goroutines[g := to])
  }

  // `parse` is json.Unmarshal of the event data.
  function Apply(parse: Raw -> Option<Report>, s: State, step: Step): State
    requires Enabled(s, step)
  {
    match step
    case StartFails(g) => Move(s, g, Failing)
    case Connects(g) => Move(s, g, Checking)
    case Check(g) => Move(s, g, if s.cancelled then Gone else Reading)
    case StreamSends(g, raw) =>
      var t := s.(streams := s.streams[g := s.streams[g] + [raw]]);
      Move(t, g, match parse(raw) case Some(p) => Sending(p) case None => Checking)
    case StreamBreaks(g) => Move(s, g, Failing)
    case SendReport(g) =>
      Move(s, g, Checking).(
        channel := s.channel + [Payload(s.goroutines[g].report)],
        late := s.late + if s.cancelled then 1 else 0)
    case SendFailure(g) =>
      Move(s, g, Leaving).(channel := s.channel + [Failure], failures := s.failures + 1)
    case CloseSource(g) => Move(s, g, Gone)
    case Receive =>
      s.(channel := s.channel[1..],
         consumer := match s.channel[0] case Payload(p) => Handling(p) case Failure => Restarting)
    case Handle => s.(handled := s.handled + [s.consumer.report], consumer := Receiving)
    case Restart =>
      s.(goroutines := s.goroutines + [Starting], streams := s.streams + [[]], consumer := Receiving)
    case Cancel => s.(cancelled := true)
  }

  datatype Run = Run(states: seq<State>, steps: seq<Step>)

  ghost predicate IsRun(parse: Raw -> Option<Report>, r: Run) {
    && |r.states| == |r.steps| + 1
    && Init(r.states[0])
    && (forall i {:trigger r.steps[i]} :: 0 <= i < |r.steps| ==>
          Enabled(r.states[i], r.steps[i]) && r.states[i + 1] == Apply(parse, r.states[i], r.steps[i]))
  }

  // ---- the token -----------------------------------------------------------------

  function ActiveCount(gs: seq<Goroutine>): nat {
    if gs == [] then 0 else ActiveCount(gs[..|gs| - 1]) + (if Active(gs[|gs| - 1]) then 1 else 0)
  }

  function FailureCount(channel: seq<Event>): nat {
    if channel == [] then 0
    else (if channel[0].Failure? then 1 else 0) + FailureCount(channel[1..])
  }

  // Goroutines that have not emitted an error, error events in the channel, and
  // the one the consumer is handling.
  function Tokens(s: State): nat {
    ActiveCount(s.goroutines) + FailureCount(s.channel) + (if s.consumer.Restarting? then 1 else 0)
  }

  // ---- the data ------------------------------------------------------------------

  function Parsed(parse: Raw -> Option<Report>, raws: seq<Raw>): seq<Report> {
    if raws == [] then []
    else
      Parsed(parse, raws[..|raws| - 1])
      + match parse(raws[|raws| - 1]) case Some(p) => [p] case None => []
  }

  // The reports of all streams one after the other.
  function Sent(parse: Raw -> Option<Report>, s: State): seq<Report> {
    Parsed(parse, Flatten(s.streams))
  }

  function Queued(channel: seq<Event>): seq<Report> {
    if channel == [] then []
    else (match channel[0] case Payload(p) => [p] case Failure => []) + Queued(channel[1..])
  }

  function InConsumer(c: Consumer): seq<Report> {
    match c case Handling(p) => [p] case _ => []
  }

  function InGoroutine(g: Goroutine): seq<Report> {
    match g case Sending(p) => [p] case _ => []
  }

  function Last(s: State): Goroutine
    requires s.goroutines != []
  {
    s.goroutines[|s.goroutines| - 1]
  }

  // ---- invariant -----------------------------------------------------------------

  // Only the goroutine started last can still be active.
  predicate OnlyLastActive(gs: seq<Goroutine>) {
    forall g :: 0 <= g < |gs| - 1 ==> !Active(gs[g])
  }

  predicate Shape(s: State) {
    && s.goroutines != [] && |s.streams| == |s.goroutines|
    && OnlyLastActive(s.goroutines)
    && |s.channel| <= CAPACITY
  }

  predicate OneToken(s: State) {
    && Tokens(s) <= 1
    && (!s.cancelled ==> Tokens(s) == 1)
  }

  // Every error event is in the channel, being handled, or has led to a restart.
  predicate Restarts(s: State) {
    s.failures + 1 == |s.goroutines| + FailureCount(s.channel) + (if s.consumer.Restarting? then 1 else 0)
  }

  function InHand(s: State): seq<Report> {
    if s.goroutines == [] then [] else InGoroutine(Last(s))
  }

  predicate InOrder(parse: Raw -> Option<Report>, s: State) {
    Sent(parse, s) == s.handled + InConsumer(s.consumer) + Queued(s.channel) + InHand(s)
  }

  // A goroutine past its check of the context can still send one report.
  predicate Quiet(s: State) {
    && (!s.cancelled ==> s.late == 0)
    && s.late + (if s.cancelled && s.goroutines != [] && (Last(s).Reading? || Last(s).Sending?) then 1 else 0) <= 1
  }

  predicate Inv(parse: Raw -> Option<Report>, s: State) {
    Shape(s) && OneToken(s) && Restarts(s) && InOrder(parse, s) && Quiet(s)
  }

  // ---- counting lemmas -------------------------------------------------------------

  lemma {:induction false} ActiveOnlyLast(gs: seq<Goroutine>)
    requires gs != [] && OnlyLastActive(gs)
    ensures ActiveCount(gs) == if Active(gs[|gs| - 1]) then 1 else 0
    decreases |gs|
  {
    var rest := gs[..|gs| - 1];
    if rest != [] {
      assert !Active(rest[|rest| - 1]);
      ActiveOnlyLast(rest);
    }
  }

  lemma {:induction false} ChannelSnoc(channel: seq<Event>, e: Event)
    ensures FailureCount(channel + [e]) == FailureCount(channel) + (if e.Failure? then 1 else 0)
    ensures Queued(channel + [e]) == Queued(channel) + (match e case Payload(p) => [p] case Failure => [])
    decreases |channel|
  {
    if channel == [] {
      assert (channel + [e])[1..] == [];
    } else {
      assert (channel + [e])[1..] == channel[1..] + [e];
      ChannelSnoc(channel[1..], e);
    }
  }

  lemma ParsedSnoc(parse: Raw -> Option<Report>, raws: seq<Raw>, raw: Raw)
    ensures Parsed(parse, raws + [raw]) == Parsed(parse, raws) + match parse(raw) case Some(p) => [p] case None => []
  {
    assert (raws + [raw])[..|raws|] == raws;
  }

  // An active goroutine is the last one and holds the only token.
  lemma Holder(s: State, g: nat)
    requires Shape(s) && OneToken(s)
    requires g < |s.goroutines| && Active(s.goroutines[g])
    ensures g == |s.goroutines| - 1
    ensures FailureCount(s.channel) == 0 && !s.consumer.Restarting? && Tokens(s) == 1
  {
    ActiveOnlyLast(s.goroutines);
  }

  lemma InitInv(parse: Raw -> Option<Report>, s: State)
    requires Init(s)
    ensures Inv(parse, s)
  {
    ActiveOnlyLast(s.goroutines);
    assert Flatten<Raw>([[]]) == [];
  }

  // Steps of goroutine g other than the closing one, which no longer matters.
  predicate ActiveStep(step: Step) {
    step.StartFails? || step.Connects? || step.Check? || step.StreamSends?
    || step.StreamBreaks? || step.SendReport? || step.SendFailure?
  }

  predicate Control(s: State) {
    Shape(s) && OneToken(s) && Restarts(s) && Quiet(s)
  }

  lemma ActiveStepControl(parse: Raw -> Option<Report>, s: State, step: Step)
    requires Inv(parse, s) && Enabled(s, step) && ActiveStep(step)
    ensures Control(Apply(parse, s, step))
  {
    hide Sent, InOrder;
    Holder(s, step.g);
    var t := Apply(parse, s, step);
    ActiveOnlyLast(s.goroutines);
    assert OnlyLastActive(t.goroutines);
    ActiveOnlyLast(t.goroutines);
    if step.SendReport? {
      ChannelSnoc(s.channel, Payload(s.goroutines[step.g].report));
    } else if step.SendFailure? {
      ChannelSnoc(s.channel, Failure);
    }
  }

  lemma SentGrows(parse: Raw -> Option<Report>, s: State, t: State, raw: Raw)
    requires s.streams != []
    requires var last := |s.streams| - 1; t.streams == s.streams[last := s.streams[last] + [raw]]
    ensures Sent(parse, t) == Sent(parse, s) + match parse(raw) case Some(p) => [p] case None => []
  {
    FlattenLast(s.streams, raw);
    ParsedSnoc(parse, Flatten(s.streams), raw);
    hide Flatten, Parsed;
  }

  lemma StreamSendsOrder(parse: Raw -> Option<Report>, s: State, g: nat, raw: Raw)
    requires Shape(s) && g == |s.goroutines| - 1 && s.goroutines[g] == Reading && InOrder(parse, s)
    ensures InOrder(parse, Apply(parse, s, StreamSends(g, raw)))
  {
    hide Flatten, Parsed, Sent, Queued;
    var t := Apply(parse, s, StreamSends(g, raw));
    SentGrows(parse, s, t, raw);
    assert Last(t) == match parse(raw) case Some(p) => Sending(p) case None => Checking;
  }

  lemma SentSame(parse: Raw -> Option<Report>, s: State, t: State)
    requires t.streams == s.streams
    ensures Sent(parse, t) == Sent(parse, s)
  {
  }

  lemma SendReportOrder(parse: Raw -> Option<Report>, s: State, g: nat)
    requires Shape(s) && g == |s.goroutines| - 1 && Enabled(s, SendReport(g)) && InOrder(parse, s)
    ensures InOrder(parse, Apply(parse, s, SendReport(g)))
  {
    hide Flatten, Parsed, Sent, Queued, FailureCount;
    var p, t := s.goroutines[g].report, Apply(parse, s, SendReport(g));
    ChannelSnoc(s.channel, Payload(p));
    SentSame(parse, s, t);
    assert Last(t) == Checking;
    assert s.handled + InConsumer(s.consumer) + (Queued(s.channel) + [p]) + []
        == s.handled + InConsumer(s.consumer) + Queued(s.channel) + [p];
  }

  lemma SendFailureOrder(parse: Raw -> Option<Report>, s: State, g: nat)
    requires Shape(s) && g == |s.goroutines| - 1 && Enabled(s, SendFailure(g)) && InOrder(parse, s)
    ensures InOrder(parse, Apply(parse, s, SendFailure(g)))
  {
    hide Flatten, Parsed, Sent, Queued, FailureCount;
    var t := Apply(parse, s, SendFailure(g));
    ChannelSnoc(s.channel, Failure);
    SentSame(parse, s, t);
    assert Last(t) == Leaving && Queued(s.channel) + [] == Queued(s.channel);
  }

  // The steps that neither take nor send anything.
  lemma MoveOrder(parse: Raw -> Option<Report>, s: State, g: nat, to: Goroutine)
    requires Shape(s) && g == |s.goroutines| - 1 && !s.goroutines[g].Sending? && !to.Sending? && InOrder(parse, s)
    ensures InOrder(parse, Move(s, g, to))
  {
    hide Flatten, Parsed, Sent, Queued;
    SentSame(parse, s, Move(s, g, to));
    assert Last(Move(s, g, to)) == to;
  }

  lemma ActiveStepOrder(parse: Raw -> Option<Report>, s: State, step: Step)
    requires Inv(parse, s) && Enabled(s, step) && ActiveStep(step)
    ensures InOrder(parse, Apply(parse, s, step))
  {
    Holder(s, step.g);
    hide Tokens, ActiveCount, FailureCount, Restarts, Quiet, Flatten, Parsed, Queued, InOrder;
    match step
    case StreamSends(g, raw) => StreamSendsOrder(parse, s, g, raw);
    case SendReport(g) => SendReportOrder(parse, s, g);
    case SendFailure(g) => SendFailureOrder(parse, s, g);
    case StartFails(g) => MoveOrder(parse, s, g, Failing);
    case Connects(g) => MoveOrder(parse, s, g, Checking);
    case Check(g) => MoveOrder(parse, s, g, if s.cancelled then Gone else Reading);
    case StreamBreaks(g) => MoveOrder(parse, s, g, Failing);
    case _ =>
  }

  lemma OtherStepControl(parse: Raw -> Option<Report>, s: State, step: Step)
    requires Inv(parse, s) && Enabled(s, step) && !ActiveStep(step)
    ensures Control(Apply(parse, s, step))
  {
    hide InOrder;
    var t := Apply(parse, s, step);
    ActiveOnlyLast(s.goroutines);
    match step
    case CloseSource(g) =>
      assert OnlyLastActive(t.goroutines);
      ActiveOnlyLast(t.goroutines);
    case Restart =>
      assert !Active(Last(s));
      assert OnlyLastActive(t.goroutines);
      ActiveOnlyLast(t.goroutines);
    case _ =>
  }

  lemma QueuedCons(channel: seq<Event>)
    requires channel != []
    ensures Queued(channel) == (match channel[0] case Payload(p) => [p] case Failure => []) + Queued(channel[1..])
  {
  }

  lemma ReceiveOrder(parse: Raw -> Option<Report>, s: State)
    requires Shape(s) && Enabled(s, Receive) && InOrder(parse, s)
    ensures InOrder(parse, Apply(parse, s, Receive))
  {
    hide Flatten, Parsed, Sent, Queued, FailureCount;
    var t := Apply(parse, s, Receive);
    QueuedCons(s.channel);
    SentSame(parse, s, t);
    assert InConsumer(s.consumer) == [];
    assert s.handled + [] + (InConsumer(t.consumer) + Queued(t.channel)) + InGoroutine(Last(s))
        == t.handled + InConsumer(t.consumer) + Queued(t.channel) + InGoroutine(Last(t));
  }

  lemma RestartOrder(parse: Raw -> Option<Report>, s: State)
    requires Shape(s) && Enabled(s, Restart) && InOrder(parse, s) && !Active(Last(s))
    ensures InOrder(parse, Apply(parse, s, Restart))
  {
    var t := Apply(parse, s, Restart);
    FlattenSnoc(s.streams, []);
    assert Flatten(s.streams) + [] == Flatten(s.streams);
    assert Sent(parse, t) == Sent(parse, s);
    assert InGoroutine(Last(s)) == InGoroutine(Last(t)) == [];
    hide Flatten, Parsed, Sent, Queued;
  }

  lemma HandleOrder(parse: Raw -> Option<Report>, s: State)
    requires Shape(s) && Enabled(s, Handle) && InOrder(parse, s)
    ensures InOrder(parse, Apply(parse, s, Handle))
  {
    hide Flatten, Parsed, Queued;
    var p := s.consumer.report;
    assert s.handled + [p] + [] == s.handled + [p];
  }

  lemma CloseSourceOrder(parse: Raw -> Option<Report>, s: State, g: nat)
    requires Shape(s) && Enabled(s, CloseSource(g)) && InOrder(parse, s)
    ensures InOrder(parse, Apply(parse, s, CloseSource(g)))
  {
    hide Flatten, Parsed, Queued;
    assert InGoroutine(Last(s)) == InGoroutine(Last(Apply(parse, s, CloseSource(g))));
  }

  lemma OtherStepOrder(parse: Raw -> Option<Report>, s: State, step: Step)
    requires Inv(parse, s) && Enabled(s, step) && !ActiveStep(step)
    ensures InOrder(parse, Apply(parse, s, step))
  {
    ActiveOnlyLast(s.goroutines);
    assert s.consumer.Restarting? ==> !Active(Last(s));
    hide Tokens, ActiveCount, FailureCount, Restarts, Quiet, Flatten, Parsed, Queued;
    match step
    case CloseSource(g) => CloseSourceOrder(parse, s, g);
    case Receive => ReceiveOrder(parse, s);
    case Handle => HandleOrder(parse, s);
    case Restart => RestartOrder(parse, s);
    case Cancel =>
  }

  lemma StepInv(parse: Raw -> Option<Report>, s: State, step: Step)
    requires Inv(parse, s) && Enabled(s, step)
    ensures Inv(parse, Apply(parse, s, step))
  {
    hide Apply, Enabled, Shape, OneToken, Restarts, Quiet, InOrder;
    if ActiveStep(step) {
      ActiveStepControl(parse, s, step);
      ActiveStepOrder(parse, s, step);
    } else {
      OtherStepControl(parse, s, step);
      OtherStepOrder(parse, s, step);
    }
  }

  lemma {:induction false} RunInv(parse: Raw -> Option<Report>, r: Run, i: nat)
    requires IsRun(parse, r) && i < |r.states|
    ensures Inv(parse, r.states[i])
    decreases i
  {
    if i == 0 {
      InitInv(parse, r.states[0]);
    } else {
      var s, step := r.states[i - 1], r.steps[i - 1];
      RunInv(parse, r, i - 1);
      assert Enabled(s, step) && r.states[i - 1 + 1] == Apply(parse, s, step);
      StepInv(parse, s, step);
    }
  }

  // ---- main results ------------------------------------------------------------------

  // Until the context is cancelled there is exactly one token, afterwards at
  // most one; every error event but the pending one has led to one restart; so
  // there is never more than one live stream.
  lemma OneRestartToken(parse: Raw -> Option<Report>, r: Run, i: nat)
    requires IsRun(parse, r) && i < |r.states|
    ensures var s := r.states[i];
            && Tokens(s) <= 1 && (!s.cancelled ==> Tokens(s) == 1)
            && ActiveCount(s.goroutines) <= 1
            && s.failures + 1 == |s.goroutines| + FailureCount(s.channel) + (if s.consumer.Restarting? then 1 else 0)
  {
    RunInv(parse, r, i);
  }

  // What the consumer has handled is, in order and without loss or repetition,
  // a prefix of what the successive streams sent.
  lemma OrderAcrossRestarts(parse: Raw -> Option<Report>, r: Run, i: nat)
    requires IsRun(parse, r) && i < |r.states|
    ensures r.states[i].handled <= Sent(parse, r.states[i])
  {
    RunInv(parse, r, i);
  }

  // When everything has come to rest nothing has been lost either.
  lemma NothingLostAtRest(parse: Raw -> Option<Report>, r: Run, i: nat)
    requires IsRun(parse, r) && i < |r.states|
    requires var s := r.states[i];
             s.channel == [] && s.consumer.Receiving? && forall g :: g in s.goroutines ==> !g.Sending?
    ensures r.states[i].handled == Sent(parse, r.states[i])
  {
    RunInv(parse, r, i);
    assert Last(r.states[i]) in r.states[i].goroutines;
  }

  lemma {:induction false} StaysCancelled(parse: Raw -> Option<Report>, r: Run, i: nat, j: nat)
    requires IsRun(parse, r) && i <= j < |r.states| && r.states[i].cancelled
    ensures r.states[j].cancelled
    decreases j
  {
    if i < j {
      StaysCancelled(parse, r, i, j - 1);
      assert r.states[j - 1 + 1] == Apply(parse, r.states[j - 1], r.steps[j - 1]);
    }
  }

  // Reports that enter the channel in the n steps from number i on.
  function Entries(steps: seq<Step>, i: nat, n: nat): nat
    requires i + n <= |steps|
    decreases n
  {
    if n == 0 then 0 else (if steps[i].SendReport? then 1 else 0) + Entries(steps, i + 1, n - 1)
  }

  lemma {:induction false} LateEntries(parse: Raw -> Option<Report>, r: Run, i: nat, n: nat)
    requires IsRun(parse, r) && i + n < |r.states| && r.states[i].cancelled
    ensures r.states[i].late + Entries(r.steps, i, n) == r.states[i + n].late
    decreases n
  {
    if n > 0 {
      assert Enabled(r.states[i], r.steps[i]) && r.states[i + 1] == Apply(parse, r.states[i], r.steps[i]);
      LateEntries(parse, r, i + 1, n - 1);
    }
  }

  // After the cancellation at most one more report enters the channel.
  lemma QuietAfterCancel(parse: Raw -> Option<Report>, r: Run, i: nat, n: nat)
    requires IsRun(parse, r) && i + n < |r.states| && r.states[i].cancelled
    ensures Entries(r.steps, i, n) <= 1
  {
    LateEntries(parse, r, i, n);
    RunInv(parse, r, i + n);
  }

  // ---- what the steps are for -----------------------------------------------------------------

  // What the source has sent to goroutine g, read off the steps.
  function RawsOf(steps: seq<Step>, g: nat): seq<Raw> {
    if steps == [] then []
    else
      RawsOf(steps[..|steps| - 1], g)
      + match steps[|steps| - 1] case StreamSends(h, raw) => if h == g then [raw] else [] case _ => []
  }

  lemma RawsSnoc(steps: seq<Step>, step: Step, g: nat)
    ensures RawsOf(steps + [step], g)
         == RawsOf(steps, g) + match step case StreamSends(h, raw) => if h == g then [raw] else [] case _ => []
  {
    assert (steps + [step])[..|steps|] == steps;
  }

  // The stream of goroutine g in a state; none has sent nothing.
  function StreamOf(s: State, g: nat): seq<Raw> {
    if g < |s.streams| then s.streams[g] else []
  }

  lemma StreamStep(parse: Raw -> Option<Report>, s: State, step: Step, g: nat)
    requires Enabled(s, step)
    ensures StreamOf(Apply(parse, s, step), g)
         == StreamOf(s, g) + match step case StreamSends(h, raw) => if h == g then [raw] else [] case _ => []
  {
  }

  lemma StepTaken(parse: Raw -> Option<Report>, r: Run, i: nat)
    requires IsRun(parse, r) && i < |r.steps|
    ensures Enabled(r.states[i], r.steps[i]) && r.states[i + 1] == Apply(parse, r.states[i], r.steps[i])
  {
  }

  // The streams of a state are exactly that.
  lemma {:induction false} StreamsRecorded(parse: Raw -> Option<Report>, r: Run, i: nat, g: nat)
    requires IsRun(parse, r) && i < |r.states|
    ensures StreamOf(r.states[i], g) == RawsOf(r.steps[..i], g)
    decreases i
  {
    if i > 0 {
      TakeSnoc(r.steps, i - 1);
      hide RawsOf, StreamOf, Apply, Enabled;
      StreamsRecorded(parse, r, i - 1, g);
      StepTaken(parse, r, i - 1);
      StreamStep(parse, r.states[i - 1], r.steps[i - 1], g);
      RawsSnoc(r.steps[..i - 1], r.steps[i - 1], g);
    }
  }

  // A goroutine whose start or stream failed emits an error event before anything
  // else: until then it does nothing, and it stops only that way.
  lemma {:induction false} FailureIsReported(parse: Raw -> Option<Report>, r: Run, i: nat, j: nat, g: nat)
    requires IsRun(parse, r) && i < j < |r.states|
    requires r.steps[i] == StreamBreaks(g) || r.steps[i] == StartFails(g)
    ensures g < |r.states[j].goroutines|
    ensures r.states[j].goroutines[g] == Failing || exists k :: i < k < j && r.steps[k] == SendFailure(g)
    decreases j
  {
    var s, step := r.states[j - 1], r.steps[j - 1];
    assert Enabled(s, step) && r.states[j - 1 + 1] == Apply(parse, s, step);
    if i < j - 1 {
      FailureIsReported(parse, r, i, j - 1, g);
      if k :| i < k < j - 1 && r.steps[k] == SendFailure(g) {
        assert i < k < j;
      } else if step == SendFailure(g) {
        assert i < j - 1 < j && r.steps[j - 1] == SendFailure(g);
      }
    }
  }

  // The way of a report from a stream that is being read to an idle consumer.
  lemma ReportArrives(parse: Raw -> Option<Report>, s: State, g: nat, raw: Raw, report: Report)
    requires |s.streams| == |s.goroutines| && At(s, g, Checking) && !s.cancelled
    requires s.channel == [] && s.consumer == Receiving && parse(raw) == Some(report)
    ensures && Enabled(s, Check(g))
            && var s1 := Apply(parse, s, Check(g));
            && Enabled(s1, StreamSends(g, raw))
            && var s2 := Apply(parse, s1, StreamSends(g, raw));
            && Enabled(s2, SendReport(g))
            && var s3 := Apply(parse, s2, SendReport(g));
            && Enabled(s3, Receive)
            && var s4 := Apply(parse, s3, Receive);
            && Enabled(s4, Handle)
            && var s5 := Apply(parse, s4, Handle);
            && s5.handled == s.handled + [report] && s5.channel == [] && s5.consumer == Receiving
            && At(s5, g, Checking)
  {
  }

  // The way from a broken stream to the next connection.
  lemma BreakLeadsToRestart(parse: Raw -> Option<Report>, s: State, g: nat)
    requires |s.streams| == |s.goroutines| && At(s, g, Reading)
    requires s.channel == [] && s.consumer == Receiving
    ensures && Enabled(s, StreamBreaks(g))
            && var s1 := Apply(parse, s, StreamBreaks(g));
            && Enabled(s1, SendFailure(g))
            && var s2 := Apply(parse, s1, SendFailure(g));
            && Enabled(s2, Receive)
            && var s3 := Apply(parse, s2, Receive);
            && Enabled(s3, Restart)
            && var s4 := Apply(parse, s3, Restart);
            && s4.goroutines == s.goroutines[g := Leaving] + [Starting]
            && s4.failures == s.failures + 1 && s4.handled == s.handled
            && Enabled(s4, Connects(|s.goroutines|))
            && At(Apply(parse, s4, Connects(|s.goroutines|)), |s.goroutines|, Checking)
  {
  }

  // The channel never holds more than ten events, and below that no sender waits.
  lemma ChannelBound(parse: Raw -> Option<Report>, r: Run, i: nat, g: nat)
    requires IsRun(parse, r) && i < |r.states|
    ensures var s := r.states[i];
            && |s.channel| <= 10
            && (|s.channel| < 10 && g < |s.goroutines| && s.goroutines[g].Sending? ==> Enabled(s, SendReport(g)))
            && (|s.channel| < 10 && At(s, g, Failing) ==> Enabled(s, SendFailure(g)))
  {
    RunInv(parse, r, i);
  }

  // A goroutine ends after its error event, or at its next look at a cancelled
  // context.
  lemma GoroutineEnds(parse: Raw -> Option<Report>, s: State, g: nat)
    ensures At(s, g, Leaving) ==> Enabled(s, CloseSource(g)) && At(Apply(parse, s, CloseSource(g)), g, Gone)
    ensures At(s, g, Checking) ==>
              var t := Apply(parse, s, Cancel);
              t.cancelled && Enabled(t, Check(g)) && At(Apply(parse, t, Check(g)), g, Gone)
  {
  }
}
