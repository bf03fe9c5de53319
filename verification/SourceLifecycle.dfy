// internal/sse/event_source.go under concurrency: one reader calling Next, any
// number of goroutines calling Close, interleaved at every lock, channel and
// Close operation.
module SourceLifecycle {
  import opened Options

  // A response body, numbered in the order of opening.
  type Body = nat

  datatype Result = Delivered | SourceClosed | EndOfFile | Transport | BadResponse

  // Why the reader is inside establishConnection or waitForRetry.
  datatype Caller = FromConnect | FromNext

  // Where the reader stands between two atomic steps.
  datatype Reader =
    | Idle                               // outside Next; holds nothing
    | Ensuring                           // about to take the lock in ensureReadCloser
    | Requesting(caller: Caller)         // in client.Do
    | Rejecting(body: Body, again: bool, caller: Caller) // non-200 answer in hand, body not closed yet
    | Fresh(body: Body, caller: Caller)  // a ReadCloser nobody else knows
    | Dropping(body: Body)               // lost the race against Close
    | Reading(body: Body)                // in readCloser.Next
    | ReadError(body: Body)              // about to call readCloser.Close
    | Clearing(reconnect: bool, caller: Caller) // in waitForRetry, before the lock
    | Waiting(reconnect: bool, caller: Caller)  // in waitForRetry's select

  datatype State = State(
    bodies: nat,              // bodies 0..bodies have been opened
    closes: map<Body, nat>,   // calls of body.Close
    rcClosed: set<Body>,      // ReadClosers whose closed flag is set
    current: Option<Body>,    // currentReadCloser
    closed: bool,             // the closed channel
    connected: bool,          // the source has been handed to its users
    reader: Reader)

  // NewEventSource, and the start of Connect.
  predicate Init(s: State) {
    && s.bodies == 0 && s.closes == map[] && s.rcClosed == {} && s.current == None && !s.closed
    && ((s.connected && s.reader == Idle) || (!s.connected && s.reader == Requesting(FromConnect)))
  }

  function Closes(s: State, b: Body): nat {
    if b in s.closes then s.closes[b] else 0
  }

  function CloseBody(s: State, b: Body): State {
    s.(closes := s.closes[b := Closes(s, b) + 1])
  }

  // ReadCloser.Close.
  function CloseReadCloser(s: State, b: Body): State {
    if b in s.rcClosed then s else CloseBody(s, b).(rcClosed := s.rcClosed + {b})
  }

  // Leaving Next, or Connect with an error.
  function Return(s: State): State { s.(reader := Idle) }

  datatype Step =
    | BeginNext
    | Ensure
    | RequestFails(retry: bool)
    | RequestRejected(again: bool)
    | RequestAccepted
    | CloseRejected
    | Publish
    | CloseDropped
    | ReadEvent
    | ReadEOF
    | ReadBreaks
    | CloseBroken
    | ClearCurrent
    | TimerFires
    | ClosedFires
    | Close(bodyCloseFails: bool)

  predicate Enabled(s: State, step: Step) {
    match step
    case BeginNext => s.connected && s.reader.Idle?
    case Ensure => s.reader.Ensuring?
    case RequestFails(_) => s.reader.Requesting?
    case RequestRejected(_) => s.reader.Requesting?
    case RequestAccepted => s.reader.Requesting?
    case CloseRejected => s.reader.Rejecting?
    case Publish => s.reader.Fresh?
    case CloseDropped => s.reader.Dropping?
    case ReadEvent => s.reader.Reading?
    case ReadEOF => s.reader.Reading?
    case ReadBreaks => s.reader.Reading?
    case CloseBroken => s.reader.ReadError?
    case ClearCurrent => s.reader.Clearing?
    case TimerFires => s.reader.Waiting?
    case ClosedFires => s.reader.Waiting? && s.closed
    case Close(_) => s.connected
  }

  function Apply(s: State, step: Step): State
    requires Enabled(s, step)
  {
    match step
    case BeginNext => if s.closed then Return(s) else s.(reader := Ensuring)
    case Ensure =>
      if s.current.Some? then s.(reader := Reading(s.current.value)) else s.(reader := Requesting(FromNext))
    case RequestFails(retry) =>
      if retry then s.(reader := Clearing(false, s.reader.caller)) else Return(s)
    case RequestRejected(again) =>
      s.(bodies := s.bodies + 1, reader := Rejecting(s.bodies, again, s.reader.caller))
    case RequestAccepted =>
      s.(bodies := s.bodies + 1, reader := Fresh(s.bodies, s.reader.caller))
    case CloseRejected =>
      var t := CloseBody(s, s.reader.body);
      if s.reader.again then t.(reader := Clearing(false, s.reader.caller)) else Return(t)
    case Publish =>
      if s.reader.caller == FromConnect then
        s.(current := Some(s.reader.body), connected := true, reader := Idle)
      else if s.closed then s.(reader := Dropping(s.reader.body))
      else s.(current := Some(s.reader.body), reader := Reading(s.reader.body))
    case CloseDropped => Return(CloseReadCloser(s, s.reader.body))
    case ReadEvent => Return(s)
    case ReadEOF => Return(s)
    case ReadBreaks => s.(reader := ReadError(s.reader.body))
    case CloseBroken =>
      CloseReadCloser(s, s.reader.body).(reader := Clearing(true, FromNext))
    case ClearCurrent =>
      s.(current := None, reader := Waiting(s.reader.reconnect, s.reader.caller))
    case TimerFires =>
      if s.reader.reconnect then s.(reader := Ensuring) else s.(reader := Requesting(s.reader.caller))
    case ClosedFires => Return(s)
    case Close(fails) =>
      var t := s.(closed := true);
      if t.current == None then t
      else
        var already := t.current.value in t.rcClosed;
        var u := CloseReadCloser(t, t.current.value);
        if already || fails then u else u.(current := None)
  }

  // What a step that ends a call of Next makes it return.
  function Returned(s: State, step: Step): Option<Result>
    requires Enabled(s, step)
  {
    match step
    case BeginNext => if s.closed then Some(SourceClosed) else None
    case RequestFails(retry) => if retry then None else Some(Transport)
    case CloseRejected => if s.reader.again then None else Some(BadResponse)
    case CloseDropped => Some(SourceClosed)
    case ReadEvent => Some(Delivered)
    case ReadEOF => Some(EndOfFile)
    case ClosedFires => Some(SourceClosed)
    case _ => None
  }

  // ---- runs ---------------------------------------------------------------------

  datatype Run = Run(states: seq<State>, steps: seq<Step>)

  predicate IsRun(r: Run) {
    && |r.states| == |r.steps| + 1
    && Init(r.states[0])
    && (forall i {:trigger r.steps[i]} :: 0 <= i < |r.steps| ==>
          Enabled(r.states[i], r.steps[i]) && r.states[i + 1] == Apply(r.states[i], r.steps[i]))
  }

  predicate Open(s: State, b: Body) { b < s.bodies && Closes(s, b) == 0 }

  // The body the reader alone is responsible for.
  function Held(s: State): Option<Body> {
    match s.reader
    case Rejecting(b, _, _) => Some(b)
    case Fresh(b, _) => Some(b)
    case Dropping(b) => Some(b)
    case _ => None
  }

  // No leak: an open body is in currentReadCloser or in the reader's hands.
  ghost predicate Accounted(s: State) {
    forall b: Body :: Open(s, b) ==> s.current == Some(b) || Held(s) == Some(b)
  }

  predicate ClosedAtMostOnce(s: State) {
    forall b: Body :: b in s.closes ==> s.closes[b] == 1 && b < s.bodies
  }

  predicate Establishing(r: Reader) {
    || r.Requesting? || r.Rejecting? || r.Fresh? || r.Dropping?
    || (r.Clearing? && !r.reconnect) || (r.Waiting? && !r.reconnect)
  }

  predicate ActsFor(r: Reader, caller: Caller) {
    match r
    case Requesting(c) => c == caller
    case Rejecting(_, _, c) => c == caller
    case Fresh(_, c) => c == caller
    case Clearing(_, c) => c == caller
    case Waiting(_, c) => c == caller
    case _ => false
  }

  ghost predicate Inv(s: State) {
    && Accounted(s) && ClosedAtMostOnce(s)
    && (forall b: Body :: b in s.rcClosed ==> b in s.closes)
    // A body in the reader's hands is open and nowhere else.
    && (Held(s).Some? ==> Open(s, Held(s).value) && s.current == None)
    // A published connection is closed only through its ReadCloser.
    && (s.current.Some? ==>
          s.current.value < s.bodies && (s.current.value in s.closes <==> s.current.value in s.rcClosed))
    && (s.reader.Reading? || s.reader.ReadError? ==>
          s.reader.body < s.bodies && (s.reader.body in s.closes <==> s.reader.body in s.rcClosed))
    // While a new connection is being made there is no other.
    && (Establishing(s.reader) ==> s.current == None)
    // Until Close has been called the reader only ever has an open connection in
    // hand, except one that broke and that it is about to forget.
    && (!s.closed && s.current.Some? && s.current.value in s.rcClosed ==> s.reader.Clearing? && s.reader.reconnect)
    && (!s.closed && (s.reader.Reading? || s.reader.ReadError?) ==> s.current == Some(s.reader.body))
    // A broken connection has been closed before it is forgotten.
    && (s.reader.Clearing? && s.reader.reconnect && s.current.Some? ==> s.current.value in s.rcClosed)
    && (s.reader.ReadError? && s.current.Some? ==> s.current.value == s.reader.body)
    && (s.reader.Reading? && s.current.Some? ==> s.current.value == s.reader.body)
    // After Close nothing published is open.
    && (s.closed ==> s.current.Some? ==> s.current.value in s.rcClosed)
    // Before the source is handed out only Connect's own steps happen.
    && (!s.connected ==>
          && !s.closed && s.current == None
          && (s.reader.Idle? || (Establishing(s.reader) && ActsFor(s.reader, FromConnect))))
    && (s.connected ==> !ActsFor(s.reader, FromConnect))
  }

  lemma InitInv(s: State)
    requires Init(s)
    ensures Inv(s)
  {
  }

  predicate ClosesBody(step: Step) {
    step.CloseRejected? || step.CloseDropped? || step.CloseBroken? || step.Close?
  }

  predicate OpensBody(step: Step) {
    step.RequestRejected? || step.RequestAccepted?
  }

  lemma OpenStepInv(s: State, step: Step)
    requires Inv(s) && Enabled(s, step) && OpensBody(step)
    ensures Inv(Apply(s, step))
  {
    assert s.bodies !in s.closes && s.bodies !in s.rcClosed;
  }

  lemma QuietStepInv(s: State, step: Step)
    requires Inv(s) && Enabled(s, step) && !ClosesBody(step) && !OpensBody(step)
    ensures Inv(Apply(s, step))
  {
  }

  lemma CloseStepInv(s: State, step: Step)
    requires Inv(s) && Enabled(s, step) && step.Close?
    ensures Inv(Apply(s, step))
  {
  }

  lemma ReaderCloseStepInv(s: State, step: Step)
    requires Inv(s) && Enabled(s, step) && ClosesBody(step) && !step.Close?
    ensures Inv(Apply(s, step))
  {
  }

  lemma StepInv(s: State, step: Step)
    requires Inv(s) && Enabled(s, step)
    ensures Inv(Apply(s, step))
  {
    hide Inv, Apply, Enabled;
    if OpensBody(step) {
      OpenStepInv(s, step);
    } else if !ClosesBody(step) {
      QuietStepInv(s, step);
    } else if step.Close? {
      CloseStepInv(s, step);
    } else {
      ReaderCloseStepInv(s, step);
    }
  }

  // ---- what holds over every run --------------------------------------------------

  lemma {:induction false} RunInv(r: Run, i: nat)
    requires IsRun(r) && i < |r.states|
    ensures Inv(r.states[i])
    decreases i
  {
    if i == 0 {
      InitInv(r.states[0]);
    } else {
      RunInv(r, i - 1);
      StepInv(r.states[i - 1], r.steps[i - 1]);
      assert r.states[i - 1 + 1] == Apply(r.states[i - 1], r.steps[i - 1]);
    }
  }

  // Every body ever opened is closed, or in currentReadCloser, or in the hands
  // of the reader that is opening it, and none is closed twice.
  lemma NoConnectionLeak(r: Run, i: nat)
    requires IsRun(r) && i < |r.states|
    ensures Accounted(r.states[i])
    ensures ClosedAtMostOnce(r.states[i])
  {
    RunInv(r, i);
  }

  // Once some Close has happened and the reader is out of Next, nothing is open.
  lemma NothingOpenAfterClose(r: Run, i: nat)
    requires IsRun(r) && i < |r.states|
    requires r.states[i].closed && r.states[i].reader.Idle?
    ensures forall b: Body :: b < r.states[i].bodies ==> b in r.states[i].closes && r.states[i].closes[b] == 1
  {
    RunInv(r, i);
    var s := r.states[i];
    forall b: Body | b < s.bodies ensures b in s.closes && s.closes[b] == 1 {
      assert !Open(s, b);
    }
  }

  lemma {:induction false} StaysClosed(r: Run, i: nat, j: nat)
    requires IsRun(r) && i <= j < |r.states| && r.states[i].closed
    ensures r.states[j].closed
    decreases j
  {
    if i < j {
      StaysClosed(r, i, j - 1);
      assert r.states[j - 1 + 1] == Apply(r.states[j - 1], r.steps[j - 1]);
    }
  }

  // A Next that begins after a Close returns ErrSourceClosed at once, without a
  // request and without touching any body.
  lemma NextAfterClose(r: Run, i: nat, j: nat)
    requires IsRun(r) && i < j < |r.steps|
    requires r.steps[i].Close? && r.steps[j] == BeginNext
    ensures Returned(r.states[j], BeginNext) == Some(SourceClosed)
    ensures r.states[j + 1] == r.states[j]
  {
    assert r.states[i + 1] == Apply(r.states[i], r.steps[i]);
    StaysClosed(r, i + 1, j);
    assert Enabled(r.states[j], r.steps[j]) && r.states[j + 1] == Apply(r.states[j], r.steps[j]);
  }

  // The reader is outside Next exactly when a step of its own returned.
  lemma ReturnsToIdle(s: State, step: Step)
    requires Inv(s) && Enabled(s, step) && s.connected && !step.Close?
    ensures Returned(s, step).Some? <==> Apply(s, step).reader.Idle?
  {
  }

  // While no Close has been called the reader reads from the current connection,
  // and it is open.
  lemma ReadsOpenConnection(r: Run, i: nat)
    requires IsRun(r) && i < |r.states|
    ensures var s := r.states[i];
            s.reader.Reading? && !s.closed ==> s.current == Some(s.reader.body) && Open(s, s.reader.body)
  {
    RunInv(r, i);
  }

  lemma StepTaken(r: Run, i: nat)
    requires IsRun(r) && i < |r.steps|
    ensures Enabled(r.states[i], r.steps[i]) && r.states[i + 1] == Apply(r.states[i], r.steps[i])
  {
  }

  // The connection broke and is about to be closed, or has been closed.
  predicate Broke(s: State, b: Body) { s.reader == ReadError(b) || b in s.closes }

  lemma StaysBroken(s: State, step: Step, b: Body)
    requires Inv(s) && Enabled(s, step) && Broke(s, b)
    ensures Broke(Apply(s, step), b)
  {
  }

  lemma {:induction false} RunKeepsBroken(r: Run, i: nat, j: nat, b: Body)
    requires IsRun(r) && i <= j < |r.states| && Broke(r.states[i], b)
    ensures Broke(r.states[j], b)
    decreases j
  {
    if i < j {
      RunKeepsBroken(r, i, j - 1, b);
      RunInv(r, j - 1);
      StepTaken(r, j - 1);
      hide *;
      StaysBroken(r.states[j - 1], r.steps[j - 1], b);
    }
  }

  // A connection whose read broke is closed before the reader does anything else.
  lemma BrokenIsClosed(r: Run, i: nat, j: nat)
    requires IsRun(r) && i < j < |r.states| && r.steps[i] == ReadBreaks
    ensures r.states[i].reader.Reading?
    ensures var b := r.states[i].reader.body;
            r.states[j].reader == ReadError(b) || b in r.states[j].closes
  {
    StepTaken(r, i);
    RunKeepsBroken(r, i + 1, j, r.states[i].reader.body);
  }

  // Next only reports a closed source when Close has been called.
  lemma ClosedMeansClosed(r: Run, i: nat)
    requires IsRun(r) && i < |r.steps|
    ensures Enabled(r.states[i], r.steps[i])
    ensures Returned(r.states[i], r.steps[i]) == Some(SourceClosed) ==> r.states[i].closed
  {
    RunInv(r, i);
    assert Enabled(r.states[i], r.steps[i]);
    hide Inv;
    DroppingMeansClosed(r, i);
  }

  // The reader drops a new connection only after Close.
  lemma {:induction false} DroppingMeansClosed(r: Run, i: nat)
    requires IsRun(r) && i < |r.states|
    ensures r.states[i].reader.Dropping? ==> r.states[i].closed
    decreases i
  {
    if i > 0 {
      DroppingMeansClosed(r, i - 1);
      assert Enabled(r.states[i - 1], r.steps[i - 1]);
      assert r.states[i - 1 + 1] == Apply(r.states[i - 1], r.steps[i - 1]);
    }
  }

  // What a call of Next goes through when its connection breaks and the next
  // request succeeds: it ends with an event from the new connection, and the old
  // one is closed once.
  lemma NextReconnects(s: State, b: Body)
    requires Inv(s) && s.connected && !s.closed && s.reader == Idle && s.current == Some(b)
    ensures && Enabled(s, BeginNext)
            && var s1 := Apply(s, BeginNext);
            && Enabled(s1, Ensure)
            && var s2 := Apply(s1, Ensure);
            && Enabled(s2, ReadBreaks)
            && var s3 := Apply(s2, ReadBreaks);
            && Enabled(s3, CloseBroken)
            && var s4 := Apply(s3, CloseBroken);
            && Enabled(s4, ClearCurrent)
            && var s5 := Apply(s4, ClearCurrent);
            && Enabled(s5, TimerFires)
            && var s6 := Apply(s5, TimerFires);
            && Closes(s6, b) == 1 && s6.current == None && s6.reader == Ensuring && s6.bodies == s.bodies
  {
  }

  lemma NextConnects(s: State)
    requires Inv(s) && s.connected && !s.closed && s.reader == Ensuring && s.current == None
    ensures && Enabled(s, Ensure)
            && var s1 := Apply(s, Ensure);
            && Enabled(s1, RequestAccepted)
            && var s2 := Apply(s1, RequestAccepted);
            && Enabled(s2, Publish)
            && var s3 := Apply(s2, Publish);
            && Enabled(s3, ReadEvent)
            && Returned(s3, ReadEvent) == Some(Delivered)
            && var s4 := Apply(s3, ReadEvent);
            && s4.reader == Idle && s4.current == Some(s.bodies) && Open(s4, s.bodies)
  {
    assert s.bodies !in s.closes;
  }

  // Close closes the current connection; it stays in place when closing fails,
  // because it had been closed before or because its body would not close.
  lemma CloseCloses(s: State, fails: bool)
    requires Inv(s) && s.connected
    ensures Enabled(s, Close(fails))
    ensures var t := Apply(s, Close(fails));
            && t.closed && t.reader == s.reader
            && (s.current.Some? ==> Closes(t, s.current.value) == 1)
            && t.current == if s.current.Some? && (s.current.value in s.rcClosed || fails) then s.current else None
  {
  }
}
