// internal/sse/event_source.go as one reader sees it: connecting with a retry
// budget, and resuming after a broken connection. The interleavings with
// concurrent Close calls are in SourceLifecycle.
module EventSource {
  import opened Options
  import opened SseText
  import opened SseEvent
  import opened SseReader
  import opened SseRoundTrip

  const TWO_16: int := 0x1_0000
  type uint16 = x: int | 0 <= x < TWO_16

  // ---- the world around the source ---------------------------------------------

  // The answer to one request: client.Do failed, or a status, or a 200 whose
  // body reads as the given fragments and then fails.
  datatype Response =
    | Refused(code: nat)
    | Status(code: nat)
    | Stream(fragments: seq<Fragment>, failure: ReadError)

  // Answers depend on the position of the request and on its Last-Event-ID.
  type Answers = (nat, Bytes) -> Response

  // 500, 502, 503 and 504 are worth another request.
  predicate Retriable(r: Response) {
    r.Status? && r.code in {500, 502, 503, 504}
  }

  // Whether each coming look at the closed channel finds it closed. A run that
  // is never closed is covered by its finite prefixes: the list may be as long
  // as one likes, and after it the source counts as closed.
  type Looks = seq<bool>

  class Environment {
    const answers: Answers
    var asked: nat
    var looks: Looks

    constructor (answers: Answers, looks: Looks)
      ensures this.answers == answers && asked == 0 && this.looks == looks
    {
      this.answers, asked, this.looks := answers, 0, looks;
    }

    method Do(lastEventID: Bytes) returns (r: Response)
      modifies this`asked
      ensures r == answers(old(asked), lastEventID) && asked == old(asked) + 1
    {
      r := answers(asked, lastEventID);
      asked := asked + 1;
    }

    method Look() returns (closed: bool)
      modifies this`looks
      ensures closed == LookClosed(old(looks))
      ensures looks == LooksLeft(old(looks))
    {
      if looks == [] {
        return true;
      }
      closed := looks[0];
      looks := looks[1..];
    }
  }

  predicate LookClosed(looks: Looks) { looks == [] || looks[0] }

  function LooksLeft(looks: Looks): Looks { if looks == [] then [] else looks[1..] }

  // ---- connecting ----------------------------------------------------------------

  datatype SourceError =
    | ErrSourceClosed
    | TransportError(code: nat)
    | BadResponseError(code: nat)
    | ReadFailed(failure: ReadError)

  datatype Verdict =
    | Connected(fragments: seq<Fragment>, failure: ReadError)
    | Failed(error: SourceError)

  predicate ShouldRetry(maxRetries: uint16, retries: uint16) {
    maxRetries == 0 || (maxRetries > 0 && retries <= maxRetries)
  }

  // connectionRetries++ on a uint16.
  function Incremented(retries: uint16): uint16 {
    (retries + 1) % TWO_16
  }

  datatype Attempt = Attempt(verdict: Verdict, asked: nat, looks: Looks)

  // What the loop of establishConnection comes to from request number asked on.
  function Establish(maxRetries: uint16, retries: uint16, answers: Answers, id: Bytes, asked: nat, looks: Looks)
    : (a: Attempt)
    ensures |a.looks| <= |looks|
    decreases |looks|
  {
    var r := answers(asked, id);
    match r
    case Stream(fragments, failure) => Attempt(Connected(fragments, failure), asked + 1, looks)
    case Refused(code) =>
      var n := Incremented(retries);
      if !ShouldRetry(maxRetries, n) then Attempt(Failed(TransportError(code)), asked + 1, looks)
      else if LookClosed(looks) then Attempt(Failed(ErrSourceClosed), asked + 1, LooksLeft(looks))
      else Establish(maxRetries, n, answers, id, asked + 1, looks[1..])
    case Status(code) =>
      if !Retriable(r) then Attempt(Failed(BadResponseError(code)), asked + 1, looks)
      else if LookClosed(looks) then Attempt(Failed(ErrSourceClosed), asked + 1, LooksLeft(looks))
      else Establish(maxRetries, retries, answers, id, asked + 1, looks[1..])
  }

  // ---- the retry budget ------------------------------------------------------------

  // Refused requests among numbers from..to.
  function Refusals(answers: Answers, id: Bytes, from: nat, to: nat): nat
    decreases to - from
  {
    if from >= to then 0
    else (if answers(from, id).Refused? then 1 else 0) + Refusals(answers, id, from + 1, to)
  }

  // 5xx answers among numbers from..to.
  function ServerErrors(answers: Answers, id: Bytes, from: nat, to: nat): nat
    decreases to - from
  {
    if from >= to then 0
    else (if Retriable(answers(from, id)) then 1 else 0) + ServerErrors(answers, id, from + 1, to)
  }

  // The loop goes on after request number i when it was refused within the
  // budget or answered with a 5xx; refusals before `from` number `spent`.
  ghost predicate GoesOn(maxRetries: uint16, spent: nat, answers: Answers, id: Bytes, from: nat, i: nat)
    requires from <= i
  {
    || Retriable(answers(i, id))
    || (answers(i, id).Refused?
        && (LimitedBudget(maxRetries) ==> spent + Refusals(answers, id, from, i + 1) <= maxRetries))
  }

  // A budget that can run out. Zero means no limit, and with 65535 the counter
  // wraps to zero before it exceeds the limit.
  predicate LimitedBudget(maxRetries: uint16) { 0 < maxRetries < 65535 }

  // Exactly which answer ends establishConnection, counted independently of the
  // loop: every earlier one was a 5xx or a refusal within the budget, and the
  // last is a 200, another status, the (maxRetries+1)-th refusal, or one that
  // would have gone on had the wait after it not found the source closed.
  ghost predicate EndsAt(maxRetries: uint16, spent: nat, answers: Answers, id: Bytes, from: nat, looks: Looks,
                         a: Attempt) {
    && from < a.asked
    && (forall i: nat :: from <= i < a.asked - 1 ==> GoesOn(maxRetries, spent, answers, id, from, i))
    && a.asked - 1 - from <= |looks|
    && (forall j :: 0 <= j < a.asked - 1 - from ==> !looks[j])
    && var last := answers(a.asked - 1, id);
       var left := looks[a.asked - 1 - from..];
       match a.verdict
       case Connected(fragments, failure) => last == Stream(fragments, failure) && a.looks == left
       case Failed(BadResponseError(code)) => last == Status(code) && !Retriable(last) && a.looks == left
       case Failed(TransportError(code)) =>
         && last == Refused(code) && LimitedBudget(maxRetries)
         && spent + Refusals(answers, id, from, a.asked) == maxRetries + 1
         && a.looks == left
       case Failed(ErrSourceClosed) =>
         && GoesOn(maxRetries, spent, answers, id, from, a.asked - 1)
         && LookClosed(left) && a.looks == LooksLeft(left)
       case Failed(ReadFailed(_)) => false
  }

  // The counter agrees with the number of refusals as long as it matters.
  predicate Counts(maxRetries: uint16, retries: uint16, spent: nat) {
    LimitedBudget(maxRetries) ==> retries == spent <= maxRetries
  }

  // A first answer that goes on can be put before any ending.
  lemma EndsAtStep(maxRetries: uint16, spent: nat, answers: Answers, id: Bytes, from: nat, looks: Looks, a: Attempt)
    requires GoesOn(maxRetries, spent, answers, id, from, from) && !LookClosed(looks)
    requires EndsAt(maxRetries, spent + (if answers(from, id).Refused? then 1 else 0), answers, id, from + 1,
                    looks[1..], a)
    ensures EndsAt(maxRetries, spent, answers, id, from, looks, a)
  {
    var spent' := spent + (if answers(from, id).Refused? then 1 else 0);
    forall i: nat | from < i
      ensures spent' + Refusals(answers, id, from + 1, i) == spent + Refusals(answers, id, from, i)
    {
    }
    hide Refusals;
    forall i: nat | from <= i < a.asked - 1 ensures GoesOn(maxRetries, spent, answers, id, from, i) {
      if from < i {
        assert GoesOn(maxRetries, spent', answers, id, from + 1, i);
        assert spent' + Refusals(answers, id, from + 1, i + 1) == spent + Refusals(answers, id, from, i + 1);
      }
    }
    var n := a.asked - 1 - from;
    assert looks[1..][n - 1..] == looks[n..];
    assert forall j :: 0 < j < n ==> looks[j] == looks[1..][j - 1];
    assert spent' + Refusals(answers, id, from + 1, a.asked) == spent + Refusals(answers, id, from, a.asked);
  }

  lemma EndsAtOnce(maxRetries: uint16, retries: uint16, spent: nat, answers: Answers, id: Bytes, asked: nat,
                   looks: Looks)
    requires Counts(maxRetries, retries, spent)
    requires GoesOn(maxRetries, spent, answers, id, asked, asked) ==> LookClosed(looks)
    ensures EndsAt(maxRetries, spent, answers, id, asked, looks,
                   Establish(maxRetries, retries, answers, id, asked, looks))
  {
    RefusalsOne(answers, id, asked);
    assert looks[0..] == looks;
    hide Refusals;
  }

  lemma RefusalsOne(answers: Answers, id: Bytes, asked: nat)
    ensures Refusals(answers, id, asked, asked + 1) == if answers(asked, id).Refused? then 1 else 0
  {
  }

  // One turn of the loop.
  lemma EstablishStep(maxRetries: uint16, retries: uint16, spent: nat, answers: Answers, id: Bytes, asked: nat,
                      looks: Looks)
    requires Counts(maxRetries, retries, spent)
    requires GoesOn(maxRetries, spent, answers, id, asked, asked) && !LookClosed(looks)
    ensures var refused := answers(asked, id).Refused?;
            var retries' := if refused then Incremented(retries) else retries;
            && Counts(maxRetries, retries', spent + if refused then 1 else 0)
            && Establish(maxRetries, retries, answers, id, asked, looks)
            == Establish(maxRetries, retries', answers, id, asked + 1, looks[1..])
  {
    RefusalsOne(answers, id, asked);
  }

  lemma {:induction false} Budget(maxRetries: uint16, retries: uint16, spent: nat, answers: Answers, id: Bytes,
                                  asked: nat, looks: Looks)
    requires Counts(maxRetries, retries, spent)
    ensures EndsAt(maxRetries, spent, answers, id, asked, looks,
                   Establish(maxRetries, retries, answers, id, asked, looks))
    decreases |looks|
  {
    if !GoesOn(maxRetries, spent, answers, id, asked, asked) || LookClosed(looks) {
      EndsAtOnce(maxRetries, retries, spent, answers, id, asked, looks);
    } else {
      assert |looks[1..]| < |looks|;
      hide *;
      EstablishStep(maxRetries, retries, spent, answers, id, asked, looks);
      var refused := answers(asked, id).Refused?;
      var retries' := if refused then Incremented(retries) else retries;
      Budget(maxRetries, retries', spent + if refused then 1 else 0, answers, id, asked + 1, looks[1..]);
      EndsAtStep(maxRetries, spent, answers, id, asked, looks,
                 Establish(maxRetries, retries', answers, id, asked + 1, looks[1..]));
    }
  }

  lemma EndsNoLater(maxRetries: uint16, spent: nat, answers: Answers, id: Bytes, from: nat, looks: Looks, a: Attempt,
                    b: Attempt)
    requires EndsAt(maxRetries, spent, answers, id, from, looks, a)
    requires EndsAt(maxRetries, spent, answers, id, from, looks, b)
    ensures a.asked >= b.asked
  {
    hide Refusals;
    assert a.asked < b.asked ==> GoesOn(maxRetries, spent, answers, id, from, a.asked - 1);
  }

  lemma EndsOneWay(maxRetries: uint16, spent: nat, answers: Answers, id: Bytes, from: nat, looks: Looks, a: Attempt,
                   b: Attempt)
    requires EndsAt(maxRetries, spent, answers, id, from, looks, a)
    requires EndsAt(maxRetries, spent, answers, id, from, looks, b)
    requires a.asked == b.asked
    ensures a == b
  {
    hide Refusals;
  }

  // The ending is determined by the answers: there is only one, and it is where
  // the loop stops.
  lemma GivesUpExactly(maxRetries: uint16, answers: Answers, id: Bytes, asked: nat, looks: Looks, a: Attempt)
    ensures a == Establish(maxRetries, 0, answers, id, asked, looks)
       <==> EndsAt(maxRetries, 0, answers, id, asked, looks, a)
  {
    var b := Establish(maxRetries, 0, answers, id, asked, looks);
    assert Counts(maxRetries, 0, 0);
    hide *;
    Budget(maxRetries, 0, 0, answers, id, asked, looks);
    if EndsAt(maxRetries, 0, answers, id, asked, looks, a) {
      EndsNoLater(maxRetries, 0, answers, id, asked, looks, a, b);
      EndsNoLater(maxRetries, 0, answers, id, asked, looks, b, a);
      EndsOneWay(maxRetries, 0, answers, id, asked, looks, a, b);
    }
  }

  lemma {:induction false} CountsAdd(answers: Answers, id: Bytes, from: nat, n: nat)
    requires forall i: nat :: from <= i < from + n ==> answers(i, id).Refused? || Retriable(answers(i, id))
    ensures Refusals(answers, id, from, from + n) + ServerErrors(answers, id, from, from + n) == n
    decreases n
  {
    if n > 0 {
      CountsAdd(answers, id, from + 1, n - 1);
    }
  }

  lemma {:induction false} RefusalsSnoc(answers: Answers, id: Bytes, from: nat, n: nat)
    ensures Refusals(answers, id, from, from + n + 1)
         == Refusals(answers, id, from, from + n) + (if answers(from + n, id).Refused? then 1 else 0)
    decreases n
  {
    if n > 0 {
      RefusalsSnoc(answers, id, from + 1, n - 1);
    }
  }

  // Among answers that all went on, the refusals stay within the budget.
  lemma {:induction false} RefusalsWithin(maxRetries: uint16, answers: Answers, id: Bytes, from: nat, n: nat)
    requires LimitedBudget(maxRetries)
    requires forall i: nat :: from <= i < from + n ==> GoesOn(maxRetries, 0, answers, id, from, i)
    ensures Refusals(answers, id, from, from + n) <= maxRetries
    decreases n
  {
    if n > 0 {
      RefusalsSnoc(answers, id, from, n - 1);
      assert GoesOn(maxRetries, 0, answers, id, from, from + n - 1);
      RefusalsWithin(maxRetries, answers, id, from, n - 1);
    }
  }

  lemma RunLength(maxRetries: uint16, answers: Answers, id: Bytes, from: nat, n: nat)
    requires LimitedBudget(maxRetries)
    requires forall i: nat :: from <= i < from + n ==> GoesOn(maxRetries, 0, answers, id, from, i)
    ensures n <= maxRetries + ServerErrors(answers, id, from, from + n)
  {
    RefusalsWithin(maxRetries, answers, id, from, n);
    forall i: nat | from <= i < from + n ensures answers(i, id).Refused? || Retriable(answers(i, id)) {
      assert GoesOn(maxRetries, 0, answers, id, from, i);
    }
    CountsAdd(answers, id, from, n);
  }

  // With a limited budget and at most s answers of the 5xx kind, a source that
  // stays open settles within s + maxRetries + 1 requests.
  lemma Settles(maxRetries: uint16, answers: Answers, id: Bytes, asked: nat, looks: Looks, s: nat)
    requires LimitedBudget(maxRetries)
    requires forall to: nat :: ServerErrors(answers, id, asked, to) <= s
    requires |looks| >= s + maxRetries + 1 && (forall j :: 0 <= j < |looks| ==> !looks[j])
    ensures var a := Establish(maxRetries, 0, answers, id, asked, looks);
            && a.verdict != Failed(ErrSourceClosed)
            && a.asked - asked <= s + maxRetries + 1
  {
    Budget(maxRetries, 0, 0, answers, id, asked, looks);
    var a := Establish(maxRetries, 0, answers, id, asked, looks);
    var n := a.asked - 1 - asked;
    hide Establish, GoesOn, ServerErrors, Refusals;
    RunLength(maxRetries, answers, id, asked, n);
  }

  // At 65535 the counter wraps to zero before it exceeds the limit: refusals
  // alone never end the loop, however many there are.
  lemma NeverGivesUp(answers: Answers, id: Bytes, asked: nat, looks: Looks)
    requires forall i: nat :: answers(i, id).Refused?
    ensures Establish(65535, 0, answers, id, asked, looks).verdict == Failed(ErrSourceClosed)
  {
    Budget(65535, 0, 0, answers, id, asked, looks);
    hide Establish, Refusals;
  }

  // Which statuses fail the connection and which only cost a wait.
  lemma StatusDecides(maxRetries: uint16, answers: Answers, id: Bytes, asked: nat, looks: Looks, code: nat)
    requires answers(asked, id) == Status(code)
    ensures var a := Establish(maxRetries, 0, answers, id, asked, looks);
            if code == 500 || code == 502 || code == 503 || code == 504 then
              a == if looks == [] || looks[0] then Attempt(Failed(ErrSourceClosed), asked + 1, LooksLeft(looks))
                   else Establish(maxRetries, 0, answers, id, asked + 1, looks[1..])
            else a == Attempt(Failed(BadResponseError(code)), asked + 1, looks)
  {
  }

  // ---- one call of Next ------------------------------------------------------------

  // What a connection can still give: the parser's lastID, the lines ahead, and
  // the error after them.
  datatype Link = Link(lastID: Bytes, ahead: seq<Bytes>, failure: ReadError)

  datatype NextResult = Returned(event: Event) | Stopped(error: SourceError)

  datatype NextOutcome = NextOutcome(result: NextResult, asked: nat, looks: Looks, link: Option<Link>)

  // The loop of Next from a given connection, or none, on.
  function Answer(maxRetries: uint16, answers: Answers, id: Bytes, asked: nat, looks: Looks, link: Option<Link>)
    : (o: NextOutcome)
    ensures |o.looks| <= |looks|
    decreases |looks|
  {
    match link
    case None =>
      var a := Establish(maxRetries, 0, answers, id, asked, looks);
      (match a.verdict
       case Failed(e) => NextOutcome(Stopped(e), a.asked, a.looks, None)
       case Connected(fragments, failure) =>
         if LookClosed(a.looks) then NextOutcome(Stopped(ErrSourceClosed), a.asked, LooksLeft(a.looks), None)
         else
           Answer(maxRetries, answers, id, a.asked, a.looks[1..], Some(Link([], Assemble([], fragments), failure))))
    case Some(l) =>
      match NextEvent(l.lastID, l.ahead)
      case Got(e, newID, rest) => NextOutcome(Returned(e), asked, looks, Some(Link(newID, rest, l.failure)))
      case Unfinished =>
        if l.failure == EOF then NextOutcome(Stopped(ReadFailed(EOF)), asked, looks, Some(Link(l.lastID, [], EOF)))
        else if LookClosed(looks) then NextOutcome(Stopped(ErrSourceClosed), asked, LooksLeft(looks), None)
        else Answer(maxRetries, answers, id, asked, looks[1..], None)
  }

  // One turn of that loop without a connection, and one with one.
  lemma AnswerConnects(maxRetries: uint16, answers: Answers, id: Bytes, asked: nat, looks: Looks)
    ensures var a := Establish(maxRetries, 0, answers, id, asked, looks);
            Answer(maxRetries, answers, id, asked, looks, None)
            == match a.verdict
               case Failed(e) => NextOutcome(Stopped(e), a.asked, a.looks, None)
               case Connected(fragments, failure) =>
                 if LookClosed(a.looks) then NextOutcome(Stopped(ErrSourceClosed), a.asked, LooksLeft(a.looks), None)
                 else Answer(maxRetries, answers, id, a.asked, LooksLeft(a.looks),
                             Some(Link([], Assemble([], fragments), failure)))
  {
    hide Establish, Assemble, NextEvent;
  }

  lemma AnswerReads(maxRetries: uint16, answers: Answers, id: Bytes, asked: nat, looks: Looks, link: Link)
    ensures Answer(maxRetries, answers, id, asked, looks, Some(link))
         == match NextEvent(link.lastID, link.ahead)
            case Got(e, newID, rest) => NextOutcome(Returned(e), asked, looks, Some(Link(newID, rest, link.failure)))
            case Unfinished =>
              if link.failure == EOF then
                NextOutcome(Stopped(ReadFailed(EOF)), asked, looks, Some(Link(link.lastID, [], EOF)))
              else if LookClosed(looks) then NextOutcome(Stopped(ErrSourceClosed), asked, LooksLeft(looks), None)
              else Answer(maxRetries, answers, id, asked, LooksLeft(looks), None)
  {
    hide NextEvent;
  }

  // A result of establishConnection somewhere in the course of the call.
  ghost predicate EndsAttempt(maxRetries: uint16, answers: Answers, id: Bytes, asked: nat, error: SourceError,
                              o: NextOutcome) {
    exists from: nat, looks: Looks ::
      asked <= from && Establish(maxRetries, 0, answers, id, from, looks) == Attempt(Failed(error), o.asked, o.looks)
  }

  // What each error of Next means.
  ghost predicate ErrorMeant(maxRetries: uint16, answers: Answers, id: Bytes, asked: nat, looks: Looks,
                             o: NextOutcome) {
    match o.result
    case Returned(_) => true
    // the connection in place has ended in EOF and holds no further event
    case Stopped(ReadFailed(f)) => f == EOF && o.link.Some? && o.link.value.failure == EOF && o.link.value.ahead == []
    // the last look found the source closed
    case Stopped(ErrSourceClosed) =>
      o.link == None && exists j: nat :: j <= |looks| && LookClosed(looks[j..]) && o.looks == LooksLeft(looks[j..])
    case Stopped(e) => o.link == None && EndsAttempt(maxRetries, answers, id, asked, e, o)
  }

  lemma EstablishLooks(maxRetries: uint16, answers: Answers, id: Bytes, asked: nat, looks: Looks)
    ensures var a := Establish(maxRetries, 0, answers, id, asked, looks);
            var n := a.asked - 1 - asked;
            && 0 <= n <= |looks|
            && (a.verdict == Failed(ErrSourceClosed) ==> LookClosed(looks[n..]) && a.looks == LooksLeft(looks[n..]))
            && (a.verdict != Failed(ErrSourceClosed) ==> a.looks == looks[n..])
            && (a.verdict.Failed? ==> !a.verdict.error.ReadFailed?)
            && (a.verdict.Connected? ==> answers(a.asked - 1, id) == Stream(a.verdict.fragments, a.verdict.failure))
  {
    Budget(maxRetries, 0, 0, answers, id, asked, looks);
    hide Establish, GoesOn, Refusals;
  }

  // An attempt to connect that ends the call.
  lemma AttemptMeant(maxRetries: uint16, answers: Answers, id: Bytes, asked: nat, looks: Looks)
    ensures var a := Establish(maxRetries, 0, answers, id, asked, looks);
            a.verdict.Failed? ==>
              ErrorMeant(maxRetries, answers, id, asked, looks,
                         NextOutcome(Stopped(a.verdict.error), a.asked, a.looks, None))
  {
    hide Establish, LookClosed, LooksLeft;
    var a := Establish(maxRetries, 0, answers, id, asked, looks);
    EstablishLooks(maxRetries, answers, id, asked, looks);
    if a.verdict.Failed? {
      assert a == Attempt(Failed(a.verdict.error), a.asked, a.looks);
    }
  }

  // A look that finds the source closed.
  lemma ClosedMeant(maxRetries: uint16, answers: Answers, id: Bytes, asked: nat, looks: Looks, n: nat, later: nat)
    requires n <= |looks| && LookClosed(looks[n..])
    ensures ErrorMeant(maxRetries, answers, id, asked, looks,
                       NextOutcome(Stopped(ErrSourceClosed), later, LooksLeft(looks[n..]), None))
  {
    hide LookClosed, LooksLeft;
  }

  lemma {:induction false} ErrorsMean(maxRetries: uint16, answers: Answers, id: Bytes, asked: nat, looks: Looks,
                                      link: Option<Link>)
    ensures ErrorMeant(maxRetries, answers, id, asked, looks, Answer(maxRetries, answers, id, asked, looks, link))
    decreases |looks|, 1
  {
    match link
    case None => AttemptErrorsMean(maxRetries, answers, id, asked, looks);
    case Some(l) =>
      AnswerReads(maxRetries, answers, id, asked, looks, l);
      assert looks[0..] == looks;
      LeftIsTail(looks);
      if BrokenOff(l) {
        hide ErrorMeant, Answer, NextEvent, LookClosed, LooksLeft;
        if LookClosed(looks) {
          ClosedMeant(maxRetries, answers, id, asked, looks, 0, asked);
        } else {
          ErrorsMean(maxRetries, answers, id, asked, looks[1..], None);
          LaterLooks(maxRetries, answers, id, asked, looks, 1, asked,
                     Answer(maxRetries, answers, id, asked, looks[1..], None));
        }
      } else {
        hide Answer, NextEvent, LookClosed, LooksLeft;
      }
  }

  lemma {:induction false} AttemptErrorsMean(maxRetries: uint16, answers: Answers, id: Bytes, asked: nat, looks: Looks)
    ensures ErrorMeant(maxRetries, answers, id, asked, looks, Answer(maxRetries, answers, id, asked, looks, None))
    decreases |looks|, 0
  {
    hide *;
    var a := Establish(maxRetries, 0, answers, id, asked, looks);
    var n := a.asked - 1 - asked;
    EstablishLooks(maxRetries, answers, id, asked, looks);
    AttemptMeant(maxRetries, answers, id, asked, looks);
    AnswerConnects(maxRetries, answers, id, asked, looks);
    if a.verdict.Connected? {
      LeftIsTail(looks[n..]);
      if LookClosed(looks[n..]) {
        ClosedMeant(maxRetries, answers, id, asked, looks, n, a.asked);
      } else {
        var l := Some(Link([], Assemble([], a.verdict.fragments), a.verdict.failure));
        assert looks[n..][1..] == looks[n + 1..];
        ErrorsMean(maxRetries, answers, id, a.asked, looks[n + 1..], l);
        LaterLooks(maxRetries, answers, id, asked, looks, n + 1, a.asked,
                   Answer(maxRetries, answers, id, a.asked, looks[n + 1..], l));
      }
    }
  }

  lemma LeftIsTail(looks: Looks)
    ensures !LookClosed(looks) ==> |looks| > 0 && LooksLeft(looks) == looks[1..]
  {
  }

  // What an error means does not depend on where in the call one starts.
  lemma LaterLooks(maxRetries: uint16, answers: Answers, id: Bytes, asked: nat, looks: Looks, n: nat, later: nat,
                   o: NextOutcome)
    requires n <= |looks| && asked <= later
    requires ErrorMeant(maxRetries, answers, id, later, looks[n..], o)
    ensures ErrorMeant(maxRetries, answers, id, asked, looks, o)
  {
    if o.result == Stopped(ErrSourceClosed) {
      var j: nat :| j <= |looks[n..]| && LookClosed(looks[n..][j..]) && o.looks == LooksLeft(looks[n..][j..]);
      assert looks[n..][j..] == looks[n + j..];
    }
  }

  // ---- progress ----------------------------------------------------------------------

  // A connection that holds no whole event and broke off.
  predicate BrokenOff(l: Link) { NextEvent(l.lastID, l.ahead).Unfinished? && l.failure != EOF }

  function FreshLink(r: Response): Link
    requires r.Stream?
  {
    Link([], Assemble([], r.fragments), r.failure)
  }

  // Answers that Next puts behind it: refusals, the retriable statuses, and
  // connections that break before a whole event has come.
  predicate PassedOver(r: Response) {
    match r
    case Refused(_) => true
    case Status(code) => code in {500, 502, 503, 504}
    case Stream(_, _) => BrokenOff(FreshLink(r))
  }

  predicate OpenFor(looks: Looks, n: nat) { n <= |looks| && forall j :: 0 <= j < n ==> !looks[j] }

  lemma {:induction false} RefusalsSplit(answers: Answers, id: Bytes, from: nat, n: nat, m: nat)
    ensures Refusals(answers, id, from, from + n + m)
         == Refusals(answers, id, from, from + n) + Refusals(answers, id, from + n, from + n + m)
    decreases m
  {
    if m == 0 {
    } else {
      RefusalsSplit(answers, id, from, n, m - 1);
      RefusalsSnoc(answers, id, from, n + m - 1);
      RefusalsSnoc(answers, id, from + n, m - 1);
    }
  }

  // Up to the first 200 establishConnection carries on.
  lemma ReachesStream(maxRetries: uint16, answers: Answers, id: Bytes, asked: nat, looks: Looks, m: nat)
    requires forall i: nat :: asked <= i < asked + m ==> answers(i, id).Refused? || Retriable(answers(i, id))
    requires LimitedBudget(maxRetries) ==> Refusals(answers, id, asked, asked + m) <= maxRetries
    requires answers(asked + m, id).Stream? && OpenFor(looks, m)
    ensures var r := answers(asked + m, id);
            Establish(maxRetries, 0, answers, id, asked, looks)
            == Attempt(Connected(r.fragments, r.failure), asked + m + 1, looks[m..])
  {
    var r := answers(asked + m, id);
    var a := Attempt(Connected(r.fragments, r.failure), asked + m + 1, looks[m..]);
    forall i: nat | asked <= i < asked + m ensures GoesOn(maxRetries, 0, answers, id, asked, i) {
      RefusalsSplit(answers, id, asked, i + 1 - asked, asked + m - i - 1);
    }
    hide Establish, Refusals, GoesOn;
    assert EndsAt(maxRetries, 0, answers, id, asked, looks, a);
    GivesUpExactly(maxRetries, answers, id, asked, looks, a);
  }

  // The first 200 among the next answers.
  lemma {:induction false} FirstStream(answers: Answers, id: Bytes, asked: nat, n: nat) returns (m: nat)
    requires answers(asked + n, id).Stream?
    ensures m <= n && answers(asked + m, id).Stream?
    ensures forall i: nat :: asked <= i < asked + m ==> !answers(i, id).Stream?
    decreases n
  {
    if answers(asked, id).Stream? {
      m := 0;
    } else {
      m := FirstStream(answers, id, asked + 1, n - 1);
      m := m + 1;
    }
  }

  lemma OpenLater(looks: Looks, n: nat, m: nat)
    requires OpenFor(looks, n) && m <= n
    ensures OpenFor(looks[m..], n - m) && OpenFor(looks, m)
    ensures m < n ==> !LookClosed(looks[m..]) && LooksLeft(looks[m..]) == looks[m + 1..]
  {
  }

  lemma OpenTail(looks: Looks, n: nat, m: nat, rest: nat)
    requires OpenFor(looks, n) && m + rest <= n
    ensures OpenFor(looks, m) && OpenFor(looks[m..], rest)
  {
  }

  // The next n answers are passed over, within the budget, and after them comes a
  // connection that holds a whole event.
  ghost predicate EventAfter(maxRetries: uint16, answers: Answers, id: Bytes, asked: nat, n: nat) {
    && (forall i: nat :: asked <= i < asked + n ==> PassedOver(answers(i, id)))
    && (LimitedBudget(maxRetries) ==> Refusals(answers, id, asked, asked + n) <= maxRetries)
    && answers(asked + n, id).Stream?
    && NextEvent([], FreshLink(answers(asked + n, id)).ahead).Got?
  }

  // The call returned the first event of answer number i and asked no further.
  ghost predicate Arrives(o: NextOutcome, answers: Answers, id: Bytes, i: nat) {
    && answers(i, id).Stream?
    && var first := NextEvent([], FreshLink(answers(i, id)).ahead);
       first.Got? && o.result == Returned(first.event) && o.asked == i + 1
  }

  lemma EventLater(maxRetries: uint16, answers: Answers, id: Bytes, asked: nat, n: nat, m: nat)
    requires EventAfter(maxRetries, answers, id, asked, n) && m <= n
    ensures EventAfter(maxRetries, answers, id, asked + m, n - m)
  {
    RefusalsSplit(answers, id, asked, m, n - m);
    hide Refusals, NextEvent, PassedOver, Assemble;
  }

  // The answers before the first 200 are within the budget and worth a wait.
  lemma BeforeStream(maxRetries: uint16, answers: Answers, id: Bytes, asked: nat, n: nat, m: nat)
    requires EventAfter(maxRetries, answers, id, asked, n) && m <= n
    requires forall i: nat :: asked <= i < asked + m ==> !answers(i, id).Stream?
    ensures forall i: nat :: asked <= i < asked + m ==> answers(i, id).Refused? || Retriable(answers(i, id))
    ensures LimitedBudget(maxRetries) ==> Refusals(answers, id, asked, asked + m) <= maxRetries
  {
    RefusalsSplit(answers, id, asked, m, n - m);
    hide Refusals, Assemble, NextEvent;
    forall i: nat | asked <= i < asked + m ensures answers(i, id).Refused? || Retriable(answers(i, id)) {
      assert PassedOver(answers(i, id));
    }
  }

  // The call up to and including the first 200.
  lemma AnswerStream(maxRetries: uint16, answers: Answers, id: Bytes, asked: nat, looks: Looks, n: nat, m: nat)
    requires EventAfter(maxRetries, answers, id, asked, n) && m <= n
    requires forall i: nat :: asked <= i < asked + m ==> !answers(i, id).Stream?
    requires answers(asked + m, id).Stream? && OpenFor(looks, m + 1)
    ensures Answer(maxRetries, answers, id, asked, looks, None)
         == Answer(maxRetries, answers, id, asked + m + 1, looks[m + 1..], Some(FreshLink(answers(asked + m, id))))
  {
    hide Establish, Refusals, Assemble, Answer, OpenFor, LookClosed, LooksLeft, NextEvent, EventAfter, LimitedBudget,
         Retriable;
    OpenLater(looks, m + 1, m);
    BeforeStream(maxRetries, answers, id, asked, n, m);
    ReachesStream(maxRetries, answers, id, asked, looks, m);
    AnswerConnects(maxRetries, answers, id, asked, looks);
  }

  // When that one is not the last it breaks off, and the call goes on without a
  // connection.
  lemma AnswerMovesOn(maxRetries: uint16, answers: Answers, id: Bytes, asked: nat, looks: Looks, n: nat, m: nat)
    requires EventAfter(maxRetries, answers, id, asked, n) && m < n
    requires forall i: nat :: asked <= i < asked + m ==> !answers(i, id).Stream?
    requires answers(asked + m, id).Stream? && OpenFor(looks, m + 2)
    ensures Answer(maxRetries, answers, id, asked, looks, None)
         == Answer(maxRetries, answers, id, asked + m + 1, looks[m + 2..], None)
  {
    var link := FreshLink(answers(asked + m, id));
    assert BrokenOff(link) by { assert PassedOver(answers(asked + m, id)); }
    hide Refusals, Assemble, Answer, OpenFor, EventAfter, NextEvent, LookClosed, LooksLeft;
    OpenLater(looks, m + 2, m + 1);
    AnswerStream(maxRetries, answers, id, asked, looks, n, m);
    AnswerReads(maxRetries, answers, id, asked + m + 1, looks[m + 1..], link);
  }

  lemma AnswerArrives(maxRetries: uint16, answers: Answers, id: Bytes, asked: nat, looks: Looks, n: nat)
    requires EventAfter(maxRetries, answers, id, asked, n)
    requires forall i: nat :: asked <= i < asked + n ==> !answers(i, id).Stream?
    requires OpenFor(looks, n + 1)
    ensures Arrives(Answer(maxRetries, answers, id, asked, looks, None), answers, id, asked + n)
  {
    hide Refusals, Assemble, Answer, NextEvent, PassedOver;
    AnswerStream(maxRetries, answers, id, asked, looks, n, n);
    AnswerReads(maxRetries, answers, id, asked + n + 1, looks[n + 1..], FreshLink(answers(asked + n, id)));
  }

  // Whatever breaks, Next goes on to the first connection that holds a whole
  // event and returns it, if the source stays open and the refusals on the way
  // stay within the budget.
  lemma {:induction false} Recovers(maxRetries: uint16, answers: Answers, id: Bytes, asked: nat, looks: Looks, n: nat)
    requires EventAfter(maxRetries, answers, id, asked, n) && OpenFor(looks, 2 * n + 1)
    ensures Arrives(Answer(maxRetries, answers, id, asked, looks, None), answers, id, asked + n)
    decreases n
  {
    var m := FirstStream(answers, id, asked, n);
    var later := n - m - 1;
    OpenTail(looks, 2 * n + 1, m + 1, 0);
    if m < n {
      OpenTail(looks, 2 * n + 1, m + 2, 2 * later + 1);
    }
    hide *;
    if m == n {
      AnswerArrives(maxRetries, answers, id, asked, looks, n);
    } else {
      AnswerMovesOn(maxRetries, answers, id, asked, looks, n, m);
      EventLater(maxRetries, answers, id, asked, n, m + 1);
      Recovers(maxRetries, answers, id, asked + m + 1, looks[m + 2..], later);
    }
  }

  // The same from a connection that has just broken off.
  lemma RecoversFrom(maxRetries: uint16, answers: Answers, id: Bytes, asked: nat, looks: Looks, n: nat, link: Link)
    requires BrokenOff(link)
    requires EventAfter(maxRetries, answers, id, asked, n) && OpenFor(looks, 2 * n + 2)
    ensures Arrives(Answer(maxRetries, answers, id, asked, looks, Some(link)), answers, id, asked + n)
  {
    OpenLater(looks, 2 * n + 2, 1);
    hide Establish, Refusals, NextEvent, Assemble, EventAfter, Answer, Arrives;
    AnswerReads(maxRetries, answers, id, asked, looks, link);
    Recovers(maxRetries, answers, id, asked, looks[1..], n);
  }

  // A connection with a whole event needs no request, and one that has ended in
  // EOF leads to none.
  lemma NoRequest(maxRetries: uint16, answers: Answers, id: Bytes, asked: nat, looks: Looks, link: Link)
    requires !BrokenOff(link)
    ensures var o := Answer(maxRetries, answers, id, asked, looks, Some(link));
            && o.asked == asked && o.looks == looks
            && (o.result == Stopped(ReadFailed(EOF)) || o.result == Returned(NextEvent(link.lastID, link.ahead).event))
            && (o.result.Stopped? <==> NextEvent(link.lastID, link.ahead).Unfinished?)
  {
  }

  // ---- the server's side of resumption ---------------------------------------------

  // Every event has its own non-empty id.
  ghost predicate OwnIDs(log: seq<Event>) {
    && (forall i :: 0 <= i < |log| ==> log[i].id != [])
    && (forall i, j :: 0 <= i < j < |log| ==> log[i].id != log[j].id)
  }

  // The position after the event named by a Last-Event-ID; an empty one asks
  // for everything.
  function ResumeAt(log: seq<Event>, id: Bytes): (k: nat)
    ensures k <= |log|
  {
    if id == [] || log == [] then 0 else 1 + ResumeAfter(log, id)
  }

  function ResumeAfter(log: seq<Event>, id: Bytes): (i: nat)
    requires log != []
    ensures i < |log|
    ensures log[i].id == id || i == |log| - 1
    ensures forall j :: 0 <= j < i ==> log[j].id != id
  {
    if log[0].id == id || |log| == 1 then 0 else 1 + ResumeAfter(log[1..], id)
  }

  // The id of the last of the first k events.
  function LastOf(log: seq<Event>, k: nat): Bytes
    requires k <= |log|
  {
    if k == 0 then [] else log[k - 1].id
  }

  // Asking to resume after the last event returned leads to the right place at
  // every position exactly when every event has its own non-empty id.
  lemma ResumesExactly(log: seq<Event>)
    ensures OwnIDs(log) <==> forall k: nat :: k <= |log| ==> ResumeAt(log, LastOf(log, k)) == k
  {
    if forall k: nat :: k <= |log| ==> ResumeAt(log, LastOf(log, k)) == k {
      forall i | 0 <= i < |log| ensures log[i].id != [] {
        assert ResumeAt(log, LastOf(log, i + 1)) == i + 1;
      }
      forall i, j | 0 <= i < j < |log| ensures log[i].id != log[j].id {
        assert ResumeAt(log, LastOf(log, j + 1)) == j + 1;
      }
    }
  }

  // With one id on two events the second is asked for again after it came.
  lemma SharedIDRepeats(first: Event, second: Event)
    requires first.id == second.id != []
    ensures ResumeAt([first, second], LastOf([first, second], 2)) == 1
  {
    assert ResumeAfter([first, second], second.id) == 0;
  }

  // Every 200 answer starts after the event it was asked to resume from and is
  // cut off after any number of bytes.
  ghost predicate Replays(log: seq<Event>, answers: Answers) {
    forall i: nat, id: Bytes :: answers(i, id).Stream? ==>
      CutReplay(log, ResumeAt(log, id), answers(i, id).fragments)
  }

  // The server may write these events in any form, with comments, unknown
  // fields, fields in any order or left out, as long as a parser that starts
  // afresh reads them from the whole text.
  ghost predicate CutReplay(log: seq<Event>, from: nat, fragments: seq<Fragment>)
    requires from <= |log|
  {
    exists text: Bytes, n: nat :: n <= |text| && Writes(text, log[from..]) && Delivers(fragments, text[..n])
  }

  ghost predicate Writes(text: Bytes, es: seq<Event>) {
    Events([], Terminated(text)) == es
  }

  // A cut replay parses to the next events of the log and nothing else.
  lemma ReplayedEvents(log: seq<Event>, from: nat, fragments: seq<Fragment>)
    requires from <= |log| && CutReplay(log, from, fragments)
    ensures Events([], Assemble([], fragments)) <= log[from..]
  {
    var text: Bytes, n: nat :| n <= |text| && Writes(text, log[from..]) && Delivers(fragments, text[..n]);
    assert Events([], Terminated(text)) == log[from..];
    hide *;
    FragmentationIrrelevant([], fragments, text[..n]);
    TruncatedText([], text, n);
  }

  // A server that prints its log with Encode is one of these.
  lemma PrintedReplay(es: seq<Event>, from: nat, n: nat, fragments: seq<Fragment>)
    requires AllEncodable(es) && from <= |es|
    requires n <= |EncodeAll(es[from..])| && Delivers(fragments, EncodeAll(es[from..])[..n])
    ensures CutReplay(CanonAll(es), from, fragments)
  {
    var text := EncodeAll(es[from..]);
    assert AllEncodable(es[from..]) by {
      assert forall e | e in es[from..] :: e in es;
    }
    assert CanonAll(es)[from..] == CanonAll(es[from..]);
    assert text + [] == text && Events(LastID(es[from..], []), Terminated([])) == [];
    StreamReceived(es[from..], [], []);
    assert Writes(text, CanonAll(es)[from..]);
  }

  // Whatever connection comes out of establishConnection continues the log.
  lemma FreshConnection(log: seq<Event>, k: nat, maxRetries: uint16, answers: Answers, asked: nat, looks: Looks)
    requires k <= |log| && OwnIDs(log) && Replays(log, answers)
    ensures var a := Establish(maxRetries, 0, answers, LastOf(log, k), asked, looks);
            a.verdict.Connected? ==> Events([], Assemble([], a.verdict.fragments)) <= log[k..]
  {
    hide Establish, Events, Assemble, OwnIDs, CutReplay, LastOf, ResumeAt;
    var id := LastOf(log, k);
    var a := Establish(maxRetries, 0, answers, id, asked, looks);
    EstablishLooks(maxRetries, answers, id, asked, looks);
    if a.verdict.Connected? {
      ResumesExactly(log);
      ReplayedEvents(log, k, a.verdict.fragments);
    }
  }

  // A connection whose events continue the log after the first k.
  ghost predicate Continues(log: seq<Event>, k: nat, link: Option<Link>)
    requires k <= |log|
  {
    link.Some? ==> Events(link.value.lastID, link.value.ahead) <= log[k..]
  }

  // What one parsed event does to the position.
  lemma NextOfReplay(log: seq<Event>, k: nat, lastID: Bytes, ahead: seq<Bytes>)
    requires k <= |log| && Events(lastID, ahead) <= log[k..]
    ensures match NextEvent(lastID, ahead)
            case Unfinished => Events(lastID, ahead) == []
            case Got(e, id, rest) =>
              k < |log| && e == log[k] && e.id == LastOf(log, k + 1) && Events(id, rest) <= log[k + 1..]
  {
    var o := NextEvent(lastID, ahead);
    if o.Got? {
      EventsStep(lastID, ahead, o.event, o.lastID, o.rest);
      assert Events(lastID, ahead)[0] == o.event == log[k..][0];
      assert log[k..][1..] == log[k + 1..];
      assert Events(lastID, ahead)[1..] == Events(o.lastID, o.rest);
    }
  }

  // Against a server that replays after Last-Event-ID, whatever breaks in
  // between: an event that comes back is the very next one of the log, and an
  // error leaves the position where it was.
  lemma {:induction false} Resumes(log: seq<Event>, k: nat, maxRetries: uint16, answers: Answers, asked: nat,
                                   looks: Looks, link: Option<Link>)
    requires k <= |log| && OwnIDs(log) && Replays(log, answers) && Continues(log, k, link)
    ensures var o := Answer(maxRetries, answers, LastOf(log, k), asked, looks, link);
            match o.result
            case Returned(e) =>
              k < |log| && e == log[k] && e.id == LastOf(log, k + 1) && Continues(log, k + 1, o.link)
            case Stopped(_) => Continues(log, k, o.link)
    decreases |looks|, link == None
  {
    hide Establish, Events, NextEvent, Assemble, OwnIDs, Replays, LastOf;
    assert Events([], []) == [] by { NothingAhead([]); }
    var id := LastOf(log, k);
    match link
    case None =>
      var a := Establish(maxRetries, 0, answers, id, asked, looks);
      FreshConnection(log, k, maxRetries, answers, asked, looks);
      if a.verdict.Connected? && !LookClosed(a.looks) {
        var l := Link([], Assemble([], a.verdict.fragments), a.verdict.failure);
        Resumes(log, k, maxRetries, answers, a.asked, a.looks[1..], Some(l));
      }
    case Some(l) =>
      NextOfReplay(log, k, l.lastID, l.ahead);
      NothingAhead(l.lastID);
      if BrokenOff(l) && !LookClosed(looks) {
        Resumes(log, k, maxRetries, answers, asked, looks[1..], None);
      }
  }

  lemma NothingAhead(lastID: Bytes)
    ensures Assemble([], []) == [] && Events(lastID, []) == []
  {
  }

  // The reading loop: Next until it fails. Every call looks at the closed channel
  // first.
  datatype Reading = Reading(events: seq<Event>, error: SourceError)

  function ReadRun(maxRetries: uint16, answers: Answers, id: Bytes, asked: nat, looks: Looks, link: Option<Link>)
    : Reading
    decreases |looks|
  {
    if LookClosed(looks) then Reading([], ErrSourceClosed)
    else
      var o := Answer(maxRetries, answers, id, asked, looks[1..], link);
      match o.result
      case Stopped(e) => Reading([], e)
      case Returned(e) =>
        var more := ReadRun(maxRetries, answers, e.id, o.asked, o.looks, o.link);
        Reading([e] + more.events, more.error)
  }

  function After(events: seq<Event>, r: Reading): Reading { Reading(events + r.events, r.error) }

  // One call of Next in the loop, after some events.
  lemma ReadRunStep(maxRetries: uint16, answers: Answers, id: Bytes, asked: nat, looks: Looks, link: Option<Link>,
                    events: seq<Event>)
    ensures After(events, ReadRun(maxRetries, answers, id, asked, looks, link))
         == if LookClosed(looks) then Reading(events, ErrSourceClosed)
            else
              var o := Answer(maxRetries, answers, id, asked, looks[1..], link);
              match o.result
              case Stopped(e) => Reading(events, e)
              case Returned(e) => After(events + [e], ReadRun(maxRetries, answers, e.id, o.asked, o.looks, o.link))
  {
    hide Answer;
  }

  // ---- the class ---------------------------------------------------------------------

  class EventSource {
    const env: Environment
    const maxRetries: uint16
    var currentReadCloser: ReadCloser?
    var lastEventID: Bytes
    var closed: bool
    var retryInterval: int64

    constructor (env: Environment, retryInterval: int64, maxRetries: uint16)
      ensures this.env == env && this.maxRetries == maxRetries && this.retryInterval == retryInterval
      ensures currentReadCloser == null && lastEventID == [] && !closed
    {
      this.env, this.maxRetries, this.retryInterval := env, maxRetries, retryInterval;
      currentReadCloser, lastEventID, closed := null, [], false;
    }

    ghost function Connection(): set<object>
      reads this
    {
      if currentReadCloser == null then {} else {currentReadCloser, currentReadCloser.buf}
    }

    ghost function LinkOf(): Option<Link>
      reads this, Connection()
    {
      if currentReadCloser == null then None
      else Some(Link(currentReadCloser.lastID, currentReadCloser.Ahead(), currentReadCloser.buf.failure))
    }

    // The first k events of the log have been returned, and what the current
    // connection can still yield continues from there.
    ghost predicate InSync(log: seq<Event>, k: nat)
      reads this, Connection()
    {
      k <= |log| && lastEventID == LastOf(log, k) && Continues(log, k, LinkOf())
    }

    // A look at the closed channel; once closed it stays so.
    method IsClosed() returns (b: bool)
      modifies this`closed, env`looks
      ensures b == closed == (old(closed) || LookClosed(old(env.looks)))
      ensures env.looks == if old(closed) then old(env.looks) else LooksLeft(old(env.looks))
    {
      if !closed {
        closed := env.Look();
      }
      b := closed;
    }

    method WaitForRetry() returns (err: Option<SourceError>)
      modifies this`currentReadCloser, this`closed, env`looks
      ensures currentReadCloser == null
      ensures closed == (old(closed) || LookClosed(old(env.looks)))
      ensures err == if closed then Some(ErrSourceClosed) else None
      ensures env.looks == if old(closed) then old(env.looks) else LooksLeft(old(env.looks))
    {
      currentReadCloser := null;
      var b := IsClosed();
      err := if b then Some(ErrSourceClosed) else None;
    }

    method EstablishConnection() returns (rc: ReadCloser?, err: Option<SourceError>)
      requires !closed && currentReadCloser == null
      modifies this`currentReadCloser, this`closed, env
      ensures currentReadCloser == null
      ensures var a := Establish(maxRetries, 0, env.answers, lastEventID, old(env.asked), old(env.looks));
              && env.asked == a.asked && env.looks == a.looks
              && closed == (a.verdict == Failed(ErrSourceClosed))
              && match a.verdict
                 case Failed(e) => rc == null && err == Some(e)
                 case Connected(fragments, failure) =>
                   && err == None && rc != null && fresh(rc) && fresh(rc.buf)
                   && rc.lastID == [] && !rc.closed && rc.buf.pending == fragments && rc.buf.failure == failure
    {
      rc, err := null, None;
      var connectionRetries: uint16 := 0;
      while true
        invariant !closed && currentReadCloser == null
        invariant Establish(maxRetries, 0, env.answers, lastEventID, old(env.asked), old(env.looks))
               == Establish(maxRetries, connectionRetries, env.answers, lastEventID, env.asked, env.looks)
        decreases |env.looks|
      {
        var res := env.Do(lastEventID);
        match res {
          case Refused(code) =>
            connectionRetries := Incremented(connectionRetries);
            if !ShouldRetry(maxRetries, connectionRetries) {
              return null, Some(TransportError(code));
            }
            var e := WaitForRetry();
            if e.Some? {
              return null, e;
            }
          case Stream(fragments, failure) =>
            var source := new LineReader(fragments, failure);
            rc := new ReadCloser(source);
            return rc, None;
          case Status(code) =>
            if !Retriable(res) {
              return null, Some(BadResponseError(code));
            }
            var e := WaitForRetry();
            if e.Some? {
              return null, e;
            }
        }
      }
    }

    // Hands out the current connection or opens one; a connection that arrives
    // after the source was closed is closed at once.
    method EnsureReadCloser() returns (rc: ReadCloser?, err: Option<SourceError>)
      requires currentReadCloser == null ==> !closed
      modifies this`currentReadCloser, this`closed, env
      ensures err == None <==> rc != null
      ensures rc == currentReadCloser
      ensures old(currentReadCloser) != null ==>
                && rc == old(currentReadCloser) && closed == old(closed)
                && env.asked == old(env.asked) && env.looks == old(env.looks)
      ensures old(currentReadCloser) == null ==>
                var a := Establish(maxRetries, 0, env.answers, lastEventID, old(env.asked), old(env.looks));
                && env.asked == a.asked
                && (rc != null ==> fresh(rc) && fresh(rc.buf))
                && match a.verdict
                   case Failed(e) => err == Some(e) && env.looks == a.looks && closed == (e == ErrSourceClosed)
                   case Connected(fragments, failure) =>
                     && closed == LookClosed(a.looks) && env.looks == LooksLeft(a.looks)
                     && (closed ==> err == Some(ErrSourceClosed))
                     && (!closed ==> LinkOf() == Some(Link([], Assemble([], fragments), failure)))
    {
      hide Establish, Assemble;
      if currentReadCloser == null {
        rc, err := EstablishConnection();
        if err.Some? {
          return null, err;
        }
        var b := IsClosed();
        if b {
          var bodyResult: Option<nat> := *;
          var _ := rc.Close(bodyResult);
          return null, Some(ErrSourceClosed);
        }
        currentReadCloser := rc;
      }
      rc, err := currentReadCloser, None;
    }

    // Next does what Answer says: ErrorsMean, Recovers and NoRequest tell what
    // that is. Against a server that replays from the event after Last-Event-ID a
    // successful call returns the very next event of the log and a failed one
    // leaves the position where it was.
    method Next(ghost log: seq<Event>, ghost k: nat) returns (event: Event, err: Option<SourceError>)
      modifies this, env, Connection()
      ensures old(closed) ==> err == Some(ErrSourceClosed) && env.asked == old(env.asked) && env.looks == old(env.looks)
      ensures !old(closed) && LookClosed(old(env.looks)) ==>
                err == Some(ErrSourceClosed) && env.asked == old(env.asked) && env.looks == LooksLeft(old(env.looks))
      ensures !old(closed) && !LookClosed(old(env.looks)) ==>
                var o := Answer(maxRetries, env.answers, old(lastEventID), old(env.asked), old(env.looks[1..]),
                                old(LinkOf()));
                && env.asked == o.asked && env.looks == o.looks && LinkOf() == o.link
                && o.result == if err == None then Returned(event) else Stopped(err.value)
      ensures closed <==> err == Some(ErrSourceClosed)
      ensures err == None ==> lastEventID == event.id
      ensures err == None ==> retryInterval == if event.retry != 0 then event.retry else old(retryInterval)
      ensures err.Some? ==> event == EMPTY && lastEventID == old(lastEventID) && retryInterval == old(retryInterval)
      ensures old(InSync(log, k)) && OwnIDs(log) && Replays(log, env.answers) ==>
                && (err == None ==> k < |log| && event == log[k] && InSync(log, k + 1))
                && (err.Some? ==> InSync(log, k))
      ensures old(currentReadCloser) != null && currentReadCloser != old(currentReadCloser) ==>
                old(currentReadCloser).closed
      ensures fresh(Connection() - old(Connection()))
    {
      hide Establish, Events, Assemble, OwnIDs, Replays, Continues, LastOf, Answer;
      var b := IsClosed();
      if b {
        return EMPTY, Some(ErrSourceClosed);
      }
      if InSync(log, k) && OwnIDs(log) && Replays(log, env.answers) {
        Resumes(log, k, maxRetries, env.answers, env.asked, env.looks, LinkOf());
      }
      event, err := NextLoop();
    }

    // Closes the connection that broke, whatever that returns, and waits.
    method LeaveConnection() returns (err: Option<SourceError>)
      requires !closed && currentReadCloser != null
      modifies this`currentReadCloser, this`closed, env`looks, currentReadCloser
      ensures currentReadCloser == null && old(currentReadCloser).closed
      ensures closed == LookClosed(old(env.looks)) && env.looks == LooksLeft(old(env.looks))
      ensures err == if closed then Some(ErrSourceClosed) else None
    {
      var bodyResult: Option<nat> := *;
      var _ := currentReadCloser.Close(bodyResult);
      err := WaitForRetry();
    }

    // The loop of Next, once the source has been found open.
    method NextLoop() returns (event: Event, err: Option<SourceError>)
      requires !closed
      modifies this, env, Connection()
      ensures var o := Answer(maxRetries, env.answers, old(lastEventID), old(env.asked), old(env.looks), old(LinkOf()));
              && env.asked == o.asked && env.looks == o.looks && LinkOf() == o.link
              && o.result == if err == None then Returned(event) else Stopped(err.value)
      ensures closed <==> err == Some(ErrSourceClosed)
      ensures err == None ==> lastEventID == event.id
      ensures err == None ==> retryInterval == if event.retry != 0 then event.retry else old(retryInterval)
      ensures err.Some? ==> event == EMPTY && lastEventID == old(lastEventID) && retryInterval == old(retryInterval)
      ensures old(currentReadCloser) != null && currentReadCloser != old(currentReadCloser) ==>
                old(currentReadCloser).closed
      ensures fresh(Connection() - old(Connection()))
    {
      hide NextEvent, Establish, Events, Assemble, Answer;
      ghost var whole := Answer(maxRetries, env.answers, lastEventID, env.asked, env.looks, LinkOf());
      while true
        invariant !closed && retryInterval == old(retryInterval) && lastEventID == old(lastEventID)
        invariant old(currentReadCloser) != null && currentReadCloser != old(currentReadCloser) ==>
                    old(currentReadCloser).closed
        invariant fresh(Connection() - old(Connection()))
        invariant whole == Answer(maxRetries, env.answers, lastEventID, env.asked, env.looks, LinkOf())
        decreases |env.looks|
      {
        AnswerConnects(maxRetries, env.answers, lastEventID, env.asked, env.looks);
        var readCloser, e := EnsureReadCloser();
        if e.Some? {
          return EMPTY, e;
        }
        AnswerReads(maxRetries, env.answers, lastEventID, env.asked, env.looks, LinkOf().value);
        NothingAhead(readCloser.lastID);
        var ev, readErr := readCloser.Next();
        if readErr == None {
          lastEventID := ev.id;
          if ev.retry != 0 {
            retryInterval := ev.retry;
          }
          return ev, None;
        }
        if readErr == Some(EOF) {
          return EMPTY, Some(ReadFailed(EOF));
        }
        e := LeaveConnection();
        if e.Some? {
          return EMPTY, e;
        }
      }
    }

    // Closes the channel and the current connection. When closing fails, because
    // it was closed before or because the body's own Close fails, the error is
    // returned and the connection stays in place.
    method Close(bodyResult: Option<nat>) returns (err: Option<CloseError>)
      modifies this`closed, this`currentReadCloser, Connection()
      ensures closed && lastEventID == old(lastEventID)
      ensures err == if old(currentReadCloser) == null then None
                     else if old(currentReadCloser.closed) then Some(AlreadyClosed)
                     else if bodyResult.Some? then Some(SourceFailed(bodyResult.value))
                     else None
      ensures currentReadCloser == if err.Some? then old(currentReadCloser) else null
      ensures old(currentReadCloser) != null ==>
                && old(currentReadCloser).closed
                && old(currentReadCloser).sourceCloses
                == old(currentReadCloser.sourceCloses) + if old(currentReadCloser.closed) then 0 else 1
    {
      closed, err := true, None;
      if currentReadCloser != null {
        err := currentReadCloser.Close(bodyResult);
        if err == None {
          currentReadCloser := null;
        }
      }
    }
  }

  // Config.Connect: the first connection is opened before anyone else holds the
  // source, and stands at the start of the log.
  method Connect(env: Environment, retryInterval: int64, maxRetries: uint16, ghost log: seq<Event>)
    returns (source: EventSource?, err: Option<SourceError>)
    modifies env
    ensures var a := Establish(maxRetries, 0, env.answers, [], old(env.asked), old(env.looks));
            && env.asked == a.asked && env.looks == a.looks
            && match a.verdict
               case Failed(e) => source == null && err == Some(e)
               case Connected(fragments, failure) =>
                 && err == None && source != null && fresh(source) && fresh(source.Connection())
                 && source.env == env && source.maxRetries == maxRetries && source.retryInterval == retryInterval
                 && source.lastEventID == [] && !source.closed
                 && source.LinkOf() == Some(Link([], Assemble([], fragments), failure))
    ensures source != null && OwnIDs(log) && Replays(log, env.answers) ==> source.InSync(log, 0)
  {
    if OwnIDs(log) && Replays(log, env.answers) {
      FreshConnection(log, 0, maxRetries, env.answers, env.asked, env.looks);
    }
    assert log[0..] == log;
    hide Establish, Events, Assemble, OwnIDs, Replays;
    source := new EventSource(env, retryInterval, maxRetries);
    var readCloser, e := source.EstablishConnection();
    if e.Some? {
      return null, e;
    }
    source.currentReadCloser := readCloser;
    err := None;
  }

  // The reading loop of StartSSE (internal/redfish/redfish.go): Next until it
  // fails. What it collects is a gapless piece of the log without repetition.
  method ReadUntilError(source: EventSource, ghost log: seq<Event>, ghost k: nat)
    returns (events: seq<Event>, err: SourceError)
    modifies source, source.env, source.Connection()
    ensures old(source.closed) ==> events == [] && err == ErrSourceClosed
    ensures !old(source.closed) ==>
              Reading(events, err) == ReadRun(source.maxRetries, source.env.answers, old(source.lastEventID),
                                              old(source.env.asked), old(source.env.looks), old(source.LinkOf()))
    ensures old(source.InSync(log, k)) && OwnIDs(log) && Replays(log, source.env.answers) ==>
              && k + |events| <= |log| && events == log[k..k + |events|]
              && source.InSync(log, k + |events|)
  {
    hide OwnIDs, Replays, LastOf, Events, Assemble, Answer, Continues, ReadRun, EventSource.InSync;
    events := [];
    ghost var all := ReadRun(source.maxRetries, source.env.answers, source.lastEventID,
                             source.env.asked, source.env.looks, source.LinkOf());
    ghost var known := source.InSync(log, k) && OwnIDs(log) && Replays(log, source.env.answers);
    assert known ==> k <= |log| by { InSyncWithin(source, log, k); }
    while true
      invariant known ==> k + |events| <= |log| && events == log[k..k + |events|] && source.InSync(log, k + |events|)
      invariant fresh(source.Connection() - old(source.Connection()))
      invariant source.closed == old(source.closed) && (source.closed ==> events == [])
      invariant !source.closed ==>
                  all == After(events, ReadRun(source.maxRetries, source.env.answers, source.lastEventID,
                                               source.env.asked, source.env.looks, source.LinkOf()))
      decreases |source.env.looks|
    {
      ReadRunStep(source.maxRetries, source.env.answers, source.lastEventID, source.env.asked, source.env.looks,
                  source.LinkOf(), events);
      var e, failed := source.Next(log, k + |events|);
      if failed.Some? {
        return events, failed.value;
      }
      if known {
        OneMore(log, k, |events|);
      }
      events := events + [e];
    }
  }

  lemma InSyncWithin(source: EventSource, log: seq<Event>, k: nat)
    ensures source.InSync(log, k) ==> k <= |log|
  {
  }

  lemma OneMore(log: seq<Event>, k: nat, n: nat)
    requires k + n < |log|
    ensures log[k..k + n + 1] == log[k..k + n] + [log[k + n]]
  {
  }
}
