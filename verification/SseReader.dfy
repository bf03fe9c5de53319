// internal/sse/read_closer.go: the incremental event stream parser.
module SseReader {
  import opened Options
  import opened Sequences
  import opened SseText
  import opened SseEvent

  // ---- what bufio.Reader.ReadLine hands out --------------------------------

  datatype Fragment = Fragment(bytes: Bytes, isPrefix: bool)

  datatype ReadError = EOF | Broken(code: nat)

  // Glues fragments into lines; a line that is never completed is dropped.
  function Assemble(prefix: Bytes, fragments: seq<Fragment>): seq<Bytes>
    decreases |fragments|
  {
    if fragments == [] then []
    else
      var line := prefix + fragments[0].bytes;
      if fragments[0].isPrefix then Assemble(line, fragments[1..])
      else [line] + Assemble([], fragments[1..])
  }

  // The ReadLine contract for a source that yields exactly s and then fails:
  // the fragments make up the closed lines of s, and the non-empty rest after
  // the last line feed is handed out as a last line or withheld. How lines are
  // cut into fragments is left open.
  ghost predicate Delivers(fragments: seq<Fragment>, s: Bytes) {
    || Assemble([], fragments) == Terminated(s)
    || (Tail(s) != [] && Assemble([], fragments) == Terminated(s) + [Tail(s)])
  }

  // A bufio.Reader seen through ReadLine.
  class LineReader {
    var pending: seq<Fragment>
    const failure: ReadError

    constructor (fragments: seq<Fragment>, failure: ReadError)
      ensures pending == fragments && this.failure == failure
    {
      pending, this.failure := fragments, failure;
    }

    method ReadLine() returns (line: Bytes, isPrefix: bool, err: Option<ReadError>)
      modifies this
      ensures old(pending) == [] ==> err == Some(failure) && pending == []
      ensures old(pending) != [] ==>
                err == None && old(pending)[0] == Fragment(line, isPrefix) && pending == old(pending)[1..]
    {
      if pending == [] {
        return [], false, Some(failure);
      }
      line, isPrefix, err := pending[0].bytes, pending[0].isPrefix, None;
      pending := pending[1..];
    }
  }

  // ---- one block of lines ----------------------------------------------------

  // The event under construction and whether an id line was seen.
  datatype Draft = Draft(event: Event, idPresent: bool)

  function Start(lastID: Bytes): Draft {
    Draft(EMPTY.(id := lastID), false)
  }

  function FieldName(line: Bytes): Bytes {
    line[..IndexOf(line, COLON)]
  }

  // The text after the first colon without one leading space; empty when there
  // is no colon.
  function FieldValue(line: Bytes): Bytes {
    var i := IndexOf(line, COLON);
    var value := if i < |line| then line[i + 1..] else [];
    if |value| > 0 && value[0] == SPACE then value[1..] else value
  }

  // time.Duration(ms) * time.Millisecond, wrapping as int64 does.
  function RetryOf(old_: int64, value: Bytes): int64 {
    match Atoi(value)
    case Some(ms) => Wrap(ms * NANOS_PER_MILLI)
    case None => old_
  }

  // A non-empty line: a comment or a field.
  function Absorb(d: Draft, line: Bytes): Draft
    requires line != []
  {
    var field, value := FieldName(line), FieldValue(line);
    if line[0] == COLON then d
    else if field == ID then Draft(d.event.(id := value), true)
    else if field == EVENT then d.(event := d.event.(name := value))
    else if field == DATA then d.(event := d.event.(data := d.event.data + value + [LF]))
    else if field == RETRY then d.(event := d.event.(retry := RetryOf(d.event.retry, value)))
    else d
  }

  function Dispatched(d: Draft): Event
    requires d.event.data != []
  {
    d.event.(data := d.event.data[..|d.event.data| - 1])
  }

  datatype Outcome =
    | Got(event: Event, lastID: Bytes, rest: seq<Bytes>)
    | Unfinished

  // Reads lines until an event is complete.
  function Scan(d: Draft, lastID: Bytes, lines: seq<Bytes>): (o: Outcome)
    ensures o.Got? ==> |o.rest| < |lines|
    decreases |lines|
  {
    if lines == [] then Unfinished
    else if lines[0] != [] then Scan(Absorb(d, lines[0]), lastID, lines[1..])
    else if d.event.data == [] then Scan(d, lastID, lines[1..])
    else Got(Dispatched(d), if d.idPresent then d.event.id else lastID, lines[1..])
  }

  // What one call of Next makes of the lines ahead.
  function NextEvent(lastID: Bytes, lines: seq<Bytes>): (o: Outcome)
    ensures o.Got? ==> |o.rest| < |lines|
  {
    Scan(Start(lastID), lastID, lines)
  }

  // Everything repeated Next calls return before the lines run out.
  function Events(lastID: Bytes, lines: seq<Bytes>): seq<Event>
    decreases |lines|
  {
    match NextEvent(lastID, lines)
    case Unfinished => []
    case Got(e, id, rest) => [e] + Events(id, rest)
  }

  // The parser's lastID once the lines have run out.
  function FinalID(lastID: Bytes, lines: seq<Bytes>): Bytes
    decreases |lines|
  {
    match NextEvent(lastID, lines)
    case Unfinished => lastID
    case Got(e, id, rest) => FinalID(id, rest)
  }

  // The parser's lastID after k successful Next calls.
  function IDAfter(lastID: Bytes, lines: seq<Bytes>, k: nat): Bytes
    decreases |lines|
  {
    match NextEvent(lastID, lines)
    case Unfinished => lastID
    case Got(e, id, rest) => if k == 0 then lastID else IDAfter(id, rest, k - 1)
  }

  // ---- the class ---------------------------------------------------------------

  datatype CloseError = AlreadyClosed | SourceFailed(code: nat)

  class ReadCloser {
    var lastID: Bytes
    var closed: bool
    var sourceCloses: nat  // calls of closeSource
    const buf: LineReader

    constructor (source: LineReader)
      ensures lastID == [] && !closed && sourceCloses == 0 && buf == source
    {
      lastID, closed, sourceCloses, buf := [], false, 0, source;
    }

    // The lines still ahead.
    function Ahead(): seq<Bytes>
      reads this, buf
    {
      Assemble([], buf.pending)
    }

    // The source is closed by the first Close and never again. What closing it
    // returns, error or not, is passed on.
    method Close(sourceResult: Option<nat>) returns (err: Option<CloseError>)
      modifies this
      ensures closed && lastID == old(lastID)
      ensures old(closed) ==> err == Some(AlreadyClosed)
      ensures !old(closed) && sourceResult == None ==> err == None
      ensures !old(closed) && sourceResult.Some? ==> err == Some(SourceFailed(sourceResult.value))
      ensures sourceCloses == old(sourceCloses) + if old(closed) then 0 else 1
    {
      if closed {
        return Some(AlreadyClosed);
      }
      closed := true;
      sourceCloses := sourceCloses + 1;
      err := match sourceResult case Some(code) => Some(SourceFailed(code)) case None => None;
    }

    // An event, or the read error once no further event is complete. A failed
    // call discards the unfinished event and leaves lastID as it was.
    method Next() returns (event: Event, err: Option<ReadError>)
      modifies this, buf
      ensures closed == old(closed) && sourceCloses == old(sourceCloses)
      ensures match NextEvent(old(lastID), old(Ahead()))
              case Got(e, id, rest) => err == None && event == e && lastID == id && Ahead() == rest
              case Unfinished =>
                err == Some(buf.failure) && event == EMPTY && lastID == old(lastID) && buf.pending == []
    {
      event := EMPTY.(id := lastID);
      var idPresent := false;
      var prefix: Bytes := [];
      while true
        invariant lastID == old(lastID) && closed == old(closed) && sourceCloses == old(sourceCloses)
        invariant NextEvent(old(lastID), old(Ahead()))
               == Scan(Draft(event, idPresent), lastID, Assemble(prefix, buf.pending))
        decreases |buf.pending|
      {
        var line, isPrefix, e := buf.ReadLine();
        if e.Some? {
          return EMPTY, e;
        }
        line := prefix + line;
        if isPrefix {
          prefix := line;
          continue;
        } else {
          prefix := [];
        }
        if |line| == 0 {
          if |event.data| == 0 {
            continue;
          }
          if idPresent {
            lastID := event.id;
          }
          event := event.(data := event.data[0..|event.data| - 1]);
          return event, None;
        }
        if line[0] == COLON {
          continue;
        }
        var field, value := FieldName(line), FieldValue(line);
        if field == ID {
          idPresent := true;
          event := event.(id := value);
        } else if field == EVENT {
          event := event.(name := value);
        } else if field == DATA {
          event := event.(data := event.data + value + [LF]);
        } else if field == RETRY {
          event := event.(retry := RetryOf(event.retry, value));
        }
      }
    }
  }

  lemma ScanStep(d: Draft, lastID: Bytes, line: Bytes, more: seq<Bytes>)
    requires line != []
    ensures Scan(d, lastID, [line] + more) == Scan(Absorb(d, line), lastID, more)
  {
    assert ([line] + more)[1..] == more;
  }

  lemma EventsStep(lastID: Bytes, lines: seq<Bytes>, e: Event, id: Bytes, rest: seq<Bytes>)
    requires NextEvent(lastID, lines) == Got(e, id, rest)
    ensures Events(lastID, lines) == [e] + Events(id, rest)
    ensures FinalID(lastID, lines) == FinalID(id, rest)
  {
  }

  // ---- lines without effect --------------------------------------------------------

  // Comments, whose field name is empty, unknown fields, and a retry that is no
  // number.
  predicate Ignorable(line: Bytes) {
    && line != []
    && (FieldName(line) !in {ID, EVENT, DATA, RETRY} || (FieldName(line) == RETRY && Atoi(FieldValue(line)) == None))
  }

  lemma AbsorbIgnores(d: Draft, line: Bytes)
    requires Ignorable(line)
    ensures Absorb(d, line) == d
  {
  }

  lemma {:induction false} ScanIgnores(d: Draft, lastID: Bytes, a: seq<Bytes>, line: Bytes, b: seq<Bytes>)
    requires Ignorable(line) && Scan(d, lastID, a).Unfinished?
    ensures Scan(d, lastID, a + [line] + b) == Scan(d, lastID, a + b)
    decreases |a|
  {
    if a == [] {
      AbsorbIgnores(d, line);
      assert a + b == b && a + [line] + b == [line] + b;
      ScanStep(d, lastID, line, b);
    } else {
      assert (a + [line] + b)[0] == a[0] == (a + b)[0];
      assert (a + [line] + b)[1..] == a[1..] + [line] + b && (a + b)[1..] == a[1..] + b;
      ScanIgnores(if a[0] == [] then d else Absorb(d, a[0]), lastID, a[1..], line, b);
    }
  }

  // Such a line anywhere in a stream, inside a block or between two, changes
  // nothing.
  lemma {:induction false} IgnoredLine(lastID: Bytes, a: seq<Bytes>, line: Bytes, b: seq<Bytes>)
    requires Ignorable(line)
    ensures Events(lastID, a + [line] + b) == Events(lastID, a + b)
    ensures FinalID(lastID, a + [line] + b) == FinalID(lastID, a + b)
    decreases |a|
  {
    var o := NextEvent(lastID, a);
    if o.Got? {
      ScanMore(Start(lastID), lastID, a, [line] + b);
      ScanMore(Start(lastID), lastID, a, b);
      assert a + [line] + b == a + ([line] + b) && o.rest + [line] + b == o.rest + ([line] + b);
      IgnoredLine(o.lastID, o.rest, line, b);
      EventsStep(lastID, a + [line] + b, o.event, o.lastID, o.rest + [line] + b);
      EventsStep(lastID, a + b, o.event, o.lastID, o.rest + b);
    } else {
      ScanIgnores(Start(lastID), lastID, a, line, b);
    }
  }

  // A block that ends before it had data is not an event: what it said about
  // id, name and retry goes into the next block as if its end were not there.
  lemma {:induction false} DatalessBlock(d: Draft, lastID: Bytes, a: seq<Bytes>, b: seq<Bytes>)
    requires d.event.data == [] && forall line :: line in a ==> line != [] && FieldName(line) != DATA
    ensures Scan(d, lastID, a + [[]] + b) == Scan(d, lastID, a + b)
    decreases |a|
  {
    if a == [] {
      assert a + b == b && a + [[]] + b == [[]] + b && ([[]] + b)[1..] == b;
    } else {
      assert a[0] in a && forall line | line in a[1..] :: line in a;
      assert (a + [[]] + b)[0] == a[0] == (a + b)[0];
      assert (a + [[]] + b)[1..] == a[1..] + [[]] + b && (a + b)[1..] == a[1..] + b;
      DatalessBlock(Absorb(d, a[0]), lastID, a[1..], b);
    }
  }

  // ---- prefixes of a stream ------------------------------------------------------

  lemma {:induction false} ScanMore(d: Draft, lastID: Bytes, lines: seq<Bytes>, more: seq<Bytes>)
    requires Scan(d, lastID, lines).Got?
    ensures Scan(d, lastID, lines + more)
         == Got(Scan(d, lastID, lines).event, Scan(d, lastID, lines).lastID, Scan(d, lastID, lines).rest + more)
    decreases |lines|
  {
    assert (lines + more)[0] == lines[0];
    assert (lines + more)[1..] == lines[1..] + more;
    if lines[0] != [] {
      ScanMore(Absorb(d, lines[0]), lastID, lines[1..], more);
    } else if d.event.data == [] {
      ScanMore(d, lastID, lines[1..], more);
    }
  }

  // More lines never take back an event, and an event left unfinished has not
  // moved lastID.
  lemma {:induction false} EventsPrefix(lastID: Bytes, lines: seq<Bytes>, more: seq<Bytes>)
    ensures Events(lastID, lines) <= Events(lastID, lines + more)
    ensures FinalID(lastID, lines) == IDAfter(lastID, lines + more, |Events(lastID, lines)|)
    decreases |lines|
  {
    var o := NextEvent(lastID, lines);
    if o.Got? {
      ScanMore(Start(lastID), lastID, lines, more);
      EventsPrefix(o.lastID, o.rest, more);
    }
  }

  lemma {:induction false} ScanPartial(d: Draft, lastID: Bytes, lines: seq<Bytes>, partial: Bytes)
    requires partial != []
    ensures Scan(d, lastID, lines).Unfinished? ==> Scan(d, lastID, lines + [partial]).Unfinished?
    decreases |lines|
  {
    if lines == [] {
      assert (lines + [partial])[1..] == [];
    } else {
      assert (lines + [partial])[0] == lines[0];
      assert (lines + [partial])[1..] == lines[1..] + [partial];
      if lines[0] != [] {
        ScanPartial(Absorb(d, lines[0]), lastID, lines[1..], partial);
      } else if d.event.data == [] {
        ScanPartial(d, lastID, lines[1..], partial);
      }
    }
  }

  // A last line without its line feed completes nothing.
  lemma {:induction false} PartialLine(lastID: Bytes, lines: seq<Bytes>, partial: Bytes)
    requires partial != []
    ensures Events(lastID, lines + [partial]) == Events(lastID, lines)
    ensures FinalID(lastID, lines + [partial]) == FinalID(lastID, lines)
    decreases |lines|
  {
    var o := NextEvent(lastID, lines);
    if o.Got? {
      ScanMore(Start(lastID), lastID, lines, [partial]);
      PartialLine(o.lastID, o.rest, partial);
    } else {
      ScanPartial(Start(lastID), lastID, lines, partial);
    }
  }

  // How ReadLine cuts lines into fragments, and whether it hands out the
  // unclosed rest, makes no difference.
  lemma FragmentationIrrelevant(lastID: Bytes, fragments: seq<Fragment>, s: Bytes)
    requires Delivers(fragments, s)
    ensures Events(lastID, Assemble([], fragments)) == Events(lastID, Terminated(s))
    ensures FinalID(lastID, Assemble([], fragments)) == FinalID(lastID, Terminated(s))
  {
    if Assemble([], fragments) != Terminated(s) {
      PartialLine(lastID, Terminated(s), Tail(s));
    }
  }

  // The same on whole texts: what is complete in a prefix is complete.
  lemma TruncatedText(lastID: Bytes, s: Bytes, n: nat)
    requires n <= |s|
    ensures var got := Events(lastID, Terminated(s[..n]));
            && got <= Events(lastID, Terminated(s))
            && FinalID(lastID, Terminated(s[..n])) == IDAfter(lastID, Terminated(s), |got|)
  {
    hide *;
    TerminatedPrefix(s, n);
    var k := |Terminated(s[..n])|;
    assert Terminated(s[..n]) == Terminated(s)[..k];
    TakeDrop(Terminated(s), k);
    EventsPrefix(lastID, Terminated(s[..n]), Terminated(s)[k..]);
  }

  // Cutting any byte stream anywhere yields a prefix of its events, and leaves
  // lastID where the whole stream had it after those events.
  lemma TruncatedStream(lastID: Bytes, s: Bytes, n: nat, whole: seq<Fragment>, cut: seq<Fragment>)
    requires n <= |s|
    requires Delivers(whole, s) && Delivers(cut, s[..n])
    ensures var got, all := Events(lastID, Assemble([], cut)), Events(lastID, Assemble([], whole));
            && got <= all
            && FinalID(lastID, Assemble([], cut)) == IDAfter(lastID, Terminated(s), |got|)
  {
    hide *;
    FragmentationIrrelevant(lastID, whole, s);
    FragmentationIrrelevant(lastID, cut, s[..n]);
    TruncatedText(lastID, s, n);
  }
}
