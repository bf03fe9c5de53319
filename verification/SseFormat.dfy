// The event stream format on its own terms, and internal/sse/read_closer.go
// against it. Nothing here is defined through the parser: a line is what a
// writer put together, and a block means what its lines say.
module SseFormat {
  import opened Options
  import opened Sequences
  import opened SseText
  import opened SseEvent
  import opened SseReader
  import opened SseRoundTrip

  // The ways to write a line that is not empty.
  datatype Part =
    | Comment(text: Bytes)                // :text
    | Spaced(field: Bytes, value: Bytes)  // field: value
    | Tight(field: Bytes, value: Bytes)   // field:value
    | Bare(field: Bytes)                  // field

  function Text(p: Part): Bytes {
    match p
    case Comment(text) => [COLON] + text
    case Spaced(field, value) => field + [COLON] + [SPACE] + value
    case Tight(field, value) => field + [COLON] + value
    case Bare(field) => field
  }

  function Texts(parts: seq<Part>): seq<Bytes> {
    seq(|parts|, i requires 0 <= i < |parts| => Text(parts[i]))
  }

  // A field name holds no colon; without the space the value must not start with
  // one.
  predicate WellFormed(p: Part) {
    match p
    case Comment(_) => true
    case Spaced(field, _) => field != [] && COLON !in field
    case Tight(field, value) => field != [] && COLON !in field && (value == [] || value[0] != SPACE)
    case Bare(field) => field != [] && COLON !in field
  }

  predicate AllWellFormed(parts: seq<Part>) { forall p | p in parts :: WellFormed(p) }

  // Every line has such a form, so what follows is about all lines.
  lemma EveryLineHasForm(line: Bytes) returns (p: Part)
    requires line != []
    ensures WellFormed(p) && Text(p) == line
  {
    var i := IndexOf(line, COLON);
    if i == |line| {
      p := Bare(line);
    } else if i == 0 {
      p := Comment(line[1..]);
    } else if i + 1 < |line| && line[i + 1] == SPACE {
      p := Spaced(line[..i], line[i + 2..]);
    } else {
      p := Tight(line[..i], line[i + 1..]);
    }
  }

  // ---- what a block means ----------------------------------------------------------

  predicate Sets(p: Part, field: Bytes) { !p.Comment? && p.field == field }

  function ValueIn(p: Part): Bytes {
    match p
    case Spaced(_, value) => value
    case Tight(_, value) => value
    case _ => []
  }

  // The value of the last line with this field.
  function LastOfField(parts: seq<Part>, field: Bytes): Option<Bytes> {
    if parts == [] then None
    else if Sets(parts[|parts| - 1], field) then Some(ValueIn(parts[|parts| - 1]))
    else LastOfField(parts[..|parts| - 1], field)
  }

  // The values of all lines with this field, in order.
  function AllOfField(parts: seq<Part>, field: Bytes): seq<Bytes> {
    if parts == [] then []
    else
      AllOfField(parts[..|parts| - 1], field)
      + if Sets(parts[|parts| - 1], field) then [ValueIn(parts[|parts| - 1])] else []
  }

  // The last retry line that holds a number, in milliseconds.
  function LastRetry(parts: seq<Part>): Option<int64> {
    if parts == [] then None
    else
      var p := parts[|parts| - 1];
      if Sets(p, RETRY) && Atoi(ValueIn(p)).Some? then Atoi(ValueIn(p)) else LastRetry(parts[..|parts| - 1])
  }

  function Or<T>(o: Option<T>, default: T): T {
    match o case Some(x) => x case None => default
  }

  function RetryMeant(parts: seq<Part>): int64 {
    match LastRetry(parts) case Some(ms) => Wrap(ms * 1_000_000) case None => 0
  }

  // The event of a block that has data: its data lines with line feeds in
  // between, the last id, name and retry it gives; a missing id is inherited.
  function Meaning(lastID: Bytes, parts: seq<Part>): Event
    requires AllOfField(parts, DATA) != []
  {
    Event(Or(LastOfField(parts, ID), lastID), Or(LastOfField(parts, EVENT), []),
          Join(AllOfField(parts, DATA)), RetryMeant(parts))
  }

  // ---- the parser on one line --------------------------------------------------------

  lemma LineRead(p: Part)
    requires WellFormed(p)
    ensures Text(p) != []
    ensures p.Comment? <==> Text(p)[0] == COLON
    ensures !p.Comment? ==> FieldName(Text(p)) == p.field && FieldValue(Text(p)) == ValueIn(p)
  {
    match p
    case Comment(_) =>
    case Bare(field) =>
      IndexOfAt(field, COLON, []);
      assert field[0] in field;
    case Spaced(field, value) =>
      ColonFound(field, [SPACE] + value);
      assert Text(p) == field + [COLON] + ([SPACE] + value);
      assert ([SPACE] + value)[1..] == value;
    case Tight(field, value) =>
      ColonFound(field, value);
  }

  lemma ColonFound(field: Bytes, after: Bytes)
    requires field != [] && COLON !in field
    ensures var line := field + [COLON] + after;
            && IndexOf(line, COLON) == |field| < |line|
            && line[..|field|] == field && line[|field| + 1..] == after && line[0] != COLON
  {
    IndexOfAt(field, COLON, after);
    assert field[0] in field;
  }

  // ---- the parser on a block -----------------------------------------------------------

  function AbsorbAll(d: Draft, parts: seq<Part>): Draft
    requires AllWellFormed(parts)
  {
    if parts == [] then d
    else
      var p := parts[|parts| - 1];
      assert p in parts && Text(p) != [] by { LineRead(p); }
      Absorb(AbsorbAll(d, parts[..|parts| - 1]), Text(p))
  }

  lemma {:induction false} ScanParts(d: Draft, lastID: Bytes, parts: seq<Part>, tail: seq<Bytes>)
    requires AllWellFormed(parts)
    ensures Scan(d, lastID, Texts(parts) + tail) == Scan(AbsorbAll(d, parts), lastID, tail)
    decreases |parts|
  {
    if parts == [] {
      assert Texts(parts) + tail == tail;
    } else {
      var rest, p := parts[..|parts| - 1], parts[|parts| - 1];
      assert p in parts;
      LineRead(p);
      assert Texts(parts) + tail == Texts(rest) + ([Text(p)] + tail);
      ScanParts(d, lastID, rest, [Text(p)] + tail);
      ScanStep(AbsorbAll(d, rest), lastID, Text(p), tail);
    }
  }

  // What the draft holds after the lines of a block.
  function DraftMeant(lastID: Bytes, parts: seq<Part>): Draft {
    Draft(Event(Or(LastOfField(parts, ID), lastID), Or(LastOfField(parts, EVENT), []),
                Unlines(AllOfField(parts, DATA)), RetryMeant(parts)),
          LastOfField(parts, ID).Some?)
  }

  lemma FieldsDiffer()
    ensures ID != EVENT && ID != DATA && ID != RETRY && EVENT != DATA && EVENT != RETRY && DATA != RETRY
  {
    assert |ID| == 2 && |EVENT| == 5 && |DATA| == 4 && |RETRY| == 5;
    assert EVENT[0] != RETRY[0];
  }

  lemma {:induction false} DraftHolds(lastID: Bytes, parts: seq<Part>)
    requires AllWellFormed(parts)
    ensures AbsorbAll(Start(lastID), parts) == DraftMeant(lastID, parts)
    decreases |parts|
  {
    if parts != [] {
      var rest, p := parts[..|parts| - 1], parts[|parts| - 1];
      assert p in parts;
      DraftHolds(lastID, rest);
      LineRead(p);
      DraftStep(lastID, rest, p);
      assert parts == rest + [p];
    }
  }

  lemma DraftStep(lastID: Bytes, parts: seq<Part>, p: Part)
    requires WellFormed(p) && Text(p) != []
    ensures Absorb(DraftMeant(lastID, parts), Text(p)) == DraftMeant(lastID, parts + [p])
  {
    LineRead(p);
    FieldsDiffer();
    assert (parts + [p])[..|parts|] == parts;
    UnlinesSnoc(AllOfField(parts, DATA), ValueIn(p));
    assert AllOfField(parts, DATA) + [] == AllOfField(parts, DATA);
  }

  lemma BlankRead(d: Draft, lastID: Bytes, rest: seq<Bytes>)
    ensures Scan(d, lastID, [[]] + rest)
         == if d.event.data == [] then Scan(d, lastID, rest)
            else Got(Dispatched(d), if d.idPresent then d.event.id else lastID, rest)
  {
    assert ([[]] + rest)[1..] == rest;
  }

  lemma DraftDispatched(lastID: Bytes, parts: seq<Part>)
    ensures var d, all := DraftMeant(lastID, parts), AllOfField(parts, DATA);
            && (d.event.data == [] <==> all == [])
            && (all != [] ==> Dispatched(d) == Meaning(lastID, parts))
            && (if d.idPresent then d.event.id else lastID) == Or(LastOfField(parts, ID), lastID)
  {
    var all := AllOfField(parts, DATA);
    if all != [] {
      UnlinesJoin(all);
      assert Unlines(all)[..|Unlines(all)| - 1] == Join(all);
    }
  }

  // One block, after any id, before any lines: with data it is the event it
  // means, without data its lines count for the next block.
  lemma BlockMeaning(lastID: Bytes, parts: seq<Part>, rest: seq<Bytes>)
    requires AllWellFormed(parts)
    ensures NextEvent(lastID, Texts(parts) + [[]] + rest)
         == if AllOfField(parts, DATA) == [] then NextEvent(lastID, Texts(parts) + rest)
            else Got(Meaning(lastID, parts), Or(LastOfField(parts, ID), lastID), rest)
  {
    assert forall lines :: NextEvent(lastID, lines) == Scan(Start(lastID), lastID, lines);
    hide *;
    Assoc(Texts(parts), [[]], rest);
    ScanParts(Start(lastID), lastID, parts, [[]] + rest);
    ScanParts(Start(lastID), lastID, parts, rest);
    DraftHolds(lastID, parts);
    BlankRead(DraftMeant(lastID, parts), lastID, rest);
    DraftDispatched(lastID, parts);
  }

  // ---- the parser on a whole stream ------------------------------------------------------

  predicate AllBlocksWellFormed(blocks: seq<seq<Part>>) { forall b | b in blocks :: AllWellFormed(b) }

  function Lines(blocks: seq<seq<Part>>): seq<Bytes> {
    if blocks == [] then [] else Texts(blocks[0]) + [[]] + Lines(blocks[1..])
  }

  // The events of a stream of blocks; `pending` are the lines of blocks without
  // data so far.
  function StreamMeaning(lastID: Bytes, pending: seq<Part>, blocks: seq<seq<Part>>): seq<Event>
    decreases |blocks|
  {
    if blocks == [] then []
    else
      var parts := pending + blocks[0];
      if AllOfField(parts, DATA) == [] then StreamMeaning(lastID, parts, blocks[1..])
      else [Meaning(lastID, parts)] + StreamMeaning(Or(LastOfField(parts, ID), lastID), [], blocks[1..])
  }

  lemma TextsConcat(a: seq<Part>, b: seq<Part>)
    ensures Texts(a + b) == Texts(a) + Texts(b)
    ensures AllWellFormed(a) && AllWellFormed(b) ==> AllWellFormed(a + b)
  {
  }

  lemma BlocksSplit(blocks: seq<seq<Part>>)
    requires blocks != [] && AllBlocksWellFormed(blocks)
    ensures AllWellFormed(blocks[0]) && AllBlocksWellFormed(blocks[1..])
    ensures Lines(blocks) == Texts(blocks[0]) + [[]] + Lines(blocks[1..])
  {
    assert blocks[0] in blocks && forall b | b in blocks[1..] :: b in blocks;
  }

  // The lines of pending blocks, and one block more.
  lemma LinesCons(pending: seq<Part>, blocks: seq<seq<Part>>, tail: seq<Part>)
    requires blocks != [] && AllWellFormed(pending) && AllBlocksWellFormed(blocks)
    ensures AllWellFormed(pending + blocks[0]) && AllBlocksWellFormed(blocks[1..])
    ensures Texts(pending) + Lines(blocks) + Texts(tail)
         == Texts(pending + blocks[0]) + [[]] + (Lines(blocks[1..]) + Texts(tail))
  {
    hide *;
    BlocksSplit(blocks);
    TextsConcat(pending, blocks[0]);
    var p, b, rest, t := Texts(pending), Texts(blocks[0]), Lines(blocks[1..]), Texts(tail);
    assert p + (b + [[]] + rest) + t == p + b + [[]] + (rest + t);
  }

  // Every stream of lines, cut into blocks and an unfinished rest: repeated Next
  // returns what the blocks mean, one after the other.
  lemma {:induction false} StreamRead(lastID: Bytes, pending: seq<Part>, blocks: seq<seq<Part>>, tail: seq<Part>)
    requires AllWellFormed(pending) && AllBlocksWellFormed(blocks) && AllWellFormed(tail)
    ensures Events(lastID, Texts(pending) + Lines(blocks) + Texts(tail)) == StreamMeaning(lastID, pending, blocks)
    decreases |blocks|
  {
    if blocks == [] {
      TextsConcat(pending, tail);
      assert Texts(pending) + Lines(blocks) + Texts(tail) == Texts(pending + tail) + [];
      ScanParts(Start(lastID), lastID, pending + tail, []);
    } else {
      var parts, rest := pending + blocks[0], Lines(blocks[1..]) + Texts(tail);
      LinesCons(pending, blocks, tail);
      BlockMeaning(lastID, parts, rest);
      if AllOfField(parts, DATA) == [] {
        Assoc(Texts(parts), Lines(blocks[1..]), Texts(tail));
        StreamRead(lastID, parts, blocks[1..], tail);
        SameNext(lastID, Texts(parts) + [[]] + rest, Texts(parts) + rest);
      } else {
        var id := Or(LastOfField(parts, ID), lastID);
        assert Texts([]) + Lines(blocks[1..]) + Texts(tail) == rest;
        StreamRead(id, [], blocks[1..], tail);
        EventsStep(lastID, Texts(parts) + [[]] + rest, Meaning(lastID, parts), id, rest);
      }
    }
  }

  lemma SameNext(lastID: Bytes, a: seq<Bytes>, b: seq<Bytes>)
    requires NextEvent(lastID, a) == NextEvent(lastID, b)
    ensures Events(lastID, a) == Events(lastID, b)
  {
  }

  lemma PrependPart(p: Part, blocks: seq<seq<Part>>)
    requires WellFormed(p) && blocks != [] && AllBlocksWellFormed(blocks)
    ensures AllBlocksWellFormed([[p] + blocks[0]] + blocks[1..])
    ensures Lines([[p] + blocks[0]] + blocks[1..]) == [Text(p)] + Lines(blocks)
  {
    var more := [[p] + blocks[0]] + blocks[1..];
    BlocksSplit(blocks);
    TextsConcat([p], blocks[0]);
    assert more[0] == [p] + blocks[0] && more[1..] == blocks[1..];
    assert Texts([p]) == [Text(p)];
    hide *;
    LinesOfNext(more);
    Assoc([Text(p)], Texts(blocks[0]), [[]]);
    Assoc([Text(p)], Texts(blocks[0]) + [[]], Lines(blocks[1..]));
  }

  lemma LinesOfNext(blocks: seq<seq<Part>>)
    requires blocks != []
    ensures Lines(blocks) == Texts(blocks[0]) + [[]] + Lines(blocks[1..])
    ensures AllWellFormed(blocks[0]) && AllBlocksWellFormed(blocks[1..]) ==> AllBlocksWellFormed(blocks)
  {
    if AllWellFormed(blocks[0]) && AllBlocksWellFormed(blocks[1..]) {
      forall b | b in blocks ensures AllWellFormed(b) {
        assert b == blocks[0] || b in blocks[1..];
      }
    }
  }

  lemma PrependBlank(blocks: seq<seq<Part>>)
    requires AllBlocksWellFormed(blocks)
    ensures AllBlocksWellFormed([[]] + blocks) && Lines([[]] + blocks) == [[]] + Lines(blocks)
  {
    var more := [[]] + blocks;
    assert more[0] == [] && more[1..] == blocks && Texts([]) == [];
    hide *;
    LinesOfNext(more);
  }

  // One more line in front of a stream that has been cut.
  lemma PrependLine(line: Bytes, blocks: seq<seq<Part>>, tail: seq<Part>)
    returns (more: seq<seq<Part>>, end: seq<Part>)
    requires AllBlocksWellFormed(blocks) && AllWellFormed(tail)
    ensures AllBlocksWellFormed(more) && AllWellFormed(end)
    ensures Lines(more) + Texts(end) == [line] + (Lines(blocks) + Texts(tail))
  {
    if line == [] {
      more, end := [[]] + blocks, tail;
      PrependBlank(blocks);
    } else {
      var p := EveryLineHasForm(line);
      if blocks == [] {
        more, end := [], [p] + tail;
        TextsConcat([p], tail);
        assert Texts([p]) == [line];
      } else {
        more, end := [[p] + blocks[0]] + blocks[1..], tail;
        hide *;
        PrependPart(p, blocks);
      }
    }
  }

  // Any lines at all can be cut that way.
  lemma {:induction false} EveryStreamHasBlocks(lines: seq<Bytes>) returns (blocks: seq<seq<Part>>, tail: seq<Part>)
    ensures AllBlocksWellFormed(blocks) && AllWellFormed(tail)
    ensures lines == Lines(blocks) + Texts(tail)
    decreases |lines|
  {
    if lines == [] {
      blocks, tail := [], [];
    } else {
      hide *;
      blocks, tail := EveryStreamHasBlocks(lines[1..]);
      blocks, tail := PrependLine(lines[0], blocks, tail);
      Uncons(lines);
    }
  }

  // ---- on bytes ------------------------------------------------------------------------

  // Lines on the wire, each ended by "\r\n" or "\n".
  function WireText(lines: seq<Bytes>, crlf: seq<bool>): Bytes
    requires |lines| == |crlf|
  {
    if lines == [] then []
    else lines[0] + (if crlf[0] then [CR, LF] else [LF]) + WireText(lines[1..], crlf[1..])
  }

  // What may stand on the wire as these lines.
  predicate Writable(lines: seq<Bytes>, crlf: seq<bool>) {
    && |lines| == |crlf|
    && forall i :: 0 <= i < |lines| ==> IsLine(lines[i]) && (crlf[i] || !EndsInCR(lines[i]))
  }

  lemma OneWireLine(line: Bytes, crlf: bool, rest: Bytes)
    requires IsLine(line) && (crlf || !EndsInCR(line))
    ensures Terminated(line + (if crlf then [CR, LF] else [LF]) + rest) == [line] + Terminated(rest)
  {
    if crlf {
      var l := line + [CR];
      assert line + [CR, LF] + rest == l + [LF] + rest;
      assert l[..|l| - 1] == line;
      TerminatedCons(l, rest);
    } else {
      TerminatedCons(line, rest);
    }
  }

  lemma {:induction false} WireLines(lines: seq<Bytes>, crlf: seq<bool>)
    requires Writable(lines, crlf)
    ensures Terminated(WireText(lines, crlf)) == lines
    decreases |lines|
  {
    if lines != [] {
      assert Writable(lines[1..], crlf[1..]);
      var rest := WireText(lines[1..], crlf[1..]);
      assert WireText(lines, crlf) == lines[0] + (if crlf[0] then [CR, LF] else [LF]) + rest;
      assert IsLine(lines[0]) && (crlf[0] || !EndsInCR(lines[0]));
      Uncons(lines);
      WireLines(lines[1..], crlf[1..]);
      hide *;
      OneWireLine(lines[0], crlf[0], rest);
    }
  }

  // Whatever server wrote the blocks, in whatever forms and with whatever line
  // ends, and however the bytes arrive: the events are the ones it meant.
  lemma ReadsAnyForm(lastID: Bytes, blocks: seq<seq<Part>>, tail: seq<Part>, crlf: seq<bool>, fragments: seq<Fragment>)
    requires AllBlocksWellFormed(blocks) && AllWellFormed(tail)
    requires Writable(Lines(blocks) + Texts(tail), crlf)
    requires Delivers(fragments, WireText(Lines(blocks) + Texts(tail), crlf))
    ensures Events(lastID, Assemble([], fragments)) == StreamMeaning(lastID, [], blocks)
  {
    assert Texts([]) + Lines(blocks) + Texts(tail) == Lines(blocks) + Texts(tail);
    hide *;
    FragmentationIrrelevant(lastID, fragments, WireText(Lines(blocks) + Texts(tail), crlf));
    WireLines(Lines(blocks) + Texts(tail), crlf);
    StreamRead(lastID, [], blocks, tail);
  }

  // ---- a sample ---------------------------------------------------------------------------

  function Ascii(s: string): Bytes {
    seq(|s|, i requires 0 <= i < |s| => if s[i] < 128 as char then s[i] as byte else 0)
  }

  lemma SplitOff(line: Bytes, rest: Bytes)
    requires IsLine(line)
    ensures Split(line + [LF] + rest) == [line] + Split(rest)
    ensures Split(line) == [line]
  {
    IndexOfAt(line, LF, rest);
    var s := line + [LF] + rest;
    assert s[..|line|] == line && s[|line| + 1..] == rest;
  }

  lemma SampleData()
    ensures Split([97, LF, LF, COLON]) == [[97], [], [COLON]]
  {
    assert [97] + [LF] + [LF, COLON] == [97, LF, LF, COLON] && [] + [LF] + [COLON] == [LF, COLON];
    hide *;
    SplitOff([97], [LF, COLON]);
    SplitOff([], [COLON]);
    SplitOff([COLON], []);
  }

  // The printer's own form, on an event that has everything: an empty data line,
  // a colon in another, and a retry of minus one and a half milliseconds.
  lemma PrintedSample()
    ensures EncodedLines(Event(Ascii("7"), Ascii("up"), [97, LF, LF, COLON], -1_500_000))
         == [Ascii("id: 7"), Ascii("event: up"), Ascii("retry: -1"),
             Ascii("data: a"), Ascii("data"), Ascii("data: :"), []]
  {
    SampleData();
    assert Itoa(RetryMillis(-1_500_000)) == [MINUS, 49];
    hide Split, Itoa, RetryMillis;
    assert FieldLine(ID, Ascii("7")) == Ascii("id: 7");
    assert FieldLine(EVENT, Ascii("up")) == Ascii("event: up");
    assert FieldLine(RETRY, [MINUS, 49]) == Ascii("retry: -1");
    assert FieldLine(DATA, [97]) == Ascii("data: a") && FieldLine(DATA, [COLON]) == Ascii("data: :");
    assert DATA == Ascii("data");
  }
}
