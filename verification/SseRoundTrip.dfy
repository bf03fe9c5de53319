// Printing and parsing are inverse: internal/sse/event.go against
// internal/sse/read_closer.go.
module SseRoundTrip {
  import opened Sequences
  import opened SseText
  import opened SseEvent
  import opened SseReader

  predicate EndsInCR(s: Bytes) { s != [] && s[|s| - 1] == CR }

  // The events whose wire form says what they are.
  predicate Encodable(e: Event) {
    && IsLine(e.id) && !EndsInCR(e.id)
    && IsLine(e.name) && !EndsInCR(e.name)
    && forall piece | piece in Split(e.data) :: !EndsInCR(piece)
  }

  // e as a receiver sees it: Retry truncated toward zero to whole milliseconds.
  function Canon(e: Event): Event {
    e.(retry := TruncatedRetry(e.retry))
  }

  function TruncatedRetry(retry: int64): int64 {
    Quo(retry, NANOS_PER_MILLI) * NANOS_PER_MILLI
  }

  function CanonAll(es: seq<Event>): seq<Event> {
    seq(|es|, i requires 0 <= i < |es| => Canon(es[i]))
  }

  // What arrives of an event whose ID and Name hold no line feed.
  function Received(e: Event): Event {
    Event(DropCR(e.id), DropCR(e.name), Join(DropCRs(Split(e.data))), TruncatedRetry(e.retry))
  }

  // ---- single lines ------------------------------------------------------------

  lemma FieldLineParsed(field: Bytes, value: Bytes)
    requires COLON !in field && field != []
    ensures var line := DropCR(FieldLine(field, value));
            line != [] && line[0] != COLON && FieldName(line) == field && FieldValue(line) == DropCR(value)
  {
    var v := DropCR(value);
    var line := DropCR(FieldLine(field, value));
    assert line == field + [COLON] + ([SPACE] + v);
    IndexOfAt(field, COLON, [SPACE] + v);
    assert line[0] == field[0] && field[0] in field;
    assert line[..|field|] == field;
    assert line[|field| + 1..] == [SPACE] + v;
    assert ([SPACE] + v)[1..] == v;
  }

  lemma BareDataParsed()
    ensures DropCR(DATA) == DATA && FieldName(DATA) == DATA && FieldValue(DATA) == []
  {
    IndexOfAt(DATA, COLON, []);
  }

  lemma DataLineParsed(piece: Bytes)
    ensures var line := DropCR(DataLine(piece));
            line != [] && line[0] != COLON && FieldName(line) == DATA && FieldValue(line) == DropCR(piece)
  {
    if piece == [] {
      BareDataParsed();
    } else {
      FieldLineParsed(DATA, piece);
    }
  }

  lemma TruncatedTwice(retry: int64)
    ensures RetryMillis(retry) * NANOS_PER_MILLI == TruncatedRetry(retry)
    ensures -TWO_63 <= RetryMillis(retry) < TWO_63
  {
  }

  lemma NoCRIntact(s: Bytes)
    requires CR !in s
    ensures DropCR(s) == s
  {
  }

  lemma RetryParsed(retry: int64, before: int64)
    ensures RetryOf(before, DropCR(Itoa(RetryMillis(retry)))) == TruncatedRetry(retry)
  {
    TruncatedTwice(retry);
    WrapInRange(TruncatedRetry(retry));
    var ms := RetryMillis(retry);
    ItoaIsLine(ms);
    AtoiItoa(ms);
    NoCRIntact(Itoa(ms));
    hide Itoa, Atoi, Wrap, RetryMillis, TruncatedRetry, DropCR;
    assert DropCR(Itoa(ms)) == Itoa(ms);
  }

  // What is lost of Retry is less than a millisecond, and always on the side away
  // from zero.
  lemma TruncatedTowardZero(retry: int64)
    ensures TruncatedRetry(retry) % 1_000_000 == 0
    ensures retry >= 0 ==> 0 <= TruncatedRetry(retry) <= retry < TruncatedRetry(retry) + 1_000_000
    ensures retry <= 0 ==> TruncatedRetry(retry) - 1_000_000 < retry <= TruncatedRetry(retry) <= 0
  {
    if retry < 0 {
      var r: int := -(retry as int);
      assert TruncatedRetry(retry) == -(r / NANOS_PER_MILLI * NANOS_PER_MILLI);
    }
  }

  // ---- a block -------------------------------------------------------------------

  lemma {:induction false} UnlinesJoin(pieces: seq<Bytes>)
    requires |pieces| >= 1
    ensures Unlines(pieces) == Join(pieces) + [LF]
  {
    if |pieces| == 1 {
      assert Unlines(pieces[1..]) == [];
    } else {
      UnlinesJoin(pieces[1..]);
    }
  }

  lemma AbsorbData(d: Draft, piece: Bytes)
    ensures DropCR(DataLine(piece)) != []
    ensures Absorb(d, DropCR(DataLine(piece)))
         == d.(event := d.event.(data := d.event.data + DropCR(piece) + [LF]))
  {
    DataLineParsed(piece);
  }

  function WithData(d: Draft, more: Bytes): Draft {
    d.(event := d.event.(data := d.event.data + more))
  }

  lemma {:induction false} ScanData(d: Draft, lastID: Bytes, pieces: seq<Bytes>, more: seq<Bytes>)
    ensures Scan(d, lastID, DropCRs(DataLines(pieces)) + more)
         == Scan(WithData(d, Unlines(DropCRs(pieces))), lastID, more)
    decreases |pieces|
  {
    if pieces == [] {
      assert DropCRs(DataLines(pieces)) + more == more;
      assert d.event.data + [] == d.event.data;
    } else {
      var p, ps := pieces[0], pieces[1..];
      var line := DropCR(DataLine(p));
      var d' := WithData(d, DropCR(p) + [LF]);
      calc {
        Scan(d, lastID, DropCRs(DataLines(pieces)) + more);
        { assert DropCRs(DataLines(pieces)) + more == [line] + (DropCRs(DataLines(ps)) + more); }
        Scan(d, lastID, [line] + (DropCRs(DataLines(ps)) + more));
        { AbsorbData(d, p);
          ScanStep(d, lastID, line, DropCRs(DataLines(ps)) + more);
          assert d.event.data + DropCR(p) + [LF] == d.event.data + (DropCR(p) + [LF]); }
        Scan(d', lastID, DropCRs(DataLines(ps)) + more);
        { ScanData(d', lastID, ps, more); }
        Scan(WithData(d', Unlines(DropCRs(ps))), lastID, more);
        { DataGrows(d, p, ps); assert pieces == [p] + ps; }
        Scan(WithData(d, Unlines(DropCRs(pieces))), lastID, more);
      }
    }
  }

  lemma DataGrows(d: Draft, p: Bytes, ps: seq<Bytes>)
    ensures WithData(WithData(d, DropCR(p) + [LF]), Unlines(DropCRs(ps)))
         == WithData(d, Unlines(DropCRs([p] + ps)))
  {
    DropCRsCons(p, ps);
    var all := [DropCR(p)] + DropCRs(ps);
    assert all[1..] == DropCRs(ps);
    assert Unlines(all) == DropCR(p) + [LF] + Unlines(DropCRs(ps));
    assert d.event.data + (DropCR(p) + [LF]) + Unlines(DropCRs(ps)) == d.event.data + Unlines(all);
  }

  // The draft after the id, event and retry lines.
  function AfterHeader(e: Event): Draft {
    Draft(Event(DropCR(e.id), DropCR(e.name), [], TruncatedRetry(e.retry)), true)
  }

  lemma AbsorbHeader(e: Event, d: Draft)
    requires d.event.data == [] && d.event.name == [] && d.event.retry == 0
    ensures var a := Absorb(d, DropCR(FieldLine(ID, e.id)));
            var b := Absorb(a, DropCR(FieldLine(EVENT, e.name)));
            && a == Draft(d.event.(id := DropCR(e.id)), true)
            && b == Draft(Event(DropCR(e.id), DropCR(e.name), [], 0), true)
            && Absorb(b, DropCR(FieldLine(RETRY, Itoa(RetryMillis(e.retry))))) == AfterHeader(e)
  {
    FieldLineParsed(ID, e.id);
    FieldLineParsed(EVENT, e.name);
    FieldLineParsed(RETRY, Itoa(RetryMillis(e.retry)));
    RetryParsed(e.retry, 0);
  }

  lemma ScanHeader(e: Event, lastID: Bytes, more: seq<Bytes>)
    ensures Scan(Start(lastID), lastID, DropCRs(Header(e)) + more) == Scan(AfterHeader(e), lastID, more)
  {
    var idLine, nameLine := DropCR(FieldLine(ID, e.id)), DropCR(FieldLine(EVENT, e.name));
    var retryLine := DropCR(FieldLine(RETRY, Itoa(RetryMillis(e.retry))));
    AbsorbHeader(e, Start(lastID));
    assert idLine != [] && nameLine != [] && retryLine != [];
    var a := Absorb(Start(lastID), idLine);
    var b := Absorb(a, nameLine);
    var retryLines := if e.retry != 0 then [retryLine] else [];
    assert e.retry == 0 ==> b == AfterHeader(e);
    assert DropCRs(Header(e)) == [idLine] + ([nameLine] + retryLines);
    hide *;
    Assoc([idLine], [nameLine] + retryLines, more);
    Assoc([nameLine], retryLines, more);
    ScanStep(Start(lastID), lastID, idLine, [nameLine] + (retryLines + more));
    ScanStep(a, lastID, nameLine, retryLines + more);
    if e.retry != 0 {
      ScanStep(b, lastID, retryLine, more);
    } else {
      assert [] + more == more;
    }
  }

  lemma EncodedLinesAreLines(e: Event)
    requires IsLine(e.id) && IsLine(e.name)
    ensures AllLines(EncodedLines(e))
  {
    ItoaIsLine(RetryMillis(e.retry));
    forall l | l in EncodedLines(e) ensures IsLine(l) {
      EncodedLinesAt(e);
      var i :| 0 <= i < |EncodedLines(e)| && l == EncodedLines(e)[i];
      if |Header(e)| <= i < |EncodedLines(e)| - 1 {
        assert Split(e.data)[i - |Header(e)|] in Split(e.data);
      }
    }
  }

  lemma DropCRsConcat(a: seq<Bytes>, b: seq<Bytes>)
    ensures DropCRs(a + b) == DropCRs(a) + DropCRs(b)
  {
  }

  lemma BlockLines(e: Event, tail: seq<Bytes>)
    ensures DropCRs(EncodedLines(e)) + tail
         == DropCRs(Header(e)) + (DropCRs(DataLines(Split(e.data))) + ([[]] + tail))
  {
    hide Header, DataLines, Split, DropCRs;
    var h, d := Header(e), DataLines(Split(e.data));
    DropCRsConcat(h + d, [[]]);
    DropCRsConcat(h, d);
    EmptyDropCR();
    Assoc(DropCRs(h), DropCRs(d), [[]]);
    Assoc(DropCRs(h), DropCRs(d) + [[]], tail);
    Assoc(DropCRs(d), [[]], tail);
  }

  lemma EmptyDropCR()
    ensures DropCRs([[]]) == [[]]
  {
  }

  lemma ScanEnd(d: Draft, lastID: Bytes, tail: seq<Bytes>)
    requires d.event.data != [] && d.idPresent
    ensures Scan(d, lastID, [[]] + tail) == Got(Dispatched(d), d.event.id, tail)
  {
    assert ([[]] + tail)[1..] == tail;
  }

  // One encoded block, whatever follows it and whatever lastID was.
  lemma BlockReceived(e: Event, lastID: Bytes, rest: Bytes)
    requires IsLine(e.id) && IsLine(e.name)
    ensures NextEvent(lastID, Terminated(Encoding(e) + rest)) == Got(Received(e), DropCR(e.id), Terminated(rest))
  {
    var pieces, tail := Split(e.data), Terminated(rest);
    var data := Unlines(DropCRs(pieces));
    var d := WithData(AfterHeader(e), data);
    EncodedLinesAreLines(e);
    UnlinesJoin(DropCRs(pieces));
    assert d.event.data == [] + data == data;
    assert data[..|data| - 1] == Join(DropCRs(pieces));
    assert Dispatched(d) == Received(e) && d.idPresent && d.event.id == DropCR(e.id);
    assert Encoding(e) == Unlines(EncodedLines(e));
    assert forall lines :: NextEvent(lastID, lines) == Scan(Start(lastID), lastID, lines);
    hide *;
    TerminatedUnlines(EncodedLines(e), rest);
    BlockLines(e, tail);
    ScanHeader(e, lastID, DropCRs(DataLines(pieces)) + ([[]] + tail));
    ScanData(AfterHeader(e), lastID, pieces, [[]] + tail);
    ScanEnd(d, lastID, tail);
  }

  // ---- which events survive ------------------------------------------------------

  lemma {:induction false} JoinDropCRs(pieces: seq<Bytes>)
    requires |pieces| >= 1
    ensures |Join(DropCRs(pieces))| <= |Join(pieces)|
    ensures |Join(DropCRs(pieces))| == |Join(pieces)| ==> DropCRs(pieces) == pieces
    decreases |pieces|
  {
    if |pieces| > 1 {
      JoinDropCRs(pieces[1..]);
      assert DropCRs(pieces)[1..] == DropCRs(pieces[1..]);
      assert pieces == [pieces[0]] + pieces[1..];
      DropCRsCons(pieces[0], pieces[1..]);
    } else {
      assert DropCRs(pieces) == [DropCR(pieces[0])];
    }
  }

  lemma ReceivedIntact(e: Event)
    requires IsLine(e.id) && IsLine(e.name)
    ensures Received(e) == Canon(e) <==> Encodable(e)
  {
    var pieces := Split(e.data);
    JoinSplit(e.data);
    JoinDropCRs(pieces);
    if Encodable(e) {
      forall i | 0 <= i < |pieces| ensures DropCR(pieces[i]) == pieces[i] {
        assert pieces[i] in pieces;
      }
      assert DropCRs(pieces) == pieces;
    }
    if Received(e) == Canon(e) {
      forall piece | piece in pieces ensures !EndsInCR(piece) {
        var i :| 0 <= i < |pieces| && piece == pieces[i];
        assert DropCRs(pieces)[i] == DropCR(piece);
      }
    }
  }

  lemma ValueIsLine(line: Bytes)
    requires IsLine(line)
    ensures IsLine(FieldValue(line))
  {
  }

  // Parsed lines never put a line feed into ID or Name.
  lemma {:induction false} ScanKeepsLines(d: Draft, lastID: Bytes, lines: seq<Bytes>)
    requires AllLines(lines)
    requires IsLine(d.event.id) && IsLine(d.event.name)
    ensures var o := Scan(d, lastID, lines);
            o.Got? ==> IsLine(o.event.id) && IsLine(o.event.name)
    decreases |lines|
  {
    if lines != [] {
      assert lines[0] in lines;
      if lines[0] != [] {
        ValueIsLine(lines[0]);
        ScanKeepsLines(Absorb(d, lines[0]), lastID, lines[1..]);
      } else if d.event.data == [] {
        ScanKeepsLines(d, lastID, lines[1..]);
      }
    }
  }

  // The block always opens with an id line, so no earlier lastID shows through.
  lemma EncodingOpens(e: Event) returns (value: Bytes, more: seq<Bytes>)
    ensures Terminated(Encoding(e)) == [DropCR(FieldLine(ID, value))] + more
    ensures IsLine(value) && AllLines(more)
  {
    var prefix, after := ID + [COLON, SPACE], Unlines(EncodedLines(e)[1..]);
    assert Encoding(e) == prefix + e.id + [LF] + after;
    assert forall v :: FieldLine(ID, v) == prefix + v;
    assert IsLine(prefix);
    hide *;
    Assoc(prefix, e.id + [LF], after);
    Assoc(prefix, e.id, [LF]);
    value, more := FirstLine(prefix, e.id + [LF] + after);
  }

  lemma FirstLine(prefix: Bytes, s: Bytes) returns (value: Bytes, more: seq<Bytes>)
    requires IsLine(prefix) && LF in s
    ensures Terminated(prefix + s) == [DropCR(prefix + value)] + more
    ensures IsLine(value) && AllLines(more)
  {
    var i := IndexOf(s, LF);
    value, more := s[..i], Terminated(s[i + 1..]);
    assert i < |s|;
    LineUpTo(s, i);
    assert IsLine(prefix + value);
    hide *;
    SplitAt(s, i);
    Assoc(prefix, value + [LF], s[i + 1..]);
    Assoc(prefix, value, [LF]);
    TerminatedCons(prefix + value, s[i + 1..]);
    TerminatedAreLines(s[i + 1..]);
  }

  lemma LineFeedLost(e: Event, lastID: Bytes)
    requires !IsLine(e.id) || !IsLine(e.name)
    ensures var o := NextEvent(lastID, Terminated(Encoding(e)));
            o.Got? ==> o.event != Canon(e)
  {
    var value, more := EncodingOpens(e);
    var lines := Terminated(Encoding(e));
    FieldLineParsed(ID, value);
    assert lines[0] == DropCR(FieldLine(ID, value));
    var d := Absorb(Start(lastID), lines[0]);
    assert lines[1..] == more;
    assert IsLine(d.event.id);
    ScanKeepsLines(d, lastID, more);
  }

  lemma OneEvent(lastID: Bytes, lines: seq<Bytes>, e: Event)
    ensures Events(lastID, lines) == [e] ==> NextEvent(lastID, lines).Got? && NextEvent(lastID, lines).event == e
    ensures NextEvent(lastID, lines).Got? && NextEvent(lastID, lines).rest == [] ==>
              Events(lastID, lines) == [NextEvent(lastID, lines).event]
  {
    var o := NextEvent(lastID, lines);
    if o.Got? {
      EventsStep(lastID, lines, o.event, o.lastID, o.rest);
      assert Events(lastID, lines)[0] == o.event;
    }
  }

  // The round trip, for every event and every earlier lastID: parsing what
  // Encode printed gives the event back exactly when ID and Name hold no line
  // feed and neither they nor a line of Data end in a carriage return.
  lemma RoundTrip(e: Event, lastID: Bytes, fragments: seq<Fragment>)
    requires Delivers(fragments, Encoding(e))
    ensures Events(lastID, Assemble([], fragments)) == [Canon(e)] <==> Encodable(e)
    ensures Encodable(e) ==> FinalID(lastID, Assemble([], fragments)) == e.id
  {
    assert Encodable(e) ==> DropCR(e.id) == e.id && IsLine(e.id) && IsLine(e.name);
    assert Terminated([]) == [] && FinalID(e.id, []) == e.id;
    hide *;
    var lines := Terminated(Encoding(e));
    FragmentationIrrelevant(lastID, fragments, Encoding(e));
    OneEvent(lastID, lines, Canon(e));
    if IsLine(e.id) && IsLine(e.name) {
      assert Encoding(e) + [] == Encoding(e);
      BlockReceived(e, lastID, []);
      ReceivedIntact(e);
      EventsStep(lastID, lines, Received(e), DropCR(e.id), []);
    } else {
      LineFeedLost(e, lastID);
    }
  }

  // ---- streams ---------------------------------------------------------------------

  predicate AllEncodable(es: seq<Event>) { forall e | e in es :: Encodable(e) }

  function LastID(es: seq<Event>, lastID: Bytes): Bytes {
    if es == [] then lastID else es[|es| - 1].id
  }

  lemma StreamCons(e: Event, es: seq<Event>, lastID: Bytes, rest: Bytes)
    ensures EncodeAll([e] + es) == Encoding(e) + EncodeAll(es)
    ensures EncodeAll([e] + es) + rest == Encoding(e) + (EncodeAll(es) + rest)
    ensures LastID([e] + es, lastID) == LastID(es, e.id)
    ensures AllEncodable([e] + es) <==> Encodable(e) && AllEncodable(es)
  {
    var all := [e] + es;
    assert all[0] == e && all[1..] == es;
    assert forall x :: x in all <==> x == e || x in es;
  }

  lemma {:induction false} StreamReceived(es: seq<Event>, lastID: Bytes, rest: Bytes)
    requires AllEncodable(es)
    ensures Events(lastID, Terminated(EncodeAll(es) + rest))
         == CanonAll(es) + Events(LastID(es, lastID), Terminated(rest))
    decreases |es|, 1
  {
    if es == [] {
      assert EncodeAll(es) + rest == rest;
    } else {
      hide *;
      Uncons(es);
      StreamReceivedStep(es[0], es[1..], lastID, rest);
    }
  }

  lemma {:induction false} StreamReceivedStep(e: Event, es: seq<Event>, lastID: Bytes, rest: Bytes)
    requires AllEncodable([e] + es)
    ensures Events(lastID, Terminated(EncodeAll([e] + es) + rest))
         == CanonAll([e] + es) + Events(LastID([e] + es, lastID), Terminated(rest))
    decreases |es| + 1, 0
  {
    hide *;
    StreamCons(e, es, lastID, rest);
    EncodableReceived(e, lastID, EncodeAll(es) + rest);
    StreamReceived(es, e.id, rest);
    CanonAllCons(e, es);
  }

  lemma CanonAllCons(e: Event, es: seq<Event>)
    ensures CanonAll([e] + es) == [Canon(e)] + CanonAll(es)
  {
  }

  lemma EncodableReceived(e: Event, lastID: Bytes, rest: Bytes)
    requires Encodable(e)
    ensures Events(lastID, Terminated(Encoding(e) + rest)) == [Canon(e)] + Events(e.id, Terminated(rest))
  {
    BlockReceived(e, lastID, rest);
    ReceivedIntact(e);
    EventsStep(lastID, Terminated(Encoding(e) + rest), Received(e), DropCR(e.id), Terminated(rest));
  }

  // Repeated Next over a printed stream returns exactly that stream.
  lemma StreamRoundTrip(es: seq<Event>, lastID: Bytes, fragments: seq<Fragment>)
    requires AllEncodable(es) && Delivers(fragments, EncodeAll(es))
    ensures Events(lastID, Assemble([], fragments)) == CanonAll(es)
  {
    FragmentationIrrelevant(lastID, fragments, EncodeAll(es));
    assert EncodeAll(es) + [] == EncodeAll(es);
    StreamReceived(es, lastID, []);
  }

  lemma {:induction false} NonEmptyLinesUnfinished(d: Draft, lastID: Bytes, lines: seq<Bytes>)
    requires [] !in lines
    ensures Scan(d, lastID, lines).Unfinished?
    decreases |lines|
  {
    if lines != [] {
      assert lines[0] in lines;
      NonEmptyLinesUnfinished(Absorb(d, lines[0]), lastID, lines[1..]);
    }
  }

  lemma DataLinesVisible(pieces: seq<Bytes>)
    ensures [] !in DropCRs(DataLines(pieces))
  {
    forall i | 0 <= i < |pieces| ensures DropCRs(DataLines(pieces))[i] != [] {
      DataLineParsed(pieces[i]);
      hide DataLine, DropCR;
      assert DropCRs(DataLines(pieces))[i] == DropCR(DataLine(pieces[i]));
    }
  }

  lemma HeaderVisible(e: Event)
    ensures [] !in DropCRs(Header(e))
  {
  }

  // The lines of a block before the one that closes it are never empty.
  lemma BodyLines(e: Event)
    requires IsLine(e.id) && IsLine(e.name)
    ensures var body := Header(e) + DataLines(Split(e.data));
            AllLines(body) && [] !in DropCRs(body)
  {
    EncodedLinesAreLines(e);
    HeaderVisible(e);
    DataLinesVisible(Split(e.data));
    DropCRsConcat(Header(e), DataLines(Split(e.data)));
    var body := Header(e) + DataLines(Split(e.data));
    assert EncodedLines(e) == body + [[]];
    hide *;
    assert forall l | l in body :: l in body + [[]];
    AllLinesTake(body, [[]]);
  }

  lemma AllLinesTake(a: seq<Bytes>, b: seq<Bytes>)
    requires AllLines(a + b)
    ensures AllLines(a)
  {
    assert forall l | l in a :: l in a + b;
  }

  lemma PrefixWithout<T>(a: seq<T>, b: seq<T>, x: T)
    requires a <= b && x !in b
    ensures x !in a
  {
  }

  // A block cut anywhere before its last byte completes nothing.
  lemma CutBlock(e: Event, lastID: Bytes, n: nat)
    requires Encodable(e) && n < |Encoding(e)|
    ensures Events(lastID, Terminated(Encoding(e)[..n])) == []
  {
    var body := Header(e) + DataLines(Split(e.data));
    var printed := Unlines(body);
    assert EncodedLines(e) == body + [[]];
    assert IsLine(e.id) && IsLine(e.name);
    assert Terminated([]) == [];
    assert Encoding(e) == Unlines(body + [[]]);
    BodyLines(e);
    UnlinesSnoc(body, []);
    TerminatedUnlines(body, []);
    CutFirst(printed, [LF], n);
    assert printed + [] == printed;
    TerminatedPrefix(printed, n);
    assert DropCRs(body) + [] == DropCRs(body);
    PrefixWithout(Terminated(printed[..n]), DropCRs(body), []);
    NonEmptyLinesUnfinished(Start(lastID), lastID, Terminated(printed[..n]));
  }

  // The number of blocks that lie wholly within the first n bytes.
  function WholeBlocks(es: seq<Event>, n: nat): (k: nat)
    ensures k <= |es|
  {
    if es == [] || n < |Encoding(es[0])| then 0
    else 1 + WholeBlocks(es[1..], n - |Encoding(es[0])|)
  }

  // What a cut stream should yield.
  function WholeEvents(es: seq<Event>, n: nat): seq<Event> {
    CanonAll(es[..WholeBlocks(es, n)])
  }

  lemma WholeEventsCons(e: Event, es: seq<Event>, n: nat)
    ensures n < |Encoding(e)| ==> WholeEvents([e] + es, n) == []
    ensures n >= |Encoding(e)| ==> WholeEvents([e] + es, n) == [Canon(e)] + WholeEvents(es, n - |Encoding(e)|)
  {
    assert ([e] + es)[1..] == es;
    if n >= |Encoding(e)| {
      var w := WholeBlocks(es, n - |Encoding(e)|);
      assert ([e] + es)[..1 + w] == [e] + es[..w];
      CanonAllCons(e, es[..w]);
    }
  }

  lemma {:induction false} CutEvents(es: seq<Event>, lastID: Bytes, n: nat)
    requires AllEncodable(es) && n <= |EncodeAll(es)|
    ensures Events(lastID, Terminated(EncodeAll(es)[..n])) == WholeEvents(es, n)
    decreases |es|, 1
  {
    if es == [] {
      assert EncodeAll(es)[..n] == [];
    } else {
      hide *;
      Uncons(es);
      CutEventsStep(es[0], es[1..], lastID, n);
    }
  }

  lemma {:induction false} CutEventsStep(e: Event, es: seq<Event>, lastID: Bytes, n: nat)
    requires AllEncodable([e] + es) && n <= |EncodeAll([e] + es)|
    ensures Events(lastID, Terminated(EncodeAll([e] + es)[..n])) == WholeEvents([e] + es, n)
    decreases |es| + 1, 0
  {
    hide *;
    StreamCons(e, es, lastID, []);
    WholeEventsCons(e, es, n);
    var a, b, k := Encoding(e), EncodeAll(es), |Encoding(e)|;
    if n < k {
      CutFirst(a, b, n);
      CutBlock(e, lastID, n);
    } else {
      CutLater(a, b, n);
      EncodableReceived(e, lastID, b[..n - k]);
      CutEvents(es, e.id, n - k);
    }
  }

  lemma CutFirst(a: Bytes, b: Bytes, n: nat)
    requires n <= |a|
    ensures (a + b)[..n] == a[..n]
  {
  }

  lemma CutLater(a: Bytes, b: Bytes, n: nat)
    requires |a| <= n <= |a| + |b|
    ensures (a + b)[..n] == a + b[..n - |a|]
  {
  }

  // A printed stream cut at any byte and fragmented in any way yields exactly
  // the events whose blocks arrived whole.
  lemma CutStream(es: seq<Event>, lastID: Bytes, n: nat, fragments: seq<Fragment>)
    requires AllEncodable(es) && n <= |EncodeAll(es)|
    requires Delivers(fragments, EncodeAll(es)[..n])
    ensures Events(lastID, Assemble([], fragments)) == CanonAll(es[..WholeBlocks(es, n)])
  {
    FragmentationIrrelevant(lastID, fragments, EncodeAll(es)[..n]);
    CutEvents(es, lastID, n);
  }
}
