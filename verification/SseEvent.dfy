// internal/sse/event.go: one event and its two printers.
module SseEvent {
  import opened Sequences
  import opened SseText

  // Retry is a time.Duration, so it counts nanoseconds.
  datatype Event = Event(id: Bytes, name: Bytes, data: Bytes, retry: int64)

  const EMPTY: Event := Event([], [], [], 0)

  const NANOS_PER_MILLI: int := 1_000_000

  const ID: Bytes := [105, 100]                    // id
  const EVENT: Bytes := [101, 118, 101, 110, 116]  // event
  const DATA: Bytes := [100, 97, 116, 97]          // data
  const RETRY: Bytes := [114, 101, 116, 114, 121]  // retry

  // A field line without its terminator: name, colon, space, value.
  function FieldLine(field: Bytes, value: Bytes): Bytes {
    field + [COLON, SPACE] + value
  }

  // Retry/1000/1000, with both divisions truncating as Go's do.
  function RetryMillis(retry: int64): int {
    Quo(Quo(retry, 1000), 1000)
  }

  function DataLine(piece: Bytes): Bytes {
    if piece == [] then DATA else FieldLine(DATA, piece)
  }

  function DataLines(pieces: seq<Bytes>): seq<Bytes> {
    seq(|pieces|, i requires 0 <= i < |pieces| => DataLine(pieces[i]))
  }

  function Header(e: Event): seq<Bytes> {
    [FieldLine(ID, e.id), FieldLine(EVENT, e.name)]
    + if e.retry != 0 then [FieldLine(RETRY, Itoa(RetryMillis(e.retry)))] else []
  }

  function EncodedLines(e: Event): seq<Bytes> {
    Header(e) + DataLines(Split(e.data)) + [[]]
  }

  // The block of text that stands for e on the wire.
  function Encoding(e: Event): Bytes {
    Unlines(EncodedLines(e))
  }

  // The wire form of a whole stream.
  function EncodeAll(es: seq<Event>): Bytes {
    if es == [] then [] else Encoding(es[0]) + EncodeAll(es[1..])
  }

  lemma {:induction false} EncodeAllConcat(a: seq<Event>, b: seq<Event>)
    ensures EncodeAll(a + b) == EncodeAll(a) + EncodeAll(b)
  {
    if a == [] {
      assert a + b == b;
    } else {
      calc {
        EncodeAll(a + b);
        { assert (a + b)[0] == a[0] && (a + b)[1..] == a[1..] + b; }
        Encoding(a[0]) + EncodeAll(a[1..] + b);
        { EncodeAllConcat(a[1..], b); }
        Encoding(a[0]) + (EncodeAll(a[1..]) + EncodeAll(b));
        (Encoding(a[0]) + EncodeAll(a[1..])) + EncodeAll(b);
      }
    }
  }

  // Appending one more line to a partly printed block.
  lemma UnlinesSnoc(ls: seq<Bytes>, l: Bytes)
    ensures Unlines(ls + [l]) == Unlines(ls) + l + [LF]
  {
    UnlinesConcat(ls, [l]);
    assert Unlines([l]) == l + [LF];
  }

  lemma DataLinesTake(pieces: seq<Bytes>, n: nat)
    requires n < |pieces|
    ensures DataLines(pieces[..n + 1]) == DataLines(pieces[..n]) + [DataLine(pieces[n])]
  {
  }

  lemma TwoLines(a: Bytes, b: Bytes)
    ensures Unlines([a, b]) == a + [LF] + b + [LF]
  {
    UnlinesSnoc([], a);
    UnlinesSnoc([a], b);
    assert [] + [a] == [a] && [a] + [b] == [a, b];
  }

  method Encode(e: Event) returns (enc: Bytes)
    ensures enc == Encoding(e)
  {
    ghost var done := [FieldLine(ID, e.id), FieldLine(EVENT, e.name)];
    enc := FieldLine(ID, e.id) + [LF] + FieldLine(EVENT, e.name) + [LF];
    TwoLines(FieldLine(ID, e.id), FieldLine(EVENT, e.name));
    if e.retry != 0 {
      enc := enc + FieldLine(RETRY, Itoa(RetryMillis(e.retry))) + [LF];
      UnlinesSnoc(done, FieldLine(RETRY, Itoa(RetryMillis(e.retry))));
    }
    var pieces := Split(e.data);
    assert Header(e) + DataLines(pieces[..0]) == Header(e);
    for i := 0 to |pieces|
      invariant enc == Unlines(Header(e) + DataLines(pieces[..i]))
    {
      var line := pieces[i];
      UnlinesSnoc(Header(e) + DataLines(pieces[..i]), DataLine(line));
      DataLinesTake(pieces, i);
      assert Header(e) + DataLines(pieces[..i + 1]) == Header(e) + DataLines(pieces[..i]) + [DataLine(line)];
      if |line| == 0 {
        enc := enc + DATA + [LF];
      } else {
        enc := enc + FieldLine(DATA, line) + [LF];
      }
    }
    assert pieces[..|pieces|] == pieces;
    UnlinesSnoc(Header(e) + DataLines(pieces), []);
    enc := enc + [LF];
  }

  // An io.Writer. The plan says how its coming calls end: Accepts for a call that
  // takes everything, Keeps(n) for one that keeps at most n bytes and fails.
  // A writer whose plan has run out accepts everything.
  class Destination {
    var contents: Bytes
    var plan: seq<Limit>

    constructor (plan: seq<Limit>)
      ensures contents == [] && this.plan == plan
    {
      contents, this.plan := [], plan;
    }

    method Fprintf(text: Bytes) returns (ok: bool)
      modifies this
      ensures ok == (old(plan) == [] || old(plan)[0].Accepts?)
      ensures plan == if old(plan) == [] then [] else old(plan)[1..]
      ensures ok ==> contents == old(contents) + text
      ensures !ok ==> exists n: nat :: n <= |text| && contents == old(contents) + text[..n]
    {
      ok := true;
      var kept := text;
      if plan != [] {
        if plan[0].Keeps? {
          ok := false;
          var n := if plan[0].count < |text| then plan[0].count else |text|;
          kept := text[..n];
        }
        plan := plan[1..];
      }
      contents := contents + kept;
    }
  }

  datatype Limit = Accepts | Keeps(count: nat)

  predicate Healthy(plan: seq<Limit>) { forall l | l in plan :: l.Accepts? }

  // What one failed or finished printing may leave behind, given the lines
  // printed in full before it.
  ghost predicate Printed(before: Bytes, after: Bytes, block: Bytes, ok: bool) {
    && before <= after
    && after <= before + block
    && (ok ==> after == before + block)
  }

  lemma UnlinesParts(ls: seq<Bytes>, n: nat)
    requires n < |ls|
    ensures Unlines(ls[..n + 1]) == Unlines(ls[..n]) + ls[n] + [LF]
    ensures Unlines(ls) == Unlines(ls[..n + 1]) + Unlines(ls[n + 1..])
  {
    hide *;
    TakeSnoc(ls, n);
    UnlinesSnoc(ls[..n], ls[n]);
    TakeDrop(ls, n + 1);
    UnlinesConcat(ls[..n + 1], ls[n + 1..]);
  }

  lemma KeptPrefix(before: Bytes, done: Bytes, line: Bytes, kept: Bytes, upTo: Bytes, rest: Bytes, whole: Bytes)
    requires kept <= line + [LF]
    requires upTo == done + line + [LF] && whole == upTo + rest
    ensures before + done + kept <= before + whole
    ensures before + done + (line + [LF]) == before + upTo
  {
    assert before + whole == before + done + (line + [LF]) + rest;
  }

  // One print call inside a block keeps the output within the block.
  lemma PrintStep(before: Bytes, ls: seq<Bytes>, n: nat, kept: Bytes)
    requires n < |ls|
    requires kept <= ls[n] + [LF]
    ensures before + Unlines(ls[..n]) + kept <= before + Unlines(ls)
    ensures before + Unlines(ls[..n]) + (ls[n] + [LF]) == before + Unlines(ls[..n + 1])
  {
    UnlinesParts(ls, n);
    KeptPrefix(before, Unlines(ls[..n]), ls[n], kept, Unlines(ls[..n + 1]), Unlines(ls[n + 1..]), Unlines(ls));
  }

  // Where the lines of a block stand.
  lemma EncodedLinesAt(e: Event)
    ensures var ls, pieces, h := EncodedLines(e), Split(e.data), |Header(e)|;
            && |ls| == h + |pieces| + 1
            && h == (if e.retry != 0 then 3 else 2)
            && ls[0] == FieldLine(ID, e.id)
            && ls[1] == FieldLine(EVENT, e.name)
            && (e.retry != 0 ==> ls[2] == FieldLine(RETRY, Itoa(RetryMillis(e.retry))))
            && (forall i :: 0 <= i < |pieces| ==> ls[h + i] == DataLine(pieces[i]))
            && ls[h + |pieces|] == []
  {
  }

  // Prints one line of the block, in the order the block lists them.
  method PrintLine(destination: Destination, line: Bytes, ghost before: Bytes, ghost ls: seq<Bytes>, ghost n: nat)
    returns (ok: bool)
    requires n < |ls| && line == ls[n]
    requires destination.contents == before + Unlines(ls[..n])
    modifies destination
    ensures before <= destination.contents <= before + Unlines(ls)
    ensures ok ==> destination.contents == before + Unlines(ls[..n + 1])
    ensures Healthy(old(destination.plan)) ==> ok && Healthy(destination.plan)
    ensures !ok ==> !Healthy(old(destination.plan))
  {
    ghost var start := destination.contents;
    ok := destination.Fprintf(line + [LF]);
    if ok {
      PrintStep(before, ls, n, line + [LF]);
    } else {
      ghost var k: nat :| k <= |line + [LF]| && destination.contents == start + (line + [LF])[..k];
      PrintStep(before, ls, n, (line + [LF])[..k]);
    }
  }

  // Event.Write. On success exactly Encoding(e) has been emitted, on failure a
  // prefix of it; a destination that never fails makes it succeed.
  method Write(e: Event, destination: Destination) returns (ok: bool)
    modifies destination
    ensures Printed(old(destination.contents), destination.contents, Encoding(e), ok)
    ensures Healthy(old(destination.plan)) ==> ok
  {
    ghost var before := destination.contents;
    ghost var ls := EncodedLines(e);
    var pieces := Split(e.data);
    EncodedLinesAt(e);
    assert before + Unlines(ls[..0]) == before;
    ok := PrintLine(destination, FieldLine(ID, e.id), before, ls, 0);
    if !ok { return; }
    ok := PrintLine(destination, FieldLine(EVENT, e.name), before, ls, 1);
    if !ok { return; }
    if e.retry != 0 {
      ok := PrintLine(destination, FieldLine(RETRY, Itoa(RetryMillis(e.retry))), before, ls, 2);
      if !ok { return; }
    }
    ok := WriteData(destination, pieces, before, ls, |Header(e)|);
    if !ok { return; }
    ok := PrintLine(destination, [], before, ls, |ls| - 1);
    assert ls[..|ls|] == ls;
  }

  // The loop of Event.Write over the lines of the data.
  method WriteData(destination: Destination, pieces: seq<Bytes>, ghost before: Bytes, ghost ls: seq<Bytes>,
                   ghost h: nat)
    returns (ok: bool)
    requires h + |pieces| < |ls|
    requires forall i :: 0 <= i < |pieces| ==> ls[h + i] == DataLine(pieces[i])
    requires destination.contents == before + Unlines(ls[..h])
    modifies destination
    ensures before <= destination.contents <= before + Unlines(ls)
    ensures ok ==> destination.contents == before + Unlines(ls[..h + |pieces|])
    ensures Healthy(old(destination.plan)) ==> ok && Healthy(destination.plan)
  {
    PrintStep(before, ls, h, []);
    for i := 0 to |pieces|
      invariant before <= destination.contents <= before + Unlines(ls)
      invariant destination.contents == before + Unlines(ls[..h + i])
      invariant Healthy(old(destination.plan)) ==> Healthy(destination.plan)
    {
      if |pieces[i]| == 0 {
        ok := PrintLine(destination, DATA, before, ls, h + i);
      } else {
        ok := PrintLine(destination, FieldLine(DATA, pieces[i]), before, ls, h + i);
      }
      if !ok { return; }
    }
    ok := true;
  }
}
