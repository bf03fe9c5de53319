// Bytes, lines and decimal numbers as the event stream format sees them.
module SseText {
  import opened Options
  import opened Sequences

  newtype byte = x: int | 0 <= x < 256

  type Bytes = seq<byte>

  // Go's int64, the type behind time.Duration and (on the 64-bit targets modelled here) int.
  const TWO_63: int := 0x8000_0000_0000_0000
  type int64 = x: int | -TWO_63 <= x < TWO_63

  const LF: byte := 10
  const CR: byte := 13
  const SPACE: byte := 32
  const PLUS: byte := 43
  const MINUS: byte := 45
  const ZERO: byte := 48
  const COLON: byte := 58

  // Two's complement wrap-around of a product that leaves int64.
  function Wrap(x: int): int64 {
    (x + TWO_63) % (2 * TWO_63) - TWO_63
  }

  lemma WrapInRange(x: int)
    requires -TWO_63 <= x < TWO_63
    ensures Wrap(x) == x
  {
  }

  // It keeps the value modulo 2^64.
  lemma WrapCongruent(x: int)
    ensures (x - Wrap(x)) % 0x1_0000_0000_0000_0000 == 0
  {
  }

  // Go's integer division truncates toward zero.
  function Quo(a: int, b: int): int
    requires b > 0
  {
    if a >= 0 then a / b else -((-a) / b)
  }

  // ---- searching and splitting --------------------------------------------

  // Position of the first b in s, or |s|.
  function IndexOf(s: Bytes, b: byte): (i: nat)
    ensures i <= |s|
    ensures forall k :: 0 <= k < i ==> s[k] != b
    ensures i < |s| ==> s[i] == b
  {
    if s == [] || s[0] == b then 0 else 1 + IndexOf(s[1..], b)
  }

  predicate IsLine(s: Bytes) { LF !in s }

  predicate AllLines(ls: seq<Bytes>) { forall l | l in ls :: IsLine(l) }

  lemma IndexOfAt(l: Bytes, b: byte, rest: Bytes)
    requires b !in l
    ensures IndexOf(l + [b] + rest, b) == |l|
    ensures IndexOf(l, b) == |l|
  {
    var s := l + [b] + rest;
    assert forall k :: 0 <= k < |l| ==> s[k] == l[k];
    assert s[|l|] == b;
  }

  // bytes.Split(s, "\n"): one piece more than there are separators.
  function Split(s: Bytes): (pieces: seq<Bytes>)
    ensures |pieces| >= 1
    ensures AllLines(pieces)
  {
    var i := IndexOf(s, LF);
    if i == |s| then
      [s]
    else [s[..i]] + Split(s[i + 1..])
  }

  // Concatenation with a separator between neighbours.
  function Join(pieces: seq<Bytes>): Bytes
    requires |pieces| >= 1
  {
    if |pieces| == 1 then pieces[0] else pieces[0] + [LF] + Join(pieces[1..])
  }

  lemma JoinCons(piece: Bytes, pieces: seq<Bytes>)
    requires |pieces| >= 1
    ensures Join([piece] + pieces) == piece + [LF] + Join(pieces)
  {
    assert ([piece] + pieces)[1..] == pieces;
  }

  lemma {:induction false} JoinSplit(s: Bytes)
    ensures Join(Split(s)) == s
  {
    var i := IndexOf(s, LF);
    if i < |s| {
      SplitAt(s, i);
      assert Split(s) == [s[..i]] + Split(s[i + 1..]);
      hide Split, IndexOf;
      JoinCons(s[..i], Split(s[i + 1..]));
      JoinSplit(s[i + 1..]);
    }
  }

  // Every line followed by a line feed.
  function Unlines(ls: seq<Bytes>): Bytes {
    if ls == [] then [] else ls[0] + [LF] + Unlines(ls[1..])
  }

  lemma UnlinesCons(l: Bytes, ls: seq<Bytes>)
    ensures Unlines([l] + ls) == l + [LF] + Unlines(ls)
  {
    assert ([l] + ls)[1..] == ls;
  }

  lemma {:induction false} UnlinesConcat(a: seq<Bytes>, b: seq<Bytes>)
    ensures Unlines(a + b) == Unlines(a) + Unlines(b)
    decreases |a|
  {
    if a == [] {
      assert a + b == b;
    } else {
      hide *;
      var l, a' := a[0], a[1..];
      assert a == [l] + a';
      UnlinesCons(l, a');
      UnlinesCons(l, a' + b);
      UnlinesConcat(a', b);
      Assoc([l], a', b);
      Assoc(l + [LF], Unlines(a'), Unlines(b));
    }
  }

  // ---- lines as bufio.ReadLine reports them -------------------------------

  // ReadLine removes "\n" or "\r\n"; the "\n" is already gone here.
  function DropCR(line: Bytes): Bytes {
    if line != [] && line[|line| - 1] == CR then line[..|line| - 1] else line
  }

  function DropCRs(ls: seq<Bytes>): seq<Bytes> {
    seq(|ls|, i requires 0 <= i < |ls| => DropCR(ls[i]))
  }

  // The lines of s that are closed by a line feed.
  function Terminated(s: Bytes): seq<Bytes> {
    var i := IndexOf(s, LF);
    if i == |s| then [] else [DropCR(s[..i])] + Terminated(s[i + 1..])
  }

  // What follows the last line feed.
  function Tail(s: Bytes): Bytes {
    var i := IndexOf(s, LF);
    if i == |s| then s else Tail(s[i + 1..])
  }

  lemma TerminatedCons(l: Bytes, rest: Bytes)
    requires IsLine(l)
    ensures Terminated(l + [LF] + rest) == [DropCR(l)] + Terminated(rest)
  {
    var s := l + [LF] + rest;
    IndexOfAt(l, LF, rest);
    assert s[..|l|] == l;
    assert s[|l| + 1..] == rest;
  }

  lemma DropCRsCons(l: Bytes, ls: seq<Bytes>)
    ensures DropCRs([l] + ls) == [DropCR(l)] + DropCRs(ls)
  {
  }

  lemma {:induction false} TerminatedUnlines(ls: seq<Bytes>, rest: Bytes)
    requires AllLines(ls)
    ensures Terminated(Unlines(ls) + rest) == DropCRs(ls) + Terminated(rest)
  {
    if ls == [] {
      assert Unlines(ls) + rest == rest;
    } else {
      var l, more := ls[0], ls[1..];
      assert ls == [l] + more;
      assert l in ls && AllLines(more);
      calc {
        Terminated(Unlines(ls) + rest);
        { assert Unlines(ls) + rest == l + [LF] + (Unlines(more) + rest); }
        Terminated(l + [LF] + (Unlines(more) + rest));
        { TerminatedCons(l, Unlines(more) + rest); }
        [DropCR(l)] + Terminated(Unlines(more) + rest);
        { TerminatedUnlines(more, rest); }
        [DropCR(l)] + (DropCRs(more) + Terminated(rest));
        { DropCRsCons(l, more); }
        DropCRs(ls) + Terminated(rest);
      }
    }
  }

  lemma Unterminated(s: Bytes)
    requires IsLine(s)
    ensures Terminated(s) == []
  {
  }

  lemma LineUpTo(s: Bytes, n: nat)
    requires n <= IndexOf(s, LF)
    ensures IsLine(s[..n])
  {
  }

  // Cutting a stream anywhere keeps a prefix of its closed lines.
  lemma {:induction false} TerminatedPrefix(s: Bytes, n: nat)
    requires n <= |s|
    ensures Terminated(s[..n]) <= Terminated(s)
    decreases |s|
  {
    hide *;
    var i := IndexOf(s, LF);
    if i < n {
      LineUpTo(s, i);
      SplitAt(s, i);
      CutAfter(s, i, n);
      TerminatedCons(s[..i], s[i + 1..]);
      TerminatedCons(s[..i], s[i + 1..][..n - i - 1]);
      TerminatedPrefix(s[i + 1..], n - i - 1);
    } else {
      LineUpTo(s, n);
      Unterminated(s[..n]);
    }
  }

  // A terminated line never holds a line feed.
  lemma {:induction false} TerminatedAreLines(s: Bytes)
    ensures AllLines(Terminated(s))
  {
    var i := IndexOf(s, LF);
    if i < |s| {
      TerminatedAreLines(s[i + 1..]);
      assert IsLine(DropCR(s[..i]));
    }
  }

  // ---- decimal numbers -----------------------------------------------------

  predicate IsDigit(b: byte) { ZERO <= b <= 57 }

  predicate AllDigits(s: Bytes) { forall b | b in s :: IsDigit(b) }

  function Digits(n: nat): Bytes {
    if n < 10 then [ZERO + n as byte] else Digits(n / 10) + [ZERO + (n % 10) as byte]
  }

  // fmt's %d.
  function Itoa(n: int): Bytes {
    if n < 0 then [MINUS] + Digits(-n) else Digits(n)
  }

  function Value(s: Bytes): nat
    requires AllDigits(s)
  {
    if s == [] then 0 else
      assert s[|s| - 1] in s;
      10 * Value(s[..|s| - 1]) + (s[|s| - 1] - ZERO) as int
  }

  // strconv.Atoi: an optional sign, at least one digit, nothing else, and in range.
  function Atoi(s: Bytes): (r: Option<int64>) {
    var signed := s != [] && (s[0] == MINUS || s[0] == PLUS);
    var digits := if signed then s[1..] else s;
    if digits == [] || !AllDigits(digits) then None
    else
      var n: int := Value(digits);
      var v := if signed && s[0] == MINUS then -n else n;
      if -TWO_63 <= v < TWO_63 then Some(v) else None
  }

  lemma {:induction false} DigitsValue(n: nat)
    ensures AllDigits(Digits(n))
    ensures Digits(n) != []
    ensures Value(Digits(n)) == n
  {
    if n >= 10 {
      DigitsValue(n / 10);
      var d := Digits(n);
      assert d[..|d| - 1] == Digits(n / 10);
    } else {
      var d := Digits(n);
      assert d[..0] == [];
    }
  }

  lemma AtoiItoa(n: int64)
    ensures Atoi(Itoa(n)) == Some(n)
  {
    var m: int := if n < 0 then -(n as int) else n;
    DigitsValue(m);
    var d := Digits(m);
    assert d[0] in d;
    if n < 0 {
      assert Itoa(n)[1..] == d;
    }
  }

  function Pow10(n: nat): nat { if n == 0 then 1 else 10 * Pow10(n - 1) }

  // The number a string of digits stands for, digit by digit from the left.
  function Decimal(s: Bytes): nat
    requires AllDigits(s)
  {
    if s == [] then 0
    else
      assert s[0] in s;
      (s[0] - ZERO) as int * Pow10(|s| - 1) + Decimal(s[1..])
  }

  lemma TenTimes(h: int, n: nat)
    ensures h * Pow10(n + 1) == 10 * (h * Pow10(n))
  {
  }

  lemma {:induction false} DecimalSnoc(s: Bytes, b: byte)
    requires AllDigits(s) && IsDigit(b)
    ensures AllDigits(s + [b]) && Decimal(s + [b]) == 10 * Decimal(s) + (b - ZERO) as int
    decreases |s|
  {
    if s == [] {
      assert [b][1..] == [];
    } else {
      var rest := s[1..];
      assert s[0] in s && forall x | x in rest :: x in s;
      assert (s + [b])[1..] == rest + [b] && (s + [b])[0] == s[0];
      DecimalSnoc(rest, b);
      assert AllDigits(s + [b]);
      var h: int, n := (s[0] - ZERO) as int, |rest|;
      assert Decimal(s + [b]) == h * Pow10(n + 1) + Decimal(rest + [b]);
      assert Decimal(s) == h * Pow10(n) + Decimal(rest);
      hide *;
      TenTimes(h, n);
    }
  }

  lemma {:induction false} ValueIsDecimal(s: Bytes)
    requires AllDigits(s)
    ensures Value(s) == Decimal(s)
    decreases |s|
  {
    if s != [] {
      var rest, b := s[..|s| - 1], s[|s| - 1];
      assert s == rest + [b] && b in s;
      ValueIsDecimal(rest);
      DecimalSnoc(rest, b);
    }
  }

  // s is digits, with a sign or without, that stand for n.
  ghost predicate Numeral(s: Bytes, n: int) {
    exists d: Bytes :: d != [] && AllDigits(d) && SignedBy(s, d, n)
  }

  predicate SignedBy(s: Bytes, d: Bytes, n: int)
    requires AllDigits(d)
  {
    var m: int := Decimal(d);
    (s == d && n == m) || (s == [PLUS] + d && n == m) || (s == [MINUS] + d && n == -m)
  }

  // Atoi accepts exactly the numerals of int64.
  lemma AtoiExactly(s: Bytes, n: int64)
    ensures Atoi(s) == Some(n) <==> Numeral(s, n)
  {
    if Atoi(s) == Some(n) {
      var d := if s[0] == MINUS || s[0] == PLUS then s[1..] else s;
      ValueIsDecimal(d);
      assert s == d || s == [s[0]] + d;
      assert SignedBy(s, d, n);
    }
    if Numeral(s, n) {
      var d: Bytes :| d != [] && AllDigits(d) && SignedBy(s, d, n);
      ValueIsDecimal(d);
      assert d[0] in d && IsDigit(d[0]);
      assert s != d ==> s[1..] == d;
    }
  }

  // A printed number has no byte a line could end on.
  lemma ItoaIsLine(n: int)
    ensures IsLine(Itoa(n))
    ensures CR !in Itoa(n)
  {
    DigitsValue(if n < 0 then -n else n);
  }
}
