/**
 The text log's record lines: nothing inside one event may begin a line of its own
 (apps/ferrofin-server/src/log_lines.rs).
 */
module LogLines {

  newtype Byte = x: int | 0 <= x < 256

  const LF: Byte := 10
  const CR: Byte := 13
  const SPACE: Byte := 32
  const BACKSLASH: Byte := 92
  const LETTER_R: Byte := 114

  /** What an interior line feed becomes. */
  const CONTINUATION: seq<Byte> := [LF, SPACE, SPACE, SPACE, SPACE]

  // ----- neutralize ------------------------------------------------------------------------------

  predicate Ended(event: seq<Byte>) { |event| > 0 && event[|event| - 1] == LF }

  /** The event without its final line feed. */
  function Body(event: seq<Byte>): seq<Byte> { if Ended(event) then event[..|event| - 1] else event }

  function EscapedByte(b: Byte): seq<Byte> {
    if b == LF then CONTINUATION else if b == CR then [BACKSLASH, LETTER_R] else [b]
  }

  function Escaped(body: seq<Byte>): seq<Byte> {
    if body == [] then [] else EscapedByte(body[0]) + Escaped(body[1..])
  }

  function Neutralized(event: seq<Byte>): seq<Byte> {
    Escaped(Body(event)) + if Ended(event) then [LF] else []
  }

  predicate Breaks(body: seq<Byte>) { exists i :: 0 <= i < |body| && (body[i] == LF || body[i] == CR) }

  lemma {:induction false} EscapedPlain(body: seq<Byte>)
    requires !Breaks(body)
    ensures Escaped(body) == body
  {
    if body != [] {
      EscapedPlain(body[1..]);
      assert body == [body[0]] + body[1..];
    }
  }

  lemma EscapedStep(body: seq<Byte>, i: nat, done: seq<Byte>, out: seq<Byte>)
    requires i < |body| && out == done + EscapedByte(body[i])
    ensures out + Escaped(body[i + 1..]) == done + Escaped(body[i..])
  {
    assert body[i..][1..] == body[i + 1..];
  }

  /** One event as written; `borrowed` when it is passed on without a copy. */
  method Neutralize(event: seq<Byte>) returns (out: seq<Byte>, borrowed: bool)
    ensures out == Neutralized(event)
    ensures borrowed <==> !Breaks(Body(event))
    ensures borrowed ==> out == event
  {
    var body := Body(event);
    if !Breaks(body) {
      EscapedPlain(body);
      return event, true;
    }
    out := [];
    for i := 0 to |body|
      invariant out + Escaped(body[i..]) == Escaped(body)
    {
      var byte := body[i];
      ghost var done := out;
      if byte == LF {
        out := out + CONTINUATION;
      } else if byte == CR {
        out := out + [BACKSLASH, LETTER_R];
      } else {
        out := out + [byte];
      }
      EscapedStep(body, i, done, out);
    }
    assert body[|body|..] == [] && out + [] == out;
    if |body| < |event| {
      out := out + [LF];
    }
    borrowed := false;
  }

  /** The writer over a sink: each write is one event. */
  class RecordLinesWriter {
    var sink: seq<Byte>

    constructor ()
      ensures sink == []
    {
      sink := [];
    }

    /** Reports the input consumed, not the longer output. */
    method Write(buf: seq<Byte>) returns (n: nat)
      modifies this
      ensures sink == old(sink) + Neutralized(buf) && n == |buf|
    {
      var out, borrowed := Neutralize(buf);
      sink := sink + out;
      n := |buf|;
    }

    /** A run of the log: all events, in order. */
    method WriteAll(events: seq<seq<Byte>>)
      modifies this
      ensures sink == old(sink) + Written(events)
    {
      for i := 0 to |events|
        invariant sink == old(sink) + Written(events[..i])
      {
        var n := Write(events[i]);
        WrittenStep(events, i);
        Associative(old(sink), Written(events[..i]), Neutralized(events[i]));
      }
      assert events[..|events|] == events;
    }
  }

  function Written(events: seq<seq<Byte>>): seq<Byte> {
    if events == [] then [] else Written(events[..|events| - 1]) + Neutralized(events[|events| - 1])
  }

  lemma WrittenStep(events: seq<seq<Byte>>, i: nat)
    requires i < |events|
    ensures Written(events[..i + 1]) == Written(events[..i]) + Neutralized(events[i])
  {
    assert events[..i + 1][..i] == events[..i];
  }

  /** No carriage return is ever written. */
  lemma {:induction false} NoCarriageReturn(body: seq<Byte>)
    ensures CR !in Escaped(body)
  {
    if body != [] { NoCarriageReturn(body[1..]); }
  }

  lemma NeutralizedNoCarriageReturn(event: seq<Byte>)
    ensures CR !in Neutralized(event)
  {
    NoCarriageReturn(Body(event));
  }

  // ----- reading the log back -------------------------------------------------------------------------

  predicate Indented(s: seq<Byte>) {
    |s| >= 4 && s[0] == SPACE && s[1] == SPACE && s[2] == SPACE && s[3] == SPACE
  }

  /** Length of the first line, its line feed included. */
  function LineLength(s: seq<Byte>): (n: nat)
    ensures n <= |s| && (s != [] ==> n > 0)
  {
    if s == [] then 0 else if s[0] == LF then 1 else 1 + LineLength(s[1..])
  }

  function Lines(s: seq<Byte>): seq<seq<Byte>>
    decreases |s|
  {
    if s == [] then [] else [s[..LineLength(s)]] + Lines(s[LineLength(s)..])
  }

  /** A record is a line with the indented lines after it. */
  function Gathered(lines: seq<seq<Byte>>): (r: seq<seq<Byte>>)
    ensures lines != [] ==> r != []
  {
    if lines == [] then []
    else
      Attach(lines[0], |lines| > 1 && Indented(lines[1]), Gathered(lines[1..]))
  }

  /** A line before the records that follow: part of the first of them, or a record of its own. */
  function Attach(line: seq<Byte>, joins: bool, records: seq<seq<Byte>>): (r: seq<seq<Byte>>)
    ensures r != []
  {
    if joins && records != [] then [line + records[0]] + records[1..] else [line] + records
  }

  lemma AttachConcat(line: seq<Byte>, joins: bool, a: seq<seq<Byte>>, b: seq<seq<Byte>>)
    requires a != []
    ensures Attach(line, joins, a + b) == Attach(line, joins, a) + b
  {
  }

  function Records(log: seq<Byte>): seq<seq<Byte>> { Gathered(Lines(log)) }

  // ----- lines of concatenated text ------------------------------------------------------------------

  lemma {:induction false} FirstLineOf(a: seq<Byte>, b: seq<Byte>)
    requires LF in a
    ensures LineLength(a + b) == LineLength(a) <= |a| && a[LineLength(a) - 1] == LF
  {
    if a[0] != LF {
      assert a == [a[0]] + a[1..];
      FirstLineOf(a[1..], b);
      assert (a + b)[1..] == a[1..] + b;
    }
  }

  lemma SlicesOf<T>(a: seq<T>, b: seq<T>, n: nat)
    requires n <= |a|
    ensures (a + b)[..n] == a[..n] && (a + b)[n..] == a[n..] + b
  {
  }

  lemma Associative<T>(a: seq<T>, b: seq<T>, c: seq<T>)
    ensures (a + b) + c == a + (b + c)
  {
  }

  lemma LinesStep(s: seq<Byte>, n: nat, head: seq<Byte>, rest: seq<Byte>)
    requires s != [] && LineLength(s) == n && s[..n] == head && s[n..] == rest
    ensures Lines(s) == [head] + Lines(rest)
  {
  }

  /** Text that ends its last line splits on its own. */
  lemma {:induction false} LinesConcat(a: seq<Byte>, b: seq<Byte>)
    requires Ended(a)
    ensures Lines(a + b) == Lines(a) + Lines(b)
    decreases |a|
  {
    FirstLineOf(a, b);
    var n := LineLength(a);
    var head, rest := a[..n], a[n..];
    LinesStep(a, n, head, rest);
    SlicesOf(a, b, n);
    LinesStep(a + b, n, head, rest + b);
    if rest == [] {
      assert rest + b == b;
    } else {
      LinesConcat(rest, b);
    }
    Associative([head], Lines(rest), Lines(b));
  }

  lemma {:induction false} NoFeedLength(p: seq<Byte>, s: seq<Byte>)
    requires LF !in p
    ensures LineLength(p + s) == |p| + LineLength(s)
  {
    if p == [] {
      assert p + s == s;
    } else {
      NoFeedLength(p[1..], s);
      assert (p + s)[1..] == p[1..] + s;
    }
  }

  /** Text without a line feed joins the first line after it. */
  lemma LinesPrefixed(p: seq<Byte>, s: seq<Byte>)
    requires LF !in p && s != []
    ensures Lines(s) != [] && Lines(p + s) == [p + Lines(s)[0]] + Lines(s)[1..]
  {
    NoFeedLength(p, s);
    var n := LineLength(s);
    assert (p + s)[..|p| + n] == p + s[..n] && (p + s)[|p| + n..] == s[n..];
  }

  function Joined(lines: seq<seq<Byte>>): seq<Byte> {
    if lines == [] then [] else lines[0] + Joined(lines[1..])
  }

  lemma {:induction false} JoinedLines(s: seq<Byte>)
    ensures Joined(Lines(s)) == s
    decreases |s|
  {
    if s != [] {
      var n := LineLength(s);
      JoinedLines(s[n..]);
      assert s == s[..n] + s[n..];
      assert Lines(s)[1..] == Lines(s[n..]);
    }
  }

  // ----- one event is one record ------------------------------------------------------------------------

  ghost predicate TailIndented(lines: seq<seq<Byte>>) { forall i :: 1 <= i < |lines| ==> Indented(lines[i]) }

  /** Of the lines an event is written as, all but the first are indented. */
  lemma {:induction false} EventLines(body: seq<Byte>)
    ensures Lines(Escaped(body) + [LF]) != [] && TailIndented(Lines(Escaped(body) + [LF]))
    decreases |body|
  {
    if body == [] {
      assert Escaped(body) + [LF] == [] + [LF];
      SingleLine([]);
    } else {
      var b, rest := body[0], Escaped(body[1..]) + [LF];
      EventLines(body[1..]);
      assert Escaped(body) + [LF] == EscapedByte(b) + rest;
      if b == LF {
        FeedLines(rest);
      } else {
        LinesPrefixed(EscapedByte(b), rest);
      }
    }
  }

  /** After a line feed and the indent, every line is indented. */
  lemma FeedLines(rest: seq<Byte>)
    requires rest != [] && TailIndented(Lines(rest))
    ensures Lines(CONTINUATION + rest) != [] && TailIndented(Lines(CONTINUATION + rest))
  {
    var indent := [SPACE, SPACE, SPACE, SPACE];
    LinesPrefixed(indent, rest);
    SingleLine([]);
    assert [] + [LF] == [LF];
    LinesConcat([LF], indent + rest);
    assert CONTINUATION + rest == [LF] + (indent + rest);
  }

  lemma SingleLine(x: seq<Byte>)
    requires LF !in x
    ensures Lines(x + [LF]) == [x + [LF]]
  {
    NoFeedLength(x, [LF]);
    var s := x + [LF];
    assert LineLength(s) == |s|;
    assert s[..|s|] == s && s[|s|..] == [];
  }

  lemma {:induction false} GatheredTail(lines: seq<seq<Byte>>)
    requires lines != [] && TailIndented(lines)
    ensures Gathered(lines) == [Joined(lines)]
  {
    if |lines| > 1 {
      GatheredTail(lines[1..]);
    } else {
      assert lines[0] + [] == lines[0];
    }
  }

  lemma EventIsRecord(event: seq<Byte>)
    requires Ended(event)
    ensures Records(Neutralized(event)) == [Neutralized(event)]
    ensures Lines(Neutralized(event)) != [] && TailIndented(Lines(Neutralized(event)))
  {
    EventLines(Body(event));
    GatheredTail(Lines(Neutralized(event)));
    JoinedLines(Neutralized(event));
  }

  // ----- many events -----------------------------------------------------------------------------------------

  lemma {:induction false} GatheredApart(a: seq<seq<Byte>>, b: seq<seq<Byte>>)
    requires a != [] && b != [] && !Indented(b[0])
    ensures Gathered(a + b) == Gathered(a) + Gathered(b)
  {
    assert (a + b)[1..] == a[1..] + b && (a + b)[0] == a[0];
    if |a| > 1 {
      GatheredApart(a[1..], b);
      assert (a + b)[1] == a[1];
      AttachConcat(a[0], Indented(a[1]), Gathered(a[1..]), Gathered(b));
    } else {
      assert a[1..] + b == b && (a + b)[1] == b[0];
    }
  }

  lemma {:induction false} GatheredMerged(a: seq<seq<Byte>>, b: seq<seq<Byte>>)
    requires a != [] && b != [] && Indented(b[0])
    ensures |Gathered(a + b)| == |Gathered(a)| + |Gathered(b)| - 1
  {
    assert (a + b)[1..] == a[1..] + b && (a + b)[0] == a[0];
    if |a| > 1 {
      GatheredMerged(a[1..], b);
      assert (a + b)[1] == a[1];
    } else {
      assert a[1..] + b == b && (a + b)[1] == b[0];
    }
  }

  function LeadingSpaces(s: seq<Byte>): nat {
    if s == [] || s[0] != SPACE then 0 else 1 + LeadingSpaces(s[1..])
  }

  lemma IndentedBySpaces(s: seq<Byte>)
    ensures Indented(s) <==> LeadingSpaces(s) >= 4
  {
    FewSpaces(s);
    if |s| >= 4 {
      var a, b, c := s[1..], s[2..], s[3..];
      assert a[0] == s[1] && b[0] == s[2] && c[0] == s[3];
      assert a[1..] == b && b[1..] == c;
      assert LeadingSpaces(s) == if s[0] != SPACE then 0 else 1 + LeadingSpaces(a);
      assert LeadingSpaces(a) == if s[1] != SPACE then 0 else 1 + LeadingSpaces(b);
      assert LeadingSpaces(b) == if s[2] != SPACE then 0 else 1 + LeadingSpaces(c);
      assert LeadingSpaces(c) == if s[3] != SPACE then 0 else 1 + LeadingSpaces(c[1..]);
    }
  }

  lemma {:induction false} FewSpaces(s: seq<Byte>)
    ensures LeadingSpaces(s) <= |s|
  {
    if s != [] { FewSpaces(s[1..]); }
  }

  /** Escaping keeps leading spaces and adds none. */
  lemma {:induction false} EscapedSpaces(body: seq<Byte>)
    ensures LeadingSpaces(Escaped(body) + [LF]) == LeadingSpaces(body + [LF])
  {
    if body == [] {
      assert Escaped(body) + [LF] == [LF] && body + [LF] == [LF];
    } else {
      var rest := body[1..];
      assert Escaped(body) + [LF] == EscapedByte(body[0]) + (Escaped(rest) + [LF]);
      assert (body + [LF])[0] == body[0] && (body + [LF])[1..] == rest + [LF];
      if body[0] == SPACE {
        EscapedSpaces(rest);
        assert (Escaped(body) + [LF])[1..] == Escaped(rest) + [LF];
      }
    }
  }

  lemma FirstLineIndent(s: seq<Byte>)
    requires s != []
    ensures Indented(s[..LineLength(s)]) <==> Indented(s)
  {
    if Indented(s) {
      assert s == s[..4] + s[4..];
      NoFeedLength(s[..4], s[4..]);
    }
  }

  /** The first line of a written event is indented exactly when the event began with the indent. */
  lemma EventIndent(event: seq<Byte>)
    requires Ended(event)
    ensures Lines(Neutralized(event)) != [] && (Indented(Lines(Neutralized(event))[0]) <==> Indented(event))
  {
    var n := Neutralized(event);
    assert event == Body(event) + [LF];
    FirstLineIndent(n);
    IndentedBySpaces(n);
    IndentedBySpaces(event);
    EscapedSpaces(Body(event));
  }

  function AllNeutralized(events: seq<seq<Byte>>): (r: seq<seq<Byte>>)
    ensures |r| == |events|
  {
    if events == [] then [] else AllNeutralized(events[..|events| - 1]) + [Neutralized(events[|events| - 1])]
  }

  ghost predicate AllEnded(events: seq<seq<Byte>>) { forall i :: 0 <= i < |events| ==> Ended(events[i]) }

  /** No event after the first begins with the indent. */
  ghost predicate AtMargin(events: seq<seq<Byte>>) { forall i :: 1 <= i < |events| ==> !Indented(events[i]) }

  lemma {:induction false} WrittenEnded(events: seq<seq<Byte>>)
    requires AllEnded(events) && events != []
    ensures Ended(Written(events))
  {
  }

  /** One more event: its own record at the margin, otherwise swallowed by the one before. */
  lemma AnotherEvent(log: seq<Byte>, event: seq<Byte>)
    requires Ended(log) && Ended(event)
    ensures !Indented(event) ==> Records(log + Neutralized(event)) == Records(log) + [Neutralized(event)]
    ensures Indented(event) ==> |Records(log + Neutralized(event))| == |Records(log)|
  {
    EventIsRecord(event);
    EventIndent(event);
    LinesConcat(log, Neutralized(event));
    LinesNonEmpty(log);
    if Indented(event) {
      GatheredMerged(Lines(log), Lines(Neutralized(event)));
    } else {
      GatheredApart(Lines(log), Lines(Neutralized(event)));
    }
  }

  /** Reading the log back gives one record per event exactly when no later event begins with the indent. */
  lemma {:induction false} OneRecordPerEvent(events: seq<seq<Byte>>)
    requires AllEnded(events)
    ensures AtMargin(events) ==> Records(Written(events)) == AllNeutralized(events)
    ensures !AtMargin(events) ==> |Records(Written(events))| < |events|
    ensures |Records(Written(events))| <= |events|
  {
    if |events| == 1 {
      EventIsRecord(events[0]);
      assert Written(events) == Written([]) + Neutralized(events[0]) == Neutralized(events[0]);
    } else if |events| > 1 {
      var front, last := events[..|events| - 1], events[|events| - 1];
      assert Ended(last) && Written(events) == Written(front) + Neutralized(last);
      OneRecordPerEvent(front);
      WrittenEnded(front);
      AnotherEvent(Written(front), last);
      assert forall i :: 1 <= i < |front| ==> front[i] == events[i];
    }
  }

  lemma LinesNonEmpty(s: seq<Byte>)
    requires s != []
    ensures Lines(s) != []
  {
  }

  // ----- un-indenting ---------------------------------------------------------------------------------------

  /** Continuation lines joined back: the indent after a line feed is dropped. */
  function Restored(s: seq<Byte>): seq<Byte>
    decreases |s|
  {
    if s == [] then []
    else if |s| >= 5 && s[0] == LF && Indented(s[1..]) then [LF] + Restored(s[5..])
    else [s[0]] + Restored(s[1..])
  }

  /** The event with its carriage returns spelled out. */
  function Spelled(body: seq<Byte>): seq<Byte> {
    if body == [] then []
    else (if body[0] == CR then [BACKSLASH, LETTER_R] else [body[0]]) + Spelled(body[1..])
  }

  lemma RestoredPlain(b: Byte, t: seq<Byte>)
    requires b != LF
    ensures Restored([b] + t) == [b] + Restored(t)
  {
    assert ([b] + t)[1..] == t;
  }

  lemma RestoredFeed(t: seq<Byte>)
    ensures Restored(CONTINUATION + t) == [LF] + Restored(t)
  {
    var s := CONTINUATION + t;
    assert s[5..] == t && Indented(s[1..]);
  }

  lemma RestoredByte(b: Byte, t: seq<Byte>)
    ensures Restored(EscapedByte(b) + t) == (if b == CR then [BACKSLASH, LETTER_R] else [b]) + Restored(t)
  {
    if b == LF {
      RestoredFeed(t);
    } else if b == CR {
      RestoredPlain(LETTER_R, t);
      RestoredPlain(BACKSLASH, [LETTER_R] + t);
      assert [BACKSLASH, LETTER_R] + t == [BACKSLASH] + ([LETTER_R] + t);
    } else {
      RestoredPlain(b, t);
    }
  }

  lemma {:induction false} RestoredEscaped(body: seq<Byte>, tail: seq<Byte>)
    requires tail == [] || tail == [LF]
    ensures Restored(Escaped(body) + tail) == Spelled(body) + tail
  {
    if body == [] {
      assert Escaped(body) + tail == tail && Spelled(body) + tail == tail;
    } else {
      var b, rest := body[0], body[1..];
      RestoredEscaped(rest, tail);
      var t := Escaped(rest) + tail;
      assert Escaped(body) + tail == EscapedByte(b) + t;
      RestoredByte(b, t);
      assert Spelled(body) + tail == (if b == CR then [BACKSLASH, LETTER_R] else [b]) + (Spelled(rest) + tail);
    }
  }

  lemma {:induction false} SpelledLength(body: seq<Byte>)
    ensures |Spelled(body)| >= |body| && (CR in body ==> |Spelled(body)| > |body|)
    ensures CR !in body ==> Spelled(body) == body
  {
    if body != [] {
      SpelledLength(body[1..]);
      assert body == [body[0]] + body[1..];
    }
  }

  /** Un-indenting gives the event back exactly when it held no carriage return. */
  lemma RestoredIffNoCarriageReturn(event: seq<Byte>)
    ensures Restored(Neutralized(event)) == event <==> CR !in event
  {
    var body, tail := Body(event), if Ended(event) then [LF] else [];
    assert event == body + tail;
    RestoredEscaped(body, tail);
    SpelledLength(body);
  }
}
