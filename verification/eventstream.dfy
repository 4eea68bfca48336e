/** Server-sent events over a byte stream cut into arbitrary reads (RFC 8620 section 7.3). */
module EventStream {
  import opened Common

  newtype Byte = x: int | 0 <= x < 256
  type Bytes = seq<Byte>

  const LF: Byte := 10
  const CR: Byte := 13
  const COLON: Byte := 58
  const SPACE: Byte := 32
  const NUL: Byte := 0
  const BOM: Bytes := [0xEF, 0xBB, 0xBF]

  // ---------------------------------------------------------------- the lines of a stream

  /** A line splitter that sees one byte at a time: the line so far, and whether the last byte was a
      CR, whose LF would belong to the same terminator. */
  datatype Splitter = Splitter(lines: seq<Bytes>, partial: Bytes, afterCR: bool)

  function Feed(s: Splitter, b: Byte): Splitter {
    if b == LF then
      if s.afterCR then s.(afterCR := false) else Splitter(s.lines + [s.partial], [], false)
    else if b == CR then Splitter(s.lines + [s.partial], [], true)
    else Splitter(s.lines, s.partial + [b], false)
  }

  function FeedAll(s: Splitter, bytes: Bytes): Splitter {
    if bytes == [] then s else Feed(FeedAll(s, bytes[..|bytes| - 1]), bytes[|bytes| - 1])
  }

  /** The lines of a whole stream: what ends in CRLF, CR or LF. The unterminated rest is no line. */
  function Lines(bytes: Bytes): seq<Bytes> { FeedAll(Splitter([], [], false), bytes).lines }

  lemma {:induction false} FeedAllAppends(s: Splitter, a: Bytes, b: Bytes)
    ensures FeedAll(s, a + b) == FeedAll(FeedAll(s, a), b)
    decreases |b|
  {
    if b == [] {
      assert a + b == a;
    } else {
      assert (a + b)[..|a + b| - 1] == a + b[..|b| - 1];
      FeedAllAppends(s, a, b[..|b| - 1]);
    }
  }

  predicate Plain(bytes: Bytes) { forall i | 0 <= i < |bytes| :: bytes[i] != LF && bytes[i] != CR }

  lemma {:induction false} FeedPlain(s: Splitter, a: Bytes)
    requires Plain(a)
    ensures a != [] ==> FeedAll(s, a) == Splitter(s.lines, s.partial + a, false)
    ensures FeedAll(s, a).lines == s.lines && FeedAll(s, a).partial == s.partial + a
  {
    if a != [] {
      FeedPlain(s, a[..|a| - 1]);
      assert (s.partial + a[..|a| - 1]) + [a[|a| - 1]] == s.partial + a;
    } else {
      assert s.partial + a == s.partial;
    }
  }

  /** The lines already found do not change what follows. */
  lemma {:induction false} LinesPrefix(s: Splitter, bytes: Bytes)
    ensures FeedAll(s, bytes)
        == FeedAll(s.(lines := []), bytes).(lines := s.lines + FeedAll(s.(lines := []), bytes).lines)
  {
    if bytes != [] {
      var front := bytes[..|bytes| - 1];
      LinesPrefix(s, front);
      var t := FeedAll(s.(lines := []), front);
      assert s.lines + (t.lines + [t.partial]) == s.lines + t.lines + [t.partial];
    }
  }

  /** The first line of the stream and the bytes after its terminator. */
  datatype Cut = NoLine | Cut(line: Bytes, rest: Bytes)

  function IndexOf(bytes: Bytes, b: Byte): (i: int)
    ensures -1 <= i < |bytes|
    ensures i >= 0 ==> bytes[i] == b
    ensures forall j | 0 <= j < (if i < 0 then |bytes| else i) :: bytes[j] != b
  {
    if bytes == [] then -1
    else if bytes[0] == b then 0
    else
      var i := IndexOf(bytes[1..], b);
      assert forall j | 1 <= j < |bytes| :: bytes[j] == bytes[1..][j - 1];
      if i < 0 then -1 else i + 1
  }

  /** The first line of a stream known whole. */
  function FirstLine(bytes: Bytes): Cut {
    var lf, cr := IndexOf(bytes, LF), IndexOf(bytes, CR);
    if lf < 0 && cr < 0 then NoLine
    else if cr < 0 || (lf >= 0 && lf < cr) then Cut(bytes[..lf], bytes[lf + 1..])
    else if lf == cr + 1 then Cut(bytes[..cr], bytes[cr + 2..])
    else Cut(bytes[..cr], bytes[cr + 1..])
  }

  lemma StripsAfterCR(s: Splitter, rest: Bytes)
    requires rest != [] && rest[0] != LF
    ensures FeedAll(s.(afterCR := true), rest) == FeedAll(s.(afterCR := false), rest)
  {
    assert rest == [rest[0]] + rest[1..];
    FeedAllAppends(s.(afterCR := true), [rest[0]], rest[1..]);
    FeedAllAppends(s.(afterCR := false), [rest[0]], rest[1..]);
    assert [rest[0]][..0] == [];
    assert FeedAll(s.(afterCR := true), [rest[0]]) == Feed(s.(afterCR := true), rest[0]);
    assert FeedAll(s.(afterCR := false), [rest[0]]) == Feed(s.(afterCR := false), rest[0]);
  }

  /** Each terminator ends one line. */
  lemma EndsLine(s: Splitter, ends: Bytes)
    requires ends == [LF] || ends == [CR] || ends == [CR, LF]
    requires ends == [LF] ==> !s.afterCR
    ensures FeedAll(s, ends) == Splitter(s.lines + [s.partial], [], ends == [CR])
  {
    assert ends[..|ends| - 1] == [] || ends[..|ends| - 1] == [CR];
    assert [CR][..0] == [];
    assert FeedAll(s, [CR]) == Feed(s, CR);
  }

  lemma TerminatedLine(line: Bytes, ends: Bytes, rest: Bytes)
    requires Plain(line) && (ends == [LF] || ends == [CR] || ends == [CR, LF])
    requires ends == [CR] && rest != [] ==> rest[0] != LF
    ensures Lines(line + (ends + rest)) == [line] + Lines(rest)
  {
    var s0 := Splitter([], [], false);
    FeedAllAppends(s0, line, ends + rest);
    FeedPlain(s0, line);
    var s1 := FeedAll(s0, line);
    assert s1.partial == line && s1.lines == [];
    FeedAllAppends(s1, ends, rest);
    EndsLine(s1, ends);
    var s2 := FeedAll(s1, ends);
    if ends == [CR] && rest != [] { StripsAfterCR(s2, rest); }
    LinesPrefix(s2.(afterCR := false), rest);
  }

  lemma InThree(bytes: Bytes, from: nat, ends: Bytes)
    requires from + |ends| <= |bytes| && forall i | 0 <= i < |ends| :: bytes[from + i] == ends[i]
    ensures bytes == bytes[..from] + (ends + bytes[from + |ends|..])
  {
    assert bytes[from..from + |ends|] == ends;
  }

  /** Where a stream's first line ends: at CRLF, at a CR no LF follows, or at an LF. */
  lemma CutShape(bytes: Bytes) returns (ends: Bytes)
    requires FirstLine(bytes).Cut?
    ensures var cut := FirstLine(bytes);
            && bytes == cut.line + (ends + cut.rest) && Plain(cut.line)
            && (ends == [LF] || ends == [CR] || ends == [CR, LF])
            && (ends == [CR] && cut.rest != [] ==> cut.rest[0] != LF)
  {
    var lf, cr := IndexOf(bytes, LF), IndexOf(bytes, CR);
    hide IndexOf;
    if cr < 0 || (lf >= 0 && lf < cr) {
      ends := [LF];
      InThree(bytes, lf, [LF]);
    } else if lf == cr + 1 {
      ends := [CR, LF];
      InThree(bytes, cr, [CR, LF]);
    } else {
      ends := [CR];
      InThree(bytes, cr, [CR]);
    }
  }

  /** Taking lines off the front one at a time is reading the stream byte by byte. */
  lemma FirstThenRest(bytes: Bytes)
    ensures match FirstLine(bytes)
            case NoLine => Lines(bytes) == []
            case Cut(line, rest) => Lines(bytes) == [line] + Lines(rest) && |rest| < |bytes|
  {
    match FirstLine(bytes)
    case NoLine => FeedPlain(Splitter([], [], false), bytes);
    case Cut(line, rest) =>
      var ends := CutShape(bytes);
      TerminatedLine(line, ends, rest);
  }

  // ---------------------------------------------------------------- the scanner

  /** What scanEventLines answers about a buffer: ask for more, or a token and how far it reaches. */
  datatype Scan = More | Token(advance: nat, token: Bytes)

  function ScanEventLines(data: Bytes, atEOF: bool): (r: Scan)
    ensures r.Token? ==> r.advance <= |data|
  {
    var lf, cr := IndexOf(data, LF), IndexOf(data, CR);
    if lf < 0 && cr < 0 then More
    else if cr < 0 || (lf >= 0 && lf < cr) then Token(lf + 1, data[..lf])
    else if cr == |data| - 1 && !atEOF then More
    else if lf == cr + 1 then Token(cr + 2, data[..cr])
    else Token(cr + 1, data[..cr])
  }

  lemma IndexOfPrefix(a: Bytes, b: Bytes, c: Byte)
    ensures IndexOf(a, c) >= 0 ==> IndexOf(a + b, c) == IndexOf(a, c)
    ensures IndexOf(a, c) < 0 ==> IndexOf(a + b, c) < 0 || IndexOf(a + b, c) >= |a|
  {
    var i, j := IndexOf(a, c), IndexOf(a + b, c);
    if i >= 0 { assert (a + b)[i] == c; }
    if 0 <= j < |a| { assert a[j] == c; }
  }

  /** A token found in a buffer is the stream's first line, whatever bytes the next reads bring. */
  lemma TokenIsFirstLine(data: Bytes, more: Bytes, atEOF: bool)
    requires ScanEventLines(data, atEOF).Token? && (atEOF ==> more == [])
    ensures var t := ScanEventLines(data, atEOF); FirstLine(data + more) == Cut(t.token, data[t.advance..] + more)
  {
    IndexOfPrefix(data, more, LF);
    IndexOfPrefix(data, more, CR);
    var t := ScanEventLines(data, atEOF);
    var lf, cr := IndexOf(data + more, LF), IndexOf(data + more, CR);
    assert (data + more)[..|t.token|] == data[..|t.token|];
    assert (data + more)[t.advance..] == data[t.advance..] + more;
  }

  function Flatten(chunks: seq<Bytes>): Bytes { if chunks == [] then [] else chunks[0] + Flatten(chunks[1..]) }

  /** A bufio.Scanner over a reader: the bytes buffered, and the reads still to come. */
  class LineScanner {
    var buffer: Bytes
    var chunks: seq<Bytes>

    constructor (chunks: seq<Bytes>)
      ensures Rest() == Flatten(chunks)
    {
      this.buffer := [];
      this.chunks := chunks;
    }

    /** The bytes of the stream not yet handed out. */
    function Rest(): Bytes
      reads this
    {
      buffer + Flatten(chunks)
    }

    /** The next line, read by read as they come. Where the bytes were cut makes no difference: the
        line is the first of all the bytes that remain. */
    method Scan() returns (found: bool, line: Bytes)
      modifies this
      ensures found ==> FirstLine(old(Rest())) == Cut(line, Rest())
      ensures !found ==> FirstLine(old(Rest())) == NoLine && Rest() == []
    {
      while true
        invariant Rest() == old(Rest())
        decreases |chunks|
      {
        var r := ScanEventLines(buffer, chunks == []);
        if r.Token? {
          TokenIsFirstLine(buffer, Flatten(chunks), chunks == []);
          buffer := buffer[r.advance..];
          return true, r.token;
        }
        if chunks == [] {
          assert buffer + [] == buffer;
          buffer := [];
          return false, [];
        }
        assert buffer + (chunks[0] + Flatten(chunks[1..])) == (buffer + chunks[0]) + Flatten(chunks[1..]);
        buffer, chunks := buffer + chunks[0], chunks[1..];
      }
    }
  }

  // ---------------------------------------------------------------- events

  datatype Event = Event(name: Bytes, data: Bytes)

  const MESSAGE: Bytes := [109, 101, 115, 115, 97, 103, 101]
  const EVENT: Bytes := [101, 118, 101, 110, 116]
  const DATA: Bytes := [100, 97, 116, 97]
  const ID: Bytes := [105, 100]

  /** What an event stream reader remembers between two events. */
  datatype Slots = Slots(started: bool, idBuffer: Bytes, lastID: Bytes)

  /** A reader in the middle of an event: its slots, and the name and data so far. */
  datatype Assembly = Assembly(slots: Slots, name: Bytes, data: Bytes)

  function Unmarked(line: Bytes, started: bool): Bytes { if !started && BOM <= line then line[|BOM|..] else line }

  /** A line's field name and value, cut at its first colon, one leading space of the value dropped. */
  function Field(line: Bytes): (Bytes, Bytes) {
    var colon := IndexOf(line, COLON);
    if colon < 0 then (line, [])
    else
      var value := line[colon + 1..];
      (line[..colon], if [SPACE] <= value then value[1..] else value)
  }

  /** One line that is not blank. */
  function Take(a: Assembly, line: Bytes): Assembly {
    var (field, value) := Field(line);
    if field == EVENT then a.(name := value)
    else if field == DATA then a.(data := a.data + value + [LF])
    else if field == ID && NUL !in value then a.(slots := a.slots.(idBuffer := value))
    else a
  }

  /** What reading on through lines gives: an event, the slots it leaves and the lines after it, or
      the slots at the end of the stream. */
  datatype Dispatch = Dispatched(event: Event, slots: Slots, rest: seq<Bytes>) | Ended(slots: Slots)

  function Assemble(a: Assembly, lines: seq<Bytes>): Dispatch
    decreases |lines|
  {
    if lines == [] then Ended(a.slots)
    else
      var line := Unmarked(lines[0], a.slots.started);
      var b := a.(slots := a.slots.(started := true));
      if line == [] then
        var committed := b.slots.(lastID := b.slots.idBuffer);
        if b.data == [] then Assemble(Assembly(committed, [], []), lines[1..])
        else Dispatched(Event(if b.name == [] then MESSAGE else b.name, b.data[..|b.data| - 1]), committed, lines[1..])
      else Assemble(Take(b, line), lines[1..])
  }

  /** Every event of a list of lines, and the slots at its end. */
  function AllEvents(s: Slots, lines: seq<Bytes>): (seq<Event>, Slots)
    decreases |lines|
  {
    match Assemble(Assembly(s, [], []), lines)
    case Ended(slots) => ([], slots)
    case Dispatched(event, slots, rest) =>
      AssembleShrinks(Assembly(s, [], []), lines);
      var (events, last) := AllEvents(slots, rest);
      ([event] + events, last)
  }

  lemma {:induction false} AssembleShrinks(a: Assembly, lines: seq<Bytes>)
    ensures Assemble(a, lines).Dispatched? ==> |Assemble(a, lines).rest| < |lines|
    decreases |lines|
  {
    if lines != [] {
      var line := Unmarked(lines[0], a.slots.started);
      var b := a.(slots := a.slots.(started := true));
      if line == [] {
        if b.data == [] { AssembleShrinks(Assembly(b.slots.(lastID := b.slots.idBuffer), [], []), lines[1..]); }
      } else {
        AssembleShrinks(Take(b, line), lines[1..]);
      }
    }
  }

  /** The resume id moves at blank lines only: through lines of which none is blank it stays put,
      whatever id fields they hold. */
  lemma {:induction false} ResumeIdWaitsForABlankLine(a: Assembly, lines: seq<Bytes>)
    requires forall i | 0 <= i < |lines| :: Unmarked(lines[i], a.slots.started || i > 0) != []
    ensures Assemble(a, lines).Ended? && Assemble(a, lines).slots.lastID == a.slots.lastID
    decreases |lines|
  {
    if lines != [] {
      var line := Unmarked(lines[0], a.slots.started);
      var b := a.(slots := a.slots.(started := true));
      assert line != [];
      forall i | 0 <= i < |lines[1..]| ensures Unmarked(lines[1..][i], true) != [] {
        assert lines[1..][i] == lines[i + 1];
      }
      ResumeIdWaitsForABlankLine(Take(b, line), lines[1..]);
    }
  }

  /** What an event commits as the resume id is the last id its stream named before the blank line:
      the one buffered then, so an id that comes with a dispatched event is committed with it. */
  lemma DispatchCommitsTheBufferedId(a: Assembly, lines: seq<Bytes>)
    requires Assemble(a, lines).Dispatched?
    ensures Assemble(a, lines).slots.lastID == Assemble(a, lines).slots.idBuffer
    ensures Assemble(a, lines).slots.started
    decreases |lines|
  {
    var line := Unmarked(lines[0], a.slots.started);
    var b := a.(slots := a.slots.(started := true));
    if line == [] {
      if b.data == [] {
        DispatchCommitsTheBufferedId(Assembly(b.slots.(lastID := b.slots.idBuffer), [], []), lines[1..]);
      }
    } else {
      DispatchCommitsTheBufferedId(Take(b, line), lines[1..]);
    }
  }

  // ---------------------------------------------------------------- what a server writes

  /** One line of an event as a server writes it: a comment, a field with its value, with or without the
      one space, or a field with no colon at all. */
  datatype Written = Comment(text: Bytes) | Named(field: Bytes, spaced: bool, value: Bytes) | Bare(field: Bytes)

  function Spelled(w: Written): Bytes {
    match w
    case Comment(text) => [COLON] + text
    case Named(field, spaced, value) => field + [COLON] + (if spaced then [SPACE] else []) + value
    case Bare(field) => field
  }

  /** A field's name is not empty and has no colon, and a value written without the space begins with none. */
  predicate WellWritten(w: Written) {
    match w
    case Comment(_) => true
    case Named(field, spaced, value) =>
      field != [] && COLON !in field && (!spaced ==> value == [] || value[0] != SPACE)
    case Bare(field) => field != [] && COLON !in field
  }

  predicate Names(w: Written, field: Bytes) { !w.Comment? && w.field == field }

  function ValueOf(w: Written): Bytes { if w.Named? then w.value else [] }

  /** The value of the last line that names the field, or what there was before. */
  function LastValue(ws: seq<Written>, field: Bytes, before: Bytes): Bytes {
    if ws == [] then before
    else
      var n := |ws| - 1;
      if Names(ws[n], field) then ValueOf(ws[n]) else LastValue(ws[..n], field, before)
  }

  /** The value of the last id line that holds no NUL, or what there was before. */
  function LastId(ws: seq<Written>, before: Bytes): Bytes {
    if ws == [] then before
    else
      var n := |ws| - 1;
      if Names(ws[n], ID) && NUL !in ValueOf(ws[n]) then ValueOf(ws[n]) else LastId(ws[..n], before)
  }

  /** The values of the data lines, in their order. */
  function Texts(ws: seq<Written>): seq<Bytes> {
    if ws == [] then []
    else
      var n := |ws| - 1;
      Texts(ws[..n]) + if Names(ws[n], DATA) then [ValueOf(ws[n])] else []
  }

  /** The texts with a line feed between any two. */
  function Joined(texts: seq<Bytes>): Bytes {
    if texts == [] then []
    else if |texts| == 1 then texts[0]
    else Joined(texts[..|texts| - 1]) + [LF] + texts[|texts| - 1]
  }

  function AllSpelled(ws: seq<Written>): (r: seq<Bytes>)
    ensures |r| == |ws| && forall i | 0 <= i < |ws| :: r[i] == Spelled(ws[i])
  {
    seq(|ws|, i requires 0 <= i < |ws| => Spelled(ws[i]))
  }

  lemma SplitsAtColon(field: Bytes, tail: Bytes)
    requires COLON !in field
    ensures Field(field + [COLON] + tail) == (field, if tail != [] && tail[0] == SPACE then tail[1..] else tail)
  {
    var line, n := field + [COLON] + tail, |field|;
    assert line[n] == COLON && line[..n] == field && line[n + 1..] == tail;
    assert forall i | 0 <= i < n :: line[i] == field[i] != COLON;
    assert IndexOf(line, COLON) == n;
  }

  /** A written line splits at its own colon. */
  lemma ReadsField(w: Written)
    requires WellWritten(w)
    ensures Spelled(w) != []
    ensures if w.Comment? then Field(Spelled(w)).0 == [] else Field(Spelled(w)) == (w.field, ValueOf(w))
  {
    match w {
      case Comment(text) =>
        SplitsAtColon([], text);
        assert [] + [COLON] + text == Spelled(w);
      case Named(field, spaced, value) =>
        var tail := (if spaced then [SPACE] else []) + value;
        assert Spelled(w) == field + [COLON] + tail;
        SplitsAtColon(field, tail);
        assert spaced ==> tail[1..] == value;
        assert !spaced ==> tail == value;
      case Bare(field) =>
        assert IndexOf(field, COLON) == -1;
    }
  }

  /** What a reader holds once it has read the lines: the last name, the data so far and the last id. */
  ghost predicate Gathers(a: Assembly, ws: seq<Written>, b: Assembly) {
    && b.slots == Slots(a.slots.started || ws != [], LastId(ws, a.slots.idBuffer), a.slots.lastID)
    && b.name == LastValue(ws, EVENT, a.name)
    && b.data == Extended(a.data, Texts(ws))
  }

  function Extended(data: Bytes, texts: seq<Bytes>): Bytes {
    if texts == [] then data else data + Joined(texts) + [LF]
  }

  lemma ExtendedMore(data: Bytes, texts: seq<Bytes>, text: Bytes)
    ensures Extended(data, texts + [text]) == Extended(data, texts) + text + [LF]
  {
    assert (texts + [text])[..|texts|] == texts;
    if texts == [] {
      assert Joined([text]) == text;
    } else {
      var so := Joined(texts);
      assert Joined(texts + [text]) == so + [LF] + text;
      assert data + (so + [LF] + text) + [LF] == data + so + [LF] + text + [LF];
    }
  }

  /** What one more line is to a block. */
  lemma OneMoreLine(ws: seq<Written>, w: Written, name: Bytes, id: Bytes)
    ensures LastValue(ws + [w], EVENT, name) == if Names(w, EVENT) then ValueOf(w) else LastValue(ws, EVENT, name)
    ensures LastId(ws + [w], id) == if Names(w, ID) && NUL !in ValueOf(w) then ValueOf(w) else LastId(ws, id)
    ensures Texts(ws + [w]) == Texts(ws) + if Names(w, DATA) then [ValueOf(w)] else []
  {
    assert (ws + [w])[..|ws|] == ws;
  }

  lemma GathersOne(a: Assembly, ws: seq<Written>, b: Assembly, w: Written)
    requires Gathers(a, ws, b) && WellWritten(w)
    ensures Gathers(a, ws + [w], Take(b.(slots := b.slots.(started := true)), Spelled(w)))
  {
    hide Field, Spelled, LastValue, LastId, Texts, Joined, Extended, WellWritten;
    ReadsField(w);
    OneMoreLine(ws, w, a.name, a.slots.idBuffer);
    ExtendedMore(a.data, Texts(ws), ValueOf(w));
    assert Texts(ws) + [] == Texts(ws);
    assert |EVENT| == 5 && |DATA| == 4 && |ID| == 2;
  }

  /** Reading the lines of a block is gathering them, whatever follows. */
  lemma {:induction false} ReadsLines(a: Assembly, ws: seq<Written>, more: seq<Bytes>) returns (b: Assembly)
    requires forall i | 0 <= i < |ws| :: WellWritten(ws[i])
    requires a.slots.started || ws == [] || !(BOM <= Spelled(ws[0]))
    ensures Gathers(a, ws, b) && Assemble(a, AllSpelled(ws) + more) == Assemble(b, more)
    decreases |ws|
  {
    hide *;
    if ws == [] {
      b := a;
      GathersNone(a, more);
    } else {
      var n := |ws| - 1;
      var w := ws[n];
      var line := Spelled(w);
      var before := ReadsLines(a, ws[..n], [line] + more);
      LastSpelled(ws, more);
      assert ws == ws[..n] + [w];
      GathersOne(a, ws[..n], before, w);
      b := Take(before.(slots := before.slots.(started := true)), line);
      GathersStart(a, ws[..n], before);
      ReadsOne(before, w, more);
    }
  }

  lemma GathersNone(a: Assembly, more: seq<Bytes>)
    ensures Gathers(a, [], a) && AllSpelled([]) + more == more
  {
  }

  lemma LastSpelled(ws: seq<Written>, more: seq<Bytes>)
    requires ws != []
    ensures AllSpelled(ws) + more == AllSpelled(ws[..|ws| - 1]) + ([Spelled(ws[|ws| - 1])] + more)
  {
    var n := |ws| - 1;
    assert AllSpelled(ws) == AllSpelled(ws[..n]) + [Spelled(ws[n])];
  }

  lemma ReadsOne(a: Assembly, w: Written, more: seq<Bytes>)
    requires WellWritten(w) && (a.slots.started || !(BOM <= Spelled(w)))
    ensures Assemble(a, [Spelled(w)] + more)
         == Assemble(Take(a.(slots := a.slots.(started := true)), Spelled(w)), more)
  {
    hide Take, Spelled, WellWritten, Field;
    ReadsField(w);
    var all := [Spelled(w)] + more;
    assert all[0] == Spelled(w) && all[1..] == more;
  }

  lemma GathersStart(a: Assembly, ws: seq<Written>, b: Assembly)
    requires Gathers(a, ws, b)
    ensures b.slots.started <==> a.slots.started || ws != []
  {
  }

  /** all begins with the lines ws and a blank one, and goes on with rest. A byte order mark may come first
      where the stream begins. */
  predicate Opens(all: seq<Bytes>, started: bool, ws: seq<Written>, rest: seq<Bytes>) {
    && all == AllSpelled(ws) + ([[]] + rest) && (forall i | 0 <= i < |ws| :: WellWritten(ws[i]))
    && (started || ws == [] || !(BOM <= Spelled(ws[0])))
  }

  /** What an event reads as: the last name its lines give, or "message", its data lines' texts joined by
      line feeds, and from its blank line on the last id as the resume id. Comments and fields of any other
      name are nothing to it. A block without data is no event, but its id counts. */
  lemma EventReads(s: Slots, all: seq<Bytes>, ws: seq<Written>, rest: seq<Bytes>)
    requires Opens(all, s.started, ws, rest)
    ensures var id := LastId(ws, s.idBuffer);
            var name := LastValue(ws, EVENT, []);
            Assemble(Assembly(s, [], []), all)
              == if Texts(ws) == [] then Assemble(Assembly(Slots(true, id, id), [], []), rest)
                 else Dispatched(Event(if name == [] then MESSAGE else name, Joined(Texts(ws))),
                                 Slots(true, id, id), rest)
  {
    var b := ReadsLines(Assembly(s, [], []), ws, [[]] + rest);
    assert ([[]] + rest)[0] == [] && ([[]] + rest)[1..] == rest;
    if Texts(ws) != [] {
      var text := Joined(Texts(ws));
      assert [] + text + [LF] == text + [LF];
      assert (text + [LF])[..|text + [LF]| - 1] == text;
    }
  }

  lemma OpensRead(s: Slots, all: seq<Bytes>)
    ensures forall ws, rest | Opens(all, s.started, ws, rest) && Texts(ws) != [] ::
              var id, name := LastId(ws, s.idBuffer), LastValue(ws, EVENT, []);
              Assemble(Assembly(s, [], []), all)
                == Dispatched(Event(if name == [] then MESSAGE else name, Joined(Texts(ws))), Slots(true, id, id), rest)
  {
    hide Assemble, Opens;
    forall ws, rest | Opens(all, s.started, ws, rest) && Texts(ws) != []
      ensures var id, name := LastId(ws, s.idBuffer), LastValue(ws, EVENT, []);
              Assemble(Assembly(s, [], []), all)
                == Dispatched(Event(if name == [] then MESSAGE else name, Joined(Texts(ws))), Slots(true, id, id), rest)
    {
      EventReads(s, all, ws, rest);
    }
  }

  /** A byte order mark is dropped from the stream's first line, and from no other. */
  lemma MarkIsDropped(a: Assembly, line: Bytes, rest: seq<Bytes>)
    requires !a.slots.started && !(BOM <= line)
    ensures Assemble(a, [BOM + line] + rest) == Assemble(a, [line] + rest)
  {
    assert (BOM + line)[|BOM|..] == line;
    assert ([BOM + line] + rest)[1..] == rest && ([line] + rest)[1..] == rest;
  }

  /** Lines written without CR or LF in them, an LF after each, are read back as those lines. */
  lemma {:induction false} WrittenLines(all: seq<Bytes>, tail: Bytes)
    requires forall i | 0 <= i < |all| :: Plain(all[i])
    ensures Lines(Terminated(all) + tail) == all + Lines(tail)
    decreases |all|
  {
    if all == [] {
      assert Terminated(all) + tail == tail && all + Lines(tail) == Lines(tail);
    } else {
      var rest := Terminated(all[1..]) + tail;
      assert Terminated(all) + tail == all[0] + ([LF] + rest);
      TerminatedLine(all[0], [LF], rest);
      WrittenLines(all[1..], tail);
      assert [all[0]] + (all[1..] + Lines(tail)) == all + Lines(tail);
    }
  }

  function Terminated(all: seq<Bytes>): Bytes { if all == [] then [] else all[0] + [LF] + Terminated(all[1..]) }

  class EventReader {
    const lines: LineScanner
    var started: bool
    var idBuffer: Bytes
    var lastID: Bytes

    constructor (lines: LineScanner)
      ensures this.lines == lines && Memory() == Slots(false, [], [])
    {
      this.lines := lines;
      started, idBuffer, lastID := false, [], [];
    }

    function Memory(): Slots
      reads this
    {
      Slots(started, idBuffer, lastID)
    }

    /** The next event, exactly as assembled from the lines of the bytes that remain. */
    method Next() returns (event: Option<Event>)
      modifies this, lines
      ensures match Assemble(Assembly(old(Memory()), [], []), Lines(old(lines.Rest())))
              case Dispatched(e, slots, rest) => event == Some(e) && Memory() == slots && Lines(lines.Rest()) == rest
              case Ended(slots) => event == None && Memory() == slots
      ensures forall ws, rest | Opens(Lines(old(lines.Rest())), old(started), ws, rest) && Texts(ws) != [] ::
                var name := LastValue(ws, EVENT, []);
                && event == Some(Event(if name == [] then MESSAGE else name, Joined(Texts(ws))))
                && lastID == LastId(ws, old(idBuffer)) && Lines(lines.Rest()) == rest
    {
      OpensRead(Memory(), Lines(lines.Rest()));
      hide Lines, FirstLine, Field, IndexOf, Opens, Texts, LastValue, LastId, Joined, Spelled, WellWritten;
      var name: Bytes := [];
      var data: Bytes := [];
      ghost var goal := Assemble(Assembly(Memory(), [], []), Lines(lines.Rest()));
      while true
        invariant goal == Assemble(Assembly(Memory(), name, data), Lines(lines.Rest()))
        decreases |lines.Rest()|
      {
        FirstThenRest(lines.Rest());
        ghost var before := Lines(lines.Rest());
        var found, line := lines.Scan();
        if !found { return None; }
        assert before[0] == line && before[1..] == Lines(lines.Rest());
        if !started {
          if BOM <= line { line := line[|BOM|..]; }
          started := true;
        }
        if line == [] {
          lastID := idBuffer;
          if data != [] {
            return Some(Event(if name == [] then MESSAGE else name, data[..|data| - 1]));
          }
          name := [];
        } else {
          var (field, value) := Field(line);
          if field == EVENT {
            name := value;
          } else if field == DATA {
            data := data + value + [LF];
          } else if field == ID {
            if NUL !in value { idBuffer := value; }
          }
        }
      }
    }
  }

  /** All the events of a stream that arrives as `chunks`, and the resume id at its end: those of the
      lines of its bytes, however the bytes were cut into reads. */
  method ReadAll(chunks: seq<Bytes>) returns (events: seq<Event>, resume: Bytes)
    ensures var (all, slots) := AllEvents(Slots(false, [], []), Lines(Flatten(chunks)));
            events == all && resume == slots.lastID
  {
    hide Assemble, Lines, Flatten;
    var scanner := new LineScanner(chunks);
    var reader := new EventReader(scanner);
    events := [];
    while true
      invariant fresh(scanner) && fresh(reader) && reader.lines == scanner
      invariant var (all, slots) := AllEvents(Slots(false, [], []), Lines(Flatten(chunks)));
                var (left, last) := AllEvents(reader.Memory(), Lines(scanner.Rest()));
                all == events + left && slots == last
      decreases |Lines(scanner.Rest())|
    {
      AssembleShrinks(Assembly(reader.Memory(), [], []), Lines(scanner.Rest()));
      var event := reader.Next();
      if event.None? { return events, reader.lastID; }
      events := events + [event.value];
    }
  }
}
