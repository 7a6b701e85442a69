/**
 The notification stream from end to end: event identifiers that sort, the paged query, the handler that
 prints frames and advances its cursor, and the client that parses them and resumes. Identifiers compare
 by code unit; payloads are opaque one-line texts.
 */
module EventStream {
  import opened Wrappers
  import opened Text

  datatype Frame = Frame(id: string, eventType: string, payload: string)

  // ---------------------------------------------------------------- the order of identifiers

  predicate Less(s: string, t: string) {
    t != "" && (s == "" || s[0] < t[0] || (s[0] == t[0] && Less(s[1..], t[1..])))
  }

  lemma {:induction false} LessIsStrictOrder(s: string, t: string, u: string)
    ensures !Less(s, s)
    ensures Less(s, t) && Less(t, u) ==> Less(s, u)
    ensures Less(s, t) || s == t || Less(t, s)
    decreases |s| + |t| + |u|
  {
    if s != "" && t != "" && u != "" {
      LessIsStrictOrder(s[1..], t[1..], u[1..]);
    } else if s != "" && t != "" {
      LessIsStrictOrder(s[1..], t[1..], u);
    } else if s != "" {
      LessIsStrictOrder(s[1..], t, u);
    }
    if s != "" && t != "" && s[0] == t[0] {
      assert s == [s[0]] + s[1..] && t == [t[0]] + t[1..];
    }
  }

  lemma {:induction false} LessAfterCommonPrefix(p: string, s: string, t: string)
    ensures Less(p + s, p + t) <==> Less(s, t)
  {
    if p == "" {
      assert p + s == s && p + t == t;
    } else {
      LessAfterCommonPrefix(p[1..], s, t);
      assert (p + s)[1..] == p[1..] + s && (p + t)[1..] == p[1..] + t;
    }
  }

  lemma {:induction false} SameValueSameDigits(s: string, t: string)
    requires AllDigits(s) && AllDigits(t) && |s| == |t| && Value(s) == Value(t)
    ensures s == t
  {
    if s != "" {
      var s', t' := s[..|s| - 1], t[..|t| - 1];
      LastDigit(s);
      LastDigit(t);
      assert IsDigit(s[|s| - 1]) && IsDigit(t[|t| - 1]);
      SamePlaces(Value(s'), DigitValue(s[|s| - 1]), Value(t'), DigitValue(t[|t| - 1]));
      SameValueSameDigits(s', t');
      hide Value, AllDigits;
      assert s == s' + [s[|s| - 1]] && t == t' + [t[|t| - 1]];
    }
  }

  lemma SamePlaces(a: nat, x: nat, b: nat, y: nat)
    requires x < 10 && y < 10 && 10 * a + x == 10 * b + y
    ensures a == b && x == y
  {
  }

  lemma LastDigit(s: string)
    requires s != "" && AllDigits(s)
    ensures Value(s) == 10 * Value(s[..|s| - 1]) + DigitValue(s[|s| - 1]) && DigitValue(s[|s| - 1]) < 10
  {
    assert IsDigit(s[|s| - 1]);
  }

  /** Digit strings of one length order as the numbers they denote, whatever follows. */
  lemma {:induction false} DigitsSortAsNumbers(s: string, t: string, x: string, y: string)
    requires AllDigits(s) && AllDigits(t) && |s| == |t| && Value(s) < Value(t)
    ensures Less(s + x, t + y)
  {
    var s', t', a, b := s[..|s| - 1], t[..|t| - 1], s[|s| - 1], t[|t| - 1];
    assert s + x == s' + ([a] + x) && t + y == t' + ([b] + y);
    if Value(s') < Value(t') {
      DigitsSortAsNumbers(s', t', [a] + x, [b] + y);
    } else {
      SameValueSameDigits(s', t');
      LessAfterCommonPrefix(s', [a] + x, [b] + y);
    }
  }

  function Zeros(n: nat): (s: string)
    ensures |s| == n && AllDigits(s)
  {
    if n == 0 then "" else Zeros(n - 1) + "0"
  }

  /** Go's %020d. */
  function Padded(n: nat, width: nat): (s: string)
    ensures AllDigits(s)
  {
    var d := Decimal(n);
    if |d| < width then Zeros(width - |d|) + d else d
  }

  function Pow10(w: nat): nat { if w == 0 then 1 else 10 * Pow10(w - 1) }

  lemma {:induction false} DecimalFits(n: nat, w: nat)
    requires n < Pow10(w) && w > 0
    ensures |Decimal(n)| <= w
  {
    if n >= 10 {
      DecimalFits(n / 10, w - 1);
    }
  }

  lemma {:induction false} LeadingZeros(n: nat, d: string)
    requires AllDigits(d)
    ensures AllDigits(Zeros(n) + d) && Value(Zeros(n) + d) == Value(d)
    decreases n + |d|
  {
    if d != "" {
      LeadingZeros(n, d[..|d| - 1]);
      assert (Zeros(n) + d)[..n + |d| - 1] == Zeros(n) + d[..|d| - 1];
    } else {
      assert Zeros(n) + d == Zeros(n);
      if n > 0 {
        LeadingZeros(n - 1, d);
        assert Zeros(n)[..n - 1] == Zeros(n - 1) && Zeros(n - 1) + d == Zeros(n - 1);
      }
    }
  }

  const ID_DIGITS := 20

  /** newEventID: time in nanoseconds, then six random bytes in hexadecimal. */
  function NewEventId(nanos: nat, suffix: string): string { "evt_" + Padded(nanos, ID_DIGITS) + "_" + suffix }

  /**
   Identifiers of different times sort as those times, so ORDER BY id is the order in which they were minted.
   They are minted before the transaction that makes their row visible commits, so it need not be the order
   of the commits.
   */
  lemma EventIdsSortByTime(n: nat, x: string, m: nat, y: string)
    requires n < Pow10(ID_DIGITS) && m < Pow10(ID_DIGITS) && n != m
    ensures Less(NewEventId(n, x), NewEventId(m, y)) <==> n < m
  {
    hide Less, Pow10;
    if n < m {
      EarlierIdIsLess(n, x, m, y);
    } else {
      EarlierIdIsLess(m, y, n, x);
      LessIsStrictOrder(NewEventId(n, x), NewEventId(m, y), NewEventId(n, x));
    }
  }

  lemma EarlierIdIsLess(n: nat, x: string, m: nat, y: string)
    requires n < m < Pow10(ID_DIGITS)
    ensures Less(NewEventId(n, x), NewEventId(m, y))
  {
    PaddedDigits(n);
    PaddedDigits(m);
    IdParts(n, x);
    IdParts(m, y);
    hide *;
    DigitsSortAsNumbers(Padded(n, ID_DIGITS), Padded(m, ID_DIGITS), "_" + x, "_" + y);
    LessAfterCommonPrefix("evt_", Padded(n, ID_DIGITS) + ("_" + x), Padded(m, ID_DIGITS) + ("_" + y));
  }

  lemma IdParts(n: nat, suffix: string)
    ensures NewEventId(n, suffix) == "evt_" + (Padded(n, ID_DIGITS) + ("_" + suffix))
  {
    hide Padded;
  }

  /** The parts of an identifier: twenty digits of time between its prefix and its random suffix. */
  lemma EventIdFormat(n: nat, suffix: string) returns (digits: string)
    requires n < Pow10(20)
    ensures |digits| == 20 && AllDigits(digits) && Value(digits) == n
    ensures NewEventId(n, suffix) == "evt_" + (digits + ("_" + suffix))
  {
    digits := Padded(n, ID_DIGITS);
    PaddedDigits(n);
    IdParts(n, suffix);
    hide Padded, Value, Pow10;
  }

  lemma PaddedDigits(n: nat)
    requires n < Pow10(ID_DIGITS)
    ensures |Padded(n, ID_DIGITS)| == ID_DIGITS && Value(Padded(n, ID_DIGITS)) == n
  {
    DecimalFits(n, ID_DIGITS);
    ValueOfDecimal(n);
    hide Pow10, Decimal, Value, Zeros;
    if |Decimal(n)| < ID_DIGITS {
      LeadingZeros(ID_DIGITS - |Decimal(n)|, Decimal(n));
    }
  }

  // ---------------------------------------------------------------- printing

  datatype Item = Print(frame: Frame) | Heartbeat | Retry

  function FieldLine(name: string, value: string): string { name + " " + value + "\n" }

  function IdLine(f: Frame): string { FieldLine("id:", f.id) }

  function Rest(f: Frame): string { FieldLine("event:", f.eventType) + (FieldLine("data:", f.payload) + "\n") }

  function Printed(item: Item): string {
    match item
    case Print(f) => IdLine(f) + Rest(f)
    case Heartbeat => ": heartbeat\n\n"
    case Retry => "retry: 3000\n\n"
  }

  function PrintedAll(items: seq<Item>): string {
    if items == [] then "" else Printed(items[0]) + PrintedAll(items[1..])
  }

  function Frames(items: seq<Item>): seq<Frame> {
    if items == [] then []
    else (if items[0].Print? then [items[0].frame] else []) + Frames(items[1..])
  }

  // ---------------------------------------------------------------- parsing

  /** strings.TrimRight(line, "\r\n"). */
  function TrimLineEnd(s: string): string { if s != "" && s[|s| - 1] in {'\r', '\n'} then TrimLineEnd(s[..|s| - 1]) else s }

  /** The client's variables inside one connection; `cursor` alone outlives it. */
  datatype Parser = Parser(id: string, eventType: string, data: string, cursor: string, completed: seq<Frame>)

  function Connect(cursor: string): Parser { Parser("", "", "", cursor, []) }

  function OnLine(p: Parser, line: string): Parser {
    if line == "" then
      Parser("", "", "", p.cursor, if p.data != "" then p.completed + [Frame(p.id, p.eventType, p.data)] else p.completed)
    else if HasPrefix(line, "id:") then var id := TrimSpace(line[3..]); p.(id := id, cursor := id)
    else if HasPrefix(line, "event:") then p.(eventType := TrimSpace(line[6..]))
    else if HasPrefix(line, "data:") then
      var value := TrimSpace(line[5..]);
      p.(data := if p.data == "" then value else p.data + "\n" + value)
    else p
  }

  /** Position of the first newline, or the length. */
  function LineEnd(s: string): (n: nat)
    ensures n <= |s|
    ensures n < |s| ==> s[n] == '\n'
    ensures forall i | 0 <= i < n :: s[i] != '\n'
  {
    if s == "" || s[0] == '\n' then 0 else 1 + LineEnd(s[1..])
  }

  /** What the client has done when the connection breaks after `received`: an unfinished line is dropped. */
  function Parse(p: Parser, received: string): Parser
    decreases |received|
  {
    var n := LineEnd(received);
    if n == |received| then p else Parse(OnLine(p, TrimLineEnd(received[..n])), received[n + 1..])
  }

  method ReadBytes(received: string, from: nat) returns (ok: bool, line: string, next: nat)
    requires from <= |received|
    ensures from <= next <= |received|
    ensures ok <==> LineEnd(received[from..]) < |received| - from
    ensures ok ==> next == from + LineEnd(received[from..]) + 1 && line == received[from..next - 1]
  {
    next := from;
    while next < |received| && received[next] != '\n'
      invariant from <= next <= |received|
      invariant forall i | from <= i < next :: received[i] != '\n'
    {
      next := next + 1;
    }
    ghost var rest := received[from..];
    LineEndIs(rest, next - from);
    if next == |received| {
      return false, "", next;
    }
    return true, received[from..next], next + 1;
  }

  lemma {:induction false} LineEndIs(s: string, n: nat)
    requires n <= |s| && (forall i | 0 <= i < n :: s[i] != '\n') && (n < |s| ==> s[n] == '\n')
    ensures LineEnd(s) == n
  {
    if n > 0 {
      LineEndIs(s[1..], n - 1);
    }
  }

  /**
   The events passed on to subscribers. `names` is the JSON reading that is not modelled: the payload parses
   and has a non-empty `documentId`.
   */
  function Broadcast(names: string -> bool, events: seq<Frame>): seq<Frame> {
    if events == [] then []
    else
      var last := events[|events| - 1];
      Broadcast(names, events[..|events| - 1]) + (if names(last.payload) then [last] else [])
  }

  lemma BroadcastOne(names: string -> bool, events: seq<Frame>, event: Frame)
    ensures Broadcast(names, events + [event]) == Broadcast(names, events) + if names(event.payload) then [event] else []
  {
    assert (events + [event])[..|events|] == events;
  }

  lemma ParseNextLine(p: Parser, received: string)
    ensures var n := LineEnd(received);
            Parse(p, received) == if n == |received| then p else Parse(OnLine(p, TrimLineEnd(received[..n])), received[n + 1..])
  {
    hide OnLine, TrimLineEnd, LineEnd;
  }

  /** One line: the fields it sets, and the event it completes if it is the blank one. */
  method TakeLine(line: string, id: string, eventType: string, data: string, cursor: string, ghost completed: seq<Frame>)
    returns (id': string, eventType': string, data': string, cursor': string, event: Option<Frame>)
    ensures OnLine(Parser(id, eventType, data, cursor, completed), line)
            == Parser(id', eventType', data', cursor', if event.Some? then completed + [event.value] else completed)
  {
    hide TrimSpace;
    id', eventType', data', cursor', event := id, eventType, data, cursor, None;
    if line == "" {
      if data != "" {
        event := Some(Frame(id, eventType, data));
      }
      id', eventType', data' := "", "", "";
    } else if HasPrefix(line, "id:") {
      id' := TrimSpace(line[3..]);
      cursor' := id';
    } else if HasPrefix(line, "event:") {
      eventType' := TrimSpace(line[6..]);
    } else if HasPrefix(line, "data:") {
      var value := TrimSpace(line[5..]);
      data' := if data == "" then value else data + "\n" + value;
    }
  }

  /** The listener's loop over one connection. */
  method Listen(names: string -> bool, cursor: string, received: string) returns (broadcast: seq<Frame>, newCursor: string)
    ensures broadcast == Broadcast(names, Parse(Connect(cursor), received).completed)
    ensures newCursor == Parse(Connect(cursor), received).cursor
  {
    broadcast, newCursor := [], cursor;
    ghost var completed := [];
    assert received[0..] == received;
    assert Broadcast(names, []) == [];
    hide Parse, Broadcast, TrimLineEnd, OnLine, LineEnd;
    var currentId, currentEvent, currentData := "", "", "";
    var from := 0;
    while true
      invariant from <= |received|
      invariant Parse(Connect(cursor), received) == Parse(Parser(currentId, currentEvent, currentData, newCursor, completed), received[from..])
      invariant broadcast == Broadcast(names, completed)
      decreases |received| - from
    {
      var ok, bytes, next := ReadBytes(received, from);
      ghost var rest := received[from..];
      ParseNextLine(Parser(currentId, currentEvent, currentData, newCursor, completed), rest);
      if !ok {
        return;
      }
      assert rest[..LineEnd(rest)] == bytes && rest[LineEnd(rest) + 1..] == received[next..];
      var event: Option<Frame>;
      currentId, currentEvent, currentData, newCursor, event :=
        TakeLine(TrimLineEnd(bytes), currentId, currentEvent, currentData, newCursor, completed);
      if event.Some? {
        BroadcastOne(names, completed, event.value);
        completed := completed + [event.value];
        if names(event.value.payload) {
          broadcast := broadcast + [event.value];
        }
      }
      from := next;
    }
  }

  // ---------------------------------------------------------------- round trip

  /** One line without surrounding space. */
  predicate Clean(s: string) {
    '\n' !in s && (s != "" ==> !IsSpace(s[0]) && !IsSpace(s[|s| - 1]))
  }

  predicate Sendable(f: Frame) { Clean(f.id) && Clean(f.eventType) && Clean(f.payload) && f.payload != "" }

  predicate AllSendable(items: seq<Item>) { forall i | 0 <= i < |items| && items[i].Print? :: Sendable(items[i].frame) }

  lemma TrimClean(field: string, value: string)
    requires Clean(value) && |field| > 0 && !IsSpace(field[|field| - 1])
    ensures TrimSpace(" " + value) == value
    ensures TrimLineEnd(field + " " + value) == if value == "" then field + " " else field + " " + value
  {
    assert (" " + value)[1..] == value;
    assert TrimLeft(" " + value) == TrimLeft(value);
    var s := field + " " + value;
    assert s[|s| - 1] == if value == "" then ' ' else value[|value| - 1];
    if value == "" {
      assert s == field + " ";
    }
  }

  /** Feeding one complete line. */
  lemma ParseLine(p: Parser, line: string, rest: string)
    requires '\n' !in line
    ensures Parse(p, line + "\n" + rest) == Parse(OnLine(p, TrimLineEnd(line)), rest)
  {
    var s := line + "\n" + rest;
    LineEndIs(s, |line|);
    assert s[..|line|] == line && s[|line| + 1..] == rest;
  }

  lemma NoNewlineNoLine(p: Parser, s: string)
    requires '\n' !in s
    ensures Parse(p, s) == p
  {
    LineEndIs(s, |s|);
  }

  predicate Field(name: string) { name in {"id:", "event:", "data:"} }

  function WithField(p: Parser, field: string, value: string): Parser {
    if field == "id:" then p.(id := value, cursor := value)
    else if field == "event:" then p.(eventType := value)
    else p.(data := if p.data == "" then value else p.data + "\n" + value)
  }

  lemma ParseField(p: Parser, field: string, value: string, rest: string)
    requires Clean(value) && Field(field)
    ensures Parse(p, field + " " + value + "\n" + rest) == Parse(WithField(p, field, value), rest)
  {
    var line := field + " " + value;
    hide Parse;
    ParseLine(p, line, rest);
    TrimClean(field, value);
    assert line[|field|..] == " " + value;
    assert TrimLineEnd(line) == line;
    hide TrimSpace, TrimLineEnd;
    assert line[..|field|] == field;
    FieldPrefixes(line, field);
  }

  /** A field line cut anywhere: nothing happens until its newline has arrived. */
  lemma ParseCutField(p: Parser, field: string, value: string, rest: string, k: nat)
    requires Clean(value) && Field(field) && k <= |field| + |value| + 2 + |rest|
    ensures var n := |field| + |value| + 2;
            Parse(p, (field + " " + value + "\n" + rest)[..k])
            == if k < n then p else Parse(WithField(p, field, value), rest[..k - n])
  {
    var line, n := field + " " + value, |field| + |value| + 2;
    hide Parse, WithField;
    if k < n {
      assert (line + "\n" + rest)[..k] == line[..k];
      NoNewlineNoLine(p, line[..k]);
    } else {
      assert (line + "\n" + rest)[..k] == line + "\n" + rest[..k - n];
      ParseField(p, field, value, rest[..k - n]);
    }
  }

  lemma FieldPrefixes(line: string, field: string)
    requires field in {"id:", "event:", "data:"} && |line| >= |field| && line[..|field|] == field
    ensures line != "" && (HasPrefix(line, "id:") <==> field == "id:")
    ensures (HasPrefix(line, "event:") <==> field == "event:") && (HasPrefix(line, "data:") <==> field == "data:")
  {
    assert line[0] == field[0];
  }

  lemma ParseBlank(p: Parser, rest: string)
    ensures Parse(p, "\n" + rest) == Parse(OnLine(p, ""), rest)
  {
    ParseLine(p, "", rest);
    assert "" + "\n" + rest == "\n" + rest;
  }

  /** A parser between frames: nothing collected. */
  predicate Fresh(p: Parser) { p.id == "" && p.eventType == "" && p.data == "" }

  function Delivered(p: Parser, f: Frame): Parser { Parser("", "", "", f.id, p.completed + [f]) }

  lemma ParseFrame(p: Parser, f: Frame, rest: string)
    requires Fresh(p) && Sendable(f)
    ensures Parse(p, Printed(Print(f)) + rest) == Parse(Delivered(p, f), rest)
  {
    hide Parse, OnLine, Clean;
    var blank := "\n" + rest;
    var data := "data:" + " " + f.payload + "\n" + blank;
    var event := "event:" + " " + f.eventType + "\n" + data;
    assert Printed(Print(f)) + rest == "id:" + " " + f.id + "\n" + event by { FrameText(f, rest); }
    ParseField(p, "id:", f.id, event);
    var p1 := WithField(p, "id:", f.id);
    ParseField(p1, "event:", f.eventType, data);
    var p2 := WithField(p1, "event:", f.eventType);
    ParseField(p2, "data:", f.payload, blank);
    var p3 := WithField(p2, "data:", f.payload);
    ParseBlank(p3, rest);
    BlankDelivers(p3, f);
  }

  lemma FrameText(f: Frame, rest: string)
    ensures Printed(Print(f)) + rest
            == "id:" + " " + f.id + "\n" + ("event:" + " " + f.eventType + "\n" + ("data:" + " " + f.payload + "\n" + ("\n" + rest)))
  {
    Reassociate(IdLine(f), FieldLine("event:", f.eventType), FieldLine("data:", f.payload), "\n", rest);
  }

  lemma Reassociate(a: string, b: string, c: string, d: string, e: string)
    ensures (a + (b + (c + d))) + e == a + (b + (c + (d + e)))
  {
    assert (c + d) + e == c + (d + e);
    assert (b + (c + d)) + e == b + ((c + d) + e);
  }

  lemma BlankDelivers(p: Parser, f: Frame)
    requires p.id == f.id && p.eventType == f.eventType && p.data == f.payload != "" && p.cursor == f.id
    ensures OnLine(p, "") == Delivered(p, f)
  {
  }

  lemma UnknownLine(p: Parser, line: string, rest: string)
    requires '\n' !in line && line != "" && line[|line| - 1] != '\r' && line[0] !in {'i', 'e', 'd'}
    ensures Parse(p, line + "\n" + rest) == Parse(p, rest)
  {
    ParseLine(p, line, rest);
    assert line[|line| - 1] != '\n';
    assert TrimLineEnd(line) == line;
    hide Parse, TrimLineEnd;
    assert OnLine(p, line) == p;
  }

  function NoiseLine(item: Item): (line: string)
    requires !item.Print?
    ensures '\n' !in line && line != "" && line[|line| - 1] != '\r' && line[0] !in {'i', 'e', 'd'}
  {
    if item.Heartbeat? then ": heartbeat" else "retry: 3000"
  }

  lemma NoiseText(item: Item, rest: string)
    requires !item.Print?
    ensures Printed(item) == NoiseLine(item) + "\n" + "\n"
    ensures Printed(item) + rest == NoiseLine(item) + "\n" + ("\n" + rest)
  {
  }

  /** Heartbeats and the retry hint are lines of no known field. */
  lemma ParseNoise(p: Parser, item: Item, rest: string)
    requires Fresh(p) && !item.Print?
    ensures Parse(p, Printed(item) + rest) == Parse(p, rest)
  {
    hide Parse, Printed, NoiseLine;
    NoiseText(item, rest);
    UnknownLine(p, NoiseLine(item), "\n" + rest);
    ParseBlank(p, rest);
    assert OnLine(p, "") == p;
  }

  /** The client's parser after receiving all of `items` and nothing more. */
  function AfterItems(p: Parser, items: seq<Item>): Parser
    decreases |items|
  {
    if items == [] then p
    else AfterItems(if items[0].Print? then Delivered(p, items[0].frame) else p, items[1..])
  }

  lemma {:induction false} ParseItems(p: Parser, items: seq<Item>, rest: string)
    requires Fresh(p) && AllSendable(items)
    ensures Fresh(AfterItems(p, items))
    ensures Parse(p, PrintedAll(items) + rest) == Parse(AfterItems(p, items), rest)
    decreases |items|
  {
    hide Parse, Sendable, Printed;
    if items == [] {
      assert "" + rest == rest;
    } else {
      assert PrintedAll(items) + rest == Printed(items[0]) + (PrintedAll(items[1..]) + rest);
      assert forall i | 0 <= i < |items[1..]| :: items[1..][i] == items[i + 1];
      if items[0].Print? {
        ParseFrame(p, items[0].frame, PrintedAll(items[1..]) + rest);
        ParseItems(Delivered(p, items[0].frame), items[1..], rest);
      } else {
        ParseNoise(p, items[0], PrintedAll(items[1..]) + rest);
        ParseItems(p, items[1..], rest);
      }
    }
  }

  lemma {:induction false} AfterItemsIs(p: Parser, items: seq<Item>)
    ensures AfterItems(p, items).completed == p.completed + Frames(items)
    ensures AfterItems(p, items).cursor == if Frames(items) == [] then p.cursor else Frames(items)[|Frames(items)| - 1].id
    decreases |items|
  {
    if items != [] {
      AfterItemsIs(if items[0].Print? then Delivered(p, items[0].frame) else p, items[1..]);
    }
  }

  /**
   Round trip: whatever frames, heartbeats and retry hints were printed, the client completes exactly the
   frames, in order, and its cursor is the last identifier.
   */
  lemma ParseOfPrint(cursor: string, items: seq<Item>)
    requires AllSendable(items)
    ensures var p := Parse(Connect(cursor), PrintedAll(items));
            && p.completed == Frames(items)
            && p.cursor == if Frames(items) == [] then cursor else Frames(items)[|Frames(items)| - 1].id
  {
    ParseItems(Connect(cursor), items, "");
    AfterItemsIs(Connect(cursor), items);
    assert PrintedAll(items) + "" == PrintedAll(items);
    assert Connect(cursor).completed + Frames(items) == Frames(items);
  }

  /** What is on the wire for an event, a heartbeat and the hint. */
  lemma WireFormat(f: Frame)
    ensures Printed(Print(f)) == ("id: " + f.id + "\n") + (("event: " + f.eventType + "\n") + (("data: " + f.payload + "\n") + "\n"))
    ensures Printed(Heartbeat) == ": heartbeat\n\n" && Printed(Retry) == "retry: 3000\n\n"
  {
    FieldText("id:", "id: ", f.id);
    FieldText("event:", "event: ", f.eventType);
    FieldText("data:", "data: ", f.payload);
    hide FieldLine;
  }

  lemma FieldText(name: string, start: string, value: string)
    requires start == name + " "
    ensures FieldLine(name, value) == start + value + "\n"
  {
  }

  /** Several data lines are one payload with line breaks. */
  lemma DataLinesJoin(p: Parser, first: string, second: string, rest: string)
    requires Fresh(p) && Clean(first) && Clean(second) && first != "" && second != ""
    ensures Parse(p, "data:" + " " + first + "\n" + ("data:" + " " + second + "\n" + ("\n" + rest)))
            == Parse(Parser("", "", "", p.cursor, p.completed + [Frame("", "", first + "\n" + second)]), rest)
  {
    hide Parse, Clean;
    var blank := "\n" + rest;
    var more := "data:" + " " + second + "\n" + blank;
    ParseField(p, "data:", first, more);
    var p1 := WithField(p, "data:", first);
    ParseField(p1, "data:", second, blank);
    ParseBlank(WithField(p1, "data:", second), rest);
  }

  /** Carriage returns at the end of a line make no difference. */
  lemma CarriageReturnsAreDropped(p: Parser, line: string, rest: string)
    requires '\n' !in line
    ensures Parse(p, line + "\r\n" + rest) == Parse(p, line + "\n" + rest)
  {
    var returned := line + "\r";
    assert returned + "\n" + rest == line + "\r\n" + rest;
    ParseLine(p, returned, rest);
    ParseLine(p, line, rest);
    assert returned[..|returned| - 1] == line;
    hide Parse;
    assert TrimLineEnd(returned) == TrimLineEnd(line);
  }

  // ---------------------------------------------------------------- a connection cut anywhere

  /** Where a cut after `k` characters falls: items received in full, characters of the next one. */
  datatype Cut = Cut(complete: nat, inside: nat)

  function CutAt(items: seq<Item>, k: nat): (cut: Cut)
    ensures cut.complete <= |items|
    ensures k <= |PrintedAll(items)| && cut.complete < |items| ==> cut.inside < |Printed(items[cut.complete])|
    decreases |items|
  {
    if items == [] || k < |Printed(items[0])| then Cut(0, k)
    else var rest := CutAt(items[1..], k - |Printed(items[0])|); Cut(rest.complete + 1, rest.inside)
  }

  /** The cut falls after a frame's id line and before the end of its blank line. */
  predicate InWindow(items: seq<Item>, cut: Cut) {
    && cut.complete < |items| && items[cut.complete].Print?
    && |IdLine(items[cut.complete].frame)| <= cut.inside < |Printed(items[cut.complete])|
  }

  lemma CutInsideFrame(p: Parser, f: Frame, k: nat)
    requires Fresh(p) && Sendable(f) && k < |Printed(Print(f))|
    ensures var q := Parse(p, Printed(Print(f))[..k]);
            q.completed == p.completed && q.cursor == if k >= |IdLine(f)| then f.id else p.cursor
  {
    hide Parse, Clean;
    FrameText(f, "");
    var blank := "\n" + "";
    var data := "data:" + " " + f.payload + "\n" + blank;
    var event := "event:" + " " + f.eventType + "\n" + data;
    assert Printed(Print(f)) == "id:" + " " + f.id + "\n" + event;
    ParseCutField(p, "id:", f.id, event, k);
    var n1 := |f.id| + 5;
    if k >= n1 {
      var p1 := WithField(p, "id:", f.id);
      ParseCutField(p1, "event:", f.eventType, data, k - n1);
      var n2 := n1 + |f.eventType| + 8;
      if k >= n2 {
        var p2 := WithField(p1, "event:", f.eventType);
        ParseCutField(p2, "data:", f.payload, blank, k - n2);
        var n3 := n2 + |f.payload| + 7;
        if k >= n3 {
          assert blank[..k - n3] == "";
          NoNewlineNoLine(WithField(p2, "data:", f.payload), "");
        }
      }
    }
  }

  lemma CutInsideNoise(p: Parser, item: Item, k: nat)
    requires Fresh(p) && !item.Print? && k < |Printed(item)|
    ensures Parse(p, Printed(item)[..k]) == p
  {
    hide Parse, NoiseLine;
    var line := NoiseLine(item);
    NoiseText(item, "");
    hide Printed;
    if k <= |line| {
      assert Printed(item)[..k] == line[..k];
      NoNewlineNoLine(p, line[..k]);
    } else {
      assert Printed(item)[..k] == line + "\n" + "";
      UnknownLine(p, line, "");
      NoNewlineNoLine(p, "");
    }
  }

  lemma CutInside(p: Parser, items: seq<Item>, k: nat)
    requires Fresh(p) && AllSendable(items) && items != [] && k < |Printed(items[0])|
    ensures var q := Parse(p, PrintedAll(items)[..k]);
            q.completed == p.completed && q.cursor == if InWindow(items, Cut(0, k)) then items[0].frame.id else p.cursor
  {
    hide Parse, Sendable;
    assert PrintedAll(items)[..k] == Printed(items[0])[..k];
    if items[0].Print? {
      CutInsideFrame(p, items[0].frame, k);
    } else {
      CutInsideNoise(p, items[0], k);
    }
  }

  /** What the client has after an arbitrary cut: the complete frames, and a cursor that may already be one ahead. */
  lemma {:induction false} ParseOfCut(p: Parser, items: seq<Item>, k: nat)
    requires Fresh(p) && AllSendable(items) && k <= |PrintedAll(items)|
    ensures var q, cut := Parse(p, PrintedAll(items)[..k]), CutAt(items, k);
            var got := AfterItems(p, items[..cut.complete]);
            && q.completed == got.completed
            && q.cursor == if InWindow(items, cut) then items[cut.complete].frame.id else got.cursor
    decreases |items|
  {
    hide Parse, Sendable, InWindow, Printed;
    var cut := CutAt(items, k);
    if items == [] {
      NoNewlineNoLine(p, "");
      assert !InWindow(items, cut) by { NotInWindow(items, cut); }
    } else if k < |Printed(items[0])| {
      CutInside(p, items, k);
    } else {
      var tail, j := items[1..], k - |Printed(items[0])|;
      assert forall i | 0 <= i < |tail| :: tail[i] == items[i + 1];
      assert PrintedAll(items)[..k] == Printed(items[0]) + PrintedAll(tail)[..j];
      var p1 := if items[0].Print? then Delivered(p, items[0].frame) else p;
      if items[0].Print? {
        ParseFrame(p, items[0].frame, PrintedAll(tail)[..j]);
      } else {
        ParseNoise(p, items[0], PrintedAll(tail)[..j]);
      }
      ParseOfCut(p1, tail, j);
      var head := items[..cut.complete];
      assert cut == Cut(CutAt(tail, j).complete + 1, CutAt(tail, j).inside);
      assert head[0] == items[0] && head[1..] == tail[..cut.complete - 1];
      assert AfterItems(p, head) == AfterItems(p1, head[1..]);
      WindowShifts(items, cut);
    }
  }

  lemma NotInWindow(items: seq<Item>, cut: Cut)
    requires cut.complete >= |items|
    ensures !InWindow(items, cut)
  {
  }

  lemma WindowShifts(items: seq<Item>, cut: Cut)
    requires items != [] && cut.complete > 0
    ensures InWindow(items, cut) <==> InWindow(items[1..], Cut(cut.complete - 1, cut.inside))
    ensures InWindow(items, cut) ==> cut.complete < |items| && items[cut.complete] == items[1..][cut.complete - 1] && items[cut.complete].Print?
  {
  }

  // ---------------------------------------------------------------- the paged query and the handler

  /** The user's SSE rows in index order. */
  predicate Increasing(rows: seq<Frame>) { forall i, j | 0 <= i < j < |rows| :: Less(rows[i].id, rows[j].id) }

  /** WHERE id > $2 */
  function After(rows: seq<Frame>, cursor: string): (found: seq<Frame>)
    ensures |found| <= |rows|
  {
    if rows == [] then []
    else (if Less(cursor, rows[0].id) then [rows[0]] else []) + After(rows[1..], cursor)
  }

  function Page(rows: seq<Frame>, limit: nat): seq<Frame> { rows[..if limit <= |rows| then limit else |rows|] }

  const MAX_PAGE := 100

  /** A page is full, or nothing comes after it. */
  lemma PageIs(page: seq<Frame>, rest: seq<Frame>, most: nat)
    requires |page| == most || (|page| <= most && rest == [])
    ensures Page(page + rest, most) == page
  {
  }

  lemma AfterNext(rows: seq<Frame>, after: string, next: nat)
    requires next < |rows|
    ensures After(rows[next..], after)
            == (if Less(after, rows[next].id) then [rows[next]] else []) + After(rows[next + 1..], after)
  {
    hide Less;
    assert rows[next..][0] == rows[next] && rows[next..][1..] == rows[next + 1..];
  }

  method ListSse(rows: seq<Frame>, after: string, limit: int) returns (page: seq<Frame>)
    ensures page == Page(After(rows, after), if limit <= 0 || limit > 100 then 100 else limit)
  {
    var most := if limit <= 0 || limit > MAX_PAGE then MAX_PAGE else limit;
    page := [];
    var next := 0;
    assert rows[0..] == rows;
    assert After([], after) == [];
    hide After, Less, Page;
    while next < |rows| && |page| < most
      invariant 0 <= next <= |rows| && |page| <= most
      invariant After(rows, after) == page + After(rows[next..], after)
      decreases |rows| - next
    {
      AfterNext(rows, after, next);
      ghost var before := page;
      if Less(after, rows[next].id) {
        page := page + [rows[next]];
        assert before + ([rows[next]] + After(rows[next + 1..], after)) == page + After(rows[next + 1..], after);
      } else {
        assert [] + After(rows[next + 1..], after) == After(rows[next + 1..], after);
      }
      next := next + 1;
    }
    assert next == |rows| ==> rows[next..] == [];
    PageIs(page, After(rows[next..], after), most);
  }

  /** The rows after a cursor are a suffix of the table; moving the cursor to one of them leaves those behind it. */
  lemma {:induction false} AfterIsSuffix(rows: seq<Frame>, cursor: string) returns (from: nat)
    requires Increasing(rows)
    ensures from <= |rows| && After(rows, cursor) == rows[from..]
    ensures forall i | 0 <= i < |rows| :: Less(cursor, rows[i].id) <==> from <= i
  {
    hide Less;
    if rows == [] {
      return 0;
    }
    if Less(cursor, rows[0].id) {
      forall i | 0 <= i < |rows|
        ensures Less(cursor, rows[i].id)
      {
        LessIsStrictOrder(cursor, rows[0].id, rows[i].id);
      }
      AfterAll(rows, cursor);
      from := 0;
    } else {
      var tail := rows[1..];
      assert Increasing(tail);
      var rest := AfterIsSuffix(tail, cursor);
      assert forall i | 0 < i < |rows| :: rows[i] == tail[i - 1];
      from := rest + 1;
      assert After(rows, cursor) == tail[rest..] == rows[from..];
    }
  }

  lemma {:induction false} AfterAll(rows: seq<Frame>, cursor: string)
    requires forall i | 0 <= i < |rows| :: Less(cursor, rows[i].id)
    ensures After(rows, cursor) == rows
  {
    hide Less;
    if rows != [] {
      assert forall i | 0 <= i < |rows[1..]| :: rows[1..][i] == rows[i + 1];
      AfterAll(rows[1..], cursor);
      assert rows == [rows[0]] + rows[1..];
    }
  }

  lemma AfterRow(rows: seq<Frame>, i: nat)
    requires Increasing(rows) && i < |rows|
    ensures After(rows, rows[i].id) == rows[i + 1..]
  {
    var from := AfterIsSuffix(rows, rows[i].id);
    LessIsStrictOrder(rows[i].id, rows[i].id, rows[i].id);
    if i + 1 < |rows| {
      assert Less(rows[i].id, rows[i + 1].id);
    }
  }

  /** Resuming after the first `n` rows of a listing gives the rest of that listing. */
  lemma ResumeAfter(rows: seq<Frame>, cursor: string, n: nat)
    requires Increasing(rows) && n <= |After(rows, cursor)|
    ensures After(rows, if n == 0 then cursor else After(rows, cursor)[n - 1].id) == After(rows, cursor)[n..]
  {
    var from := AfterIsSuffix(rows, cursor);
    if n > 0 {
      AfterRow(rows, from + n - 1);
    }
  }

  /**
   One turn of the handler's loop: the rows it can see, and whether the heartbeat is due when there is nothing
   to send. What a turn sees is some of the rows there will ever be, in index order: a row may commit after
   later identifiers have, and retention may remove it.
   */
  datatype Round = Round(rows: seq<Frame>, beat: bool)

  predicate Sees(rows: seq<Frame>, all: seq<Frame>) { Increasing(rows) && forall x | x in rows :: x in all }

  predicate Snapshots(rounds: seq<Round>, all: seq<Frame>) { forall i | 0 <= i < |rounds| :: Sees(rounds[i].rows, all) }

  function Prints(page: seq<Frame>): seq<Item> { seq(|page|, i requires 0 <= i < |page| => Print(page[i])) }

  function PageOf(cursor: string, r: Round): seq<Frame> { Page(After(r.rows, cursor), MAX_PAGE) }

  function RoundItems(cursor: string, r: Round): seq<Item> {
    var page := PageOf(cursor, r);
    if page != [] then Prints(page) else if r.beat then [Heartbeat] else []
  }

  function LastId(frames: seq<Frame>, cursor: string): string { if frames == [] then cursor else frames[|frames| - 1].id }

  function NextCursor(cursor: string, r: Round): string { LastId(PageOf(cursor, r), cursor) }

  /** What the handler writes after its retry hint. */
  function Handled(cursor: string, rounds: seq<Round>): seq<Item>
    decreases |rounds|
  {
    if rounds == [] then []
    else RoundItems(cursor, rounds[0]) + Handled(NextCursor(cursor, rounds[0]), rounds[1..])
  }

  /** The inner loop: print each row of the page and move the cursor to it. */
  method WritePage(page: seq<Frame>, start: string) returns (written: seq<Item>, cursor: string)
    ensures written == Prints(page) && cursor == LastId(page, start)
  {
    written, cursor := [], start;
    for i := 0 to |page|
      invariant written == Prints(page[..i]) && cursor == LastId(page[..i], start)
    {
      assert page[..i + 1] == page[..i] + [page[i]];
      written := written + [Print(page[i])];
      cursor := page[i].id;
    }
    assert page[..|page|] == page;
  }

  method Events(lastEventId: string, rounds: seq<Round>) returns (written: seq<Item>)
    ensures written == [Retry] + Handled(lastEventId, rounds)
  {
    hide After, Prints, Page;
    written := [Retry];
    var cursor := lastEventId;
    for turn := 0 to |rounds|
      invariant [Retry] + Handled(lastEventId, rounds) == written + Handled(cursor, rounds[turn..])
    {
      assert rounds[turn..][0] == rounds[turn] && rounds[turn..][1..] == rounds[turn + 1..];
      var page := ListSse(rounds[turn].rows, cursor, MAX_PAGE);
      ghost var items, rest := RoundItems(cursor, rounds[turn]), Handled(LastId(page, cursor), rounds[turn + 1..]);
      ghost var before := written;
      if |page| > 0 {
        var printed, next := WritePage(page, cursor);
        written, cursor := written + printed, next;
      } else if rounds[turn].beat {
        written := written + [Heartbeat];
      }
      assert written == before + items;
      assert before + (items + rest) == (before + items) + rest;
    }
  }

  lemma {:induction false} FramesOfPrints(page: seq<Frame>, more: seq<Item>)
    ensures Frames(Prints(page) + more) == page + Frames(more)
  {
    if page == [] {
      assert Prints(page) + more == more;
    } else {
      FramesOfPrints(page[1..], more);
      assert (Prints(page) + more)[1..] == Prints(page[1..]) + more;
      assert page == [page[0]] + page[1..];
    }
  }

  lemma RoundFrames(cursor: string, r: Round, later: seq<Item>)
    ensures Frames(RoundItems(cursor, r) + later) == PageOf(cursor, r) + Frames(later)
  {
    hide After;
    var page := PageOf(cursor, r);
    if page != [] {
      hide Frames;
      FramesOfPrints(page, later);
    } else if r.beat {
      assert ([Heartbeat] + later)[1..] == later;
    } else {
      assert [] + later == later;
    }
  }

  // ---------------------------------------------------------------- which rows one connection is sent

  /** How a row compares with two cursors in order. */
  lemma PastBoth(cursor: string, next: string, id: string)
    requires !Less(next, cursor)
    ensures Less(next, id) ==> Less(cursor, id)
    ensures !Less(cursor, id) ==> !Less(next, id)
  {
    LessIsStrictOrder(cursor, next, id);
  }

  lemma OrderChain(a: string, b: string, c: string)
    requires !Less(b, a) && !Less(c, b)
    ensures !Less(c, a)
  {
    LessIsStrictOrder(c, a, b);
    LessIsStrictOrder(a, b, b);
  }

  lemma {:induction false} AfterMembers(rows: seq<Frame>, cursor: string, x: Frame)
    ensures x in After(rows, cursor) <==> x in rows && Less(cursor, x.id)
  {
    hide Less;
    if rows != [] {
      AfterMembers(rows[1..], cursor, x);
    }
  }

  /** Rows in order, all after the cursor. */
  predicate Listing(rows: seq<Frame>, cursor: string) { Increasing(rows) && forall x | x in rows :: Less(cursor, x.id) }

  lemma AfterIsListing(rows: seq<Frame>, cursor: string)
    requires Increasing(rows)
    ensures Listing(After(rows, cursor), cursor)
  {
    var from := AfterIsSuffix(rows, cursor);
    hide After, Less;
  }

  lemma ReachedIsLater(rows: seq<Frame>, cursor: string)
    requires Listing(rows, cursor)
    ensures !Less(LastId(rows, cursor), cursor)
  {
    hide Less;
    LessIsStrictOrder(cursor, LastId(rows, cursor), cursor);
  }

  /** Taking the first rows of a listing is taking those up to the identifier reached. */
  lemma TakeMembers(rows: seq<Frame>, n: nat, cursor: string, x: Frame)
    requires Listing(rows, cursor) && n <= |rows|
    ensures x in rows[..n] <==> x in rows && !Less(LastId(rows[..n], cursor), x.id)
  {
    hide Less;
    if n > 0 {
      var last := rows[n - 1];
      if x in rows {
        var i :| 0 <= i < |rows| && rows[i] == x;
        LessIsStrictOrder(x.id, last.id, x.id);
        assert i < n ==> rows[..n][i] == x;
        assert x in rows[..n] ==> exists j :: 0 <= j < n && rows[j] == x;
      }
    }
  }

  /** What a turn prints: the rows it sees between the cursor before and after it. */
  lemma PageMembers(cursor: string, r: Round, x: Frame)
    requires Increasing(r.rows)
    ensures x in PageOf(cursor, r) <==> x in r.rows && Less(cursor, x.id) && !Less(NextCursor(cursor, r), x.id)
    ensures Listing(PageOf(cursor, r), cursor) && !Less(NextCursor(cursor, r), cursor)
  {
    var found := After(r.rows, cursor);
    AfterIsListing(r.rows, cursor);
    AfterMembers(r.rows, cursor, x);
    hide Less, After;
    var page := PageOf(cursor, r);
    TakeMembers(found, |page|, cursor, x);
    assert page == found[..|page|];
    ReachedIsLater(page, cursor);
  }

  /** The cursor moves past the row in a turn that does not see it. */
  predicate Overtaken(cursor: string, rounds: seq<Round>, x: Frame)
    decreases |rounds|
  {
    rounds != [] &&
    var next := NextCursor(cursor, rounds[0]);
    if Less(next, x.id) then Overtaken(next, rounds[1..], x) else x !in rounds[0].rows
  }

  lemma ListingJoin(a: seq<Frame>, b: seq<Frame>, cursor: string, next: string)
    requires Listing(a, cursor) && Listing(b, next) && !Less(next, cursor)
    requires forall x | x in a :: !Less(next, x.id)
    ensures Listing(a + b, cursor)
  {
    hide Less;
    forall x | x in b
      ensures Less(cursor, x.id)
    {
      PastBoth(cursor, next, x.id);
    }
    forall i, j | 0 <= i < |a| <= j < |a + b|
      ensures Less((a + b)[i].id, (a + b)[j].id)
    {
      assert (a + b)[j] in b && a[i] in a;
      PastBoth(a[i].id, next, (a + b)[j].id);
    }
  }

  lemma PageJoin(page: seq<Frame>, later: seq<Frame>, cursor: string)
    requires Listing(page, cursor) && Listing(later, LastId(page, cursor))
    ensures Listing(page + later, cursor)
    ensures LastId(page + later, cursor) == LastId(later, LastId(page, cursor))
  {
    var next := LastId(page, cursor);
    hide Less;
    ReachedIsLater(page, cursor);
    forall x | x in page
      ensures !Less(next, x.id)
    {
      TakeMembers(page, |page|, cursor, x);
      assert page[..|page|] == page;
    }
    ListingJoin(page, later, cursor, next);
    if later == [] {
      assert page + later == page;
    }
  }

  /** Over any number of turns: what the handler sends is exactly the rows its cursor passed while they were visible. */
  lemma {:induction false} HandlerSends(cursor: string, rounds: seq<Round>, all: seq<Frame>, x: Frame)
    requires Snapshots(rounds, all)
    ensures var sent := Frames(Handled(cursor, rounds));
            && Listing(sent, cursor) && !Less(LastId(sent, cursor), cursor)
            && (x in sent <==> x in all && Less(cursor, x.id) && !Less(LastId(sent, cursor), x.id) && !Overtaken(cursor, rounds, x))
    decreases |rounds|
  {
    hide Less, Increasing, PageOf, RoundItems, NextCursor;
    if rounds == [] {
      LessIsStrictOrder(cursor, cursor, cursor);
      assert Listing([], cursor) by { hide *; NoRows(cursor); }
    } else {
      var page, next := PageOf(cursor, rounds[0]), NextCursor(cursor, rounds[0]);
      var later := Frames(Handled(next, rounds[1..]));
      PageMembers(cursor, rounds[0], x);
      RoundFrames(cursor, rounds[0], Handled(next, rounds[1..]));
      HandlerSends(next, rounds[1..], all, x);
      assert next == LastId(page, cursor) by { NextIsLast(cursor, rounds[0]); }
      PageJoin(page, later, cursor);
      var last := LastId(later, next);
      PastBoth(cursor, next, x.id);
      PastBoth(next, last, x.id);
      OrderChain(cursor, next, last);
    }
  }

  lemma NoRows(cursor: string)
    ensures Listing([], cursor)
  {
  }

  lemma NextIsLast(cursor: string, r: Round)
    ensures NextCursor(cursor, r) == LastId(PageOf(cursor, r), cursor)
  {
  }

  /** Two listings of the same rows are the same listing. */
  lemma {:induction false} SameRows(a: seq<Frame>, b: seq<Frame>)
    requires Increasing(a) && Increasing(b) && forall x :: x in a <==> x in b
    ensures a == b
  {
    hide Less;
    if a == [] {
      if b != [] {
        FirstIsMember(b);
      }
    } else if b == [] {
      FirstIsMember(a);
    } else {
      assert a[0] in b && b[0] in a;
      LessIsStrictOrder(a[0].id, b[0].id, a[0].id);
      assert a[0] == b[0];
      forall x
        ensures x in a[1..] <==> x in b[1..]
      {
        RestMembers(a, x);
        RestMembers(b, x);
      }
      SameRows(a[1..], b[1..]);
      assert a == [a[0]] + a[1..] && b == [b[0]] + b[1..];
    }
  }

  lemma FirstIsMember(a: seq<Frame>)
    requires a != []
    ensures a[0] in a
  {
  }

  lemma RestMembers(a: seq<Frame>, x: Frame)
    requires Increasing(a) && a != []
    ensures x in a[1..] <==> x in a && x != a[0]
  {
    hide Less;
    LessIsStrictOrder(x.id, x.id, x.id);
    assert a == [a[0]] + a[1..];
  }

  /** A part of a listing followed by what is after the cursor reached is the whole listing if no row was left out. */
  lemma NothingMissing(all: seq<Frame>, cursor: string, got: seq<Frame>, last: string)
    requires Increasing(all) && Listing(got, cursor) && !Less(last, cursor)
    requires forall x | x in got :: x in all && !Less(last, x.id)
    ensures got + After(all, last) == After(all, cursor)
            <==> forall x | x in After(all, cursor) && !Less(last, x.id) :: x in got
  {
    var whole, rest := After(all, cursor), After(all, last);
    AfterIsListing(all, cursor);
    AfterIsListing(all, last);
    forall x
      ensures x in whole <==> x in all && Less(cursor, x.id)
      ensures x in rest <==> x in all && Less(last, x.id)
      ensures Less(last, x.id) ==> Less(cursor, x.id)
    {
      AfterMembers(all, cursor, x);
      AfterMembers(all, last, x);
      PastBoth(cursor, last, x.id);
    }
    hide Less, After;
    if forall x | x in whole && !Less(last, x.id) :: x in got {
      forall i, j | 0 <= i < |got| <= j < |got + rest|
        ensures Less((got + rest)[i].id, (got + rest)[j].id)
      {
        assert got[i] in got && (got + rest)[j] in rest;
        PastBoth(got[i].id, last, (got + rest)[j].id);
      }
      assert forall x :: x in got + rest <==> x in whole;
      SameRows(got + rest, whole);
    } else {
      var x :| x in whole && !Less(last, x.id) && x !in got;
      assert x !in got + rest;
    }
  }

  /**
   Paging sends the rows after the cursor, in order, without a gap or a repetition, if and only if no row was
   overtaken: became visible only after the cursor had passed its identifier.
   */
  lemma HandlerSendsInOrder(cursor: string, rounds: seq<Round>, all: seq<Frame>)
    requires Increasing(all) && Snapshots(rounds, all)
    ensures var sent := Frames(Handled(cursor, rounds));
            && Listing(sent, cursor) && !Less(LastId(sent, cursor), cursor)
            && (sent + After(all, LastId(sent, cursor)) == After(all, cursor)
                <==> forall x | x in After(all, cursor) && !Less(LastId(sent, cursor), x.id) :: !Overtaken(cursor, rounds, x))
  {
    var sent := Frames(Handled(cursor, rounds));
    var last := LastId(sent, cursor);
    forall x
      ensures Listing(sent, cursor) && !Less(last, cursor)
      ensures x in sent <==> x in all && Less(cursor, x.id) && !Less(last, x.id) && !Overtaken(cursor, rounds, x)
      ensures x in After(all, cursor) <==> x in all && Less(cursor, x.id)
    {
      hide *;
      HandlerSends(cursor, rounds, all, x);
      AfterMembers(all, cursor, x);
    }
    var some := Frame("", "", "");
    assert some in sent || some !in sent;
    hide Less, After, Handled, Frames, LastId, Overtaken, Increasing;
    NothingMissing(all, cursor, sent, last);
  }

  /** The cursor before turn `k`. */
  function CursorAt(cursor: string, rounds: seq<Round>, k: nat): string
    requires k <= |rounds|
    decreases k
  {
    if k == 0 then cursor else CursorAt(NextCursor(cursor, rounds[0]), rounds[1..], k - 1)
  }

  lemma {:induction false} CursorAdvances(cursor: string, rounds: seq<Round>, k: nat)
    requires k <= |rounds| && forall i | 0 <= i < |rounds| :: Increasing(rounds[i].rows)
    ensures !Less(CursorAt(cursor, rounds, k), cursor)
    decreases k
  {
    hide Less, Increasing, PageOf, NextCursor, Listing;
    if k == 0 {
      LessIsStrictOrder(cursor, cursor, cursor);
    } else {
      var next := NextCursor(cursor, rounds[0]);
      PageMembers(cursor, rounds[0], Frame("", "", ""));
      assert forall i | 0 <= i < |rounds[1..]| :: rounds[1..][i] == rounds[i + 1];
      CursorAdvances(next, rounds[1..], k - 1);
      OrderChain(cursor, next, CursorAt(next, rounds[1..], k - 1));
    }
  }

  /** A row whose transaction commits before turn `k` is overtaken exactly if the cursor had reached its identifier by then. */
  lemma {:induction false} OvertakenExactly(cursor: string, rounds: seq<Round>, x: Frame, k: nat)
    requires k <= |rounds| && forall i | 0 <= i < |rounds| :: Increasing(rounds[i].rows)
    requires Less(cursor, x.id) && forall i | 0 <= i < |rounds| :: x in rounds[i].rows <==> k <= i
    ensures Overtaken(cursor, rounds, x) <==> !Less(CursorAt(cursor, rounds, k), x.id)
    decreases |rounds|
  {
    hide Less, Increasing, PageOf, NextCursor;
    if rounds != [] {
      var next, tail := NextCursor(cursor, rounds[0]), rounds[1..];
      assert forall i | 0 <= i < |tail| :: tail[i] == rounds[i + 1];
      if Less(next, x.id) {
        OvertakenExactly(next, tail, x, if k == 0 then 0 else k - 1);
      } else if k > 0 {
        CursorAdvances(next, tail, k - 1);
        PastBoth(next, CursorAt(next, tail, k - 1), x.id);
      }
    }
  }

  /** Where rows become visible in the order of their identifiers, none is overtaken. */
  lemma {:induction false} InOrderCommitsAreNotOvertaken(cursor: string, rounds: seq<Round>, all: seq<Frame>, x: Frame)
    requires Increasing(all) && x in After(all, cursor)
    requires forall i | 0 <= i < |rounds| :: rounds[i].rows <= all
    ensures !Overtaken(cursor, rounds, x)
    decreases |rounds|
  {
    AfterMembers(all, cursor, x);
    hide Less, After, PageOf, NextCursor;
    if rounds != [] {
      var rows, next := rounds[0].rows, NextCursor(cursor, rounds[0]);
      if Less(next, x.id) {
        AfterMembers(all, next, x);
        assert forall i | 0 <= i < |rounds[1..]| :: rounds[1..][i] == rounds[i + 1];
        InOrderCommitsAreNotOvertaken(next, rounds[1..], all, x);
      } else {
        var i :| 0 <= i < |all| && all[i] == x;
        var n := ReachedRow(cursor, rounds[0], x);
        LessIsStrictOrder(next, x.id, next);
        assert rows == all[..|rows|] && rows[n] == all[n];
        assert i <= n;
        assert rows[i] == x;
      }
    }
  }

  lemma ReachedRow(cursor: string, r: Round, x: Frame) returns (n: nat)
    requires Less(cursor, x.id) && !Less(NextCursor(cursor, r), x.id)
    ensures n < |r.rows| && r.rows[n].id == NextCursor(cursor, r)
  {
    var page := PageOf(cursor, r);
    assert page != [];
    var last := page[|page| - 1];
    assert last in After(r.rows, cursor);
    AfterMembers(r.rows, cursor, last);
    n :| 0 <= n < |r.rows| && r.rows[n] == last;
  }

  /** Two rows, of which the one minted first commits second: it is overtaken and never sent. */
  lemma LateCommitIsOvertaken(a: Frame, b: Frame)
    requires Less("", a.id) && Less(a.id, b.id)
    ensures var rounds := [Round([b], false), Round([a, b], false)];
            && Snapshots(rounds, [a, b]) && Increasing([a, b])
            && Frames(Handled("", rounds)) == [b]
            && After([a, b], b.id) == []
            && a in After([a, b], "") && Overtaken("", rounds, a)
  {
    LessIsStrictOrder("", a.id, b.id);
    LessIsStrictOrder(b.id, a.id, b.id);
    var first, second := Round([b], false), Round([a, b], false);
    SingleAfter(b, "");
    SingleAfter(b, b.id);
    PairAfter(a, b, "");
    PairAfter(a, b, b.id);
    hide Less, After;
    assert NextCursor("", first) == b.id;
    assert Prints([b]) == [Print(b)];
    assert PageOf(b.id, second) == [];
    assert Handled(b.id, [second]) == [] by { assert [second][1..] == []; }
    assert [first, second][1..] == [second];
    assert Handled("", [first, second]) == [Print(b)];
    assert Frames([Print(b)]) == [b] by { assert [Print(b)][1..] == []; }
  }

  lemma SingleAfter(x: Frame, cursor: string)
    ensures After([x], cursor) == if Less(cursor, x.id) then [x] else []
  {
    assert [x][1..] == [];
  }

  lemma PairAfter(x: Frame, y: Frame, cursor: string)
    ensures After([x, y], cursor) == (if Less(cursor, x.id) then [x] else []) + (if Less(cursor, y.id) then [y] else [])
  {
    assert [x, y][1..] == [y];
    SingleAfter(y, cursor);
  }

  // ---------------------------------------------------------------- which events the client passes on

  /** What an event is about: buildEvent's fields, some of which depend on the processing mode. */
  datatype Notice = Notice(eventId: string, scan: bool, documentId: string, status: string, resource: string, occurredAt: string)

  function Fields(n: Notice): map<string, string> {
    var kind := if n.scan then "scan" else "document";
    map["eventId" := n.eventId, "type" := kind + "." + n.status, kind + "Id" := n.documentId,
        "status" := n.status, "resource" := n.resource, "occurredAt" := n.occurredAt]
  }

  /** `encode` prints such fields as JSON and `names` finds a non-empty documentId among them. */
  ghost predicate ReadsBack(encode: map<string, string> -> string, names: string -> bool) {
    forall n: Notice :: names(encode(Fields(n))) <==> "documentId" in Fields(n) && Fields(n)["documentId"] != ""
  }

  /** Notices of scans carry a scanId instead, so the client drops them. */
  lemma NoticeIsPassedOnExactly(encode: map<string, string> -> string, names: string -> bool, n: Notice)
    requires ReadsBack(encode, names)
    ensures names(encode(Fields(n))) <==> !n.scan && n.documentId != ""
  {
    if n.scan {
      assert "scan" + "Id" == "scanId" && |"scanId"| != |"documentId"|;
      assert |"eventId"| != |"documentId"| && |"resource"| != |"documentId"| && "occurredAt"[0] != "documentId"[0];
    } else {
      assert "document" + "Id" == "documentId";
      assert "occurredAt"[0] != "documentId"[0] && |"resource"| != |"documentId"|;
    }
  }

  lemma {:induction false} BroadcastMembers(names: string -> bool, events: seq<Frame>, x: Frame)
    ensures x in Broadcast(names, events) <==> x in events && names(x.payload)
  {
    if events != [] {
      BroadcastMembers(names, events[..|events| - 1], x);
      assert events == events[..|events| - 1] + [events[|events| - 1]];
    }
  }

  lemma {:induction false} BroadcastListing(names: string -> bool, events: seq<Frame>, cursor: string)
    requires Listing(events, cursor)
    ensures Listing(Broadcast(names, events), cursor)
  {
    hide Less;
    if events != [] {
      var init, last := events[..|events| - 1], events[|events| - 1];
      BroadcastListing(names, init, cursor);
      forall x | x in Broadcast(names, init)
        ensures Less(x.id, last.id)
      {
        BroadcastMembers(names, init, x);
      }
    }
  }

  // ---------------------------------------------------------------- exactly once across reconnects

  /** One connection: the turns of its handler, and how much of what the handler wrote arrived. */
  datatype Visit = Visit(rounds: seq<Round>, received: nat)

  function Written(cursor: string, v: Visit): seq<Item> { [Retry] + Handled(cursor, v.rounds) }

  function Sent(cursor: string, v: Visit): seq<Frame> { Frames(Written(cursor, v)) }

  predicate LegalVisit(all: seq<Frame>, cursor: string, v: Visit) {
    Snapshots(v.rounds, all) && v.received <= |PrintedAll(Written(cursor, v))|
  }

  lemma {:induction false} PrintedFrameIsListed(items: seq<Item>, i: nat)
    requires i < |items| && items[i].Print?
    ensures items[i].frame in Frames(items)
  {
    if i > 0 {
      PrintedFrameIsListed(items[1..], i - 1);
    }
  }

  lemma SentIs(cursor: string, v: Visit)
    ensures Sent(cursor, v) == Frames(Handled(cursor, v.rounds))
  {
    assert Written(cursor, v)[1..] == Handled(cursor, v.rounds);
  }

  lemma WrittenIsSendable(all: seq<Frame>, cursor: string, v: Visit)
    requires LegalVisit(all, cursor, v) && forall x | x in all :: Sendable(x)
    ensures AllSendable(Written(cursor, v))
  {
    var items := Written(cursor, v);
    SentIs(cursor, v);
    hide Sendable, Handled, Snapshots, Overtaken, Written;
    forall i | 0 <= i < |items| && items[i].Print?
      ensures Sendable(items[i].frame)
    {
      PrintedFrameIsListed(items, i);
      HandlerSends(cursor, v.rounds, all, items[i].frame);
    }
  }

  function Heard(cursor: string, v: Visit): Parser
    requires v.received <= |PrintedAll(Written(cursor, v))|
  {
    Parse(Connect(cursor), PrintedAll(Written(cursor, v))[..v.received])
  }

  lemma {:induction false} FramesOfPrefix(items: seq<Item>, n: nat)
    requires n <= |items|
    ensures |Frames(items[..n])| <= |Frames(items)| && Frames(items[..n]) == Frames(items)[..|Frames(items[..n])|]
    ensures n < |items| && items[n].Print? ==>
              |Frames(items[..n])| < |Frames(items)| && Frames(items)[|Frames(items[..n])|] == items[n].frame
  {
    if n > 0 {
      FramesOfPrefix(items[1..], n - 1);
      assert items[..n][1..] == items[1..][..n - 1];
    }
  }

  /** The frame whose id line arrived and whose blank line did not. */
  function Swallowed(cursor: string, v: Visit): seq<Frame> {
    var items := Written(cursor, v);
    var cut := CutAt(items, v.received);
    if InWindow(items, cut) then [items[cut.complete].frame] else []
  }

  lemma SwallowedIs(cursor: string, v: Visit)
    ensures var items := Written(cursor, v);
            var cut := CutAt(items, v.received);
            if InWindow(items, cut)
            then cut.complete < |items| && items[cut.complete].Print? && Swallowed(cursor, v) == [items[cut.complete].frame]
            else Swallowed(cursor, v) == []
  {
  }

  lemma HeardParsed(cursor: string, v: Visit)
    requires AllSendable(Written(cursor, v)) && v.received <= |PrintedAll(Written(cursor, v))|
    ensures var items := Written(cursor, v);
            var head := items[..CutAt(items, v.received).complete];
            && Heard(cursor, v).completed == Frames(head)
            && Heard(cursor, v).cursor == if Swallowed(cursor, v) != [] then Swallowed(cursor, v)[0].id else LastId(Frames(head), cursor)
  {
    hide PrintedAll, AllSendable, CutAt, AfterItems, Frames, Parse, InWindow, Written;
    var items := Written(cursor, v);
    ParseOfCut(Connect(cursor), items, v.received);
    AfterItemsIs(Connect(cursor), items[..CutAt(items, v.received).complete]);
    SwallowedIs(cursor, v);
    hide Swallowed;
  }

  lemma LostFrame(cursor: string, v: Visit, n: nat)
    requires n == |Frames(Written(cursor, v)[..CutAt(Written(cursor, v), v.received).complete])|
    ensures |Swallowed(cursor, v)| <= 1 && n + |Swallowed(cursor, v)| <= |Sent(cursor, v)|
    ensures Sent(cursor, v)[n..n + |Swallowed(cursor, v)|] == Swallowed(cursor, v)
    ensures Frames(Written(cursor, v)[..CutAt(Written(cursor, v), v.received).complete]) == Sent(cursor, v)[..n]
  {
    hide Written, Frames, CutAt, InWindow, Swallowed;
    SwallowedIs(cursor, v);
    FramesOfPrefix(Written(cursor, v), CutAt(Written(cursor, v), v.received).complete);
  }

  /** A connection completes the first frames it was sent; a cut in the window swallows the next one. */
  lemma HeardIs(cursor: string, v: Visit) returns (n: nat)
    requires AllSendable(Written(cursor, v)) && v.received <= |PrintedAll(Written(cursor, v))|
    ensures n + |Swallowed(cursor, v)| <= |Sent(cursor, v)| && Heard(cursor, v).completed == Sent(cursor, v)[..n]
    ensures Swallowed(cursor, v) == Sent(cursor, v)[n..n + |Swallowed(cursor, v)|]
    ensures Heard(cursor, v).cursor == LastId(Sent(cursor, v)[..n + |Swallowed(cursor, v)|], cursor)
  {
    hide *;
    n := |Frames(Written(cursor, v)[..CutAt(Written(cursor, v), v.received).complete])|;
    HeardParsed(cursor, v);
    LostFrame(cursor, v, n);
    TakeFacts(Sent(cursor, v), n, Swallowed(cursor, v), cursor);
  }

  lemma TakeFacts(sent: seq<Frame>, n: nat, lost: seq<Frame>, cursor: string)
    requires n + |lost| <= |sent| && lost == sent[n..n + |lost|] && |lost| <= 1
    ensures LastId(sent[..n + |lost|], cursor) == if lost != [] then lost[0].id else LastId(sent[..n], cursor)
  {
  }

  lemma SplitMembers(sent: seq<Frame>, n: nat, m: nat, x: Frame)
    requires n <= m <= |sent| && Increasing(sent)
    ensures x in sent[..n] <==> x in sent[..m] && x !in sent[n..m]
  {
    hide Less;
    assert sent[..m] == sent[..n] + sent[n..m];
    forall i, j | 0 <= i < n <= j < m
      ensures sent[i] != sent[j]
    {
      LessIsStrictOrder(sent[i].id, sent[i].id, sent[i].id);
    }
  }

  /** Lost on the way: a turn overtook the row, or the cut swallowed it. */
  predicate LostBy(cursor: string, v: Visit, x: Frame) { Overtaken(cursor, v.rounds, x) || x in Swallowed(cursor, v) }

  /** One connection completes exactly the rows its cursor passed and did not lose, in order. */
  lemma VisitDelivers(all: seq<Frame>, cursor: string, v: Visit, x: Frame)
    requires LegalVisit(all, cursor, v) && forall y | y in all :: Sendable(y)
    ensures var p := Heard(cursor, v);
            && Listing(p.completed, cursor) && !Less(p.cursor, cursor)
            && (x in p.completed <==> x in all && Less(cursor, x.id) && !Less(p.cursor, x.id) && !LostBy(cursor, v, x))
  {
    hide Less, Listing, Heard, LegalVisit, Sendable, Overtaken, Swallowed, Sent, Written;
    VisitSends(all, cursor, v, x);
    WrittenIsSendable(all, cursor, v);
    var n := HeardIs(cursor, v);
    CutListing(Sent(cursor, v), cursor, n, n + |Swallowed(cursor, v)|, x);
  }

  lemma VisitSends(all: seq<Frame>, cursor: string, v: Visit, x: Frame)
    requires LegalVisit(all, cursor, v)
    ensures v.received <= |PrintedAll(Written(cursor, v))|
    ensures Listing(Sent(cursor, v), cursor)
    ensures x in Sent(cursor, v)
            <==> x in all && Less(cursor, x.id) && !Less(LastId(Sent(cursor, v), cursor), x.id) && !Overtaken(cursor, v.rounds, x)
  {
    SentIs(cursor, v);
    hide Sent, Written, Handled, Frames;
    HandlerSends(cursor, v.rounds, all, x);
  }

  lemma CutListing(sent: seq<Frame>, cursor: string, n: nat, m: nat, x: Frame)
    requires Listing(sent, cursor) && n <= m <= |sent|
    ensures var reached := LastId(sent[..m], cursor);
            && Listing(sent[..n], cursor) && !Less(reached, cursor)
            && (x in sent[..n] <==> x in sent && !Less(reached, x.id) && x !in sent[n..m])
            && (!Less(reached, x.id) ==> !Less(LastId(sent, cursor), x.id))
  {
    TakeMembers(sent, m, cursor, x);
    SplitMembers(sent, n, m, x);
    hide Less;
    ReachedIsLater(sent, cursor);
    ReachedIsLater(sent[..m], cursor);
    if m > 0 {
      LessIsStrictOrder(sent[m - 1].id, sent[|sent| - 1].id, sent[m - 1].id);
    }
    PastBoth(LastId(sent[..m], cursor), LastId(sent, cursor), x.id);
  }

  predicate LegalVisits(all: seq<Frame>, cursor: string, visits: seq<Visit>)
    decreases |visits|
  {
    visits == [] || (LegalVisit(all, cursor, visits[0]) && LegalVisits(all, Heard(cursor, visits[0]).cursor, visits[1..]))
  }

  /** All events passed on to subscribers, and the cursor after the last connection. */
  function Received(names: string -> bool, all: seq<Frame>, cursor: string, visits: seq<Visit>): (seq<Frame>, string)
    requires LegalVisits(all, cursor, visits)
    decreases |visits|
  {
    if visits == [] then ([], cursor)
    else
      var p := Heard(cursor, visits[0]);
      var rest := Received(names, all, p.cursor, visits[1..]);
      (Broadcast(names, p.completed) + rest.0, rest.1)
  }

  /** The connection that moves the client's cursor past the row loses it. */
  predicate LostIn(all: seq<Frame>, cursor: string, visits: seq<Visit>, x: Frame)
    requires LegalVisits(all, cursor, visits)
    decreases |visits|
  {
    visits != [] &&
    var reached := Heard(cursor, visits[0]).cursor;
    if Less(reached, x.id) then LostIn(all, reached, visits[1..], x) else LostBy(cursor, visits[0], x)
  }

  /** One connection's share of the events passed on. */
  lemma VisitPassesOn(names: string -> bool, all: seq<Frame>, cursor: string, v: Visit, x: Frame)
    requires LegalVisit(all, cursor, v) && forall y | y in all :: Sendable(y)
    ensures var p := Heard(cursor, v);
            var passed := Broadcast(names, p.completed);
            && Listing(passed, cursor) && !Less(p.cursor, cursor)
            && (x in passed <==> x in all && Less(cursor, x.id) && !Less(p.cursor, x.id) && !LostBy(cursor, v, x) && names(x.payload))
  {
    VisitDelivers(all, cursor, v, x);
    hide Less, Listing, LostBy, Broadcast, Sendable, Heard;
    BroadcastMembers(names, Heard(cursor, v).completed, x);
    BroadcastListing(names, Heard(cursor, v).completed, cursor);
  }

  /**
   Over any number of connections, each cut anywhere and resumed from the client's cursor: events are passed on
   in identifier order and none twice, and a row the cursor has passed is among them if and only if it was
   visible when the cursor passed it, no cut fell between its id line and its blank line, and it names a document.
   */
  lemma {:induction false} ArrivesExactly(names: string -> bool, all: seq<Frame>, cursor: string, visits: seq<Visit>, x: Frame)
    requires LegalVisits(all, cursor, visits) && forall y | y in all :: Sendable(y)
    ensures var (got, last) := Received(names, all, cursor, visits);
            && Listing(got, cursor) && !Less(last, cursor)
            && (x in got <==> x in all && Less(cursor, x.id) && !Less(last, x.id) && !LostIn(all, cursor, visits, x) && names(x.payload))
    decreases |visits|
  {
    hide Less, Listing, Snapshots, LostBy, Broadcast, Sendable, Parse, PrintedAll, Written;
    if visits == [] {
      NoRows(cursor);
      LessIsStrictOrder(cursor, cursor, cursor);
    } else {
      var p := Heard(cursor, visits[0]);
      var passed, rest := Broadcast(names, p.completed), Received(names, all, p.cursor, visits[1..]);
      VisitPassesOn(names, all, cursor, visits[0], x);
      ArrivesExactly(names, all, p.cursor, visits[1..], x);
      forall y | y in passed
        ensures !Less(p.cursor, y.id)
      {
        VisitPassesOn(names, all, cursor, visits[0], y);
      }
      ListingJoin(passed, rest.0, cursor, p.cursor);
      PastBoth(cursor, p.cursor, x.id);
      PastBoth(p.cursor, rest.1, x.id);
      OrderChain(cursor, p.cursor, rest.1);
    }
  }

  /**
   So what was passed on, followed by what is still to come, is exactly the listing the client started from if and
   only if none of the rows its cursor passed was overtaken, swallowed by a cut, or without a document.
   */
  lemma EveryEventOnceExactly(names: string -> bool, all: seq<Frame>, cursor: string, visits: seq<Visit>)
    requires Increasing(all) && LegalVisits(all, cursor, visits) && forall y | y in all :: Sendable(y)
    ensures var (got, last) := Received(names, all, cursor, visits);
            got + After(all, last) == After(all, cursor)
            <==> forall x | x in After(all, cursor) && !Less(last, x.id) :: !LostIn(all, cursor, visits, x) && names(x.payload)
  {
    var (got, last) := Received(names, all, cursor, visits);
    forall x
      ensures Listing(got, cursor) && !Less(last, cursor)
      ensures x in got <==> x in all && Less(cursor, x.id) && !Less(last, x.id) && !LostIn(all, cursor, visits, x) && names(x.payload)
      ensures x in After(all, cursor) <==> x in all && Less(cursor, x.id)
    {
      hide *;
      ArrivesExactly(names, all, cursor, visits, x);
      AfterMembers(all, cursor, x);
    }
    var some := Frame("", "", "");
    assert some in got || some !in got;
    hide *;
    NothingMissing(all, cursor, got, last);
  }

  /** A notice of a scan is never passed on, whatever the connections. */
  lemma ScanNoticesNeverArrive(encode: map<string, string> -> string, names: string -> bool, all: seq<Frame>, cursor: string,
                               visits: seq<Visit>, x: Frame, n: Notice)
    requires ReadsBack(encode, names) && x.payload == encode(Fields(n)) && n.scan
    requires LegalVisits(all, cursor, visits) && forall y | y in all :: Sendable(y)
    ensures x !in Received(names, all, cursor, visits).0
  {
    hide Less, Listing, LegalVisits, Received, LostIn, Sendable;
    NoticeIsPassedOnExactly(encode, names, n);
    ArrivesExactly(names, all, cursor, visits, x);
  }
}
