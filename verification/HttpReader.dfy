/**
 The Mac's HTTP request reader: receive chunks, look for the end of the headers, frame the body by
 Content-Length alone. UTF-8 decoding is a parameter; the reader replaces undecodable headers by "".
 */
module HttpReader {
  import opened Wrappers
  import opened Text

  newtype Byte = x: int | 0 <= x < 256

  type Bytes = seq<Byte>

  const MAX_REQUEST := 1024 * 1024
  const MAX_HEADER := 64 * 1024
  const INT_MAX := 0x7FFF_FFFF_FFFF_FFFF

  /** CR LF CR LF at position `j`. */
  predicate BlankLineAt(data: Bytes, j: int) {
    0 <= j && j + 4 <= |data| && data[j] == 13 && data[j + 1] == 10 && data[j + 2] == 13 && data[j + 3] == 10
  }

  function HeaderEnd(data: Bytes): (at: Option<nat>)
    ensures at.Some? ==> BlankLineAt(data, at.value) && forall j | 0 <= j < at.value :: !BlankLineAt(data, j)
    ensures at.None? ==> forall j :: !BlankLineAt(data, j)
  {
    if |data| < 4 then None
    else if BlankLineAt(data, 0) then Some(0)
    else
      var rest := HeaderEnd(data[1..]);
      assert forall j | 0 < j :: BlankLineAt(data, j) <==> BlankLineAt(data[1..], j - 1);
      match rest case None => None case Some(i) => Some(i + 1)
  }

  // ---------------------------------------------------------------- header lines

  /** Foundation's components(separatedBy: "\r\n"). */
  function Lines(s: string): (lines: seq<string>)
    ensures |lines| > 0
  {
    if |s| < 2 then [s]
    else if s[..2] == "\r\n" then [""] + Lines(s[2..])
    else var rest := Lines(s[1..]); [[s[0]] + rest[0]] + rest[1..]
  }

  function SkipColons(s: string): string { if s != "" && s[0] == ':' then SkipColons(s[1..]) else s }

  function UpToColon(s: string): (n: nat)
    ensures n <= |s| && (n < |s| ==> s[n] == ':')
    ensures forall i | 0 <= i < n :: s[i] != ':'
  {
    if s == "" || s[0] == ':' then 0 else 1 + UpToColon(s[1..])
  }

  /** split(separator: ":", maxSplits: 1): empty parts are dropped before they count, so at most a name and the rest. */
  function SplitOnce(line: string): seq<string> {
    var s := SkipColons(line);
    var n := UpToColon(s);
    if s == "" then [] else if n + 1 >= |s| then [s[..n]] else [s[..n], s[n + 1..]]
  }

  /** CharacterSet.whitespaces: tab and the space separators. */
  predicate IsBlank(c: char) {
    c in {'\t', ' ', '\U{A0}', '\U{1680}', '\U{202F}', '\U{205F}', '\U{3000}'} || '\U{2000}' <= c <= '\U{200A}'
  }

  function TrimBlanksLeft(s: string): string { if s != "" && IsBlank(s[0]) then TrimBlanksLeft(s[1..]) else s }

  function TrimBlanksRight(s: string): string { if s != "" && IsBlank(s[|s| - 1]) then TrimBlanksRight(s[..|s| - 1]) else s }

  function TrimBlanks(s: string): string { TrimBlanksRight(TrimBlanksLeft(s)) }

  /** Only ASCII letters can lower-case into the two names compared below. */
  function Lower(s: string): string {
    if s == "" then "" else [if 'A' <= s[0] <= 'Z' then s[0] - 'A' + 'a' else s[0]] + Lower(s[1..])
  }

  /** Int(String): an optional sign and digits, within 64 bits. */
  function ParseInt(s: string): Option<int> {
    var digits := if s != "" && s[0] in {'+', '-'} then s[1..] else s;
    if digits == "" || !AllDigits(digits) then None
    else
      var magnitude: int := Value(digits);
      var v := if s[0] == '-' then -magnitude else magnitude;
      if -INT_MAX - 1 <= v <= INT_MAX then Some(v) else None
  }

  datatype Decision = TooLarge | HeadersTooLarge | TransferEncoding | BadLength | Dispatch(headers: string, body: Bytes)

  /** The header loop: any transfer encoding, a second or an unreadable length stops it; otherwise the declared length. */
  function Framing(lines: seq<string>, declared: Option<int>): (framing: Result<int, Decision>)
    ensures framing.Err? ==> !framing.error.Dispatch?
    decreases |lines|
  {
    if lines == [] then Ok(if declared.Some? then declared.value else 0)
    else
      var parts := SplitOnce(lines[0]);
      var name := if |parts| == 2 then Lower(TrimBlanks(parts[0])) else "";
      if name == "transfer-encoding" then Err(TransferEncoding)
      else if name == "content-length" then
        var n := ParseInt(TrimBlanks(parts[1]));
        if declared.Some? || n.None? then Err(BadLength) else Framing(lines[1..], n)
      else Framing(lines[1..], declared)
  }

  function HeaderText(data: Bytes, end: nat, decode: Bytes -> Option<string>): string
    requires end <= |data|
  {
    match decode(data[..end]) case Some(text) => text case None => ""
  }

  /** The body length the headers ask for, if they are acceptable. */
  function BodyLength(headers: string): (length: Result<int, Decision>)
    ensures length.Ok? ==> 0 <= length.value <= MAX_REQUEST
    ensures length.Err? ==> !length.error.Dispatch?
  {
    match Framing(Lines(headers), None)
    case Err(problem) => Err(problem)
    case Ok(n) => if n < 0 || n > MAX_REQUEST then Err(TooLarge) else Ok(n)
  }

  /** What the reader decides once it has received `data`, if anything. */
  function Decide(data: Bytes, decode: Bytes -> Option<string>): Option<Decision> {
    if |data| > MAX_REQUEST + MAX_HEADER then Some(TooLarge)
    else match HeaderEnd(data)
      case None => None
      case Some(end) =>
        if end > MAX_HEADER then Some(HeadersTooLarge)
        else
          var headers := HeaderText(data, end, decode);
          match BodyLength(headers)
          case Err(problem) => Some(problem)
          case Ok(n) => if |data| - (end + 4) >= n then Some(Dispatch(headers, data[end + 4..end + 4 + n])) else None
  }

  // ---------------------------------------------------------------- the reader

  /** One receive: its bytes, and whether the peer has closed or the connection failed. */
  datatype Receive = Receive(content: Bytes, closed: bool)

  datatype Outcome = Decided(decision: Decision) | Cancelled | Waiting

  function Read(accumulated: Bytes, receives: seq<Receive>, decode: Bytes -> Option<string>): Outcome
    decreases |receives|
  {
    if receives == [] then Waiting
    else
      var current := accumulated + receives[0].content;
      match Decide(current, decode)
      case Some(d) => Decided(d)
      case None => if receives[0].closed then Cancelled else Read(current, receives[1..], decode)
  }

  method FrameHeaders(lines: seq<string>) returns (framing: Result<int, Decision>)
    ensures framing == Framing(lines, None)
  {
    var contentLength, seen := 0, false;
    for i := 0 to |lines|
      invariant Framing(lines, None) == Framing(lines[i..], if seen then Some(contentLength) else None)
      invariant !seen ==> contentLength == 0
    {
      assert lines[i..][0] == lines[i] && lines[i..][1..] == lines[i + 1..];
      var parts := SplitOnce(lines[i]);
      if |parts| == 2 && Lower(TrimBlanks(parts[0])) == "transfer-encoding" {
        return Err(TransferEncoding);
      }
      if |parts| == 2 && Lower(TrimBlanks(parts[0])) == "content-length" {
        var length := ParseInt(TrimBlanks(parts[1]));
        if seen || length.None? {
          return Err(BadLength);
        }
        seen, contentLength := true, length.value;
      }
    }
    return Ok(contentLength);
  }

  method ReadFullRequest(accumulated: Bytes, receives: seq<Receive>, decode: Bytes -> Option<string>) returns (outcome: Outcome)
    ensures outcome == Read(accumulated, receives, decode)
    decreases |receives|
  {
    if receives == [] {
      return Waiting;
    }
    var current := accumulated + receives[0].content;
    var decision := Examine(current, decode);
    if decision.Some? {
      return Decided(decision.value);
    }
    if receives[0].closed {
      return Cancelled;
    }
    outcome := ReadFullRequest(current, receives[1..], decode);
  }

  method Examine(current: Bytes, decode: Bytes -> Option<string>) returns (decision: Option<Decision>)
    ensures decision == Decide(current, decode)
  {
    hide HeaderEnd, Framing, Lines;
    if |current| > MAX_REQUEST + MAX_HEADER {
      return Some(TooLarge);
    }
    var end := HeaderEnd(current);
    if end.None? {
      return None;
    }
    if end.value > MAX_HEADER {
      return Some(HeadersTooLarge);
    }
    var headers := HeaderText(current, end.value, decode);
    var framing := FrameHeaders(Lines(headers));
    if framing.Err? {
      return Some(framing.error);
    }
    if framing.value < 0 || framing.value > MAX_REQUEST {
      return Some(TooLarge);
    }
    if |current| - (end.value + 4) >= framing.value {
      return Some(Dispatch(headers, current[end.value + 4..end.value + 4 + framing.value]));
    }
    return None;
  }

  // ---------------------------------------------------------------- chunk independence

  function Stream(receives: seq<Receive>): Bytes {
    if receives == [] then [] else receives[0].content + Stream(receives[1..])
  }

  /** Nothing is received after the end of the stream. */
  predicate Orderly(receives: seq<Receive>) { forall i | 0 <= i < |receives| - 1 :: !receives[i].closed }

  /** The reference: parse the whole stream at once. */
  function OneShot(stream: Bytes, closed: bool, decode: Bytes -> Option<string>): Outcome {
    match Decide(stream, decode) case Some(d) => Decided(d) case None => if closed then Cancelled else Waiting
  }

  predicate Closed(receives: seq<Receive>) { receives != [] && receives[|receives| - 1].closed }

  lemma {:induction false} HeaderEndStays(data: Bytes, more: Bytes)
    requires HeaderEnd(data).Some?
    ensures HeaderEnd(data + more) == HeaderEnd(data)
  {
    if !BlankLineAt(data, 0) {
      HeaderEndStays(data[1..], more);
      assert (data + more)[1..] == data[1..] + more;
    }
  }

  /** A decision is final: more bytes within the total limit do not change it. */
  lemma DecisionStays(data: Bytes, more: Bytes, decode: Bytes -> Option<string>)
    requires Decide(data, decode).Some? && |data + more| <= MAX_REQUEST + MAX_HEADER
    ensures Decide(data + more, decode) == Decide(data, decode)
  {
    HeaderEndStays(data, more);
    hide HeaderEnd, BodyLength, BlankLineAt;
    var all, end := data + more, HeaderEnd(data).value;
    assert all[..end] == data[..end];
    if end <= MAX_HEADER && BodyLength(HeaderText(data, end, decode)).Ok? {
      var n := BodyLength(HeaderText(data, end, decode)).value;
      assert all[end + 4..end + 4 + n] == data[end + 4..end + 4 + n];
    }
  }

  lemma {:induction false} ReadFrom(accumulated: Bytes, receives: seq<Receive>, decode: Bytes -> Option<string>)
    requires Orderly(receives) && |accumulated + Stream(receives)| <= MAX_REQUEST + MAX_HEADER
    requires Decide(accumulated, decode).None?
    ensures Read(accumulated, receives, decode) == OneShot(accumulated + Stream(receives), Closed(receives), decode)
    decreases |receives|
  {
    hide Decide;
    if receives == [] {
      assert accumulated + [] == accumulated;
    } else {
      var current := accumulated + receives[0].content;
      assert accumulated + Stream(receives) == current + Stream(receives[1..]);
      if Decide(current, decode).Some? {
        DecisionStays(current, Stream(receives[1..]), decode);
      } else if receives[0].closed {
        assert receives[1..] == [];
        assert current + [] == current;
      } else {
        ReadFrom(current, receives[1..], decode);
      }
    }
  }

  /** However a stream within the total size limit is split into receives, the reader does what a one-shot parse of it does. */
  lemma ChunkIndependence(receives: seq<Receive>, decode: Bytes -> Option<string>)
    requires Orderly(receives) && |Stream(receives)| <= MAX_REQUEST + MAX_HEADER
    ensures Read([], receives, decode) == OneShot(Stream(receives), Closed(receives), decode)
  {
    assert [] + Stream(receives) == Stream(receives);
    ReadFrom([], receives, decode);
  }

  /** One call delivers at most this much, and at least one byte unless it reports the end. */
  const RECEIVE_MAX := 65536

  predicate AsReceived(receives: seq<Receive>) {
    && Orderly(receives)
    && forall i | 0 <= i < |receives| :: |receives[i].content| <= RECEIVE_MAX && (receives[i].content != [] || receives[i].closed)
  }

  ghost predicate SplitDoesNotMatter(stream: Bytes, decode: Bytes -> Option<string>) {
    forall receives | AsReceived(receives) && Stream(receives) == stream && receives != [] ::
      Read([], receives, decode) == OneShot(stream, Closed(receives), decode)
  }

  lemma {:induction false} ReadLong(accumulated: Bytes, receives: seq<Receive>, stream: Bytes, decode: Bytes -> Option<string>)
    requires Orderly(receives) && accumulated + Stream(receives) == stream && |stream| > MAX_REQUEST + MAX_HEADER
    requires Decide(stream[..MAX_REQUEST + MAX_HEADER], decode) in {None, Some(TooLarge)}
    requires Decide(accumulated, decode).None? && receives != []
    ensures Read(accumulated, receives, decode) == Decided(TooLarge)
    decreases |receives|
  {
    var limit := MAX_REQUEST + MAX_HEADER;
    var current := accumulated + receives[0].content;
    assert stream == current + Stream(receives[1..]);
    if |current| <= limit {
      assert receives[1..] == [] ==> stream == current;
      assert stream[..limit] == current + stream[|current|..limit];
      if Decide(current, decode).Some? {
        DecisionStays(current, stream[|current|..limit], decode);
      } else {
        hide Decide;
        ReadLong(current, receives[1..], stream, decode);
      }
    }
  }

  /** Beyond the limit splitting matters exactly when the first bytes, up to the limit, already decide something else. */
  lemma ChunkIndependenceExactly(stream: Bytes, decode: Bytes -> Option<string>)
    ensures SplitDoesNotMatter(stream, decode) <==>
              || |stream| <= MAX_REQUEST + MAX_HEADER
              || Decide(stream[..MAX_REQUEST + MAX_HEADER], decode) in {None, Some(TooLarge)}
  {
    var limit := MAX_REQUEST + MAX_HEADER;
    if |stream| <= limit {
      forall receives | AsReceived(receives) && Stream(receives) == stream && receives != []
        ensures Read([], receives, decode) == OneShot(stream, Closed(receives), decode)
      {
        ChunkIndependence(receives, decode);
      }
    } else if Decide(stream[..limit], decode) in {None, Some(TooLarge)} {
      forall receives | AsReceived(receives) && Stream(receives) == stream && receives != []
        ensures Read([], receives, decode) == OneShot(stream, Closed(receives), decode)
      {
        assert [] + stream == stream;
        ReadLong([], receives, stream, decode);
      }
    } else {
      SplitAtLimit(stream, decode);
    }
  }

  /** The limit falls between two receives. */
  lemma SplitAtLimit(stream: Bytes, decode: Bytes -> Option<string>)
    requires |stream| > MAX_REQUEST + MAX_HEADER
    requires Decide(stream[..MAX_REQUEST + MAX_HEADER], decode) !in {None, Some(TooLarge)}
    ensures !SplitDoesNotMatter(stream, decode)
  {
    var limit := MAX_REQUEST + MAX_HEADER;
    var head, tail := stream[..limit], stream[limit..];
    assert OneShot(stream, false, decode) == Decided(TooLarge);
    hide Decide;
    var receives := Chunks(head) + Chunks(tail);
    ChunksAreReceived(head);
    ChunksAreReceived(tail);
    ChunkIndependence(Chunks(head), decode);
    hide Read, Stream, Chunks;
    ReadAppended([], Chunks(head), Chunks(tail), decode);
    StreamAppended(Chunks(head), Chunks(tail));
    assert head + tail == stream;
    assert AsReceived(receives) && Stream(receives) == stream && receives != [] && !Closed(receives);
  }

  /** Full receives and a rest. */
  function Chunks(data: Bytes): seq<Receive>
    decreases |data|
  {
    if |data| <= RECEIVE_MAX then [Receive(data, false)]
    else [Receive(data[..RECEIVE_MAX], false)] + Chunks(data[RECEIVE_MAX..])
  }

  lemma {:induction false} ChunksAreReceived(data: Bytes)
    requires data != []
    ensures Chunks(data) != [] && AsReceived(Chunks(data)) && Stream(Chunks(data)) == data
    ensures forall i | 0 <= i < |Chunks(data)| :: !Chunks(data)[i].closed
    decreases |data|
  {
    if |data| <= RECEIVE_MAX {
      assert [Receive(data, false)][1..] == [];
      assert data + [] == data;
    } else {
      var rest := data[RECEIVE_MAX..];
      ChunksAreReceived(rest);
      assert Chunks(data)[1..] == Chunks(rest);
      assert data[..RECEIVE_MAX] + rest == data;
    }
  }

  lemma {:induction false} ReadAppended(accumulated: Bytes, a: seq<Receive>, b: seq<Receive>, decode: Bytes -> Option<string>)
    requires Read(accumulated, a, decode).Decided?
    ensures Read(accumulated, a + b, decode) == Read(accumulated, a, decode)
    decreases |a|
  {
    hide Decide;
    var current := accumulated + a[0].content;
    assert (a + b)[0] == a[0] && (a + b)[1..] == a[1..] + b;
    if Decide(current, decode).None? {
      ReadAppended(current, a[1..], b, decode);
    }
  }

  lemma Regroup(a: Bytes, b: Bytes, c: Bytes)
    ensures a + (b + c) == (a + b) + c
  {
  }

  lemma {:induction false} StreamAppended(a: seq<Receive>, b: seq<Receive>)
    ensures Stream(a + b) == Stream(a) + Stream(b)
  {
    if a == [] {
      assert a + b == b;
    } else {
      StreamAppended(a[1..], b);
      assert (a + b)[0] == a[0] && (a + b)[1..] == a[1..] + b;
      Regroup(a[0].content, Stream(a[1..]), Stream(b));
    }
  }

  // ---------------------------------------------------------------- reading back what a client sends

  predicate Plain(line: string) { line != "" && forall i | 0 <= i < |line| :: line[i] < '\U{80}' && line[i] != '\r' && line[i] != '\n' }

  function Name(line: string): string {
    var parts := SplitOnce(line);
    if |parts| == 2 then Lower(TrimBlanks(parts[0])) else ""
  }

  /** A request or header line that says nothing about framing. */
  predicate Neutral(line: string) { Plain(line) && Name(line) !in {"transfer-encoding", "content-length"} }

  function Ascii(text: string): (bytes: Bytes)
    requires forall i | 0 <= i < |text| :: text[i] < '\U{80}'
    ensures |bytes| == |text|
  {
    seq(|text|, i requires 0 <= i < |text| => text[i] as int as Byte)
  }

  function Joined(lines: seq<string>): string
    requires lines != []
  {
    if |lines| == 1 then lines[0] else lines[0] + "\r\n" + Joined(lines[1..])
  }

  function LengthLine(n: nat): string { "Content-Length: " + Decimal(n) }

  lemma {:induction false} JoinedIsAscii(lines: seq<string>)
    requires lines != [] && forall i | 0 <= i < |lines| :: Plain(lines[i])
    ensures forall i | 0 <= i < |Joined(lines)| :: Joined(lines)[i] < '\U{80}'
    ensures Joined(lines) != "" && Joined(lines)[0] !in {'\r', '\n'}
  {
    if |lines| > 1 {
      JoinedIsAscii(lines[1..]);
    }
  }

  lemma {:induction false} LinesAfterPlain(line: string, rest: string)
    requires '\r' !in line
    ensures Lines(line + "\r\n" + rest) == [line] + Lines(rest)
    ensures Lines(line) == [line]
  {
    var s := line + "\r\n" + rest;
    if line == "" {
      assert s[..2] == "\r\n" && s[2..] == rest;
    } else {
      assert s[0] == line[0] && s[..2] != "\r\n" && s[1..] == line[1..] + "\r\n" + rest;
      LinesAfterPlain(line[1..], rest);
      assert line == [line[0]] + line[1..];
      assert |line| >= 2 ==> line[..2][0] != '\r';
    }
  }

  lemma {:induction false} LinesOfJoined(lines: seq<string>)
    requires lines != [] && forall i | 0 <= i < |lines| :: Plain(lines[i])
    ensures Lines(Joined(lines)) == lines
  {
    hide Lines;
    LinesAfterPlain(lines[0], if |lines| > 1 then Joined(lines[1..]) else "");
    if |lines| > 1 {
      LinesOfJoined(lines[1..]);
      assert [lines[0]] + lines[1..] == lines;
    } else {
      assert lines == [lines[0]];
    }
  }

  /** The separator is not found early: carriage returns in the headers are followed by a line. */
  lemma {:induction false} HeaderEndSkips(prefix: Bytes, rest: Bytes)
    requires 13 !in prefix && HeaderEnd(rest).Some?
    ensures HeaderEnd(prefix + rest) == Some(|prefix| + HeaderEnd(rest).value)
  {
    if prefix == [] {
      assert prefix + rest == rest;
    } else {
      HeaderEndSkips(prefix[1..], rest);
      assert (prefix + rest)[1..] == prefix[1..] + rest;
      assert (prefix + rest)[0] == prefix[0] && prefix[0] in prefix;
    }
  }

  lemma LineBreakIsNotTheEnd(rest: Bytes)
    requires HeaderEnd(rest).Some? && rest[0] != 13
    ensures HeaderEnd([13, 10] + rest) == Some(2 + HeaderEnd(rest).value)
  {
    var s := [13, 10] + rest;
    assert s[1..] == [10] + rest && s[1..][1..] == rest;
    assert !BlankLineAt(s, 0) && !BlankLineAt(s[1..], 0);
    assert HeaderEnd(s[1..]) == Some(1 + HeaderEnd(rest).value);
  }

  lemma NoReturnInPlain(line: string)
    requires Plain(line)
    ensures 13 !in Ascii(line)
  {
    assert forall i | 0 <= i < |line| :: Ascii(line)[i] == line[i] as int as Byte;
  }

  lemma AsciiOfJoin(line: string, more: string)
    requires (forall i | 0 <= i < |line| :: line[i] < '\U{80}') && forall i | 0 <= i < |more| :: more[i] < '\U{80}'
    ensures forall i | 0 <= i < |line + "\r\n" + more| :: (line + "\r\n" + more)[i] < '\U{80}'
    ensures Ascii(line + "\r\n" + more) == Ascii(line) + [13, 10] + Ascii(more)
  {
  }

  lemma OneMoreLine(line: string, more: string, tail: Bytes)
    requires Plain(line) && more != "" && more[0] != '\r' && forall i | 0 <= i < |more| :: more[i] < '\U{80}'
    requires HeaderEnd(Ascii(more) + tail) == Some(|more|)
    ensures forall i | 0 <= i < |line + "\r\n" + more| :: (line + "\r\n" + more)[i] < '\U{80}'
    ensures HeaderEnd(Ascii(line + "\r\n" + more) + tail) == Some(|line| + 2 + |more|)
  {
    hide HeaderEnd, BlankLineAt;
    FirstByte(more, tail);
    NoReturnInPlain(line);
    AsciiOfJoin(line, more);
    hide Ascii, Plain;
    var first, rest := Ascii(line), Ascii(more) + tail;
    LineBreakIsNotTheEnd(rest);
    HeaderEndSkips(first, [13, 10] + rest);
    assert Ascii(line + "\r\n" + more) + tail == first + ([13, 10] + rest);
  }

  lemma FirstByte(text: string, tail: Bytes)
    requires text != "" && text[0] != '\r' && forall i | 0 <= i < |text| :: text[i] < '\U{80}'
    ensures (Ascii(text) + tail)[0] != 13
  {
    assert (Ascii(text) + tail)[0] == text[0] as int as Byte;
  }

  lemma {:induction false} HeaderEndOfJoined(lines: seq<string>, body: Bytes)
    requires lines != [] && forall i | 0 <= i < |lines| :: Plain(lines[i])
    requires forall i | 0 <= i < |Joined(lines)| :: Joined(lines)[i] < '\U{80}'
    ensures HeaderEnd(Ascii(Joined(lines)) + ([13, 10, 13, 10] + body)) == Some(|Joined(lines)|)
  {
    var tail := [13, 10, 13, 10] + body;
    if |lines| == 1 {
      NoReturnInPlain(lines[0]);
      assert BlankLineAt(tail, 0);
      HeaderEndSkips(Ascii(lines[0]), tail);
    } else {
      JoinedIsAscii(lines[1..]);
      hide HeaderEnd, Ascii;
      HeaderEndOfJoined(lines[1..], body);
      OneMoreLine(lines[0], Joined(lines[1..]), tail);
    }
  }

  lemma {:induction false} FramingOfNeutral(lines: seq<string>, last: string, declared: Option<int>)
    requires forall i | 0 <= i < |lines| :: Neutral(lines[i])
    ensures Framing(lines + [last], declared) == Framing([last], declared)
    decreases |lines|
  {
    hide SplitOnce, Lower, TrimBlanks, Plain;
    if lines == [] {
      assert lines + [last] == [last];
    } else {
      assert (lines + [last])[0] == lines[0] && (lines + [last])[1..] == lines[1..] + [last];
      assert Neutral(lines[0]);
      FramingOfNeutral(lines[1..], last, declared);
    }
  }

  lemma {:induction false} UpToColonIs(s: string, n: nat)
    requires n <= |s| && (forall i | 0 <= i < n :: s[i] != ':') && (n < |s| ==> s[n] == ':')
    ensures UpToColon(s) == n
  {
    if n > 0 {
      UpToColonIs(s[1..], n - 1);
    }
  }

  lemma SplitLengthLine(n: nat)
    ensures SplitOnce(LengthLine(n)) == ["Content-Length", " " + Decimal(n)]
  {
    var s := LengthLine(n);
    hide Decimal;
    assert s[..14] == "Content-Length" && s[14] == ':' && s[15..] == " " + Decimal(n);
    UpToColonIs(s, 14);
  }

  lemma TrimNumber(digits: string)
    requires digits != "" && AllDigits(digits)
    ensures TrimBlanks(" " + digits) == digits
  {
    assert (" " + digits)[1..] == digits;
    assert IsDigit(digits[0]) && IsDigit(digits[|digits| - 1]);
    assert TrimBlanksLeft(" " + digits) == TrimBlanksLeft(digits) == digits;
  }

  lemma LengthName()
    ensures Lower(TrimBlanks("Content-Length")) == "content-length"
  {
    assert TrimBlanks("Content-Length") == "Content-Length";
    LowerLetters("Content-Length", "content-length");
  }

  lemma {:induction false} LowerLetters(s: string, t: string)
    requires |s| == |t| && forall i | 0 <= i < |s| :: t[i] == if 'A' <= s[i] <= 'Z' then s[i] - 'A' + 'a' else s[i]
    ensures Lower(s) == t
  {
    if s != "" {
      LowerLetters(s[1..], t[1..]);
      assert t == [t[0]] + t[1..];
    }
  }

  lemma FirstDigit(digits: string)
    requires digits != "" && AllDigits(digits)
    ensures digits[0] !in {'+', '-'}
  {
    assert IsDigit(digits[0]);
  }

  lemma NumberParses(n: nat)
    requires n <= INT_MAX
    ensures ParseInt(Decimal(n)) == Some(n)
  {
    ValueOfDecimal(n);
    FirstDigit(Decimal(n));
    hide Decimal, Value;
  }

  lemma FramingOfOne(line: string, n: int)
    requires var parts := SplitOnce(line);
             |parts| == 2 && Lower(TrimBlanks(parts[0])) == "content-length" && ParseInt(TrimBlanks(parts[1])) == Some(n)
    ensures Framing([line], None) == Ok(n)
  {
    hide SplitOnce, Lower, TrimBlanks, ParseInt;
    assert [line][1..] == [];
    assert Framing([], Some(n)) == Ok(n);
  }

  lemma FramingOfLength(n: nat)
    requires n <= MAX_REQUEST
    ensures Framing([LengthLine(n)], None) == Ok(n)
  {
    SplitLengthLine(n);
    TrimNumber(Decimal(n));
    LengthName();
    NumberParses(n);
    hide SplitOnce, Lower, TrimBlanks, Decimal, Value, ParseInt, Framing, LengthLine;
    FramingOfOne(LengthLine(n), n);
  }

  lemma LengthLineIsPlain(n: nat)
    ensures Plain(LengthLine(n))
  {
    var d := Decimal(n);
    assert forall i | 0 <= i < |d| :: IsDigit(d[i]);
    hide Decimal;
    var prefix := "Content-Length: ";
    assert LengthLine(n) == prefix + d;
  }

  /** Header lines of a request with a body of `n` bytes. */
  function WithLength(lines: seq<string>, n: nat): (all: seq<string>)
    ensures all != []
  {
    lines + [LengthLine(n)]
  }

  lemma WithLengthIsPlain(lines: seq<string>, n: nat)
    requires forall i | 0 <= i < |lines| :: Neutral(lines[i])
    ensures forall i | 0 <= i < |WithLength(lines, n)| :: Plain(WithLength(lines, n)[i])
    ensures forall i | 0 <= i < |Joined(WithLength(lines, n))| :: Joined(WithLength(lines, n))[i] < '\U{80}'
  {
    LengthLineIsPlain(n);
    hide Plain, LengthLine, Name;
    JoinedIsAscii(WithLength(lines, n));
  }

  /** The bytes of a request: its lines, its length, an empty line, its body. */
  function Serialized(lines: seq<string>, body: Bytes): Bytes
    requires forall i | 0 <= i < |lines| :: Neutral(lines[i])
  {
    WithLengthIsPlain(lines, |body|);
    Ascii(Joined(WithLength(lines, |body|))) + ([13, 10, 13, 10] + body)
  }

  ghost predicate DecodesAscii(decode: Bytes -> Option<string>) {
    forall text: string | forall i | 0 <= i < |text| :: text[i] < '\U{80}' :: decode(Ascii(text)) == Some(text)
  }

  lemma BodyLengthOfRequest(lines: seq<string>, n: nat)
    requires n <= MAX_REQUEST && forall i | 0 <= i < |lines| :: Neutral(lines[i])
    ensures BodyLength(Joined(WithLength(lines, n))) == Ok(n)
  {
    WithLengthIsPlain(lines, n);
    LinesOfJoined(WithLength(lines, n));
    FramingOfNeutral(lines, LengthLine(n), None);
    FramingOfLength(n);
    hide Joined, Lines, Framing, Plain, Neutral, LengthLine;
  }

  lemma DecideRequest(text: string, body: Bytes, more: Bytes, decode: Bytes -> Option<string>)
    requires forall i | 0 <= i < |text| :: text[i] < '\U{80}'
    requires var data := Ascii(text) + ([13, 10, 13, 10] + (body + more));
             HeaderEnd(data) == Some(|text|) && |text| <= MAX_HEADER && |data| <= MAX_REQUEST + MAX_HEADER
    requires BodyLength(text) == Ok(|body|) && decode(Ascii(text)) == Some(text)
    ensures Decide(Ascii(text) + ([13, 10, 13, 10] + (body + more)), decode) == Some(Dispatch(text, body))
  {
    hide HeaderEnd, BodyLength, Ascii, BlankLineAt;
    SliceOut(Ascii(text), [13, 10, 13, 10], body, more);
  }

  lemma SliceOut(head: Bytes, separator: Bytes, body: Bytes, more: Bytes)
    ensures var data, n := head + (separator + (body + more)), |head| + |separator|;
            data[..|head|] == head && data[n..n + |body|] == body
  {
    var data, n := head + (separator + (body + more)), |head| + |separator|;
    assert data == (head + separator) + (body + more);
    assert data[n..] == body + more;
    assert data[n..n + |body|] == data[n..][..|body|];
  }

  /**
   Round trip: a request with a body of at most 1 MiB and headers of at most 64 KiB, sent in any chunks and
   followed by anything, is dispatched with exactly its headers and its body.
   */
  lemma RequestRoundTrip(lines: seq<string>, body: Bytes, more: Bytes, receives: seq<Receive>, decode: Bytes -> Option<string>)
    requires forall i | 0 <= i < |lines| :: Neutral(lines[i])
    requires |body| <= MAX_REQUEST && |Joined(WithLength(lines, |body|))| <= MAX_HEADER && DecodesAscii(decode)
    requires Orderly(receives) && Stream(receives) == Serialized(lines, body) + more
    requires |Stream(receives)| <= MAX_REQUEST + MAX_HEADER
    ensures Read([], receives, decode) == Decided(Dispatch(Joined(WithLength(lines, |body|)), body))
  {
    var text := Joined(WithLength(lines, |body|));
    WithLengthIsPlain(lines, |body|);
    HeaderEndOfJoined(WithLength(lines, |body|), body + more);
    BodyLengthOfRequest(lines, |body|);
    SerializedThenMore(lines, body, more);
    AsciiDecodes(decode, text);
    hide *;
    DecideRequest(text, body, more, decode);
    ChunkIndependence(receives, decode);
    assert OneShot(Stream(receives), Closed(receives), decode) == Decided(Dispatch(text, body)) by {
      Definite(Stream(receives), Closed(receives), decode);
    }
  }

  lemma SerializedThenMore(lines: seq<string>, body: Bytes, more: Bytes)
    requires forall i | 0 <= i < |lines| :: Neutral(lines[i])
    ensures forall i | 0 <= i < |Joined(WithLength(lines, |body|))| :: Joined(WithLength(lines, |body|))[i] < '\U{80}'
    ensures Serialized(lines, body) + more == Ascii(Joined(WithLength(lines, |body|))) + ([13, 10, 13, 10] + (body + more))
  {
    WithLengthIsPlain(lines, |body|);
    hide Joined, WithLength, Ascii, Neutral;
  }

  lemma AsciiDecodes(decode: Bytes -> Option<string>, text: string)
    requires DecodesAscii(decode) && forall i | 0 <= i < |text| :: text[i] < '\U{80}'
    ensures decode(Ascii(text)) == Some(text)
  {
  }

  lemma Definite(stream: Bytes, closed: bool, decode: Bytes -> Option<string>)
    requires Decide(stream, decode).Some?
    ensures OneShot(stream, closed, decode) == Decided(Decide(stream, decode).value)
  {
  }

  // ---------------------------------------------------------------- which header lines give which answer

  predicate Encoded(line: string) { Name(line) == "transfer-encoding" }

  predicate Measured(line: string) { Name(line) == "content-length" }

  /** What follows the colon, as a number. */
  function Number(line: string): Option<int> {
    var parts := SplitOnce(line);
    if |parts| == 2 then ParseInt(TrimBlanks(parts[1])) else None
  }

  /** No line names a transfer encoding, at most one a content length, and then its number is `n`; otherwise `n` is zero. */
  predicate Asks(lines: seq<string>, n: int) {
    && (forall i | 0 <= i < |lines| :: !Encoded(lines[i]))
    && (forall i, j | 0 <= i < j < |lines| :: !(Measured(lines[i]) && Measured(lines[j])))
    && (forall i | 0 <= i < |lines| && Measured(lines[i]) :: Number(lines[i]) == Some(n))
    && ((forall i | 0 <= i < |lines| :: !Measured(lines[i])) ==> n == 0)
  }

  /** No line before `i` is refused. */
  predicate Untroubled(lines: seq<string>, i: nat)
    requires i <= |lines|
  {
    && (forall j | 0 <= j < i :: !Encoded(lines[j]) && (Measured(lines[j]) ==> Number(lines[j]).Some?))
    && (forall j, k | 0 <= j < k < i :: !(Measured(lines[j]) && Measured(lines[k])))
  }

  /** Line `i` is a second or unreadable content length. */
  predicate Mismeasured(lines: seq<string>, i: nat)
    requires i < |lines|
  {
    Measured(lines[i]) && (Number(lines[i]).None? || exists j | 0 <= j < i :: Measured(lines[j]))
  }

  /** The same with a length already declared, for the rest of the lines. */
  predicate AsksFurther(lines: seq<string>, declared: Option<int>, n: int) {
    match declared
    case None => Asks(lines, n)
    case Some(m) => n == m && forall i | 0 <= i < |lines| :: !Encoded(lines[i]) && !Measured(lines[i])
  }

  lemma AsksStep(lines: seq<string>, declared: Option<int>, n: int)
    requires lines != []
    ensures var line, rest := lines[0], lines[1..];
            AsksFurther(lines, declared, n)
            <==> !Encoded(line) && (if Measured(line) then declared.None? && Number(line).Some? && AsksFurther(rest, Number(line), n)
                                    else AsksFurther(rest, declared, n))
  {
    hide Name, Number;
    var line, rest := lines[0], lines[1..];
    assert forall i | 0 <= i < |rest| :: rest[i] == lines[i + 1];
    assert lines == [line] + rest;
  }

  lemma FramingStep(lines: seq<string>, declared: Option<int>)
    requires lines != []
    ensures var line, rest := lines[0], lines[1..];
            Framing(lines, declared) ==
              if Encoded(line) then Err(TransferEncoding)
              else if Measured(line) then
                if declared.Some? || Number(line).None? then Err(BadLength) else Framing(rest, Number(line))
              else Framing(rest, declared)
  {
    hide SplitOnce, Lower, TrimBlanks, ParseInt;
  }

  lemma {:induction false} FramingAsks(lines: seq<string>, declared: Option<int>, n: int)
    ensures Framing(lines, declared) == Ok(n) <==> AsksFurther(lines, declared, n)
    decreases |lines|
  {
    hide Encoded, Measured, Number;
    if lines != [] {
      hide AsksFurther, Framing;
      AsksStep(lines, declared, n);
      FramingStep(lines, declared);
      FramingAsks(lines[1..], declared, n);
      FramingAsks(lines[1..], Number(lines[0]), n);
    }
  }

  /** The length declared by the first `i` lines. */
  function Declared(lines: seq<string>, i: nat): Option<int>
    requires i <= |lines|
  {
    if i == 0 then None else if Measured(lines[i - 1]) then Number(lines[i - 1]) else Declared(lines, i - 1)
  }

  lemma {:induction false} FramingAfter(lines: seq<string>, i: nat)
    requires i <= |lines| && Untroubled(lines, i)
    ensures Framing(lines, None) == Framing(lines[i..], Declared(lines, i))
    ensures Declared(lines, i).Some? <==> exists j | 0 <= j < i :: Measured(lines[j])
    decreases i
  {
    hide Framing, Encoded, Measured, Number;
    if i == 0 {
      assert lines[0..] == lines;
    } else {
      FramingAfter(lines, i - 1);
      assert lines[i - 1..][0] == lines[i - 1] && lines[i - 1..][1..] == lines[i..];
      FramingStep(lines[i - 1..], Declared(lines, i - 1));
    }
  }

  lemma TroubleIsAnswered(lines: seq<string>, i: nat)
    requires i < |lines| && Untroubled(lines, i)
    ensures Encoded(lines[i]) ==> Framing(lines, None) == Err(TransferEncoding)
    ensures !Encoded(lines[i]) && Mismeasured(lines, i) ==> Framing(lines, None) == Err(BadLength)
  {
    hide Framing, Encoded, Measured, Number, Untroubled, Declared;
    FramingAfter(lines, i);
    assert lines[i..][0] == lines[i];
    FramingStep(lines[i..], Declared(lines, i));
  }

  /** Lines that are not all acceptable have a first one that is not. */
  lemma {:induction false} FirstTrouble(lines: seq<string>, n: nat) returns (i: nat)
    requires n <= |lines| && !Untroubled(lines, n)
    ensures i < n && Untroubled(lines, i) && (Encoded(lines[i]) || Mismeasured(lines, i))
  {
    hide Encoded, Measured, Number;
    if Untroubled(lines, n - 1) {
      i := n - 1;
    } else {
      i := FirstTrouble(lines, n - 1);
    }
  }

  lemma UntroubledIsAccepted(lines: seq<string>)
    requires Untroubled(lines, |lines|)
    ensures Framing(lines, None).Ok?
  {
    hide Untroubled;
    FramingAfter(lines, |lines|);
    assert lines[|lines|..] == [];
  }

  /** What the header loop answers, line by line: the first refused line decides, and without one the declared length. */
  lemma FramingAnswers(lines: seq<string>, n: int)
    ensures Framing(lines, None) == Ok(n) <==> Asks(lines, n)
    ensures Framing(lines, None) == Err(TransferEncoding) <==> exists i | 0 <= i < |lines| :: Untroubled(lines, i) && Encoded(lines[i])
    ensures Framing(lines, None) == Err(BadLength)
            <==> exists i | 0 <= i < |lines| :: Untroubled(lines, i) && !Encoded(lines[i]) && Mismeasured(lines, i)
    ensures Framing(lines, None).Ok? || Framing(lines, None) in {Err(TransferEncoding), Err(BadLength)}
  {
    hide Framing, Encoded, Measured, Number;
    FramingAsks(lines, None, n);
    hide Asks;
    if Untroubled(lines, |lines|) {
      UntroubledIsAccepted(lines);
    } else {
      var i := FirstTrouble(lines, |lines|);
      TroubleIsAnswered(lines, i);
    }
    hide Untroubled, Mismeasured;
    forall i | 0 <= i < |lines| && Untroubled(lines, i)
      ensures Encoded(lines[i]) ==> Framing(lines, None) == Err(TransferEncoding)
      ensures !Encoded(lines[i]) && Mismeasured(lines, i) ==> Framing(lines, None) == Err(BadLength)
    {
      TroubleIsAnswered(lines, i);
    }
  }

  /** The first blank line is at `end`, within the limits, and what precedes it reads as `headers`. */
  ghost predicate Headed(data: Bytes, end: nat, headers: string, decode: Bytes -> Option<string>) {
    && |data| <= 1024 * 1024 + 64 * 1024
    && BlankLineAt(data, end) && (forall j | 0 <= j < end :: !BlankLineAt(data, j)) && end <= 64 * 1024
    && headers == match decode(data[..end]) case Some(text) => text case None => ""
  }

  lemma HeadedAt(data: Bytes, end: nat, headers: string, decode: Bytes -> Option<string>)
    ensures Headed(data, end, headers, decode)
            <==> |data| <= MAX_REQUEST + MAX_HEADER && HeaderEnd(data) == Some(end) && end <= MAX_HEADER && headers == HeaderText(data, end, decode)
  {
    hide BlankLineAt;
    assert HeaderEnd(data).Some? ==> BlankLineAt(data, HeaderEnd(data).value);
  }

  /** The request is complete: its headers ask for `n` bytes, at most 1 MiB, and they have arrived. */
  ghost predicate Complete(data: Bytes, end: nat, headers: string, n: nat) {
    Asks(Lines(headers), n) && n <= 1024 * 1024 && end + 4 + n <= |data|
  }

  /**
   A request is dispatched if and only if it is headed within the limits, no line names a transfer encoding, at most
   one a length, and the body of that length, or none, has arrived; then with those headers and that body.
   */
  lemma DispatchedExactly(data: Bytes, decode: Bytes -> Option<string>, headers: string, body: Bytes)
    ensures Decide(data, decode) == Some(Dispatch(headers, body))
            <==> exists end: nat :: Headed(data, end, headers, decode) && Complete(data, end, headers, |body|)
                                    && data[end + 4..end + 4 + |body|] == body
  {
    hide Lines, Asks, HeaderEnd, Framing, HeaderText, Headed;
    forall end: nat
      ensures Headed(data, end, headers, decode)
              <==> |data| <= MAX_REQUEST + MAX_HEADER && HeaderEnd(data) == Some(end) && end <= MAX_HEADER && headers == HeaderText(data, end, decode)
    {
      HeadedAt(data, end, headers, decode);
    }
    FramingAnswers(Lines(headers), |body|);
    if Decide(data, decode) == Some(Dispatch(headers, body)) {
      var end := HeaderEnd(data).value;
      assert Framing(Lines(headers), None) == Ok(|body|);
      assert Complete(data, end, headers, |body|);
    }
  }

  /** Why a headed request is refused: the first line that is refused says so, or the length is out of bounds. */
  lemma RefusedExactly(data: Bytes, end: nat, headers: string, decode: Bytes -> Option<string>)
    requires Headed(data, end, headers, decode)
    ensures var lines := Lines(headers);
            && (Decide(data, decode) == Some(TransferEncoding)
                <==> exists i | 0 <= i < |lines| :: Untroubled(lines, i) && Encoded(lines[i]))
            && (Decide(data, decode) == Some(BadLength)
                <==> exists i | 0 <= i < |lines| :: Untroubled(lines, i) && !Encoded(lines[i]) && Mismeasured(lines, i))
            && (Decide(data, decode) == Some(TooLarge) <==> exists n: int :: Asks(lines, n) && (n < 0 || n > 1024 * 1024))
            && (Decide(data, decode) == None <==> exists n: nat :: Asks(lines, n) && n <= 1024 * 1024 && |data| < end + 4 + n)
  {
    var lines := Lines(headers);
    DecideOfFraming(data, end, headers, decode);
    forall n: int
      ensures Framing(lines, None) == Ok(n) <==> Asks(lines, n)
    {
      FramingAnswers(lines, n);
    }
    FramingAnswers(lines, 0);
    hide *;
    if Framing(lines, None).Ok? {
      assert Asks(lines, Framing(lines, None).value);
    }
  }

  lemma DecideOfFraming(data: Bytes, end: nat, headers: string, decode: Bytes -> Option<string>)
    requires Headed(data, end, headers, decode)
    ensures var framing := Framing(Lines(headers), None);
            && (framing.Err? ==> Decide(data, decode) == Some(framing.error))
            && (framing.Ok? ==>
                  var n := framing.value;
                  && (n < 0 || n > 1024 * 1024 ==> Decide(data, decode) == Some(TooLarge))
                  && (0 <= n <= 1024 * 1024 ==>
                        if end + 4 + n <= |data| then Decide(data, decode).Some? && Decide(data, decode).value.Dispatch?
                        else Decide(data, decode) == None))
  {
    HeadedAt(data, end, headers, decode);
    hide Lines, HeaderEnd, Framing, HeaderText, Headed;
  }

  /** Bytes that are too many, or whose headers have not ended, or ended too late. */
  lemma UnheadedAnswers(data: Bytes, end: nat, decode: Bytes -> Option<string>)
    ensures |data| > 1024 * 1024 + 64 * 1024 ==> Decide(data, decode) == Some(TooLarge)
    ensures |data| <= 1024 * 1024 + 64 * 1024 && (forall j :: !BlankLineAt(data, j)) ==> Decide(data, decode) == None
    ensures |data| <= 1024 * 1024 + 64 * 1024 && BlankLineAt(data, end) && (forall j | 0 <= j < end :: !BlankLineAt(data, j)) && end > 64 * 1024 ==>
              Decide(data, decode) == Some(HeadersTooLarge)
  {
    hide BlankLineAt, BodyLength, HeaderText;
    assert HeaderEnd(data).Some? ==> BlankLineAt(data, HeaderEnd(data).value);
  }

  /** Nothing else is dispatched by the reader, however the bytes arrive and however many there are. */
  lemma {:induction false} ReaderDispatches(accumulated: Bytes, receives: seq<Receive>, decode: Bytes -> Option<string>,
                                            headers: string, body: Bytes)
    requires Read(accumulated, receives, decode) == Decided(Dispatch(headers, body))
    ensures Asks(Lines(headers), |body|) && |body| <= 1024 * 1024
    decreases |receives|
  {
    hide Decide, Asks, Lines;
    var current := accumulated + receives[0].content;
    if Decide(current, decode).Some? {
      DispatchedExactly(current, decode, headers, body);
    } else {
      ReaderDispatches(current, receives[1..], decode, headers, body);
    }
  }

  // ---------------------------------------------------------------- reading one line

  lemma SplitHeader(name: string, value: string)
    requires name != "" && value != "" && ':' !in name
    ensures SplitOnce(name + ":" + value) == [name, value]
  {
    var s := name + ":" + value;
    assert s[..|name|] == name && s[|name|] == ':' && s[|name| + 1..] == value;
    assert name[0] in name && s[0] == name[0];
    forall i | 0 <= i < |name|
      ensures s[i] != ':'
    {
      assert s[i] == name[i] && name[i] in name;
    }
    UpToColonIs(s, |name|);
  }

  /** With nothing after the colon a line names nothing. */
  lemma EmptyHeaderIsUnread(name: string)
    requires ':' !in name
    ensures Name(name + ":") == "" && Name(name) == "" && Number(name + ":") == None
  {
    var s := name + ":";
    if name != "" {
      assert s[..|name|] == name && s[|name|] == ':';
      forall i | 0 <= i < |name|
        ensures s[i] != ':' && name[i] != ':'
      {
        assert s[i] == name[i] && name[i] in name;
      }
      UpToColonIs(s, |name|);
      UpToColonIs(name, |name|);
    } else {
      assert s == ":" && s[1..] == "";
    }
  }

  /** Names are read without their blanks and case, numbers without theirs and with an optional sign. */
  lemma HeaderLineReads(name: string, value: string)
    requires name != "" && value != "" && ':' !in name
    ensures Name(name + ":" + value) == Lower(TrimBlanks(name))
    ensures Number(name + ":" + value) == ParseInt(TrimBlanks(value))
  {
    SplitHeader(name, value);
    hide SplitOnce;
  }

  lemma SignedNumbers(n: nat)
    ensures var s := Decimal(n);
            && ParseInt(s) == (if n <= 0x7FFF_FFFF_FFFF_FFFF then Some(n as int) else None)
            && ParseInt(['+'] + s) == ParseInt(s)
            && ParseInt(['-'] + s) == (if n <= 0x8000_0000_0000_0000 then Some(-(n as int)) else None)
    ensures ParseInt("") == None && ParseInt("+") == None && ParseInt("-") == None
  {
    var s := Decimal(n);
    ValueOfDecimal(n);
    FirstDigit(s);
    SignedDigits(s, n);
    hide Decimal, Value, AllDigits;
  }

  lemma SignedDigits(s: string, n: nat)
    requires s != "" && AllDigits(s) && s[0] !in {'+', '-'} && Value(s) == n
    ensures ParseInt(s) == (if n <= 0x7FFF_FFFF_FFFF_FFFF then Some(n as int) else None)
    ensures ParseInt(['+'] + s) == ParseInt(s)
    ensures ParseInt(['-'] + s) == (if n <= 0x8000_0000_0000_0000 then Some(-(n as int)) else None)
  {
    hide Value, AllDigits;
    assert (['+'] + s)[1..] == s && (['-'] + s)[1..] == s;
  }

  lemma TrimNothing(s: string)
    requires s != "" && !IsBlank(s[0]) && !IsBlank(s[|s| - 1])
    ensures TrimBlanks(s) == s
  {
    assert TrimBlanksLeft(s) == s;
  }

  /** A header is recognised in any mixture of upper and lower case. */
  lemma NamesInAnyCase(name: string, lower: string, value: string)
    requires name != "" && value != "" && ':' !in name && !IsBlank(name[0]) && !IsBlank(name[|name| - 1])
    requires |name| == |lower| && forall i | 0 <= i < |name| :: lower[i] == if 'A' <= name[i] <= 'Z' then name[i] - 'A' + 'a' else name[i]
    ensures Name(name + ":" + value) == lower
    ensures Encoded(name + ":" + value) <==> lower == "transfer-encoding"
    ensures Measured(name + ":" + value) <==> lower == "content-length"
  {
    HeaderLineReads(name, value);
    TrimNothing(name);
    LowerLetters(name, lower);
    hide Name, TrimBlanks, Lower;
  }
}
