/** Reading a multi-line POP3 response (RFC 1939, section 3): terminator, byte-stuffing and size cap. */
module Pop3 {
  import opened Options

  type Bytes = string

  datatype Reply = Message(body: Bytes) | TooLarge | BrokenOff

  const CRLF := "\r\n"

  // ---------------------------------------------------------------- the wire

  predicate NoLineFeed(s: Bytes) {
    '\n' !in s
  }

  /** A message as its lines, each without its CRLF. */
  type Lines = seq<Bytes>

  predicate Proper(lines: Lines) {
    forall i | 0 <= i < |lines| :: NoLineFeed(lines[i])
  }

  function Text(lines: Lines): Bytes {
    if lines == [] then "" else lines[0] + CRLF + Text(lines[1..])
  }

  predicate Dotted(line: Bytes) {
    line != [] && line[0] == '.'
  }

  function Stuffed(line: Bytes): Bytes {
    if Dotted(line) then "." + line else line
  }

  /** The stuffed lines and the terminating line. */
  function Wire(lines: Lines): Bytes {
    if lines == [] then "." + CRLF else Stuffed(lines[0]) + CRLF + Wire(lines[1..])
  }

  // ---------------------------------------------------------------- the reader

  /** ReadString('\n'): up to and with the next line feed, or nothing when there is none. */
  function NextLine(input: Bytes): Option<Bytes> {
    if input == [] then None
    else if input[0] == '\n' then Some("\n")
    else match NextLine(input[1..])
      case None => None
      case Some(rest) => Some([input[0]] + rest)
  }

  lemma {:induction false} NextLinePrefix(input: Bytes)
    ensures NextLine(input).Some? ==> NextLine(input).value <= input && |NextLine(input).value| > 0
    decreases |input|
  {
    if input != [] && input[0] != '\n' {
      NextLinePrefix(input[1..]);
    }
  }

  lemma {:induction false} NextLineEnds(content: Bytes, rest: Bytes)
    requires NoLineFeed(content)
    ensures NextLine(content + "\n" + rest) == Some(content + "\n")
    ensures NextLine(content) == None
    decreases |content|
  {
    var input := content + "\n" + rest;
    if content == [] {
      assert input[0] == '\n' && content + "\n" == "\n";
    } else {
      var more := content[1..];
      assert NoLineFeed(more) by { assert forall c | c in more :: c in content; }
      NextLineEnds(more, rest);
      assert input[1..] == more + "\n" + rest;
      assert input[0] == content[0] && content[0] in content;
      assert [content[0]] + (more + "\n") == content + "\n";
    }
  }

  lemma NextLineIs(content: Bytes, rest: Bytes)
    requires NoLineFeed(content)
    ensures NextLine(content + CRLF + rest) == Some(content + CRLF)
  {
    NextLineEnds(content + "\r", rest);
    assert content + "\r" + "\n" == content + CRLF;
  }

  predicate Terminator(line: Bytes) {
    line == ".\r\n" || line == ".\n"
  }

  function Destuffed(line: Bytes): Bytes {
    if |line| >= 2 && line[0] == '.' && line[1] == '.' then line[1..] else line
  }

  datatype Outcome = Outcome(reply: Reply, rest: Bytes)

  /** The drain loop: skips to just behind the terminator. */
  function Drain(input: Bytes): Outcome
    decreases |input|
  {
    match NextLine(input)
    case None => Outcome(BrokenOff, [])
    case Some(line) =>
      NextLinePrefix(input);
      if Terminator(line) then Outcome(TooLarge, input[|line|..]) else Drain(input[|line|..])
  }

  /** The reading loop of retr with buf already read. */
  function Retr(input: Bytes, buf: Bytes, cap: nat): Outcome
    decreases |input|
  {
    match NextLine(input)
    case None => Outcome(BrokenOff, [])
    case Some(line) =>
      NextLinePrefix(input);
      if Terminator(line) then Outcome(Message(buf), input[|line|..])
      else if |buf| + |line| > cap then Drain(input[|line|..])
      else Retr(input[|line|..], buf + Destuffed(line), cap)
  }

  /** The line that begins with this text. */
  function Behind(text: Bytes, line: Option<Bytes>): Option<Bytes> {
    if line.None? then None else Some(text + line.value)
  }

  lemma NextLineStart(input: Bytes)
    ensures NextLine(input) == Behind(input[..0], NextLine(input[0..]))
  {
    assert input[0..] == input;
    assert NextLine(input).Some? ==> input[..0] + NextLine(input).value == NextLine(input).value;
  }

  lemma NextLineStep(input: Bytes, i: nat)
    requires i < |input| && input[i] != '\n'
    ensures Behind(input[..i], NextLine(input[i..])) == Behind(input[..i + 1], NextLine(input[i + 1..]))
  {
    assert input[i..][1..] == input[i + 1..];
    var more := NextLine(input[i + 1..]);
    if more.Some? {
      assert input[..i] + ([input[i]] + more.value) == input[..i + 1] + more.value;
    }
  }

  lemma NextLineFound(input: Bytes, i: nat)
    requires i < |input| && input[i] == '\n'
    ensures Behind(input[..i], NextLine(input[i..])) == Some(input[..i + 1])
  {
    assert input[i..][0] == '\n';
    assert input[..i] + "\n" == input[..i + 1];
  }

  class Connection {
    // What the server has still to say.
    var input: Bytes

    constructor (input: Bytes)
      ensures this.input == input
    {
      this.input := input;
    }

    method ReadString() returns (line: Option<Bytes>)
      modifies this
      ensures line == NextLine(old(input))
      ensures line.Some? ==> 0 < |line.value| <= |old(input)|
      ensures input == if line.Some? then old(input)[|line.value|..] else []
    {
      NextLinePrefix(input);
      var i := 0;
      NextLineStart(input);
      while i < |input| && input[i] != '\n'
        invariant 0 <= i <= |input| && input == old(input)
        invariant NextLine(input) == Behind(input[..i], NextLine(input[i..]))
        decreases |input| - i
      {
        NextLineStep(input, i);
        i := i + 1;
      }
      if i == |input| {
        assert input[i..] == [];
        input := [];
        return None;
      }
      NextLineFound(input, i);
      line := Some(input[..i + 1]);
      input := input[i + 1..];
    }

    method Retrieve(cap: nat) returns (r: Reply)
      modifies this
      ensures Outcome(r, input) == Retr(old(input), [], cap)
    {
      var buf: Bytes := [];
      while true
        invariant Retr(input, buf, cap) == Retr(old(input), [], cap)
        decreases |input|
      {
        var line := ReadString();
        if line.None? {
          return BrokenOff;
        }
        // The terminator is looked for in the raw form, before any dot is removed.
        if line.value == ".\r\n" || line.value == ".\n" {
          return Message(buf);
        }
        if |buf| + |line.value| > cap {
          ghost var before := input;
          while true
            invariant Drain(input) == Drain(before)
            decreases |input|
          {
            line := ReadString();
            if line.None? {
              return BrokenOff;
            }
            if line.value == ".\r\n" || line.value == ".\n" {
              return TooLarge;
            }
          }
        }
        var s := line.value;
        if |s| >= 2 && s[..2] == ".." {
          s := s[1..];
        }
        assert s == Destuffed(line.value) by {
          if |line.value| >= 2 {
            assert line.value[..2] == [line.value[0], line.value[1]];
          }
        }
        buf := buf + s;
      }
    }
  }

  // ---------------------------------------------------------------- what comes out

  /** A stuffed line on the wire is read back as one line that is no terminator, and destuffs to the original. */
  lemma StuffedLine(line: Bytes, rest: Bytes)
    requires NoLineFeed(line)
    ensures NextLine(Stuffed(line) + CRLF + rest) == Some(Stuffed(line) + CRLF)
    ensures !Terminator(Stuffed(line) + CRLF)
    ensures Destuffed(Stuffed(line) + CRLF) == line + CRLF
  {
    NextLineIs(Stuffed(line), rest);
    var raw := Stuffed(line) + CRLF;
    if Dotted(line) {
      assert raw[0] == '.' && raw[1] == '.';
      assert raw[1..] == line + CRLF;
    } else if line == [] {
      assert raw == CRLF;
      assert raw[0] == '\r';
    } else {
      assert raw[0] == line[0] != '.';
    }
  }

  lemma EndOfWire(rest: Bytes)
    ensures NextLine("." + CRLF + rest) == Some(".\r\n") && ("." + CRLF + rest)[3..] == rest
  {
    NextLineIs(".", rest);
    assert "." + CRLF == ".\r\n";
  }

  lemma WireStep(line: Bytes, lines: Lines, rest: Bytes)
    ensures Wire([line] + lines) + rest == Stuffed(line) + CRLF + (Wire(lines) + rest)
    ensures (Wire([line] + lines) + rest)[|Stuffed(line) + CRLF|..] == Wire(lines) + rest
    ensures Text([line] + lines) == line + CRLF + Text(lines)
  {
    assert ([line] + lines)[1..] == lines;
    assert Wire([line] + lines) + rest == (Stuffed(line) + CRLF) + (Wire(lines) + rest);
  }

  /** Draining stops just past the terminator. */
  lemma {:induction false} DrainStopsPastEnd(lines: Lines, rest: Bytes)
    requires Proper(lines)
    ensures Drain(Wire(lines) + rest) == Outcome(TooLarge, rest)
    decreases |lines|
  {
    if lines == [] {
      EndOfWire(rest);
    } else {
      assert lines == [lines[0]] + lines[1..];
      WireStep(lines[0], lines[1..], rest);
      StuffedLine(lines[0], Wire(lines[1..]) + rest);
      DrainStopsPastEnd(lines[1..], rest);
    }
  }

  /** The last line of a message starts with a dot. */
  predicate EndsDotted(lines: Lines) {
    lines != [] && Dotted(lines[|lines| - 1])
  }

  /** The message is refused: it is longer than the cap, or just as long and its last line was stuffed. */
  predicate Refused(before: nat, lines: Lines, cap: nat) {
    before + |Text(lines)| > cap || (before + |Text(lines)| == cap && EndsDotted(lines))
  }

  lemma {:induction false} RetrExact(lines: Lines, buf: Bytes, rest: Bytes, cap: nat)
    requires Proper(lines) && |buf| <= cap
    ensures Retr(Wire(lines) + rest, buf, cap) ==
      Outcome(if Refused(|buf|, lines, cap) then TooLarge else Message(buf + Text(lines)), rest)
    decreases |lines|
  {
    if lines == [] {
      EndOfWire(rest);
      assert buf + Text(lines) == buf;
    } else {
      var line, more := lines[0], lines[1..];
      assert lines == [line] + more;
      WireStep(line, more, rest);
      StuffedLine(line, Wire(more) + rest);
      var raw := Stuffed(line) + CRLF;
      if |buf| + |raw| > cap {
        DrainStopsPastEnd(more, rest);
      } else {
        RetrExact(more, buf + (line + CRLF), rest, cap);
        assert buf + (line + CRLF) + Text(more) == buf + (line + CRLF + Text(more));
      }
    }
  }

  /**
   For every message of CRLF lines without bare line feeds, reading its stuffed form gives the message
   exactly or the size error, and either way leaves the stream just past the terminator. A message
   below the cap is accepted, one above it is not, and one of exactly the cap is refused if and only
   if its last line begins with a dot.
   */
  lemma RetrieveRoundTrip(lines: Lines, rest: Bytes, cap: nat)
    requires Proper(lines)
    ensures Retr(Wire(lines) + rest, [], cap).rest == rest
    ensures Retr(Wire(lines) + rest, [], cap).reply ==
      if |Text(lines)| > cap || (|Text(lines)| == cap && EndsDotted(lines)) then TooLarge else Message(Text(lines))
  {
    RetrExact(lines, [], rest, cap);
    assert [] + Text(lines) == Text(lines);
  }

  // ---------------------------------------------------------------- any input

  /** A line as it comes off the wire that does not end the message. */
  predicate Raw(line: Bytes) {
    line != [] && line[|line| - 1] == '\n' && NoLineFeed(line[..|line| - 1]) && line != ".\r\n" && line != ".\n"
  }

  predicate AllRaw(lines: seq<Bytes>) {
    forall i | 0 <= i < |lines| :: Raw(lines[i])
  }

  function Joined(lines: seq<Bytes>): Bytes {
    if lines == [] then "" else lines[0] + Joined(lines[1..])
  }

  lemma RawNext(lines: seq<Bytes>, more: Bytes)
    requires lines != [] && Raw(lines[0])
    ensures NextLine(Joined(lines) + more) == Some(lines[0]) && !Terminator(lines[0])
    ensures (Joined(lines) + more)[|lines[0]|..] == Joined(lines[1..]) + more
  {
    var line, behind := lines[0], Joined(lines[1..]) + more;
    NextLineEnds(line[..|line| - 1], behind);
    assert line == line[..|line| - 1] + "\n";
    assert Joined(lines) + more == line + behind by { Grouped(line, Joined(lines[1..]), more); }
    Past(line, behind);
  }

  lemma Grouped(a: Bytes, b: Bytes, c: Bytes)
    ensures a + b + c == a + (b + c)
  {
  }

  lemma Past(a: Bytes, b: Bytes)
    ensures (a + b)[|a|..] == b
  {
  }

  /** A connection that ends before the terminator is an error, however much was read and wherever it was cut. */
  lemma {:induction false} CutIsBrokenOff(lines: seq<Bytes>, part: Bytes, buf: Bytes, cap: nat)
    requires AllRaw(lines) && NoLineFeed(part)
    ensures Retr(Joined(lines) + part, buf, cap) == Outcome(BrokenOff, [])
    ensures Drain(Joined(lines) + part) == Outcome(BrokenOff, [])
    decreases |lines|
  {
    if lines == [] {
      assert Joined(lines) + part == part;
      NextLineEnds(part, "");
    } else {
      RawNext(lines, part);
      CutIsBrokenOff(lines[1..], part, buf, cap);
      CutIsBrokenOff(lines[1..], part, buf + Destuffed(lines[0]), cap);
    }
  }

  /** One dot less in front of each line that has two. */
  function Unstuffed(lines: seq<Bytes>): Bytes {
    if lines == [] then ""
    else Unstuffed(lines[..|lines| - 1])
         + var last := lines[|lines| - 1]; if ".." <= last then last[1..] else last
  }

  /** Some line comes too late: what was kept before it leaves no room for all of it. */
  predicate Overflows(lines: seq<Bytes>, cap: nat) {
    exists k | 0 <= k < |lines| :: NoRoom(lines, k, cap)
  }

  predicate NoRoom(lines: seq<Bytes>, k: nat, cap: nat)
    requires k < |lines|
  {
    |Unstuffed(lines[..k])| + |lines[k]| > cap
  }

  lemma {:induction false} DrainEnds(lines: seq<Bytes>, end: Bytes, rest: Bytes)
    requires AllRaw(lines) && (end == ".\r\n" || end == ".\n")
    ensures Drain(Joined(lines) + (end + rest)) == Outcome(TooLarge, rest)
    decreases |lines|
  {
    if lines == [] {
      EndNext(end, rest);
      assert Joined(lines) + (end + rest) == end + rest;
    } else {
      RawNext(lines, end + rest);
      DrainEnds(lines[1..], end, rest);
    }
  }

  lemma EndNext(end: Bytes, rest: Bytes)
    requires end == ".\r\n" || end == ".\n"
    ensures NextLine(end + rest) == Some(end) && (end + rest)[|end|..] == rest
  {
    NextLineEnds(end[..|end| - 1], rest);
    assert end == end[..|end| - 1] + "\n";
  }

  lemma UnstuffedStep(lines: seq<Bytes>, k: nat)
    requires k < |lines|
    ensures Unstuffed(lines[..k + 1]) == Unstuffed(lines[..k]) + Destuffed(lines[k])
  {
    assert lines[..k + 1][..k] == lines[..k];
    assert ".." <= lines[k] <==> |lines[k]| >= 2 && lines[k][0] == '.' && lines[k][1] == '.';
  }

  /**
   Whatever the lines are, stuffed properly or not, ended by CRLF or LF: up to the first terminator of
   either form they are the message, or the size error if some line overflows, and the stream is left
   behind that terminator.
   */
  lemma {:induction false} EndedIsRead(lines: seq<Bytes>, k: nat, end: Bytes, rest: Bytes, cap: nat)
    requires AllRaw(lines) && (end == ".\r\n" || end == ".\n")
    requires k <= |lines| && forall j | 0 <= j < k :: !NoRoom(lines, j, cap)
    ensures Retr(Joined(lines[k..]) + (end + rest), Unstuffed(lines[..k]), cap) ==
      Outcome(if Overflows(lines, cap) then TooLarge else Message(Unstuffed(lines)), rest)
    decreases |lines| - k
  {
    var ahead := lines[k..];
    if k == |lines| {
      EndNext(end, rest);
      assert Joined(ahead) + (end + rest) == end + rest && lines[..k] == lines;
    } else {
      RawNext(ahead, end + rest);
      assert ahead[0] == lines[k] && ahead[1..] == lines[k + 1..];
      if NoRoom(lines, k, cap) {
        DrainEnds(ahead[1..], end, rest);
      } else {
        UnstuffedStep(lines, k);
        EndedIsRead(lines, k + 1, end, rest, cap);
      }
    }
  }

  /** And every input is of one of these two kinds. */
  lemma {:induction false} InputSplits(input: Bytes) returns (lines: seq<Bytes>, end: Bytes, rest: Bytes)
    ensures AllRaw(lines) && input == Joined(lines) + (end + rest)
    ensures end == ".\r\n" || end == ".\n" || (end == "" && NoLineFeed(rest))
    decreases |input|
  {
    if '\n' !in input {
      lines, end, rest := [], "", input;
    } else {
      var line, more := FirstLine(input);
      if line == ".\r\n" || line == ".\n" {
        lines, end, rest := [], line, more;
      } else {
        lines, end, rest := InputSplits(more);
        assert input == line + Joined(lines) + (end + rest);
        var tail := lines;
        lines := [line] + lines;
        assert lines[1..] == tail;
      }
    }
  }

  lemma {:induction false} FirstLine(input: Bytes) returns (line: Bytes, more: Bytes)
    requires '\n' in input
    ensures input == line + more && line != [] && line[|line| - 1] == '\n' && NoLineFeed(line[..|line| - 1])
  {
    if input[0] == '\n' {
      line, more := input[..1], input[1..];
    } else {
      line, more := FirstLine(input[1..]);
      var line1 := [input[0]] + line;
      assert line1[..|line1| - 1] == [input[0]] + line[..|line| - 1];
      line := line1;
    }
  }

  /** The stuffed lines of a message without the terminating line. */
  function StuffedLines(lines: Lines): (raws: seq<Bytes>)
    ensures |raws| == |lines| && forall i | 0 <= i < |lines| :: raws[i] == Stuffed(lines[i]) + CRLF
  {
    seq(|lines|, i requires 0 <= i < |lines| => Stuffed(lines[i]) + CRLF)
  }

  /** The wire form is those lines and the terminating one, and losing the stuffed dots gives the message back. */
  lemma {:induction false} WireIs(lines: Lines)
    requires Proper(lines)
    ensures Wire(lines) == Joined(StuffedLines(lines)) + ".\r\n"
    ensures Unstuffed(StuffedLines(lines)) == Text(lines)
    decreases |lines|
  {
    if lines != [] {
      var raws, raw := StuffedLines(lines), Stuffed(lines[0]) + CRLF;
      assert raws == [raw] + StuffedLines(lines[1..]);
      WireIs(lines[1..]);
      Grouped(raw, Joined(raws[1..]), ".\r\n");
      StuffedLine(lines[0], "");
      UnstuffedOne(raw);
      UnstuffedConcat([raw], raws[1..]);
    }
  }

  lemma UnstuffedOne(line: Bytes)
    ensures Unstuffed([line]) == Destuffed(line)
  {
    assert [line][..0] == [];
    assert ".." <= line <==> |line| >= 2 && line[0] == '.' && line[1] == '.';
  }

  lemma {:induction false} UnstuffedConcat(a: seq<Bytes>, b: seq<Bytes>)
    ensures Unstuffed(a + b) == Unstuffed(a) + Unstuffed(b)
    decreases |b|
  {
    if b == [] {
      assert a + b == a;
    } else {
      UnstuffedConcat(a, b[..|b| - 1]);
      assert (a + b)[..|a + b| - 1] == a + b[..|b| - 1];
    }
  }

  /** A message cut off before its terminating line is never taken for a whole one. */
  lemma CutMessage(lines: Lines, part: Bytes, buf: Bytes, cap: nat)
    requires Proper(lines) && NoLineFeed(part)
    ensures Retr(Joined(StuffedLines(lines)) + part, buf, cap) == Outcome(BrokenOff, [])
    ensures Drain(Joined(StuffedLines(lines)) + part) == Outcome(BrokenOff, [])
  {
    var raws := StuffedLines(lines);
    forall i | 0 <= i < |raws| ensures Raw(raws[i]) {
      StuffedLine(lines[i], "");
      assert raws[i][..|raws[i]| - 1] == Stuffed(lines[i]) + "\r";
    }
    CutIsBrokenOff(raws, part, buf, cap);
  }
}
