/** The line level of a vCard stream (RFC 6350, section 3): folding, cards and content lines. */
module VCardLines {

  import opened Text

  // ---------------------------------------------------------------- searching and cutting

  /** strings.Index; the length when c does not occur. */
  function Find(s: string, c: char): (i: nat)
    ensures i <= |s| && c !in s[..i]
    ensures i < |s| ==> s[i] == c
  {
    if s == "" || s[0] == c then 0 else 1 + Find(s[1..], c)
  }

  lemma {:induction false} FindIn(a: string, c: char, rest: string)
    requires c !in a
    ensures Find(a + [c] + rest, c) == |a|
  {
    if a != "" {
      assert (a + [c] + rest)[1..] == a[1..] + [c] + rest;
      assert a[0] in a;
      FindIn(a[1..], c, rest);
    }
  }

  /** strings.Split. */
  function Cut(s: string, sep: char): (r: seq<string>)
    ensures r != [] && |r[0]| <= |s|
    ensures sep !in r[0]
    ensures sep !in s ==> r == [s]
    decreases |s|
  {
    var i := Find(s, sep);
    if i == |s| then [s] else [s[..i]] + Cut(s[i + 1..], sep)
  }

  /** strings.ToUpper, as far as Latin capitals come out of it. */
  function UpperChar(c: char): char {
    if 'a' <= c <= 'z' then (c as int - 32) as char
    else if c == '\U{131}' then 'I'
    else if c == '\U{17F}' then 'S'
    else c
  }

  function Upper(s: string): (r: string)
    ensures |r| == |s| && forall i | 0 <= i < |s| :: r[i] == UpperChar(s[i])
  {
    if s == "" then "" else [UpperChar(s[0])] + Upper(s[1..])
  }

  lemma {:induction false} UpperConcat(a: string, b: string)
    ensures Upper(a + b) == Upper(a) + Upper(b)
  {
    if a == "" {
      assert a + b == b;
    } else {
      assert (a + b)[1..] == a[1..] + b;
      UpperConcat(a[1..], b);
    }
  }

  /** Of the ASCII characters exactly the small letters change. */
  lemma Capitals(c: char)
    requires c < 128 as char
    ensures Upper([c]) == [c] <==> !('a' <= c <= 'z')
    ensures 'a' <= c <= 'z' ==> Upper([c])[0] as int + 32 == c as int
  {
    assert Upper([c])[0] == UpperChar(c);
  }

  // ---------------------------------------------------------------- unfolding

  predicate Break(c: char) {
    c == '\r' || c == '\n'
  }

  function TrimBreaks(s: string): (r: string)
    ensures |r| <= |s|
  {
    if s != "" && Break(s[|s| - 1]) then TrimBreaks(s[..|s| - 1]) else s
  }

  /** The physical lines without their line ends. */
  function Physical(text: string): seq<string>
    decreases |text|
  {
    if text == "" then []
    else
      var n := Find(text, '\n');
      if n == |text| then [TrimBreaks(text)] else [TrimBreaks(text[..n + 1])] + Physical(text[n + 1..])
  }

  predicate Continues(line: string) {
    line != "" && (line[0] == ' ' || line[0] == '\t')
  }

  /** Continuation lines appended to the last of the logical lines found so far. */
  function Unfolded(physical: seq<string>, lines: seq<string>): seq<string>
    decreases |physical|
  {
    if physical == [] then lines
    else if !Continues(physical[0]) then Unfolded(physical[1..], lines + [physical[0]])
    else if lines == [] then Unfolded(physical[1..], lines)
    else Unfolded(physical[1..], lines[|lines| - 1 := lines[|lines| - 1] + physical[0][1..]])
  }

  method Unfold(text: string) returns (lines: seq<string>)
    ensures lines == Unfolded(Physical(text), [])
  {
    lines := [];
    var rest := text;
    while true
      invariant Unfolded(Physical(rest), lines) == Unfolded(Physical(text), [])
      decreases |rest|
    {
      var n := Find(rest, '\n');
      var eof := n == |rest|;
      var line := if eof then rest else rest[..n + 1];
      if line == "" && eof {
        break;
      }
      rest := rest[|line|..];
      line := TrimBreaks(line);
      if |line| > 0 && (line[0] == ' ' || line[0] == '\t') {
        if |lines| > 0 {
          lines := lines[|lines| - 1 := lines[|lines| - 1] + line[1..]];
        }
      } else {
        lines := lines + [line];
      }
      if eof {
        assert rest == "";
        break;
      }
    }
  }

  const CRLF := "\r\n"

  function Printed(lines: seq<string>): string {
    if lines == [] then "" else lines[0] + CRLF + Printed(lines[1..])
  }

  lemma {:induction false} PrintedConcat(a: seq<string>, b: seq<string>)
    ensures Printed(a + b) == Printed(a) + Printed(b)
    decreases |a|
  {
    if a == [] {
      assert a + b == b;
    } else {
      assert (a + b)[1..] == a[1..] + b;
      PrintedConcat(a[1..], b);
    }
  }

  /** A line that a line break cannot be confused with. */
  predicate OneLine(line: string) {
    '\n' !in line && (line == "" || line[|line| - 1] != '\r')
  }

  lemma {:induction false} PrintedPhysical(lines: seq<string>)
    requires forall i | 0 <= i < |lines| :: OneLine(lines[i])
    ensures Physical(Printed(lines)) == lines
    decreases |lines|
  {
    if lines != [] {
      var line, rest := lines[0], Printed(lines[1..]);
      var text := line + CRLF + rest;
      assert text == (line + "\r") + ['\n'] + rest;
      FindIn(line + "\r", '\n', rest);
      assert text[..|line| + 2] == line + CRLF && text[|line| + 2..] == rest;
      TrimCRLF(line);
      PrintedPhysical(lines[1..]);
    }
  }

  lemma TrimCRLF(line: string)
    requires OneLine(line)
    ensures TrimBreaks(line + CRLF) == line
  {
    var raw := line + CRLF;
    assert raw[..|raw| - 1] == line + "\r";
    assert (line + "\r")[..|line|] == line;
    assert line != "" ==> line[|line| - 1] in line;
    assert TrimBreaks(raw) == TrimBreaks(line + "\r") == TrimBreaks(line);
  }

  /** A logical line cut into pieces, every piece after the first behind a blank (section 3.2 of RFC 6350). */
  function Folds(pieces: seq<string>, mark: char): seq<string> {
    if pieces == [] then [] else [[mark] + pieces[0]] + Folds(pieces[1..], mark)
  }

  function Whole(pieces: seq<string>): string {
    if pieces == [] then "" else pieces[0] + Whole(pieces[1..])
  }

  lemma {:induction false} UnfoldPieces(pieces: seq<string>, mark: char, rest: seq<string>,
                                        lines: seq<string>, last: string)
    requires mark == ' ' || mark == '\t'
    ensures Unfolded(Folds(pieces, mark) + rest, lines + [last]) == Unfolded(rest, lines + [last + Whole(pieces)])
    decreases |pieces|
  {
    if pieces == [] {
      assert Folds(pieces, mark) + rest == rest && last + Whole(pieces) == last;
    } else {
      var all := Folds(pieces, mark) + rest;
      assert all[0] == [mark] + pieces[0] && all[0][1..] == pieces[0];
      assert all[1..] == Folds(pieces[1..], mark) + rest;
      assert (lines + [last])[|lines| := last + pieces[0]] == lines + [last + pieces[0]];
      UnfoldPieces(pieces[1..], mark, rest, lines, last + pieces[0]);
      assert last + pieces[0] + Whole(pieces[1..]) == last + Whole(pieces);
    }
  }

  /** A logical line: its beginning and the pieces folded behind it. */
  datatype Folded = Folded(head: string, more: seq<string>)

  function FoldedLines(lines: seq<Folded>, mark: char): seq<string> {
    if lines == [] then [] else [lines[0].head] + Folds(lines[0].more, mark) + FoldedLines(lines[1..], mark)
  }

  function WholeLines(lines: seq<Folded>): seq<string> {
    if lines == [] then [] else [lines[0].head + Whole(lines[0].more)] + WholeLines(lines[1..])
  }

  lemma UnfoldOne(line: Folded, mark: char, rest: seq<string>, done: seq<string>)
    requires (mark == ' ' || mark == '\t') && !Continues(line.head)
    ensures Unfolded([line.head] + Folds(line.more, mark) + rest, done) ==
      Unfolded(rest, done + [line.head + Whole(line.more)])
  {
    var all := [line.head] + Folds(line.more, mark) + rest;
    assert all[1..] == Folds(line.more, mark) + rest;
    UnfoldPieces(line.more, mark, rest, done, line.head);
  }

  /** However logical lines are folded, unfolding restores them. */
  lemma {:induction false} UnfoldUndoesFolding(lines: seq<Folded>, mark: char, done: seq<string>)
    requires mark == ' ' || mark == '\t'
    requires forall i | 0 <= i < |lines| :: !Continues(lines[i].head)
    ensures Unfolded(FoldedLines(lines, mark), done) == done + WholeLines(lines)
    decreases |lines|
  {
    if lines != [] {
      var whole, tail := lines[0].head + Whole(lines[0].more), lines[1..];
      UnfoldOne(lines[0], mark, FoldedLines(tail, mark), done);
      UnfoldUndoesFolding(tail, mark, done + [whole]);
      assert WholeLines(lines) == [whole] + WholeLines(tail);
    }
  }

  /** Lines without folds. */
  lemma {:induction false} UnfoldPlain(lines: seq<string>, done: seq<string>)
    requires forall i | 0 <= i < |lines| :: !Continues(lines[i])
    ensures Unfolded(lines, done) == done + lines
    decreases |lines|
  {
    if lines != [] {
      UnfoldPlain(lines[1..], done + [lines[0]]);
    }
  }

  // ---------------------------------------------------------------- cards

  predicate Begins(line: string) {
    "BEGIN:VCARD" <= Upper(line)
  }

  predicate Ends(line: string) {
    "END:VCARD" <= Upper(line)
  }

  /** The cards in the lines, with the state of the scan: inside a card, and its lines so far. */
  function Cards(lines: seq<string>, inside: bool, card: seq<string>): seq<seq<string>>
    decreases |lines|
  {
    if lines == [] then []
    else if Begins(lines[0]) then Cards(lines[1..], true, [])
    else if Ends(lines[0]) then (if inside then [card] else []) + Cards(lines[1..], false, [])
    else Cards(lines[1..], inside, if inside then card + [lines[0]] else card)
  }

  method SplitCards(lines: seq<string>) returns (cards: seq<seq<string>>)
    ensures cards == Cards(lines, false, [])
  {
    cards := [];
    var cur, inside := [], false;
    for i := 0 to |lines|
      invariant cards + Cards(lines[i..], inside, cur) == Cards(lines, false, [])
    {
      var l := lines[i];
      assert lines[i..][1..] == lines[i + 1..];
      var upper := Upper(l);
      if "BEGIN:VCARD" <= upper {
        inside := true;
        cur := [];
        continue;
      }
      if "END:VCARD" <= upper {
        if inside {
          cards := cards + [cur];
        }
        inside := false;
        cur := [];
        continue;
      }
      if inside {
        cur := cur + [l];
      }
    }
  }

  lemma {:induction false} CardBody(body: seq<string>, rest: seq<string>, card: seq<string>)
    requires forall i | 0 <= i < |body| :: !Begins(body[i]) && !Ends(body[i])
    ensures Cards(body + rest, true, card) == Cards(rest, true, card + body)
    decreases |body|
  {
    if body == [] {
      assert body + rest == rest && card + body == card;
    } else {
      assert (body + rest)[1..] == body[1..] + rest;
      CardBody(body[1..], rest, card + [body[0]]);
      assert card + [body[0]] + body[1..] == card + body;
    }
  }

  function Wrapped(body: seq<string>): seq<string> {
    ["BEGIN:VCARD"] + body + ["END:VCARD"]
  }

  lemma {:induction false} CapitalsStay(s: string)
    requires forall i | 0 <= i < |s| :: ' ' <= s[i] <= 'Z'
    ensures Upper(s) == s
  {
  }

  /** The marks open and close a card in any case and with anything behind them. */
  lemma AnyCase(mark: string, rest: string)
    ensures Upper(mark) == "BEGIN:VCARD" ==> Begins(mark + rest)
    ensures Upper(mark) == "END:VCARD" ==> Ends(mark + rest)
  {
    UpperConcat(mark, rest);
  }

  /** An opening mark starts a card anew, and a closing one outside a card is passed over. */
  lemma CardRestarts(open: string, close: string, rest: seq<string>, inside: bool, card: seq<string>)
    requires Begins(open) && Ends(close)
    ensures Cards([open] + rest, inside, card) == Cards(rest, true, [])
    ensures Cards([close] + rest, false, card) == Cards(rest, false, [])
  {
    assert ([open] + rest)[1..] == rest && ([close] + rest)[1..] == rest;
    assert Upper(open)[0] == 'B' && Upper(close)[0] == 'E';
  }

  lemma Opens()
    ensures Begins("BEGIN:VCARD")
  {
    var s := "BEGIN:VCARD";
    CapitalsStay(s);
    assert s <= s;
  }

  lemma Closes()
    ensures Ends("END:VCARD") && !Begins("END:VCARD")
  {
    CapitalsStay("END:VCARD");
    assert "END:VCARD"[0] != "BEGIN:VCARD"[0];
  }

  lemma CardBetween(open: string, close: string, body: seq<string>, rest: seq<string>)
    requires Begins(open) && Ends(close) && !Begins(close)
    requires forall i | 0 <= i < |body| :: !Begins(body[i]) && !Ends(body[i])
    ensures Cards([open] + body + [close] + rest, false, []) == [body] + Cards(rest, false, [])
  {
    var end := [close] + rest;
    assert ([open] + body + [close] + rest)[1..] == body + end;
    CardBody(body, end, []);
    assert [] + body == body && end[1..] == rest;
  }

  lemma CardWrapped(body: seq<string>, rest: seq<string>)
    requires forall i | 0 <= i < |body| :: !Begins(body[i]) && !Ends(body[i])
    ensures Cards(Wrapped(body) + rest, false, []) == [body] + Cards(rest, false, [])
  {
    Opens();
    Closes();
    CardBetween("BEGIN:VCARD", "END:VCARD", body, rest);
  }

  // ---------------------------------------------------------------- content lines

  datatype Property = Property(name: string, params: map<string, string>, value: string)

  /** The name behind the first dot of a grouped property. */
  function Ungrouped(name: string): string {
    var dot := Find(name, '.');
    if dot == |name| then name else name[dot + 1..]
  }

  /** One "KEY=value" part taken into the parameters; other parts are passed over. */
  function WithParam(params: map<string, string>, p: string): map<string, string> {
    var eq := Find(p, '=');
    if eq == |p| then params else params[Upper(TrimSpace(p[..eq])) := TrimSpace(p[eq + 1..])]
  }

  function Params(parts: seq<string>, params: map<string, string>): map<string, string>
    decreases |parts|
  {
    if parts == [] then params else Params(parts[1..], WithParam(params, parts[0]))
  }

  function PropertyOf(line: string): Property {
    var idx := Find(line, ':');
    if idx == |line| then Property("", map[], "")
    else
      var parts := Cut(line[..idx], ';');
      Property(Ungrouped(Upper(TrimSpace(parts[0]))), Params(parts[1..], map[]), line[idx + 1..])
  }

  lemma ParamsStep(parts: seq<string>, i: nat, params: map<string, string>)
    requires i < |parts|
    ensures Params(parts[i..], params) == Params(parts[i + 1..], WithParam(params, parts[i]))
  {
    assert parts[i..][1..] == parts[i + 1..];
  }

  method SplitProperty(line: string) returns (p: Property)
    ensures p == PropertyOf(line)
  {
    var idx := Find(line, ':');
    if idx == |line| {
      return Property("", map[], "");
    }
    var value := line[idx + 1..];
    var parts := Cut(line[..idx], ';');
    var name := Upper(TrimSpace(parts[0]));
    var dot := Find(name, '.');
    if dot < |name| {
      name := name[dot + 1..];
    }
    var params := ReadParams(parts);
    p := Property(name, params, value);
  }

  /** The loop over the parameters, which stand behind the first part. */
  method ReadParams(parts: seq<string>) returns (params: map<string, string>)
    requires parts != []
    ensures params == Params(parts[1..], map[])
  {
    params := map[];
    for i := 1 to |parts|
      invariant Params(parts[i..], params) == Params(parts[1..], map[])
    {
      ParamsStep(parts, i, params);
      params := ReadParam(params, parts[i]);
    }
  }

  method ReadParam(params0: map<string, string>, p: string) returns (params: map<string, string>)
    ensures params == WithParam(params0, p)
  {
    params := params0;
    var eq := Find(p, '=');
    if eq < |p| {
      params := params[Upper(TrimSpace(p[..eq])) := TrimSpace(p[eq + 1..])];
    }
  }

  function FirstType(v: string): string {
    Lower(TrimSpace(Cut(v, ',')[0]))
  }

  /** typeParam. */
  function TypeOf(params: map<string, string>): string {
    if "TYPE" in params then FirstType(params["TYPE"]) else ""
  }

  /** A content line as the writer prints it. */
  function ContentLine(name: string, kind: string, value: string): string {
    (if kind == "" then name else name + ";TYPE=" + kind) + ":" + value
  }

  predicate Capital(c: char) {
    'A' <= c <= 'Z'
  }

  predicate PropertyName(name: string) {
    && name != "" && name != "BEGIN" && name != "END"
    && forall i | 0 <= i < |name| :: Capital(name[i])
  }

  /**
   The type read back. The writer prints types as they are, so a colon ends the parameters early and
   a semicolon starts another one.
   */
  function KindRead(kind: string): string {
    if kind == "" then "" else TypeOf(Params(Cut("TYPE=" + kind[..Find(kind, ':')], ';'), map[]))
  }

  /** The value read back: what follows a colon in the type comes first. */
  function ValueRead(kind: string, value: string): string {
    if ':' in kind then kind[Find(kind, ':') + 1..] + ":" + value else value
  }

  lemma NamesStay(name: string)
    requires PropertyName(name)
    ensures Ungrouped(Upper(TrimSpace(name))) == name
    ensures ';' !in name && ':' !in name
  {
    TrimmedStays(name);
    assert Upper(name) == name;
    assert forall c | c in name :: Capital(c);
  }

  lemma OneParameter(key: string, value: string)
    requires '=' !in key
    ensures Params([key + ['='] + value], map[]) == map[Upper(TrimSpace(key)) := TrimSpace(value)]
  {
    var p, params := key + ['='] + value, map[Upper(TrimSpace(key)) := TrimSpace(value)];
    FindIn(key, '=', value);
    assert p[..|key|] == key && p[|key| + 1..] == value;
    assert Params([p][1..], params) == params;
  }

  /** Of several types the first one is taken. */
  lemma FirstOfTypes(first: string, more: string)
    requires ',' !in first
    ensures FirstType(first) == Lower(TrimSpace(first))
    ensures FirstType(first + "," + more) == Lower(TrimSpace(first))
  {
    CutOff(first, ',', more);
  }

  lemma TypeParameter(kind: string)
    ensures Params(["TYPE=" + kind], map[]) == map["TYPE" := TrimSpace(kind)]
  {
    TrimmedStays("TYPE");
    CapitalsStay("TYPE");
    OneParameter("TYPE", kind);
    assert "TYPE" + ['='] == "TYPE=";
  }

  /** What a line with this left side is read as. */
  lemma LeftRead(left: string, value: string)
    requires ':' !in left
    ensures var parts := Cut(left, ';');
      PropertyOf(left + ":" + value) ==
        Property(Ungrouped(Upper(TrimSpace(parts[0]))), Params(parts[1..], map[]), value)
  {
    var line := left + [':'] + value;
    FindIn(left, ':', value);
    assert line[..|left|] == left && line[|left| + 1..] == value;
  }

  lemma CutOff(a: string, sep: char, b: string)
    requires sep !in a
    ensures Cut(a + [sep] + b, sep) == [a] + Cut(b, sep)
  {
    var s := a + [sep] + b;
    FindIn(a, sep, b);
    assert s[..|a|] == a && s[|a| + 1..] == b;
  }

  /** What any printed line is read as. */
  lemma ContentLineRead(name: string, kind: string, value: string)
    requires PropertyName(name)
    ensures PropertyOf(ContentLine(name, kind, value)).name == name
    ensures PropertyOf(ContentLine(name, kind, value)).value == ValueRead(kind, value)
    ensures TypeOf(PropertyOf(ContentLine(name, kind, value)).params) == KindRead(kind)
  {
    NamesStay(name);
    if kind == "" {
      LeftRead(name, value);
      assert Cut(name, ';')[1..] == [];
    } else {
      TypedLineRead(name, kind, value);
    }
  }

  /** A group in front of the name is passed over, as in "item1.TEL:". */
  lemma GroupedLineRead(group: string, name: string, kind: string, value: string)
    requires PropertyName(name) && GroupName(group)
    ensures PropertyOf(group + "." + ContentLine(name, kind, value)) == PropertyOf(ContentLine(name, kind, value))
  {
    if kind == "" {
      NamesStay(name);
      LeftRead(name, value);
      assert Cut(name, ';') == [name];
      GroupedBare(group, name, value);
      InFront(group + ".", name, ":", value);
    } else {
      TypedLineRead(name, kind, value);
      ColonSplits(name, kind, value);
      var p := "TYPE=" + kind[..Find(kind, ':')];
      GroupedTyped(group, name, p, ValueRead(kind, value));
    }
  }

  lemma GroupedBare(group: string, name: string, value: string)
    requires PropertyName(name) && GroupName(group)
    ensures PropertyOf(group + "." + name + ":" + value) == Property(name, map[], value)
  {
    var grouped := group + "." + name;
    GroupPassed(group, name);
    GroupFree(group, name);
    LeftRead(grouped, value);
    assert Cut(grouped, ';') == [grouped];
  }

  lemma GroupedTyped(group: string, name: string, p: string, value: string)
    requires PropertyName(name) && GroupName(group) && ':' !in name + [';'] + p
    ensures PropertyOf(group + "." + (name + [';'] + p + ":" + value)) ==
      Property(name, Params(Cut(p, ';'), map[]), value)
  {
    InFrontAll(group + ".", name, [';'], p, ":", value);
    var grouped := group + "." + name;
    GroupPassed(group, name);
    GroupFree(group, name);
    var left := grouped + [';'] + p;
    assert ':' !in left by { InFront(group + ".", name, [';'], p); }
    LeftRead(left, value);
    CutOff(grouped, ';', p);
    Behind(grouped, Cut(p, ';'));
  }

  lemma Behind<T>(x: T, xs: seq<T>)
    ensures ([x] + xs)[1..] == xs && ([x] + xs)[0] == x
  {
  }

  lemma InFront(a: string, b: string, c: string, d: string)
    ensures a + (b + c + d) == a + b + c + d
  {
  }

  lemma InFrontAll(a: string, b: string, c: string, d: string, e: string, f: string)
    ensures a + (b + c + d + e + f) == a + b + c + d + e + f
  {
  }

  predicate GroupName(group: string) {
    group != "" && !IsSpace(group[0]) && '.' !in group && ':' !in group && ';' !in group
  }

  lemma GroupFree(group: string, name: string)
    requires PropertyName(name) && GroupName(group)
    ensures ';' !in group + "." + name && ':' !in group + "." + name
  {
    NamesStay(name);
  }

  lemma GroupPassed(group: string, name: string)
    requires PropertyName(name) && GroupName(group)
    ensures Ungrouped(Upper(TrimSpace(group + "." + name))) == name
  {
    GroupTrimmed(group, name);
    GroupUpper(group, name);
    UngroupedAt(Upper(group), name);
  }

  lemma GroupUpper(group: string, name: string)
    requires PropertyName(name) && '.' !in group
    ensures Upper(group + "." + name) == Upper(group) + "." + name && '.' !in Upper(group)
  {
    UpperConcat(group + ".", name);
    UpperConcat(group, ".");
    CapitalsStay(name);
    CapitalsStay(".");
  }

  lemma UngroupedAt(group: string, name: string)
    requires '.' !in group
    ensures Ungrouped(group + "." + name) == name
  {
    FindIn(group, '.', name);
    assert (group + "." + name)[|group| + 1..] == name;
  }

  lemma GroupTrimmed(group: string, name: string)
    requires PropertyName(name) && GroupName(group)
    ensures TrimSpace(group + "." + name) == group + "." + name
  {
    var g := group + "." + name;
    assert g[|g| - 1] == name[|name| - 1] && Capital(name[|name| - 1]) && g[0] == group[0];
    TrimmedStays(g);
  }

  lemma TypedLineRead(name: string, kind: string, value: string)
    requires PropertyName(name) && kind != ""
    ensures PropertyOf(ContentLine(name, kind, value)) ==
      Property(name, Params(Cut("TYPE=" + kind[..Find(kind, ':')], ';'), map[]), ValueRead(kind, value))
  {
    NamesStay(name);
    var p := "TYPE=" + kind[..Find(kind, ':')];
    var left := name + [';'] + p;
    ColonSplits(name, kind, value);
    LeftRead(left, ValueRead(kind, value));
    CutOff(name, ';', p);
    assert ([name] + Cut(p, ';'))[1..] == Cut(p, ';');
  }

  lemma Regroup(a: string, b: string, c: string, d: string, e: string)
    ensures a + b + c + d + e == a + b + (c + d + e)
    ensures a + b + c + d + e == a + (b + c + d + e)
  {
  }

  lemma CutHere(s: string, i: nat)
    requires i < |s|
    ensures s == s[..i] + [s[i]] + s[i + 1..]
  {
  }

  lemma KindSplits(kind: string, value: string)
    ensures kind + ":" + value == kind[..Find(kind, ':')] + ":" + ValueRead(kind, value)
  {
    var i := Find(kind, ':');
    if i < |kind| {
      assert ':' in kind by { assert kind[i] in kind; }
      CutHere(kind, i);
      Regroup(kind[..i], ":", kind[i + 1..], ":", value);
    } else {
      assert ':' !in kind by { assert kind[..i] == kind; }
      assert kind[..i] == kind;
    }
  }

  lemma ColonSplits(name: string, kind: string, value: string)
    requires PropertyName(name) && kind != ""
    ensures var left := name + [';'] + ("TYPE=" + kind[..Find(kind, ':')]);
      ':' !in left && ContentLine(name, kind, value) == left + ":" + ValueRead(kind, value)
  {
    var front, rest := kind[..Find(kind, ':')], ValueRead(kind, value);
    TypedLeft(name, front);
    KindSplits(kind, value);
    Headed(name + ";TYPE=", kind, value, front, rest);
  }

  lemma TypedLeft(name: string, front: string)
    requires PropertyName(name) && ':' !in front
    ensures name + [';'] + ("TYPE=" + front) == name + ";TYPE=" + front
    ensures ':' !in name + ";TYPE=" + front
  {
    NamesStay(name);
    assert [';'] + "TYPE=" == ";TYPE=";
  }

  lemma Headed(head: string, kind: string, value: string, front: string, rest: string)
    requires kind + ":" + value == front + ":" + rest
    ensures head + kind + ":" + value == head + front + ":" + rest
  {
    assert head + kind + ":" + value == head + (kind + ":" + value);
    assert head + front + ":" + rest == head + (front + ":" + rest);
  }

  /** A colon in a type ends the parameters early: the rest of the type is read into the value. */
  lemma ColonInType(name: string, before: string, after: string, value: string)
    requires PropertyName(name) && ':' !in before
    ensures PropertyOf(ContentLine(name, before + ":" + after, value)).value == after + ":" + value != value
  {
    var kind := before + [':'] + after;
    FindIn(before, ':', after);
    assert kind[|before| + 1..] == after;
    ContentLineRead(name, kind, value);
    assert |after + ":" + value| > |value|;
  }

  /** A printed content line neither continues a line nor opens or closes a card. */
  lemma ContentLinePlain(name: string, kind: string, value: string)
    requires PropertyName(name) && '\n' !in kind && '\n' !in value && '\r' !in value
    ensures var line := ContentLine(name, kind, value);
      OneLine(line) && !Continues(line) && !Begins(line) && !Ends(line)
  {
    var line := ContentLine(name, kind, value);
    var left := if kind == "" then name else name + ";TYPE=" + kind;
    assert line == left + [':'] + value;
    assert line[0] == name[0] && Capital(name[0]);
    assert value != "" ==> line[|line| - 1] in value;
    assert '\n' !in left;
    NotOpening(name, line);
    NotClosing(name, line);
  }

  lemma NotOpening(name: string, line: string)
    requires PropertyName(name) && Named(name, line)
    ensures !Begins(line)
  {
    assert "BEGIN:VCARD"[..5] == "BEGIN";
    NotMarker(name, line, "BEGIN:VCARD", 5);
  }

  lemma NotClosing(name: string, line: string)
    requires PropertyName(name) && Named(name, line)
    ensures !Ends(line)
  {
    assert "END:VCARD"[..3] == "END";
    NotMarker(name, line, "END:VCARD", 3);
  }

  predicate Named(name: string, line: string) {
    |name| < |line| && line[..|name|] == name && (line[|name|] == ':' || line[|name|] == ';')
  }

  lemma NotMarker(name: string, line: string, mark: string, colon: nat)
    requires Named(name, line)
    requires forall i | 0 <= i < |name| :: Capital(name[i])
    requires colon < |mark| && mark[colon] == ':' && name != mark[..colon]
    requires forall i | 0 <= i < colon :: Capital(mark[i])
    ensures !(mark <= Upper(line))
  {
    var up := Upper(line);
    assert up[|name|] == line[|name|];
    assert forall i | 0 <= i < |name| :: up[i] == UpperChar(line[i]) && line[i] == name[i];
    if |name| < colon {
      assert mark[|name|] != up[|name|];
    } else if |name| > colon {
      assert mark[colon] == ':' != name[colon] == up[colon];
    } else {
      var i :| 0 <= i < |name| && name[i] != mark[i];
      assert mark[i] != up[i];
    }
  }

  // ---------------------------------------------------------------- types

  /** A plain lower-case token. */
  predicate Token(kind: string) {
    && ',' !in kind && ':' !in kind && ';' !in kind && Trimmed(kind)
    && forall i | 0 <= i < |kind| :: !Capital(kind[i])
  }

  lemma {:induction false} TrimLeftFree(s: string, c: char)
    requires c !in s
    ensures c !in TrimLeft(s)
  {
    if s != [] && IsSpace(s[0]) {
      TrimLeftFree(s[1..], c);
    }
  }

  lemma TrimFree(s: string, c: char)
    requires c !in s
    ensures c !in TrimSpace(s)
  {
    TrimLeftFree(s, c);
  }

  lemma {:induction false} CutFree(s: string, sep: char, c: char)
    requires c !in s || c == sep
    ensures forall p | p in Cut(s, sep) :: c !in p
    decreases |s|
  {
    var i := Find(s, sep);
    if i < |s| {
      CutFree(s[i + 1..], sep, c);
    }
  }

  lemma {:induction false} ParamsFree(parts: seq<string>, params: map<string, string>, c: char)
    requires forall p | p in parts :: c !in p
    requires forall k | k in params :: c !in params[k]
    ensures forall k | k in Params(parts, params) :: c !in Params(parts, params)[k]
    decreases |parts|
  {
    if parts != [] {
      var p := parts[0];
      var eq := Find(p, '=');
      if eq == |p| {
        ParamsFree(parts[1..], params, c);
      } else {
        assert p in parts;
        TrimFree(p[eq + 1..], c);
        ParamsFree(parts[1..], params[Upper(TrimSpace(p[..eq])) := TrimSpace(p[eq + 1..])], c);
      }
    }
  }

  lemma FirstTypeFree(v: string, c: char)
    requires (c !in v || c == ',') && !('a' <= c <= 'z')
    ensures c !in FirstType(v)
  {
    CutFree(v, ',', c);
    var first := Cut(v, ',')[0];
    TrimFree(first, c);
    var t := TrimSpace(first);
    forall i | 0 <= i < |t| ensures Lower(t)[i] != c {
      assert t[i] in t;
    }
  }

  /** A type read has no character that its line's parameters did not have. */
  lemma TypeFree(parts: seq<string>, c: char)
    requires forall p | p in parts :: c !in p
    requires !('a' <= c <= 'z')
    ensures c !in TypeOf(Params(parts, map[]))
  {
    ParamsFree(parts, map[], c);
    var params := Params(parts, map[]);
    if "TYPE" in params {
      FirstTypeFree(params["TYPE"], c);
    }
  }

  lemma KindReadFree(kind: string)
    ensures ':' !in KindRead(kind) && ';' !in KindRead(kind)
  {
    if kind != "" {
      var p := "TYPE=" + kind[..Find(kind, ':')];
      CutFree(p, ';', ':');
      CutFree(p, ';', ';');
      TypeFree(Cut(p, ';'), ':');
      TypeFree(Cut(p, ';'), ';');
    }
  }

  /** Whatever line it comes from, a type read holds no line feed. */
  lemma TypeOneLine(line: string)
    requires '\n' !in line
    ensures '\n' !in TypeOf(PropertyOf(line).params)
  {
    var idx := Find(line, ':');
    if idx < |line| {
      assert '\n' !in line[..idx];
      CutFree(line[..idx], ';', '\n');
      var parts := Cut(line[..idx], ';');
      assert forall p | p in parts[1..] :: p in parts;
      TypeFree(parts[1..], '\n');
    }
  }

  /** A type without colon and semicolon is read as its first item, trimmed and in lower case. */
  lemma PlainKindRead(kind: string)
    requires ':' !in kind && ';' !in kind
    ensures KindRead(kind) == FirstType(TrimSpace(kind))
  {
    if kind != "" {
      assert kind[..Find(kind, ':')] == kind by { assert Find(kind, ':') == |kind|; }
      assert Cut("TYPE=" + kind, ';') == ["TYPE=" + kind];
      TypeParameter(kind);
    }
  }

  /** The types that survive are exactly the plain lower-case tokens. */
  lemma KindKeptIff(kind: string)
    ensures KindRead(kind) == kind <==> Token(kind)
  {
    KindReadFree(kind);
    if ':' !in kind && ';' !in kind {
      PlainKindRead(kind);
      PlainKindKeptIff(kind);
    }
  }

  lemma PlainKindKeptIff(kind: string)
    requires ':' !in kind && ';' !in kind
    ensures FirstType(TrimSpace(kind)) == kind <==> Token(kind)
  {
    var t := TrimSpace(kind);
    var first := Cut(t, ',')[0];
    TrimShrinks(kind);
    TrimShrinks(first);
    if Token(kind) {
      TrimmedStays(kind);
      assert Lower(kind) == kind;
    }
    if FirstType(t) == kind {
      assert |first| == |t| == |kind|;
      assert t == kind;
      assert first == t by { CutFirst(t, ','); }
      assert TrimSpace(first) == first;
      assert forall i | 0 <= i < |kind| :: LowerChar(kind[i]) == Lower(kind)[i] == kind[i];
    }
  }

  lemma CutFirst(s: string, sep: char)
    ensures Cut(s, sep)[0] <= s
  {
  }

  lemma TrimShrinks(s: string)
    ensures |TrimSpace(s)| <= |s|
    ensures |TrimSpace(s)| == |s| ==> TrimSpace(s) == s && Trimmed(s)
  {
    TrimLeftKeeps(s);
  }

  lemma {:induction false} TrimLeftKeeps(s: string)
    ensures |TrimLeft(s)| == |s| ==> TrimLeft(s) == s
  {
  }
}
