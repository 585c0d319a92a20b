/** vCard values (RFC 6350, section 3.4): escaping, and splitting into components or list items. */
module VCardText {

  import opened Text

  // ---------------------------------------------------------------- escaping

  predicate Special(c: char) {
    c == ',' || c == ';' || c == '\\' || c == '\n' || c == '\r'
  }

  function EscapeChar(c: char): string {
    if c == '\\' then "\\\\"
    else if c == ',' then "\\,"
    else if c == ';' then "\\;"
    else if c == '\n' then "\\n"
    else if c == '\r' then ""
    else [c]
  }

  function Escape(s: string): string {
    if s == "" then "" else EscapeChar(s[0]) + Escape(s[1..])
  }

  function Meant(c: char): char {
    if c == 'n' || c == 'N' then '\n' else c
  }

  function Unescape(s: string): string {
    if s == "" then ""
    else if s[0] == '\\' && |s| > 1 then [Meant(s[1])] + Unescape(s[2..])
    else [s[0]] + Unescape(s[1..])
  }

  lemma {:induction false} PlainEscape(s: string)
    requires forall i | 0 <= i < |s| :: !Special(s[i])
    ensures Escape(s) == s
  {
    if s != "" {
      PlainEscape(s[1..]);
    }
  }

  lemma {:induction false} PlainUnescape(s: string)
    requires '\\' !in s
    ensures Unescape(s) == s
  {
    if s != "" {
      PlainUnescape(s[1..]);
    }
  }

  method EscapeValue(s: string) returns (r: string)
    ensures r == Escape(s)
  {
    if forall i | 0 <= i < |s| :: !Special(s[i]) {
      PlainEscape(s);
      return s;
    }
    r := "";
    for i := 0 to |s|
      invariant Escape(s[..i]) == r
    {
      assert s[..i + 1] == s[..i] + [s[i]];
      EscapeConcat(s[..i], [s[i]]);
      EscapeOne(s[i]);
      match s[i]
      case '\\' => r := r + "\\\\";
      case ',' => r := r + "\\,";
      case ';' => r := r + "\\;";
      case '\n' => r := r + "\\n";
      case '\r' =>
      case c => r := r + [c];
    }
    assert s[..|s|] == s;
  }

  lemma EscapeOne(c: char)
    ensures Escape([c]) == EscapeChar(c)
  {
    assert Escape([c]) == EscapeChar(c) + Escape([c][1..]);
  }

  method UnescapeValue(s: string) returns (r: string)
    ensures r == Unescape(s)
  {
    if '\\' !in s {
      PlainUnescape(s);
      return s;
    }
    r := "";
    var i := 0;
    while i < |s|
      invariant 0 <= i <= |s|
      invariant Unescape(s) == r + Unescape(s[i..])
    {
      UnescapeStep(s, i);
      if s[i] == '\\' && i + 1 < |s| {
        var c := s[i + 1];
        match s[i + 1] {
          case 'n' => c := '\n';
          case 'N' => c := '\n';
          case ',' => c := ',';
          case ';' => c := ';';
          case '\\' => c := '\\';
          case _ =>
        }
        AppendOne(r, c, Unescape(s[i + 2..]));
        r := r + [c];
        i := i + 2;
      } else {
        AppendOne(r, s[i], Unescape(s[i + 1..]));
        r := r + [s[i]];
        i := i + 1;
      }
    }
  }

  lemma AppendOne(r: string, c: char, rest: string)
    ensures (r + [c]) + rest == r + ([c] + rest)
  {
  }

  lemma UnescapeStep(s: string, i: nat)
    requires i < |s|
    ensures Unescape(s[i..]) ==
      if s[i] == '\\' && i + 1 < |s| then [Meant(s[i + 1])] + Unescape(s[i + 2..]) else [s[i]] + Unescape(s[i + 1..])
  {
    assert s[i..][1..] == s[i + 1..];
    if i + 1 < |s| {
      assert s[i..][2..] == s[i + 2..];
    }
  }

  function WithoutCR(s: string): (r: string)
    ensures |r| <= |s|
    ensures '\r' !in r
    ensures |r| == |s| <==> '\r' !in s
    ensures '\r' !in s ==> r == s
  {
    if s == "" then "" else (if s[0] == '\r' then "" else [s[0]]) + WithoutCR(s[1..])
  }

  lemma UnescapeFirst(c: char, tail: string)
    ensures Unescape(EscapeChar(c) + tail) == (if c == '\r' then "" else [c]) + Unescape(tail)
  {
    var all := EscapeChar(c) + tail;
    if c == '\r' {
      assert all == tail && "" + Unescape(tail) == Unescape(tail);
    } else if Special(c) {
      assert all[2..] == tail;
    } else {
      assert all[1..] == tail;
    }
  }

  /** The escape sequences: which characters get a backslash, which one goes, and what any sequence stands for. */
  lemma Sequences(c: char, tail: string)
    ensures Escape([c] + tail) == Escape(tail) <==> c == '\r'
    ensures c in "\\,;" ==> Escape([c] + tail) == "\\" + [c] + Escape(tail)
    ensures c == '\n' ==> Escape([c] + tail) == "\\n" + Escape(tail)
    ensures c !in "\\,;\n\r" ==> Escape([c] + tail) == [c] + Escape(tail)
    ensures c == 'n' || c == 'N' ==> Unescape("\\" + [c] + tail) == "\n" + Unescape(tail)
    ensures c != 'n' && c != 'N' ==> Unescape("\\" + [c] + tail) == [c] + Unescape(tail)
    ensures c != '\\' ==> Unescape([c] + tail) == [c] + Unescape(tail)
    ensures Unescape("\\") == "\\"
  {
    assert ([c] + tail)[1..] == tail;
    var seq2 := "\\" + [c] + tail;
    assert seq2[0] == '\\' && seq2[1] == c && seq2[2..] == tail;
  }

  /** Unescaping undoes escaping but for the carriage returns, which escaping drops. */
  lemma {:induction false} UnescapeEscape(s: string)
    ensures Unescape(Escape(s)) == WithoutCR(s)
  {
    if s != "" {
      UnescapeFirst(s[0], Escape(s[1..]));
      UnescapeEscape(s[1..]);
    }
  }

  lemma RoundTripIff(s: string)
    ensures Unescape(Escape(s)) == s <==> '\r' !in s
  {
    UnescapeEscape(s);
  }

  /** An escaped value holds no line break, so it stays on its line. */
  lemma {:induction false} EscapeOneLine(s: string)
    ensures '\n' !in Escape(s) && '\r' !in Escape(s)
  {
    if s != "" {
      EscapeOneLine(s[1..]);
    }
  }

  lemma {:induction false} EscapeConcat(a: string, b: string)
    ensures Escape(a + b) == Escape(a) + Escape(b)
  {
    if a == "" {
      assert a + b == b;
    } else {
      assert (a + b)[1..] == a[1..] + b;
      EscapeConcat(a[1..], b);
    }
  }

  // ---------------------------------------------------------------- components

  /** Text put in front of the first item. */
  function Glue(text: string, parts: seq<string>): (r: seq<string>)
    requires parts != []
    ensures r != []
  {
    [text + parts[0]] + parts[1..]
  }

  /** Splitting on separators that no backslash precedes; one level of backslashes goes. */
  function Split(s: string, sep: char): (r: seq<string>)
    ensures r != []
  {
    if s == "" then [""]
    else if s[0] == '\\' && |s| > 1 then Glue([s[1]], Split(s[2..], sep))
    else if s[0] == sep then [""] + Split(s[1..], sep)
    else Glue([s[0]], Split(s[1..], sep))
  }

  lemma GlueGlue(a: string, b: string, parts: seq<string>)
    requires parts != []
    ensures Glue(a, Glue(b, parts)) == Glue(a + b, parts)
  {
    assert a + (b + parts[0]) == (a + b) + parts[0];
  }

  lemma SplitStep(s: string, i: nat, sep: char)
    requires i < |s|
    ensures Split(s[i..], sep) ==
      if s[i] == '\\' && i + 1 < |s| then Glue([s[i + 1]], Split(s[i + 2..], sep))
      else if s[i] == sep then [""] + Split(s[i + 1..], sep)
      else Glue([s[i]], Split(s[i + 1..], sep))
  {
    assert s[i..][1..] == s[i + 1..];
    if i + 1 < |s| {
      assert s[i..][2..] == s[i + 2..];
    }
  }

  lemma GlueSplit(out: seq<string>, cur: string, rest: seq<string>)
    requires rest != []
    ensures out + Glue(cur, [""] + rest) == (out + [cur]) + Glue("", rest)
  {
    GlueNothing(rest);
    assert cur + "" == cur;
  }

  /** splitSemicolons and splitCommas. */
  method SplitUnescaped(s: string, sep: char) returns (out: seq<string>)
    ensures out == Split(s, sep)
  {
    out := [];
    var cur := "";
    var i := 0;
    assert s[0..] == s;
    GlueNothing(Split(s, sep));
    while i < |s|
      invariant 0 <= i <= |s|
      invariant Split(s, sep) == out + Glue(cur, Split(s[i..], sep))
    {
      SplitStep(s, i, sep);
      if s[i] == '\\' && i + 1 < |s| {
        GlueGlue(cur, [s[i + 1]], Split(s[i + 2..], sep));
        cur := cur + [s[i + 1]];
        i := i + 2;
        continue;
      }
      if s[i] == sep {
        GlueSplit(out, cur, Split(s[i + 1..], sep));
        out := out + [cur];
        cur := "";
      } else {
        GlueGlue(cur, [s[i]], Split(s[i + 1..], sep));
        cur := cur + [s[i]];
      }
      i := i + 1;
    }
    assert cur + "" == cur;
    out := out + [cur];
  }

  lemma GlueNothing(parts: seq<string>)
    requires parts != []
    ensures Glue("", parts) == parts
  {
    assert "" + parts[0] == parts[0];
  }

  /** What splitting leaves of an escaped value: without the backslashes of escaping a line feed is a bare n. */
  function Bare(s: string): (r: string)
    ensures |r| <= |s|
    ensures |r| == |s| <==> '\r' !in s
    ensures '\r' !in s && '\n' !in s ==> r == s
  {
    if s == "" then ""
    else (if s[0] == '\r' then "" else if s[0] == '\n' then "n" else [s[0]]) + Bare(s[1..])
  }

  predicate Separator(c: char) {
    c == ',' || c == ';'
  }

  lemma SplitChar(c: char, tail: string, sep: char)
    requires Separator(sep) && c != '\r'
    ensures Split(EscapeChar(c) + tail, sep) == Glue([if c == '\n' then 'n' else c], Split(tail, sep))
  {
    var all := EscapeChar(c) + tail;
    assert all[|EscapeChar(c)|..] == tail;
  }

  lemma EscapeFirst(s: string)
    requires s != ""
    ensures Escape(s) == EscapeChar(s[0]) + Escape(s[1..])
    ensures Bare(s) == (if s[0] == '\r' then "" else if s[0] == '\n' then "n" else [s[0]]) + Bare(s[1..])
  {
  }

  lemma {:induction false} SplitEscaped(s: string, rest: string, sep: char)
    requires Separator(sep)
    ensures Split(Escape(s) + rest, sep) == Glue(Bare(s), Split(rest, sep))
  {
    if s == "" {
      assert Escape(s) + rest == rest;
      GlueNothing(Split(rest, sep));
    } else {
      EscapeFirst(s);
      SplitEscaped(s[1..], rest, sep);
      SplitFirst(s[0], Escape(s[1..]), Bare(s[1..]), rest, sep);
    }
  }

  lemma SplitFirst(c: char, tail: string, bare: string, rest: string, sep: char)
    requires Separator(sep) && Split(tail + rest, sep) == Glue(bare, Split(rest, sep))
    ensures Split(EscapeChar(c) + tail + rest, sep) ==
      Glue((if c == '\r' then "" else if c == '\n' then "n" else [c]) + bare, Split(rest, sep))
  {
    var all := EscapeChar(c) + tail + rest;
    assert all == EscapeChar(c) + (tail + rest);
    if c == '\r' {
      assert all == tail + rest && "" + bare == bare;
    } else {
      SplitChar(c, tail + rest, sep);
      GlueGlue([if c == '\n' then 'n' else c], bare, Split(rest, sep));
    }
  }

  /** Escaped values with separators between them. */
  function Joined(parts: seq<string>, sep: char): string
    requires parts != []
  {
    if |parts| == 1 then Escape(parts[0]) else Escape(parts[0]) + [sep] + Joined(parts[1..], sep)
  }

  lemma {:induction false} JoinedOneMore(parts: seq<string>, last: string, sep: char)
    requires parts != []
    ensures Joined(parts + [last], sep) == Joined(parts, sep) + [sep] + Escape(last)
  {
    var all := parts + [last];
    var first := Escape(parts[0]) + [sep];
    assert all[0] == parts[0] && all[1..] == parts[1..] + [last];
    assert Joined(all, sep) == first + Joined(all[1..], sep);
    if |parts| > 1 {
      JoinedOneMore(parts[1..], last, sep);
      var tail := Joined(parts[1..], sep);
      assert first + (tail + [sep] + Escape(last)) == first + tail + [sep] + Escape(last);
    } else {
      assert all[1..] == [last];
    }
  }

  method JoinEscaped(parts: seq<string>, sep: char) returns (out: string)
    requires parts != []
    ensures out == Joined(parts, sep)
  {
    out := EscapeValue(parts[0]);
    assert parts[..1] == [parts[0]];
    for i := 1 to |parts|
      invariant out == Joined(parts[..i], sep)
    {
      assert parts[..i + 1] == parts[..i] + [parts[i]];
      JoinedOneMore(parts[..i], parts[i], sep);
      var e := EscapeValue(parts[i]);
      out := out + [sep] + e;
    }
    assert parts[..|parts|] == parts;
  }

  function BareAll(parts: seq<string>): (r: seq<string>)
    ensures |r| == |parts|
    ensures forall i | 0 <= i < |parts| :: r[i] == Bare(parts[i])
  {
    if parts == [] then [] else [Bare(parts[0])] + BareAll(parts[1..])
  }

  /** Separators inside a value never split it, and values keep their number and order. */
  lemma {:induction false} SplitJoined(parts: seq<string>, sep: char)
    requires parts != [] && Separator(sep)
    ensures Split(Joined(parts, sep), sep) == BareAll(parts)
  {
    if |parts| == 1 {
      assert Escape(parts[0]) + "" == Escape(parts[0]);
      SplitEscaped(parts[0], "", sep);
      assert Bare(parts[0]) + "" == Bare(parts[0]);
    } else {
      var rest := [sep] + Joined(parts[1..], sep);
      assert Joined(parts, sep) == Escape(parts[0]) + rest;
      SplitEscaped(parts[0], rest, sep);
      SplitJoined(parts[1..], sep);
      assert rest[1..] == Joined(parts[1..], sep);
      assert Bare(parts[0]) + "" == Bare(parts[0]);
    }
  }

  lemma {:induction false} JoinedOneLine(parts: seq<string>, sep: char)
    requires parts != [] && Separator(sep)
    ensures '\n' !in Joined(parts, sep) && '\r' !in Joined(parts, sep)
  {
    EscapeOneLine(parts[0]);
    if |parts| > 1 {
      JoinedOneLine(parts[1..], sep);
    }
  }

  // ---------------------------------------------------------------- what a component becomes

  /** A component after writing, splitting and unescaping: backslashes were removed twice but added once. */
  function Lossy(s: string): string {
    Unescape(Bare(s))
  }

  predicate Sturdy(s: string) {
    && '\r' !in s && '\n' !in s
    && forall i | 0 <= i < |s| - 1 :: s[i] != '\\'
  }

  lemma {:induction false} UnescapeShorter(s: string)
    ensures |Unescape(s)| <= |s|
    ensures |Unescape(s)| == |s| <==> forall i | 0 <= i < |s| - 1 :: s[i] != '\\'
    ensures |Unescape(s)| == |s| ==> Unescape(s) == s
  {
    if s != "" {
      if s[0] == '\\' && |s| > 1 {
        UnescapeShorter(s[2..]);
      } else {
        var t := s[1..];
        UnescapeShorter(t);
        assert forall i | 1 <= i < |s| :: s[i] == t[i - 1];
        if forall i | 0 <= i < |t| - 1 :: t[i] != '\\' {
          assert forall i | 0 <= i < |s| - 1 :: s[i] != '\\';
        } else {
          var i :| 0 <= i < |t| - 1 && t[i] == '\\';
          assert s[i + 1] == '\\';
        }
      }
    }
  }

  /**
   A component survives exactly when it has no line break and no backslash before its last position.
   */
  lemma ComponentKeptIff(s: string)
    ensures Lossy(s) == s <==> Sturdy(s)
    ensures |Lossy(s)| <= |s|
    ensures |Lossy(s)| == |s| && '\n' !in s ==> Lossy(s) == s
  {
    UnescapeShorter(Bare(s));
    if Lossy(s) == s {
      BareKeeps(s);
    }
  }

  lemma {:induction false} BareKeeps(s: string)
    ensures Bare(s) == s <==> '\r' !in s && '\n' !in s
  {
    if s != "" {
      BareKeeps(s[1..]);
      if Bare(s) == s && s[0] != '\r' {
        assert Bare(s)[1..] == Bare(s[1..]);
      }
    }
  }

  // ---------------------------------------------------------------- trimmed values

  /** White space that stays white space when escaped: a line feed does not. */
  predicate Shaved(c: char) {
    IsSpace(c) && c != '\n'
  }

  function ShaveLeft(s: string): (r: string)
    ensures |r| <= |s|
    ensures |r| == |s| ==> r == s
    ensures r != "" ==> !Shaved(r[0])
  {
    if s != "" && Shaved(s[0]) then ShaveLeft(s[1..]) else s
  }

  function ShaveRight(s: string): (r: string)
    ensures r <= s
    ensures r != "" ==> !Shaved(r[|r| - 1])
  {
    if s != "" && Shaved(s[|s| - 1]) then ShaveRight(s[..|s| - 1]) else s
  }

  function Shave(s: string): (r: string)
    ensures |r| <= |s|
    ensures |r| == |s| ==> r == s
    ensures r != "" ==> !Shaved(r[0])
  {
    ShaveRight(ShaveLeft(s))
  }

  lemma {:induction false} TrimLeftEscape(s: string)
    ensures TrimLeft(Escape(s)) == Escape(ShaveLeft(s))
  {
    if s != "" && Shaved(s[0]) {
      TrimLeftEscape(s[1..]);
      if s[0] == '\r' {
        assert Escape(s) == Escape(s[1..]);
      } else {
        assert Escape(s)[1..] == Escape(s[1..]);
      }
    }
  }

  lemma TrimRightMore(text: string, end: string)
    requires end == "" || (|end| == 1 && IsSpace(end[0]))
    ensures TrimRight(text + end) == TrimRight(text)
  {
    if end == "" {
      assert text + end == text;
    } else {
      assert (text + end)[..|text|] == text;
    }
  }

  lemma TrimRightStops(text: string, end: string)
    requires end != "" && !IsSpace(end[|end| - 1])
    ensures TrimRight(text + end) == text + end
  {
    assert (text + end)[|text + end| - 1] == end[|end| - 1];
  }

  lemma EscapeLast(front: string, c: char)
    ensures Escape(front + [c]) == Escape(front) + EscapeChar(c)
    ensures Shaved(c) ==> EscapeChar(c) == "" || (|EscapeChar(c)| == 1 && IsSpace(EscapeChar(c)[0]))
    ensures !Shaved(c) ==> EscapeChar(c) != "" && !IsSpace(EscapeChar(c)[|EscapeChar(c)| - 1])
    ensures ShaveRight(front + [c]) == if Shaved(c) then ShaveRight(front) else front + [c]
  {
    EscapeConcat(front, [c]);
    EscapeOne(c);
    assert (front + [c])[..|front|] == front;
  }

  lemma {:induction false} TrimRightEscape(s: string)
    ensures TrimRight(Escape(s)) == Escape(ShaveRight(s))
  {
    if s != "" {
      var front, c := s[..|s| - 1], s[|s| - 1];
      assert s == front + [c];
      EscapeLast(front, c);
      if Shaved(c) {
        TrimRightEscape(front);
        TrimRightMore(Escape(front), EscapeChar(c));
      } else {
        TrimRightStops(Escape(front), EscapeChar(c));
      }
    }
  }

  /** What is read back of a value that is trimmed between escaping and unescaping. */
  lemma TrimmedValue(s: string)
    ensures TrimSpace(Escape(s)) == "" <==> Shave(s) == ""
    ensures Unescape(TrimSpace(Escape(s))) == WithoutCR(Shave(s))
  {
    TrimLeftEscape(s);
    TrimRightEscape(ShaveLeft(s));
    UnescapeEscape(Shave(s));
  }

  /** Such a value survives exactly when it has no carriage return, is not blank, and has no end to trim. */
  predicate Firm(s: string) {
    s != "" && '\r' !in s && !Shaved(s[0]) && !Shaved(s[|s| - 1])
  }

  lemma TrimmedValueKeptIff(s: string)
    ensures Shave(s) != "" && WithoutCR(Shave(s)) == s <==> Firm(s)
  {
  }
}
