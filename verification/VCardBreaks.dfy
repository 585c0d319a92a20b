/** Line breaks of a vCard stream: what its reader makes of a bare carriage return. */
module VCardBreaks {
  import opened VCardLines

  /** CRLF and CR turned into LF. */
  function Normalized(s: string): string {
    if s == "" then ""
    else if s[0] != '\r' then [s[0]] + Normalized(s[1..])
    else if |s| > 1 && s[1] == '\n' then Normalized(s[1..])
    else "\n" + Normalized(s[1..])
  }

  /** A CR inside the text that no LF follows. */
  predicate BareCR(s: string) {
    exists i :: 0 <= i < |s| - 1 && s[i] == '\r' && s[i + 1] != '\n'
  }

  function Feeds(s: string): nat {
    if s == "" then 0 else (if s[0] == '\n' then 1 else 0) + Feeds(s[1..])
  }

  /** How many CRs no LF follows, one at the end not counted. */
  function BareCRs(s: string): nat {
    if |s| < 2 then 0 else (if s[0] == '\r' && s[1] != '\n' then 1 else 0) + BareCRs(s[1..])
  }

  lemma {:induction false} BareCRsCount(s: string)
    ensures BareCRs(s) > 0 <==> BareCR(s)
  {
    if |s| >= 2 {
      BareCRsCount(s[1..]);
      if i :| 0 <= i < |s| - 1 && s[i] == '\r' && s[i + 1] != '\n' {
        assert i > 0 ==> s[1..][i - 1] == '\r' && s[1..][i] != '\n';
      }
      if i :| 0 <= i < |s[1..]| - 1 && s[1..][i] == '\r' && s[1..][i + 1] != '\n' {
        assert s[i + 1] == '\r' && s[i + 2] != '\n';
      }
    }
  }

  /** A last line without its LF. */
  function Rest(s: string): nat {
    if s != "" && s[|s| - 1] != '\n' then 1 else 0
  }

  lemma {:induction false} FeedsConcat(a: string, b: string)
    ensures Feeds(a + b) == Feeds(a) + Feeds(b)
  {
    if a == "" {
      assert a + b == b;
    } else {
      assert (a + b)[1..] == a[1..] + b;
      FeedsConcat(a[1..], b);
    }
  }

  lemma {:induction false} NoFeeds(s: string)
    requires '\n' !in s
    ensures Feeds(s) == 0
  {
    if s != "" {
      NoFeeds(s[1..]);
    }
  }

  lemma FeedsSplit(a: string, b: string)
    requires '\n' !in a
    ensures Feeds(a + ("\n" + b)) == 1 + Feeds(b)
  {
    NoFeeds(a);
    FeedsConcat(a, "\n" + b);
    assert ("\n" + b)[1..] == b;
  }

  lemma {:induction false} PhysicalCount(s: string)
    ensures |Physical(s)| == Feeds(s) + Rest(s)
    decreases |s|
  {
    if s != "" {
      var n := Find(s, '\n');
      if n == |s| {
        assert s[..n] == s;
        NoFeeds(s);
        assert s[|s| - 1] in s;
      } else {
        var rest := s[n + 1..];
        assert s == s[..n] + ("\n" + rest);
        FeedsSplit(s[..n], rest);
        PhysicalCount(rest);
        assert rest != "" ==> rest[|rest| - 1] == s[|s| - 1];
      }
    }
  }

  lemma {:induction false} NormalizedCount(s: string)
    ensures Feeds(Normalized(s)) + Rest(Normalized(s)) == Feeds(s) + Rest(s) + BareCRs(s)
    ensures s != "" ==> Normalized(s) != ""
  {
    if s != "" {
      NormalizedCount(s[1..]);
      var m := Normalized(s[1..]);
      if s[0] != '\r' {
        assert ([s[0]] + m)[1..] == m;
      } else if !(|s| > 1 && s[1] == '\n') {
        assert ("\n" + m)[1..] == m;
      }
    }
  }

  lemma {:induction false} NormalizedConcat(a: string, b: string)
    requires a != "" && a[|a| - 1] != '\r'
    ensures Normalized(a + b) == Normalized(a) + Normalized(b)
  {
    var m := a[1..];
    assert (a + b)[1..] == m + b && (a + b)[0] == a[0];
    if m == "" {
      assert m + b == b && Normalized(a) == a;
    } else {
      assert (a + b)[1] == a[1];
      NormalizedConcat(m, b);
    }
  }

  lemma {:induction false} NormalizedPlain(s: string)
    requires '\r' !in s
    ensures Normalized(s) == s
  {
    if s != "" {
      NormalizedPlain(s[1..]);
    }
  }

  /** The part of a line before the CR at its end, if there is one. */
  function BeforeCR(line: string): string {
    if line != "" && line[|line| - 1] == '\r' then line[..|line| - 1] else line
  }

  lemma BeforeCRPlain(line: string)
    requires '\n' !in line && !BareCR(line)
    ensures '\r' !in BeforeCR(line) && '\n' !in BeforeCR(line)
    ensures line == BeforeCR(line) || line == BeforeCR(line) + "\r"
  {
    var a := BeforeCR(line);
    forall i | 0 <= i < |a| ensures a[i] != '\r' && a[i] != '\n' {
      assert line[i] in line;
      assert i + 1 < |line| ==> line[i + 1] in line;
    }
  }

  lemma TrimmedEnd(a: string, end: string)
    requires a == "" || !Break(a[|a| - 1])
    requires forall i | 0 <= i < |end| :: Break(end[i])
    ensures TrimBreaks(a + end) == a && TrimBreaks(a + end + "\n") == a
  {
    TrimBreaksAll(a, end);
    TrimBreaksAll(a, end + "\n");
    assert a + end + "\n" == a + (end + "\n");
  }

  lemma TrimmedLine(line: string)
    requires '\n' !in line && !BareCR(line)
    ensures TrimBreaks(line + "\n") == TrimBreaks(line) == TrimBreaks(BeforeCR(line) + "\n") == BeforeCR(line)
  {
    var a := BeforeCR(line);
    BeforeCRPlain(line);
    assert a != "" ==> a[|a| - 1] in a;
    var end := if line == a then "" else "\r";
    assert line == a + end;
    TrimmedEnd(a, end);
    TrimBreaksAll(a, "\n");
  }

  lemma NormalizedLine(line: string)
    requires '\n' !in line && !BareCR(line)
    ensures Normalized(line + "\n") == BeforeCR(line) + "\n"
    ensures Normalized(line) == BeforeCR(line) + if line == BeforeCR(line) then "" else "\n"
  {
    var a := BeforeCR(line);
    BeforeCRPlain(line);
    if a != line {
      CRNormalized(a);
    } else {
      NormalizedPlain(a);
      NormalizedPlain(a + "\n");
      assert a + "" == a;
    }
  }

  lemma {:induction false} TrimBreaksAll(a: string, end: string)
    requires a == "" || !Break(a[|a| - 1])
    requires forall i | 0 <= i < |end| :: Break(end[i])
    ensures TrimBreaks(a + end) == a
    decreases |end|
  {
    if end == "" {
      assert a + end == a;
    } else {
      assert (a + end)[..|a + end| - 1] == a + end[..|end| - 1];
      TrimBreaksAll(a, end[..|end| - 1]);
    }
  }

  lemma Endings()
    ensures Normalized("\r") == "\n" && Normalized("\r\n") == "\n"
  {
    assert "\r\n"[1..] == "\n" && Normalized("\n") == "\n";
  }

  lemma CRNormalized(a: string)
    requires '\r' !in a
    ensures Normalized(a + "\r") == a + "\n" && Normalized(a + "\r" + "\n") == a + "\n"
  {
    Endings();
    NormalizedPlain(a);
    assert a + "\r" + "\n" == a + "\r\n";
    if a != "" {
      assert a[|a| - 1] in a;
      NormalizedConcat(a, "\r");
      NormalizedConcat(a, "\r\n");
    } else {
      assert forall b: string :: a + b == b;
    }
  }

  lemma BareStays(a: string, b: string)
    ensures BareCR(a) || BareCR(b) ==> BareCR(a + b)
  {
    var all := a + b;
    if i :| 0 <= i < |a| - 1 && a[i] == '\r' && a[i + 1] != '\n' {
      assert all[i] == '\r' && all[i + 1] != '\n';
    }
    if i :| 0 <= i < |b| - 1 && b[i] == '\r' && b[i + 1] != '\n' {
      assert all[|a| + i] == '\r' && all[|a| + i + 1] != '\n';
    }
  }

  lemma PhysicalFirst(line: string, rest: string)
    requires '\n' !in line
    ensures Physical(line + "\n" + rest) == [TrimBreaks(line + "\n")] + Physical(rest)
  {
    var text := line + ['\n'] + rest;
    FindIn(line, '\n', rest);
    assert text[..|line| + 1] == line + "\n" && text[|line| + 1..] == rest;
  }

  lemma PhysicalOnly(line: string)
    requires '\n' !in line && line != ""
    ensures Physical(line) == [TrimBreaks(line)]
  {
    assert Find(line, '\n') == |line|;
  }

  lemma {:induction false} SameLines(s: string)
    requires !BareCR(s)
    ensures Physical(Normalized(s)) == Physical(s)
    decreases |s|
  {
    var n := Find(s, '\n');
    if n == |s| {
      assert s[..n] == s;
      if s != "" {
        LastLine(s);
      }
    } else {
      var line, rest := s[..n], s[n + 1..];
      assert s == line + "\n" + rest;
      BareStays(line, "\n" + rest);
      BareStays(line + "\n", rest);
      assert line + "\n" + rest == line + ("\n" + rest);
      TrimmedLine(line);
      NormalizedLine(line);
      BeforeCRPlain(line);
      NormalizedConcat(line + "\n", rest);
      PhysicalFirst(line, rest);
      PhysicalFirst(BeforeCR(line), Normalized(rest));
      SameLines(rest);
    }
  }

  lemma LastLine(line: string)
    requires line != "" && '\n' !in line && !BareCR(line)
    ensures Physical(Normalized(line)) == Physical(line)
  {
    var a := BeforeCR(line);
    TrimmedLine(line);
    NormalizedLine(line);
    BeforeCRPlain(line);
    PhysicalOnly(line);
    if a != line {
      PhysicalFirst(a, "");
      assert a + "\n" + "" == a + "\n";
    } else {
      assert a + "" == a;
    }
  }

  /**
   The reader's lines are those of a text whose CRLFs and CRs were turned into LFs first, if and only
   if no CR stands bare: before anything but an LF or the end. A bare CR is no line break to it.
   */
  lemma BareCRIsNoBreakIff(s: string)
    ensures Physical(Normalized(s)) == Physical(s) <==> !BareCR(s)
    ensures |Physical(Normalized(s))| == |Physical(s)| + BareCRs(s)
  {
    PhysicalCount(s);
    PhysicalCount(Normalized(s));
    NormalizedCount(s);
    BareCRsCount(s);
    if !BareCR(s) {
      SameLines(s);
    }
  }
}
