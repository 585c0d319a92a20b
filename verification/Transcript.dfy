/** The provider transcript: its block grammar, and the repair and trimming that restore it. */
module Transcript {
  import Text
  import opened Sequences

  datatype Role = System | User | Assistant | Tool

  datatype ToolCall = ToolCall(id: string, name: string, args: string)

  datatype Message = Message(role: Role, content: string, calls: seq<ToolCall>, callId: string, toolName: string)

  type History = seq<Message>

  // ---------------------------------------------------------------- grammar

  predicate Calling(m: Message) {
    m.role == Assistant && m.calls != []
  }

  predicate Plain(m: Message) {
    m.role != Tool && !Calling(m)
  }

  /** The length of the block that a row opens when its block is whole. */
  function BlockLen(m: Message): nat {
    if Plain(m) then 1 else 1 + |m.calls|
  }

  /** The row k places behind row at answers its call k. */
  predicate Answered(h: History, at: nat, k: nat)
    requires at + 1 + k < |h| && k < |h[at].calls|
  {
    h[at + 1 + k].role == Tool && h[at + 1 + k].callId == h[at].calls[k].id
  }

  /** Right behind row at come the results of its calls one by one, in order. */
  predicate Complete(h: History, at: nat)
    requires at < |h|
  {
    at + |h[at].calls| < |h| && forall k | 0 <= k < |h[at].calls| :: Answered(h, at, k)
  }

  /** Completeness looks at nothing outside the block. */
  lemma CompleteLocal(h: History, at: nat, g: History, at': nat)
    requires at < |h| && at' + |h[at].calls| < |g|
    requires at + |h[at].calls| < |h| && h[at..at + 1 + |h[at].calls|] == g[at'..at' + 1 + |h[at].calls|]
    ensures g[at'] == h[at] && (Complete(h, at) <==> Complete(g, at'))
  {
    var n := |h[at].calls|;
    var b := h[at..at + 1 + n];
    assert b[0] == h[at] && b[0] == g[at'];
    forall k | 0 <= k < n ensures Answered(h, at, k) <==> Answered(g, at', k) {
      assert b[1 + k] == h[at + 1 + k] && b[1 + k] == g[at' + 1 + k];
    }
  }

  /** A whole block: one plain message, or a call row with exactly its results. */
  predicate IsBlock(b: History) {
    b != [] && |b| == BlockLen(b[0]) && (Plain(b[0]) || (Calling(b[0]) && Complete(b, 0)))
  }

  /** A sequence of whole blocks. */
  predicate WellFormed(h: History) {
    h == [] || (BlockLen(h[0]) <= |h| && IsBlock(h[..BlockLen(h[0])]) && WellFormed(h[BlockLen(h[0])..]))
  }

  lemma {:induction false} BlockThenWellFormed(b: History, h: History)
    requires IsBlock(b) && WellFormed(h)
    ensures WellFormed(b + h)
  {
    var all := b + h;
    assert all[..BlockLen(all[0])] == b;
    assert all[BlockLen(all[0])..] == h;
  }

  /** All rows of a block behind its first are tool rows. */
  lemma BlockTail(b: History, i: nat)
    requires IsBlock(b) && 0 < i < |b|
    ensures b[i].role == Tool
  {
    assert Answered(b, 0, i - 1);
  }

  /** The first block and what follows it. */
  lemma FirstBlock(h: History) returns (block: History, rest: History)
    requires WellFormed(h) && h != []
    ensures h == block + rest && IsBlock(block) && WellFormed(rest) && |rest| < |h|
  {
    block, rest := h[..BlockLen(h[0])], h[BlockLen(h[0])..];
  }

  lemma {:induction false} WellFormedConcat(g: History, h: History)
    requires WellFormed(g) && WellFormed(h)
    ensures WellFormed(g + h)
    decreases |g|
  {
    if g == [] {
      assert g + h == h;
    } else {
      var block, rest := FirstBlock(g);
      WellFormedConcat(rest, h);
      BlockThenWellFormed(block, rest + h);
      Assoc(block, rest, h);
    }
  }

  // ---------------------------------------------------------------- what a provider accepts

  /** An assistant row is followed at once by one result for each of its calls, in their order. */
  predicate CallsAnswered(h: History, i: nat)
    requires i < |h|
  {
    h[i].role == Assistant ==>
      && i + |h[i].calls| < |h|
      && forall k | 0 <= k < |h[i].calls| :: AnswersCall(h[i + 1 + k], h[i].calls[k])
  }

  predicate AnswersCall(m: Message, c: ToolCall) {
    m.role == Tool && m.callId == c.id
  }

  /** A tool row has an assistant row before it with enough calls to reach it. */
  predicate HasCaller(h: History, i: nat)
    requires i < |h|
  {
    h[i].role == Tool ==> exists j | 0 <= j < i :: Reaches(h, j, i)
  }

  predicate Reaches(h: History, j: nat, i: nat)
    requires j < |h|
  {
    h[j].role == Assistant && i <= j + |h[j].calls|
  }

  predicate Legal(h: History) {
    forall i | 0 <= i < |h| :: CallsAnswered(h, i) && HasCaller(h, i)
  }

  /** Being made of whole blocks is the same as having no call without its results and no result without its call. */
  lemma WellFormedIff(h: History)
    ensures WellFormed(h) <==> Legal(h)
  {
    if Legal(h) {
      LegalFrom(h, 0);
      assert h[0..] == h;
    }
    if WellFormed(h) {
      WellFormedIsLegal(h);
    }
  }

  lemma {:induction false} LegalFrom(h: History, i: nat)
    requires Legal(h) && i <= |h| && forall j | 0 <= j < i :: !Reaches(h, j, i)
    ensures WellFormed(h[i..])
    decreases |h| - i
  {
    if i < |h| {
      assert CallsAnswered(h, i) && HasCaller(h, i);
      var n := BlockLen(h[i]);
      var s := h[i..];
      if !Plain(h[i]) {
        forall k | 0 <= k < |h[i].calls| ensures Answered(h, i, k) {
          assert AnswersCall(h[i + 1 + k], h[i].calls[k]);
        }
        CompleteSuffix(h, i);
        CompleteBlock(s);
        ExchangeTools(h, i);
      }
      var next := i + n;
      forall j | 0 <= j < next ensures !Reaches(h, j, next) {
        assert j < i ==> !Reaches(h, j, i);
        assert j > i ==> h[j].role == Tool;
      }
      LegalFrom(h, next);
      assert s[n..] == h[next..] && s == s[..n] + s[n..];
      BlockThenWellFormed(s[..n], s[n..]);
    }
  }

  lemma {:induction false} WellFormedIsLegal(h: History)
    requires WellFormed(h)
    ensures Legal(h)
    decreases |h|
  {
    if h != [] {
      var block, rest := FirstBlock(h);
      WellFormedIsLegal(rest);
      forall i | 0 <= i < |h| ensures CallsAnswered(h, i) && HasCaller(h, i) {
        if i < |block| {
          RowOfBlock(block, rest, i);
        } else {
          RowBehindBlock(block, rest, i - |block|);
        }
      }
    }
  }

  lemma RowOfBlock(block: History, rest: History, i: nat)
    requires IsBlock(block) && i < |block|
    ensures CallsAnswered(block + rest, i) && HasCaller(block + rest, i)
  {
    var h := block + rest;
    if i > 0 {
      BlockTail(block, i);
      assert Reaches(h, 0, i);
    } else if h[0].role == Assistant {
      forall k | 0 <= k < |h[0].calls| ensures AnswersCall(h[0 + 1 + k], h[0].calls[k]) {
        assert Answered(block, 0, k);
      }
    }
  }

  lemma RowBehindBlock(block: History, rest: History, i: nat)
    requires i < |rest| && CallsAnswered(rest, i) && HasCaller(rest, i)
    ensures CallsAnswered(block + rest, |block| + i) && HasCaller(block + rest, |block| + i)
  {
    var h, at := block + rest, |block| + i;
    assert h[at] == rest[i];
    if rest[i].role == Assistant {
      forall k | 0 <= k < |rest[i].calls| ensures AnswersCall(h[at + 1 + k], h[at].calls[k]) {
        assert AnswersCall(rest[i + 1 + k], rest[i].calls[k]);
        assert h[at + 1 + k] == rest[i + 1 + k];
      }
    }
    if rest[i].role == Tool {
      var j :| 0 <= j < i && Reaches(rest, j, i);
      assert h[|block| + j] == rest[j] && Reaches(h, |block| + j, at);
    }
  }

  // ---------------------------------------------------------------- repair

  function SkipTools(h: History): (r: History)
    ensures |r| <= |h|
  {
    if h != [] && h[0].role == Tool then SkipTools(h[1..]) else h
  }

  /** What repairToolTranscript returns. */
  function Repair(h: History): History
    decreases |h|
  {
    if h == [] then []
    else if h[0].role == Tool then Repair(h[1..])
    else if !Calling(h[0]) then [h[0]] + Repair(h[1..])
    else if Complete(h, 0) then h[..1 + |h[0].calls|] + Repair(h[1 + |h[0].calls|..])
    else Repair(SkipTools(h[1..]))
  }

  method HasCompleteToolResults(hist: History, at: nat) returns (r: bool)
    requires at < |hist|
    ensures r <==> Complete(hist, at)
  {
    var calls := hist[at].calls;
    if at + |calls| >= |hist| {
      return false;
    }
    var i := 0;
    while i < |calls|
      invariant 0 <= i <= |calls|
      invariant forall k | 0 <= k < i :: Answered(hist, at, k)
    {
      var next := hist[at + 1 + i];
      if next.role != Tool || next.callId != calls[i].id {
        assert !Answered(hist, at, i);
        return false;
      }
      i := i + 1;
    }
    r := true;
  }

  /** A suffix sees the same exchange. */
  lemma CompleteSuffix(h: History, at: nat)
    requires at < |h|
    ensures h[at..][0] == h[at] && (Complete(h, at) <==> Complete(h[at..], 0))
  {
    var n := |h[at].calls|;
    if at + n < |h| {
      assert h[at..][0..1 + n] == h[at..at + 1 + n];
      CompleteLocal(h, at, h[at..], 0);
    }
  }

  /** Repair, told by positions in the whole history. */
  lemma RepairAt(h: History, i: nat)
    requires i < |h|
    ensures Complete(h, i) ==> i + |h[i].calls| < |h|
    ensures Repair(h[i..]) ==
      if h[i].role == Tool then Repair(h[i + 1..])
      else if !Calling(h[i]) then [h[i]] + Repair(h[i + 1..])
      else if Complete(h, i) then h[i..i + 1 + |h[i].calls|] + Repair(h[i + 1 + |h[i].calls|..])
      else Repair(SkipTools(h[i + 1..]))
  {
    var s := h[i..];
    CompleteSuffix(h, i);
    assert s[1..] == h[i + 1..];
    if Complete(h, i) {
      var n := 1 + |h[i].calls|;
      assert s[..n] == h[i..i + n] && s[n..] == h[i + n..];
    }
  }

  method RepairToolTranscript(hist: History) returns (out: History)
    ensures out == Repair(hist)
  {
    out := [];
    var i := 0;
    while i < |hist|
      invariant 0 <= i <= |hist| && out + Repair(hist[i..]) == Repair(hist)
    {
      var m := hist[i];
      RepairAt(hist, i);
      if m.role == Tool {
        i := i + 1;
        continue;
      }
      if m.role != Assistant || |m.calls| == 0 {
        Assoc(out, [m], Repair(hist[i + 1..]));
        out := out + [m];
        i := i + 1;
        continue;
      }
      var complete := HasCompleteToolResults(hist, i);
      if !complete {
        i := SkipResults(hist, i + 1);
        continue;
      }
      out, i := TakeExchange(hist, i, out);
    }
  }

  /** Passes over the tool rows from at on. */
  method SkipResults(hist: History, at: nat) returns (i: nat)
    requires at <= |hist|
    ensures at <= i <= |hist| && SkipTools(hist[at..]) == hist[i..]
  {
    i := at;
    while i < |hist| && hist[i].role == Tool
      invariant at <= i <= |hist| && SkipTools(hist[at..]) == SkipTools(hist[i..])
    {
      assert hist[i..][1..] == hist[i + 1..];
      i := i + 1;
    }
  }

  /** The inner loop of repairToolTranscript: the call row and the rows answering it. */
  method TakeExchange(hist: History, at: nat, out0: History) returns (out: History, i: nat)
    requires at < |hist| && Calling(hist[at]) && Complete(hist, at)
    ensures at < i <= |hist| && out + Repair(hist[i..]) == out0 + Repair(hist[at..])
  {
    var m := hist[at];
    i := at;
    out := out0 + [m];
    for k := 0 to |m.calls|
      invariant i == at + k && out == out0 + hist[at..i + 1]
    {
      i := i + 1;
      assert hist[at..i + 1] == hist[at..i] + [hist[i]];
      out := out + [hist[i]];
    }
    i := i + 1;
    ExchangeKept(out0, hist, at, i);
  }

  lemma ExchangeKept(out: History, hist: History, at: nat, i: nat)
    requires at < |hist| && Calling(hist[at]) && Complete(hist, at) && i == at + 1 + |hist[at].calls|
    ensures i <= |hist| && (out + hist[at..i]) + Repair(hist[i..]) == out + Repair(hist[at..])
  {
    RepairAt(hist, at);
    Assoc(out, hist[at..i], Repair(hist[i..]));
  }

  lemma CompleteBlock(h: History)
    requires h != [] && Calling(h[0]) && Complete(h, 0)
    ensures IsBlock(h[..1 + |h[0].calls|])
  {
    var n := 1 + |h[0].calls|;
    assert h[..n][0..n] == h[0..n];
    CompleteLocal(h, 0, h[..n], 0);
  }

  lemma BlockComplete(h: History)
    requires h != [] && BlockLen(h[0]) <= |h| && IsBlock(h[..BlockLen(h[0])])
    ensures Plain(h[0]) || (Calling(h[0]) && Complete(h, 0))
  {
    if !Plain(h[0]) {
      var n := 1 + |h[0].calls|;
      assert h[..n][0..n] == h[0..n];
      CompleteLocal(h, 0, h[..n], 0);
    }
  }

  /** The repaired transcript is legal whatever came in. */
  lemma {:induction false} RepairIsWellFormed(h: History)
    ensures WellFormed(Repair(h))
    decreases |h|
  {
    if h != [] {
      if h[0].role == Tool {
        RepairIsWellFormed(h[1..]);
      } else if !Calling(h[0]) {
        RepairIsWellFormed(h[1..]);
        BlockThenWellFormed([h[0]], Repair(h[1..]));
      } else if Complete(h, 0) {
        var n := 1 + |h[0].calls|;
        RepairIsWellFormed(h[n..]);
        CompleteBlock(h);
        BlockThenWellFormed(h[..n], Repair(h[n..]));
      } else {
        RepairIsWellFormed(SkipTools(h[1..]));
      }
    }
  }

  /** A legal transcript is left alone. */
  lemma {:induction false} RepairKeepsWellFormed(h: History)
    requires WellFormed(h)
    ensures Repair(h) == h
    decreases |h|
  {
    if h != [] {
      var n := BlockLen(h[0]);
      BlockComplete(h);
      RepairKeepsWellFormed(h[n..]);
      SplitAt(h, n);
      RepairAt(h, 0);
      assert h[0..] == h && h[0..n] == h[..n];
      assert n == 1 ==> h[..n] == [h[0]];
    }
  }

  lemma RepairIdempotent(h: History)
    ensures Repair(Repair(h)) == Repair(h)
  {
    RepairIsWellFormed(h);
    RepairKeepsWellFormed(Repair(h));
  }

  /** What the row at position i contributes on its own: itself, its whole exchange, or nothing. */
  function Piece(h: History, i: nat): History
    requires i < |h|
  {
    if Plain(h[i]) then [h[i]]
    else if Calling(h[i]) && Complete(h, i) then h[i..i + 1 + |h[i].calls|]
    else []
  }

  function Pieces(h: History, i: nat): History
    requires i <= |h|
    decreases |h| - i
  {
    if i == |h| then [] else Piece(h, i) + Pieces(h, i + 1)
  }

  /** Repair keeps the piece at i and goes on at k, with only tool rows passed between. */
  lemma RepairPiece(h: History, i: nat) returns (k: nat)
    requires i < |h|
    ensures i < k <= |h| && Repair(h[i..]) == Piece(h, i) + Repair(h[k..])
    ensures forall j | i < j < k :: h[j].role == Tool
  {
    if Plain(h[i]) {
      k := i + 1;
      assert Repair(h[i..]) == [h[i]] + Repair(h[k..]) by { RepairAt(h, i); }
    } else if h[i].role == Tool {
      k := i + 1;
      assert Repair(h[i..]) == Repair(h[k..]) by { RepairAt(h, i); }
      ConcatNothing(Repair(h[k..]));
    } else if Complete(h, i) {
      k := i + 1 + |h[i].calls|;
      ExchangeTools(h, i);
      assert Repair(h[i..]) == h[i..k] + Repair(h[k..]) by { RepairAt(h, i); }
    } else {
      k := SkipToolsStops(h, i + 1);
      assert Repair(h[i..]) == Repair(h[k..]) by { RepairAt(h, i); }
      ConcatNothing(Repair(h[k..]));
    }
  }

  /**
   The exact result, position by position: every plain row and every complete exchange is kept,
   in order, and nothing else.
   */
  lemma {:induction false} RepairByPosition(h: History, i: nat)
    requires i <= |h|
    ensures Repair(h[i..]) == Pieces(h, i)
    decreases |h| - i
  {
    if i < |h| {
      var k := RepairPiece(h, i);
      ToolRunEmpty(h, i + 1, k);
      RepairByPosition(h, k);
    }
  }

  lemma ExchangeTools(h: History, i: nat)
    requires i < |h| && Complete(h, i)
    ensures forall j | i < j <= i + |h[i].calls| :: h[j].role == Tool
  {
    forall j | i < j <= i + |h[i].calls| ensures h[j].role == Tool {
      assert Answered(h, i, j - i - 1);
    }
  }

  /** Where SkipTools stops. */
  function SkipToolsStops(h: History, i: nat): (k: nat)
    requires i <= |h|
    ensures i <= k <= |h| && SkipTools(h[i..]) == h[k..]
    ensures forall j | i <= j < k :: h[j].role == Tool
    decreases |h| - i
  {
    if i < |h| && h[i].role == Tool then
      assert h[i..][1..] == h[i + 1..];
      SkipToolsStops(h, i + 1)
    else i
  }

  lemma {:induction false} ToolRunEmpty(h: History, i: nat, j: nat)
    requires i <= j <= |h| && forall k | i <= k < j :: h[k].role == Tool
    ensures Pieces(h, i) == Pieces(h, j)
    decreases j - i
  {
    if i < j {
      ToolRunEmpty(h, i + 1, j);
      assert Pieces(h, i) == Pieces(h, i + 1);
    }
  }

  function PlainRows(h: History): History {
    Filter(Plain, h)
  }

  lemma PlainRowsBehind(g: History, h: History)
    requires forall i | 0 <= i < |g| :: !Plain(g[i])
    ensures PlainRows(g + h) == PlainRows(h)
  {
    FilterNone(Plain, g);
    FilterConcat(Plain, g, h);
    ConcatNothing(PlainRows(h));
  }

  lemma ExchangePlainRows(h: History)
    requires h != [] && Calling(h[0]) && Complete(h, 0)
    ensures forall i | 0 <= i < 1 + |h[0].calls| :: !Plain(h[i])
  {
    var n := 1 + |h[0].calls|;
    CompleteBlock(h);
    forall i | 0 < i < n ensures !Plain(h[i]) {
      BlockTail(h[..n], i);
    }
  }

  /** Repair loses no user, system or ordinary assistant message, and keeps their order. */
  lemma {:induction false} RepairKeepsPlainRows(h: History)
    ensures PlainRows(Repair(h)) == PlainRows(h)
    decreases |h|
  {
    if h != [] {
      if h[0].role == Tool || Plain(h[0]) {
        RepairKeepsPlainRows(h[1..]);
        SplitAt(h, 1);
        FilterFirst(Plain, h[0], h[1..]);
        FilterFirst(Plain, h[0], Repair(h[1..]));
      } else if Complete(h, 0) {
        var n := 1 + |h[0].calls|;
        RepairKeepsPlainRows(h[n..]);
        ExchangePlainRows(h);
        PlainRowsBehind(h[..n], Repair(h[n..]));
        PlainRowsBehind(h[..n], h[n..]);
        SplitAt(h, n);
      } else {
        var k := SkipToolsStops(h, 1);
        RepairKeepsPlainRows(h[k..]);
        PlainRowsBehind(h[..k], h[k..]);
        SplitAt(h, k);
      }
    }
  }

  /** The kept rows are rows of the input, in its order. */
  ghost predicate Subsequence(a: History, b: History) {
    exists f: seq<nat> :: Picks(a, b, f)
  }

  ghost predicate Picks(a: History, b: History, f: seq<nat>) {
    && |f| == |a|
    && (forall i | 0 <= i < |f| :: f[i] < |b| && a[i] == b[f[i]])
    && (forall i, j | 0 <= i < j < |f| :: f[i] < f[j])
  }

  ghost predicate PicksFrom(a: History, h: History, f: seq<nat>, i: nat) {
    Picks(a, h, f) && forall k | 0 <= k < |f| :: f[k] >= i
  }

  lemma {:induction false} RepairPicks(h: History, i: nat) returns (f: seq<nat>)
    requires i <= |h|
    ensures PicksFrom(Repair(h[i..]), h, f, i)
    decreases |h| - i
  {
    if i == |h| {
      f := [];
    } else {
      RepairAt(h, i);
      if h[i].role == Tool {
        f := RepairPicks(h, i + 1);
      } else if !Calling(h[i]) {
        assert h[i..i + 1] == [h[i]];
        f := RepairPicks(h, i + 1);
        f := PicksRun(h, i, i + 1, Repair(h[i + 1..]), f);
      } else if Complete(h, i) {
        var n := 1 + |h[i].calls|;
        f := RepairPicks(h, i + n);
        f := PicksRun(h, i, i + n, Repair(h[i + n..]), f);
      } else {
        f := RepairPicks(h, SkipToolsStops(h, i + 1));
      }
    }
  }

  /** Putting a run of rows in front of a pick of later rows. */
  lemma PicksRun(h: History, i: nat, j: nat, a: History, f: seq<nat>) returns (g: seq<nat>)
    requires i <= j <= |h| && PicksFrom(a, h, f, j)
    ensures PicksFrom(h[i..j] + a, h, g, i)
  {
    var run := seq(j - i, k requires 0 <= k => i + k);
    g := run + f;
  }

  lemma {:induction false} RepairShortens(h: History)
    ensures |Repair(h)| <= |h|
    decreases |h|
  {
    if h != [] {
      if h[0].role != Tool && Calling(h[0]) && !Complete(h, 0) {
        RepairShortens(SkipTools(h[1..]));
      } else if h[0].role != Tool && Calling(h[0]) {
        RepairShortens(h[1 + |h[0].calls|..]);
      } else {
        RepairShortens(h[1..]);
      }
    }
  }

  lemma RepairIsSubsequence(h: History)
    ensures Subsequence(Repair(h), h)
  {
    var f := RepairPicks(h, 0);
    assert h[0..] == h;
  }

  // ---------------------------------------------------------------- trimming

  const MAX_HISTORY := 50

  function TrimHistory(hist: History, n: int): History {
    Repair(if n > 0 && |hist| > n then hist[|hist| - n..] else hist)
  }

  /** From any cut in a legal transcript, only tool rows lie before the next block boundary. */
  lemma {:induction false} CutReachesBoundary(h: History, i: nat) returns (k: nat)
    requires WellFormed(h) && i <= |h|
    ensures i <= k <= |h| && WellFormed(h[k..]) && OnlyTools(h, i, k)
    decreases |h|
  {
    if i == 0 {
      k := 0;
      assert h[0..] == h;
    } else {
      var block, rest := FirstBlock(h);
      if i < |block| {
        k := |block|;
        BehindBlock(block, rest, 0);
        assert rest[0..] == rest;
        BlockTools(block, rest, i);
      } else {
        var b := CutReachesBoundary(rest, i - |block|);
        k := |block| + b;
        BehindBlock(block, rest, b);
        ToolsBehind(block, rest, i - |block|, b);
      }
    }
  }

  /** Rows i to k - 1 are tool rows. */
  predicate OnlyTools(h: History, i: nat, k: nat)
    requires k <= |h|
  {
    forall j | i <= j < k :: h[j].role == Tool
  }

  lemma ToolsBehind(block: History, rest: History, i: nat, k: nat)
    requires k <= |rest| && OnlyTools(rest, i, k)
    ensures OnlyTools(block + rest, |block| + i, |block| + k)
  {
  }

  lemma BehindBlock(block: History, rest: History, b: nat)
    requires b <= |rest|
    ensures (block + rest)[|block| + b..] == rest[b..]
  {
  }

  lemma BlockTools(block: History, rest: History, i: nat)
    requires IsBlock(block) && 0 < i <= |block|
    ensures OnlyTools(block + rest, i, |block|)
  {
    forall j | i <= j < |block| ensures (block + rest)[j].role == Tool {
      BlockTail(block, j);
    }
  }

  lemma {:induction false} RepairDropsLeadingTools(h: History, k: nat)
    requires k <= |h| && forall j | 0 <= j < k :: h[j].role == Tool
    ensures Repair(h) == Repair(h[k..])
    decreases k
  {
    if k == 0 {
      assert h[0..] == h;
    } else {
      RepairDropsLeadingTools(h[1..], k - 1);
      assert h[1..][k - 1..] == h[k..];
    }
  }

  lemma ToolStartsNothing(h: History, j: nat)
    requires j < |h| && h[j].role == Tool
    ensures !WellFormed(h[j..])
  {
    assert h[j..][0] == h[j];
  }

  /**
   On a legal transcript trimHistory returns the longest suffix of whole blocks that has at most n
   messages: the result is a legal suffix, and no longer suffix of at most n messages is legal.
   */
  lemma TrimIsLongestLegalSuffix(h: History, n: nat) returns (k: nat)
    requires WellFormed(h) && n > 0
    ensures k <= |h| && TrimHistory(h, n) == h[k..] && WellFormed(h[k..]) && |h| - k <= n
    ensures forall j | 0 <= j < k && |h| - j <= n :: !WellFormed(h[j..])
  {
    if |h| <= n {
      k := 0;
      assert h[0..] == h;
      RepairKeepsWellFormed(h);
    } else {
      var i := |h| - n;
      k := CutReachesBoundary(h, i);
      var s := h[i..];
      assert s[k - i..] == h[k..];
      RepairDropsLeadingTools(s, k - i);
      RepairKeepsWellFormed(h[k..]);
      forall j | i <= j < k ensures !WellFormed(h[j..]) {
        ToolStartsNothing(h, j);
      }
    }
  }

  // ---------------------------------------------------------------- the system prompt

  predicate NotSystem(m: Message) {
    m.role != System
  }

  function DropSystem(h: History): History {
    Filter(NotSystem, h)
  }

  function SystemRow(prompt: string): Message {
    Message(System, prompt, [], "", "")
  }

  method BuildProviderMessages(system: string, hist: History) returns (out: History)
    ensures out == if Text.TrimSpace(system) == "" then hist
                   else [SystemRow(Text.TrimSpace(system))] + DropSystem(hist)
  {
    var prompt := Text.TrimSpace(system);
    out := [];
    if prompt != "" {
      out := out + [SystemRow(prompt)];
    }
    for i := 0 to |hist|
      invariant prompt == "" ==> out == hist[..i]
      invariant prompt != "" ==> out == [SystemRow(prompt)] + DropSystem(hist[..i])
    {
      DropSystemMore(hist, i);
      if !(hist[i].role == System && prompt != "") {
        out := out + [hist[i]];
      }
    }
    assert hist[..|hist|] == hist;
  }

  lemma DropSystemMore(h: History, i: nat)
    requires i < |h|
    ensures h[..i + 1] == h[..i] + [h[i]]
    ensures DropSystem(h[..i + 1]) == DropSystem(h[..i]) + if h[i].role == System then [] else [h[i]]
  {
    assert h[..i + 1] == h[..i] + [h[i]];
    FilterConcat(NotSystem, h[..i], [h[i]]);
    FilterFirst(NotSystem, h[i], []);
    ConcatNothing([h[i]]);
  }

  /** Replacing stale system rows keeps a legal transcript legal. */
  lemma {:induction false} DropSystemKeepsWellFormed(h: History)
    requires WellFormed(h)
    ensures WellFormed(DropSystem(h))
    decreases |h|
  {
    if h != [] {
      var b, rest := FirstBlock(h);
      DropSystemKeepsWellFormed(rest);
      FilterConcat(NotSystem, b, rest);
      if b[0].role == System {
        FilterNone(NotSystem, b);
        ConcatNothing(DropSystem(rest));
      } else {
        forall i | 0 <= i < |b| ensures NotSystem(b[i]) {
          if i > 0 { BlockTail(b, i); }
        }
        FilterAll(NotSystem, b);
        BlockThenWellFormed(b, DropSystem(rest));
      }
    }
  }

  /**
   What a turn sends to the provider is a legal transcript, whatever the stored rows are: what repair
   leaves of the last 50 rows, under the prompt if there is one.
   */
  method ProviderMessages(system: string, hist: History) returns (msgs: History)
    ensures WellFormed(msgs) && |msgs| <= 51
    ensures var prompt := Text.TrimSpace(system);
      var kept := Repair(if |hist| > 50 then hist[|hist| - 50..] else hist);
      msgs == if prompt == "" then kept else [Message(System, prompt, [], "", "")] + DropSystem(kept)
  {
    var cut := if |hist| > MAX_HISTORY then hist[|hist| - MAX_HISTORY..] else hist;
    var trimmed := RepairToolTranscript(cut);
    msgs := BuildProviderMessages(system, trimmed);
    RepairIsWellFormed(cut);
    RepairShortens(cut);
    DropSystemKeepsWellFormed(trimmed);
    FilterShortens(NotSystem, trimmed);
    var prompt := Text.TrimSpace(system);
    if prompt != "" {
      assert IsBlock([SystemRow(prompt)]);
      BlockThenWellFormed([SystemRow(prompt)], DropSystem(trimmed));
    }
  }
}
