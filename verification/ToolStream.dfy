/**
 Tool calls as they arrive from the OpenAI stream in fragments, are reassembled by the turn's
 accumulator and end up as one exchange of the conversation.
 */
module ToolStream {
  import opened Options
  import opened Sequences
  import opened Transcript
  import Text

  // ---------------------------------------------------------------- the provider stream

  datatype Function = Function(name: string, args: string)

  datatype CallDelta = CallDelta(index: nat, id: string, fn: Option<Function>)

  /** One decoded "data:" line. Noise stands for lines the reader skips. */
  datatype Chunk =
    | Noise
    | Failed
    | Usage
    | Done
    | Choice(content: string, calls: seq<CallDelta>)

  datatype Delta =
    | Content(text: string)
    | CallStart(index: nat, id: string, name: string)
    | CallArgs(index: nat, args: string)
    | StreamDone
    | StreamError

  datatype Running = Running(id: string, name: string, args: string, announced: bool)

  type Calls = map<nat, Running>

  const NEW_CALL := Running("", "", "", false)

  function Known(st: Calls, index: nat): Running {
    if index in st then st[index] else NEW_CALL
  }

  /** What one fragment makes of its call, and the deltas it sends on. */
  function Advance(rc: Running, d: CallDelta): (Running, seq<Delta>) {
    var rc1 := if d.id != "" then rc.(id := d.id) else rc;
    match d.fn
    case None => (rc1, [])
    case Some(f) =>
      var rc2 := if f.name != "" then rc1.(name := f.name) else rc1;
      var rc3 := rc2.(args := rc2.args + f.args);
      var announce := rc3.id != "" && !rc3.announced;
      (if announce then rc3.(announced := true) else rc3,
       (if announce then [CallStart(d.index, rc3.id, rc3.name)] else [])
       + (if f.args != "" then [CallArgs(d.index, f.args)] else []))
  }

  function AfterCall(st: Calls, d: CallDelta): Calls {
    st[d.index := Advance(Known(st, d.index), d).0]
  }

  function SentForCall(st: Calls, d: CallDelta): seq<Delta> {
    Advance(Known(st, d.index), d).1
  }

  function AfterCalls(st: Calls, ds: seq<CallDelta>): Calls
    decreases |ds|
  {
    if ds == [] then st else AfterCalls(AfterCall(st, ds[0]), ds[1..])
  }

  function SentForCalls(st: Calls, ds: seq<CallDelta>): seq<Delta>
    decreases |ds|
  {
    if ds == [] then [] else SentForCall(st, ds[0]) + SentForCalls(AfterCall(st, ds[0]), ds[1..])
  }

  predicate Ends(c: Chunk) {
    c.Failed? || c.Usage? || c.Done?
  }

  /** The chunks read before the stream ends. */
  function Body(chunks: seq<Chunk>): seq<Chunk> {
    if chunks == [] || Ends(chunks[0]) then [] else [chunks[0]] + Body(chunks[1..])
  }

  /** Whether the stream ends in a done delta rather than an error or a cut connection. */
  predicate Finishes(chunks: seq<Chunk>) {
    chunks != [] && (chunks[0].Usage? || chunks[0].Done? || (!chunks[0].Failed? && Finishes(chunks[1..])))
  }

  function ContentDelta(text: string): seq<Delta> {
    if text == "" then [] else [Content(text)]
  }

  /** Every delta streamSSE sends. */
  function Stream(st: Calls, chunks: seq<Chunk>): seq<Delta>
    decreases |chunks|
  {
    if chunks == [] then [StreamError]
    else match chunks[0]
      case Noise => Stream(st, chunks[1..])
      case Failed => [StreamError]
      case Usage => [StreamDone]
      case Done => [StreamDone]
      case Choice(text, calls) =>
        ContentDelta(text) + SentForCalls(st, calls) + Stream(AfterCalls(st, calls), chunks[1..])
  }

  lemma Regroup(a: seq<Delta>, b: seq<Delta>, c: seq<Delta>, d: seq<Delta>)
    ensures a + (b + c + d) == (a + b) + c + d
  {
  }

  method StreamSSE(chunks: seq<Chunk>) returns (out: seq<Delta>)
    ensures out == Stream(map[], chunks)
  {
    out := [];
    var toolCalls: Calls := map[];
    var i := 0;
    while i < |chunks|
      invariant 0 <= i <= |chunks|
      invariant out + Stream(toolCalls, chunks[i..]) == Stream(map[], chunks)
    {
      var chunk := chunks[i];
      assert chunks[i..][0] == chunk && chunks[i..][1..] == chunks[i + 1..];
      i := i + 1;
      match chunk
      case Noise =>
      case Failed => return out + [StreamError];
      case Usage => return out + [StreamDone];
      case Done => return out + [StreamDone];
      case Choice(text, calls) =>
        ghost var out0 := out;
        if text != "" {
          out := out + [Content(text)];
        }
        assert out == out0 + ContentDelta(text);
        var sent;
        toolCalls, sent := HandleCalls(toolCalls, calls);
        Regroup(out0, ContentDelta(text), sent, Stream(toolCalls, chunks[i..]));
        out := out + sent;
    }
    assert chunks[i..] == [];
    out := out + [StreamError];
  }

  lemma CallsStep(sent: seq<Delta>, st: Calls, calls: seq<CallDelta>, j: nat)
    requires j < |calls|
    ensures AfterCalls(st, calls[j..]) == AfterCalls(AfterCall(st, calls[j]), calls[j + 1..])
    ensures sent + SentForCalls(st, calls[j..])
         == (sent + SentForCall(st, calls[j])) + SentForCalls(AfterCall(st, calls[j]), calls[j + 1..])
  {
    assert calls[j..][1..] == calls[j + 1..];
    Assoc(sent, SentForCall(st, calls[j]), SentForCalls(AfterCall(st, calls[j]), calls[j + 1..]));
  }

  /** The inner loop over the tool-call fragments of one chunk. */
  method HandleCalls(toolCalls0: Calls, calls: seq<CallDelta>) returns (toolCalls: Calls, sent: seq<Delta>)
    ensures toolCalls == AfterCalls(toolCalls0, calls) && sent == SentForCalls(toolCalls0, calls)
  {
    toolCalls, sent := toolCalls0, [];
    for j := 0 to |calls|
      invariant AfterCalls(toolCalls, calls[j..]) == AfterCalls(toolCalls0, calls)
      invariant sent + SentForCalls(toolCalls, calls[j..]) == SentForCalls(toolCalls0, calls)
    {
      CallsStep(sent, toolCalls, calls, j);
      var rc, mine := HandleFragment(Known(toolCalls, calls[j].index), calls[j]);
      toolCalls, sent := toolCalls[calls[j].index := rc], sent + mine;
    }
    assert calls[|calls|..] == [];
  }

  /** One fragment: id and name are the last non-empty ones, and its start frame goes out once, before its arguments. */
  method HandleFragment(rc0: Running, d: CallDelta) returns (rc: Running, sent: seq<Delta>)
    ensures (rc, sent) == Advance(rc0, d)
    ensures rc.id == if d.id != "" then d.id else rc0.id
    ensures d.fn.None? ==> sent == [] && rc == rc0.(id := rc.id)
    ensures d.fn.Some? ==> rc.args == rc0.args + d.fn.value.args && rc.announced == (rc0.announced || rc.id != "")
    ensures d.fn.Some? ==> rc.name == if d.fn.value.name != "" then d.fn.value.name else rc0.name
    ensures d.fn.Some? ==>
      sent == (if rc.announced && !rc0.announced then [CallStart(d.index, rc.id, rc.name)] else [])
              + (if d.fn.value.args != "" then [CallArgs(d.index, d.fn.value.args)] else [])
  {
    rc, sent := rc0, [];
    if d.id != "" {
      rc := rc.(id := d.id);
    }
    if d.fn.Some? {
      var f := d.fn.value;
      if f.name != "" {
        rc := rc.(name := f.name);
      }
      if f.args != "" {
        rc := rc.(args := rc.args + f.args);
      }
      assert rc0.args + "" == rc0.args;
      // The start frame goes out with the fragment that completes the id.
      if rc.id != "" && !rc.announced {
        rc := rc.(announced := true);
        sent := sent + [CallStart(d.index, rc.id, rc.name)];
      }
      if f.args != "" {
        sent := sent + [CallArgs(d.index, f.args)];
      }
    }
    assert rc == Advance(rc0, d).0;
    assert sent == Advance(rc0, d).1;
  }

  // ---------------------------------------------------------------- the accumulator

  datatype Call = Call(id: string, name: string, args: string)

  type Slots = seq<Option<Call>>

  const EMPTY_CALL := Call("", "", "")

  /** The call in slot i, if the slot was ever touched. */
  function Slot(s: Slots, i: nat): Option<Call> {
    if i < |s| then s[i] else None
  }

  function Padded(s: Slots, n: nat): Slots
    decreases n - |s|
  {
    if |s| < n then Padded(s + [None], n) else s
  }

  function Opened(o: Option<Call>): Call {
    if o.Some? then o.value else EMPTY_CALL
  }

  function Started(c: Call, id: string, name: string): Call {
    c.(id := if id != "" then id else c.id, name := if name != "" then name else c.name)
  }

  function Take(s: Slots, d: Delta): Slots {
    match d
    case CallStart(i, id, name) =>
      PaddedSlots(s, i + 1, i);
      Padded(s, i + 1)[i := Some(Started(Opened(Slot(s, i)), id, name))]
    case CallArgs(i, args) =>
      PaddedSlots(s, i + 1, i);
      var c := Opened(Slot(s, i));
      Padded(s, i + 1)[i := Some(c.(args := c.args + args))]
    case _ => s
  }

  function TakeAll(s: Slots, ds: seq<Delta>): Slots {
    if ds == [] then s else Take(TakeAll(s, ds[..|ds| - 1]), ds[|ds| - 1])
  }

  lemma {:induction false} PaddedSlots(s: Slots, n: nat, i: nat)
    ensures |Padded(s, n)| == (if |s| < n then n else |s|)
    ensures Slot(Padded(s, n), i) == Slot(s, i)
    ensures i < n ==> Padded(s, n)[i] == Slot(s, i)
    decreases n - |s|
  {
    if |s| < n {
      PaddedSlots(s + [None], n, i);
    }
  }

  /** A delta changes the slot it names and no other. */
  lemma TakeSlot(s: Slots, d: Delta, i: nat)
    ensures Slot(Take(s, d), i) ==
      if d.CallStart? && d.index == i then Some(Started(Opened(Slot(s, i)), d.id, d.name))
      else if d.CallArgs? && d.index == i then Some(Opened(Slot(s, i)).(args := Opened(Slot(s, i)).args + d.args))
      else Slot(s, i)
  {
    if d.CallStart? || d.CallArgs? {
      PaddedSlots(s, d.index + 1, i);
      PaddedSlots(s, d.index + 1, d.index);
    }
  }

  /** A list of slots ends in a used one. */
  predicate Tight(s: Slots) {
    s != [] ==> s[|s| - 1].Some?
  }

  lemma TakeTight(s: Slots, d: Delta)
    requires Tight(s)
    ensures Tight(Take(s, d))
  {
    if d.CallStart? || d.CallArgs? {
      PaddedSlots(s, d.index + 1, d.index);
      if |s| > d.index + 1 {
        PaddedSlots(s, d.index + 1, |s| - 1);
      }
    }
  }

  class Accumulator {
    var content: string
    var toolCalls: Slots

    ghost predicate Valid()
      reads this
    {
      Tight(toolCalls)
    }

    constructor ()
      ensures Valid() && content == "" && toolCalls == []
    {
      content, toolCalls := "", [];
    }

    method StartTool(index: nat, id: string, name: string)
      requires Valid()
      modifies this`toolCalls
      ensures Valid() && toolCalls == Take(old(toolCalls), CallStart(index, id, name))
      ensures var c := Opened(Slot(old(toolCalls), index));
        Slot(toolCalls, index) ==
          Some(Call(if id != "" then id else c.id, if name != "" then name else c.name, c.args))
      ensures forall i: nat | i != index :: Slot(toolCalls, i) == Slot(old(toolCalls), i)
    {
      forall i: nat {
        TakeSlot(toolCalls, CallStart(index, id, name), i);
      }
      TakeTight(toolCalls, CallStart(index, id, name));
      PaddedSlots(toolCalls, index + 1, index);
      while |toolCalls| <= index
        invariant Padded(toolCalls, index + 1) == Padded(old(toolCalls), index + 1)
        decreases index + 1 - |toolCalls|
      {
        toolCalls := toolCalls + [None];
      }
      var c := if toolCalls[index].Some? then toolCalls[index].value else EMPTY_CALL;
      if id != "" {
        c := c.(id := id);
      }
      if name != "" {
        c := c.(name := name);
      }
      toolCalls := toolCalls[index := Some(c)];
    }

    method AppendToolArgs(index: nat, args: string)
      requires Valid()
      modifies this`toolCalls
      ensures Valid() && toolCalls == Take(old(toolCalls), CallArgs(index, args))
      ensures var c := Opened(Slot(old(toolCalls), index));
        Slot(toolCalls, index) == Some(Call(c.id, c.name, c.args + args))
      ensures forall i: nat | i != index :: Slot(toolCalls, i) == Slot(old(toolCalls), i)
    {
      forall i: nat {
        TakeSlot(toolCalls, CallArgs(index, args), i);
      }
      TakeTight(toolCalls, CallArgs(index, args));
      PaddedSlots(toolCalls, index + 1, index);
      while |toolCalls| <= index
        invariant Padded(toolCalls, index + 1) == Padded(old(toolCalls), index + 1)
        decreases index + 1 - |toolCalls|
      {
        toolCalls := toolCalls + [None];
      }
      var c := if toolCalls[index].Some? then toolCalls[index].value else EMPTY_CALL;
      toolCalls := toolCalls[index := Some(c.(args := c.args + args))];
    }

    /** The accumulation loop of a turn. */
    method Consume(deltas: seq<Delta>) returns (done: bool)
      requires Valid() && toolCalls == []
      modifies this
      ensures Valid()
      ensures done <==> EndsDone(deltas)
      ensures done ==> toolCalls == TakeAll([], BeforeEnd(deltas))
      ensures done ==> content == old(content) + Texts(BeforeEnd(deltas))
    {
      var i := 0;
      done := false;
      while i < |deltas|
        invariant 0 <= i <= |deltas| && Valid() && !done
        invariant toolCalls == TakeAll([], deltas[..i]) && content == old(content) + Texts(deltas[..i])
        invariant NoEndBefore(deltas, i)
        decreases |deltas| - i
      {
        var d := deltas[i];
        OneMoreDelta(deltas, i);
        match d {
          case Content(text) => content := content + text;
          case CallStart(index, id, name) => StartTool(index, id, name);
          case CallArgs(index, args) => AppendToolArgs(index, args);
          case StreamDone =>
            EndsHere(deltas, i);
            return true;
          case StreamError =>
            EndsHere(deltas, i);
            return false;
        }
        i := i + 1;
      }
      NoEndAtAll(deltas);
    }

    /** The calls of the used slots, each under an id that is never empty. */
    method CompletedToolCalls(turn: nat) returns (out: seq<ToolCall>)
      requires Valid()
      ensures out == Completed(toolCalls, turn) && |out| == Used(toolCalls)
      ensures forall i | 0 <= i < |toolCalls| && toolCalls[i].Some? ::
        && Used(toolCalls[..i]) < |out|
        && out[Used(toolCalls[..i])].name == toolCalls[i].value.name
        && out[Used(toolCalls[..i])].args == toolCalls[i].value.args
        && out[Used(toolCalls[..i])].id == NormalizedId(toolCalls[i].value.id, turn, i)
    {
      out := [];
      for i := 0 to |toolCalls|
        invariant out == Completed(toolCalls[..i], turn)
      {
        assert toolCalls[..i + 1][..i] == toolCalls[..i];
        if toolCalls[i].Some? {
          var c := toolCalls[i].value;
          out := out + [ToolCall(NormalizedId(c.id, turn, i), c.name, c.args)];
        }
      }
      assert toolCalls[..|toolCalls|] == toolCalls;
      CompletedCount(toolCalls, turn);
      forall i | 0 <= i < |toolCalls| && toolCalls[i].Some?
        ensures Used(toolCalls[..i]) < |out| && out[Used(toolCalls[..i])] ==
          ToolCall(NormalizedId(toolCalls[i].value.id, turn, i), toolCalls[i].value.name, toolCalls[i].value.args)
      {
        CompletedAt(toolCalls, turn, i);
      }
    }
  }

  ghost predicate NoEndBefore(ds: seq<Delta>, i: nat)
    requires i <= |ds|
  {
    forall k | 0 <= k < i :: !ds[k].StreamDone? && !ds[k].StreamError?
  }

  lemma OneMoreDelta(ds: seq<Delta>, i: nat)
    requires i < |ds|
    ensures TakeAll([], ds[..i + 1]) == Take(TakeAll([], ds[..i]), ds[i])
    ensures Texts(ds[..i + 1]) == Texts(ds[..i]) + if ds[i].Content? then ds[i].text else ""
  {
    assert ds[..i + 1][..i] == ds[..i];
  }

  lemma EndsHere(ds: seq<Delta>, i: nat)
    requires i < |ds| && NoEndBefore(ds, i) && (ds[i].StreamDone? || ds[i].StreamError?)
    ensures BeforeEnd(ds) == ds[..i] && (EndsDone(ds) <==> ds[i].StreamDone?)
  {
    BeforeEndConcat(ds[..i], ds[i..]);
    assert ds == ds[..i] + ds[i..];
    assert ds[..i] + [] == ds[..i];
  }

  lemma NoEndAtAll(ds: seq<Delta>)
    requires NoEndBefore(ds, |ds|)
    ensures !EndsDone(ds)
  {
    BeforeEndConcat(ds, []);
    assert ds + [] == ds;
  }

  function Texts(ds: seq<Delta>): string {
    if ds == [] then ""
    else Texts(ds[..|ds| - 1]) + if ds[|ds| - 1].Content? then ds[|ds| - 1].text else ""
  }

  function BeforeEnd(ds: seq<Delta>): seq<Delta> {
    if ds == [] || ds[0].StreamDone? || ds[0].StreamError? then [] else [ds[0]] + BeforeEnd(ds[1..])
  }

  predicate EndsDone(ds: seq<Delta>) {
    ds != [] && (ds[0].StreamDone? || (!ds[0].StreamError? && EndsDone(ds[1..])))
  }

  // ---------------------------------------------------------------- slot by slot

  /** The fragments of a stream in order, over all its chunks. */
  function Fragments(chunks: seq<Chunk>): seq<CallDelta> {
    if chunks == [] then []
    else (if chunks[0].Choice? then chunks[0].calls else []) + Fragments(chunks[1..])
  }

  /** Call i as the stream and the accumulator see it, computed from its own fragments only. */
  datatype Track = Track(rc: Running, slot: Option<Call>)

  function Follow(t: Track, d: CallDelta): Track {
    var rc := Advance(t.rc, d).0;
    if d.fn.None? then Track(rc, t.slot)
    else
      var started := if rc.announced && !t.rc.announced then Some(Started(Opened(t.slot), rc.id, rc.name)) else t.slot;
      Track(rc, if d.fn.value.args != "" then Some(Opened(started).(args := Opened(started).args + d.fn.value.args))
                else started)
  }

  function Own(ds: seq<CallDelta>, i: nat): seq<CallDelta> {
    if ds == [] then []
    else Own(ds[..|ds| - 1], i) + if ds[|ds| - 1].index == i then [ds[|ds| - 1]] else []
  }

  function FollowAll(ds: seq<CallDelta>): Track {
    if ds == [] then Track(NEW_CALL, None) else Follow(FollowAll(ds[..|ds| - 1]), ds[|ds| - 1])
  }

  function JoinedArgs(ds: seq<CallDelta>): string {
    if ds == [] then ""
    else JoinedArgs(ds[..|ds| - 1]) + if ds[|ds| - 1].fn.Some? then ds[|ds| - 1].fn.value.args else ""
  }

  lemma {:induction false} TakeAllConcat(s: Slots, a: seq<Delta>, b: seq<Delta>)
    ensures TakeAll(s, a + b) == TakeAll(TakeAll(s, a), b)
    decreases |b|
  {
    if b == [] {
      assert a + b == a;
    } else {
      TakeAllConcat(s, a, b[..|b| - 1]);
      assert (a + b)[..|a + b| - 1] == a + b[..|b| - 1];
    }
  }

  /** The deltas of one fragment, taken by the accumulator, move its own track and no other. */
  lemma FragmentTaken(s: Slots, rc: Running, d: CallDelta, i: nat)
    ensures Slot(TakeAll(s, Advance(rc, d).1), i) ==
      if d.index == i then Follow(Track(rc, Slot(s, i)), d).slot else Slot(s, i)
  {
    var sent := Advance(rc, d).1;
    if |sent| == 2 {
      assert sent[..1][..0] == [];
      TakeSlot(s, sent[0], i);
      TakeSlot(Take(s, sent[0]), sent[1], i);
      assert TakeAll(s, sent[..1]) == Take(TakeAll(s, []), sent[0]);
      assert TakeAll(s, sent) == Take(Take(s, sent[0]), sent[1]);
    } else if |sent| == 1 {
      assert sent[..0] == [];
      TakeSlot(s, sent[0], i);
    }
  }

  lemma {:induction false} AfterCallsConcat(st: Calls, a: seq<CallDelta>, b: seq<CallDelta>)
    ensures AfterCalls(st, a + b) == AfterCalls(AfterCalls(st, a), b)
    decreases |a|
  {
    if a == [] {
      assert a + b == b;
    } else {
      AfterCallsConcat(AfterCall(st, a[0]), a[1..], b);
      assert (a + b)[1..] == a[1..] + b;
    }
  }

  lemma SentFirst(st: Calls, d: CallDelta, ds: seq<CallDelta>)
    ensures SentForCalls(st, [d] + ds) == SentForCall(st, d) + SentForCalls(AfterCall(st, d), ds)
  {
    assert ([d] + ds)[1..] == ds;
  }

  lemma {:induction false} SentForCallsConcat(st: Calls, a: seq<CallDelta>, b: seq<CallDelta>)
    ensures SentForCalls(st, a + b) == SentForCalls(st, a) + SentForCalls(AfterCalls(st, a), b)
    decreases |a|
  {
    if a == [] {
      assert a + b == b;
    } else {
      var first, next, rest := SentForCall(st, a[0]), AfterCall(st, a[0]), a[1..];
      SentForCallsConcat(next, rest, b);
      assert SentForCalls(st, a + b) == first + SentForCalls(next, rest + b) by {
        assert a + b == [a[0]] + (rest + b);
        SentFirst(st, a[0], rest + b);
      }
      Assoc(first, SentForCalls(next, rest), SentForCalls(AfterCalls(next, rest), b));
    }
  }

  lemma CallsConcat(st: Calls, a: seq<CallDelta>, b: seq<CallDelta>)
    ensures AfterCalls(st, a + b) == AfterCalls(AfterCalls(st, a), b)
    ensures SentForCalls(st, a + b) == SentForCalls(st, a) + SentForCalls(AfterCalls(st, a), b)
  {
    AfterCallsConcat(st, a, b);
    SentForCallsConcat(st, a, b);
  }

  lemma {:induction false} CallsTracked(ds: seq<CallDelta>, i: nat)
    ensures Known(AfterCalls(map[], ds), i) == FollowAll(Own(ds, i)).rc
    ensures Slot(TakeAll([], SentForCalls(map[], ds)), i) == FollowAll(Own(ds, i)).slot
    decreases |ds|
  {
    if ds != [] {
      var front, d := ds[..|ds| - 1], ds[|ds| - 1];
      CallsTracked(front, i);
      var st := AfterCalls(map[], front);
      var sent := SentForCalls(map[], front);
      LastFragment(front, d);
      assert ds == front + [d];
      TakeAllConcat([], sent, SentForCall(st, d));
      FragmentTaken(TakeAll([], sent), Known(st, d.index), d, i);
      OwnLast(ds, i);
    }
  }

  lemma OwnLast(ds: seq<CallDelta>, i: nat)
    requires ds != []
    ensures var front, d := ds[..|ds| - 1], ds[|ds| - 1];
      FollowAll(Own(ds, i)) == if d.index == i then Follow(FollowAll(Own(front, i)), d) else FollowAll(Own(front, i))
  {
    var own := Own(ds[..|ds| - 1], i);
    var d := ds[|ds| - 1];
    assert own + [] == own;
    assert (own + [d])[..|own + [d]| - 1] == own;
  }

  lemma LastFragment(front: seq<CallDelta>, d: CallDelta)
    ensures AfterCalls(map[], front + [d]) == AfterCall(AfterCalls(map[], front), d)
    ensures SentForCalls(map[], front + [d]) == SentForCalls(map[], front) + SentForCall(AfterCalls(map[], front), d)
  {
    CallsConcat(map[], front, [d]);
    assert [d][1..] == [];
  }

  /** Content deltas leave the slots alone. */
  lemma {:induction false} ContentIgnored(s: Slots, text: string)
    ensures TakeAll(s, ContentDelta(text)) == s
  {
    if text != "" {
      assert ContentDelta(text)[..0] == [];
    }
  }

  lemma {:induction false} BeforeEndConcat(a: seq<Delta>, b: seq<Delta>)
    requires forall k | 0 <= k < |a| :: !a[k].StreamDone? && !a[k].StreamError?
    ensures BeforeEnd(a + b) == a + BeforeEnd(b)
    ensures EndsDone(a + b) <==> EndsDone(b)
    decreases |a|
  {
    if a == [] {
      assert a + b == b;
    } else {
      BeforeEndConcat(a[1..], b);
      assert (a + b)[1..] == a[1..] + b;
    }
  }

  lemma {:induction false} CallsNeverEnd(st: Calls, ds: seq<CallDelta>)
    ensures forall k | 0 <= k < |SentForCalls(st, ds)| ::
      !SentForCalls(st, ds)[k].StreamDone? && !SentForCalls(st, ds)[k].StreamError?
    decreases |ds|
  {
    if ds != [] {
      CallsNeverEnd(AfterCall(st, ds[0]), ds[1..]);
    }
  }

  /** Taking the deltas of a stream is taking those of all its fragments. */
  lemma {:induction false} StreamTaken(st: Calls, chunks: seq<Chunk>, s: Slots)
    ensures EndsDone(Stream(st, chunks)) <==> Finishes(chunks)
    ensures TakeAll(s, BeforeEnd(Stream(st, chunks))) == TakeAll(s, SentForCalls(st, Fragments(Body(chunks))))
    decreases |chunks|
  {
    if chunks != [] && !Ends(chunks[0]) {
      var rest := chunks[1..];
      assert Body(chunks)[1..] == Body(rest);
      if chunks[0].Noise? {
        StreamTaken(st, rest, s);
        assert Fragments(Body(chunks)) == Fragments(Body(rest));
      } else {
        var text, calls := chunks[0].content, chunks[0].calls;
        var st1 := AfterCalls(st, calls);
        var head := ContentDelta(text) + SentForCalls(st, calls);
        CallsNeverEnd(st, calls);
        BeforeEndConcat(head, Stream(st1, rest));
        TakeAllConcat(s, head, BeforeEnd(Stream(st1, rest)));
        TakeAllConcat(s, ContentDelta(text), SentForCalls(st, calls));
        ContentIgnored(s, text);
        var s1 := TakeAll(s, SentForCalls(st, calls));
        StreamTaken(st1, rest, s1);
        CallsConcat(st, calls, Fragments(Body(rest)));
        TakeAllConcat(s, SentForCalls(st, calls), SentForCalls(st1, Fragments(Body(rest))));
      }
    }
  }

  lemma {:induction false} TrackArgs(ds: seq<CallDelta>)
    ensures FollowAll(ds).rc.args == JoinedArgs(ds)
    ensures Opened(FollowAll(ds).slot).args == JoinedArgs(ds)
    ensures FollowAll(ds).slot.None? ==> JoinedArgs(ds) == ""
    decreases |ds|
  {
    if ds != [] {
      TrackArgs(ds[..|ds| - 1]);
    }
  }

  /**
   For every stream that ends in done: what slot i holds is decided by the fragments of index i
   alone, however they interleave with others, and its arguments are exactly theirs joined in order.
   */
  lemma StreamReassembles(chunks: seq<Chunk>, i: nat)
    requires Finishes(chunks)
    ensures var own := Own(Fragments(Body(chunks)), i);
      var slot := Slot(TakeAll([], BeforeEnd(Stream(map[], chunks))), i);
      slot == FollowAll(own).slot && Opened(slot).args == JoinedArgs(own)
  {
    StreamTaken(map[], chunks, []);
    CallsTracked(Fragments(Body(chunks)), i);
    TrackArgs(Own(Fragments(Body(chunks)), i));
  }

  /** What the parts of a stream are: the chunks up to its end, their fragments, those of one index, their arguments. */
  lemma {:induction false} BodyIs(chunks: seq<Chunk>, k: nat)
    requires EndsWell(chunks, k)
    ensures Body(chunks) == chunks[..k]
  {
    if k > 0 {
      BodyIs(chunks[1..], k - 1);
      assert [chunks[0]] + chunks[1..][..k - 1] == chunks[..k];
    }
  }

  lemma {:induction false} FragmentsConcat(a: seq<Chunk>, b: seq<Chunk>, text: string, calls: seq<CallDelta>)
    ensures Fragments(a + b) == Fragments(a) + Fragments(b)
    ensures Fragments([Choice(text, calls)]) == calls && Fragments([Noise]) == []
    decreases |a|
  {
    assert [Choice(text, calls)][1..] == [] && [Noise][1..] == [];
    if a == [] {
      assert a + b == b;
    } else {
      assert (a + b)[1..] == a[1..] + b;
      FragmentsConcat(a[1..], b, text, calls);
      Assoc(if a[0].Choice? then a[0].calls else [], Fragments(a[1..]), Fragments(b));
    }
  }

  lemma {:induction false} OwnConcat(a: seq<CallDelta>, b: seq<CallDelta>, i: nat, d: CallDelta)
    ensures Own(a + b, i) == Own(a, i) + Own(b, i)
    ensures Own([d], i) == if d.index == i then [d] else []
    decreases |b|
  {
    assert [d][..0] == [];
    if b == [] {
      assert a + b == a;
    } else {
      assert (a + b)[..|a + b| - 1] == a + b[..|b| - 1];
      OwnConcat(a, b[..|b| - 1], i, d);
      Assoc(Own(a, i), Own(b[..|b| - 1], i), if b[|b| - 1].index == i then [b[|b| - 1]] else []);
    }
  }

  lemma {:induction false} JoinedConcat(a: seq<CallDelta>, b: seq<CallDelta>, d: CallDelta)
    ensures JoinedArgs(a + b) == JoinedArgs(a) + JoinedArgs(b)
    ensures JoinedArgs([d]) == match d.fn { case Some(f) => f.args case None => "" }
    decreases |b|
  {
    assert [d][..0] == [];
    if b == [] {
      assert a + b == a;
    } else {
      var front, last := b[..|b| - 1], b[|b| - 1];
      assert (a + b)[..|a + b| - 1] == a + front;
      JoinedConcat(a, front, d);
      Assoc(JoinedArgs(a), JoinedArgs(front), if last.fn.Some? then last.fn.value.args else "");
    }
  }

  // ---------------------------------------------------------------- the text of a stream

  /** The content of the chunks, in order. */
  function Spoken(chunks: seq<Chunk>): string {
    if chunks == [] then "" else (if chunks[0].Choice? then chunks[0].content else "") + Spoken(chunks[1..])
  }

  lemma {:induction false} SpokenConcat(a: seq<Chunk>, b: seq<Chunk>, text: string, calls: seq<CallDelta>)
    ensures Spoken(a + b) == Spoken(a) + Spoken(b)
    ensures Spoken([Choice(text, calls)]) == text
    decreases |a|
  {
    assert [Choice(text, calls)][1..] == [];
    if a == [] {
      assert a + b == b;
    } else {
      assert (a + b)[1..] == a[1..] + b;
      SpokenConcat(a[1..], b, text, calls);
      Assoc(if a[0].Choice? then a[0].content else "", Spoken(a[1..]), Spoken(b));
    }
  }

  lemma {:induction false} TextsConcat(a: seq<Delta>, b: seq<Delta>)
    ensures Texts(a + b) == Texts(a) + Texts(b)
    decreases |b|
  {
    if b == [] {
      ConcatNothing(a);
    } else {
      var front, last := b[..|b| - 1], b[|b| - 1];
      assert (a + b)[..|a + b| - 1] == a + front;
      TextsConcat(a, front);
      Assoc(Texts(a), Texts(front), if last.Content? then last.text else "");
    }
  }

  lemma {:induction false} CallsSayNothing(st: Calls, ds: seq<CallDelta>)
    ensures Texts(SentForCalls(st, ds)) == ""
    decreases |ds|
  {
    if ds != [] {
      var sent := SentForCall(st, ds[0]);
      CallsSayNothing(AfterCall(st, ds[0]), ds[1..]);
      TextsConcat(sent, SentForCalls(AfterCall(st, ds[0]), ds[1..]));
      NoTexts(sent);
    }
  }

  lemma {:induction false} NoTexts(ds: seq<Delta>)
    requires forall k | 0 <= k < |ds| :: !ds[k].Content?
    ensures Texts(ds) == ""
  {
    if ds != [] {
      NoTexts(ds[..|ds| - 1]);
    }
  }

  lemma ContentSays(text: string)
    ensures Texts(ContentDelta(text)) == text
  {
    if text != "" {
      assert [Content(text)][..0] == [];
    }
  }

  /** The text a stream sends is the content of its chunks in order, up to its end. */
  lemma {:induction false} StreamSays(st: Calls, chunks: seq<Chunk>)
    ensures Texts(BeforeEnd(Stream(st, chunks))) == Spoken(Body(chunks))
    decreases |chunks|
  {
    if chunks != [] && !Ends(chunks[0]) {
      var rest := chunks[1..];
      assert Body(chunks)[1..] == Body(rest);
      if chunks[0].Noise? {
        StreamSays(st, rest);
      } else {
        var text, calls := chunks[0].content, chunks[0].calls;
        StreamSays(AfterCalls(st, calls), rest);
        ChoiceSays(st, text, calls, Stream(AfterCalls(st, calls), rest));
      }
    }
  }

  lemma ChoiceSays(st: Calls, text: string, calls: seq<CallDelta>, more: seq<Delta>)
    ensures Texts(BeforeEnd(ContentDelta(text) + SentForCalls(st, calls) + more)) == text + Texts(BeforeEnd(more))
  {
    var head := ContentDelta(text) + SentForCalls(st, calls);
    CallsNeverEnd(st, calls);
    BeforeEndConcat(head, more);
    TextsConcat(head, BeforeEnd(more));
    TextsConcat(ContentDelta(text), SentForCalls(st, calls));
    ContentSays(text);
    CallsSayNothing(st, calls);
    ConcatNothing(text);
  }

  /** Chunk k ends the stream, and it is a done mark or the usage, not an error. */
  predicate EndsWell(chunks: seq<Chunk>, k: nat) {
    && k < |chunks| && (chunks[k].Done? || chunks[k].Usage?)
    && forall j | 0 <= j < k :: chunks[j].Noise? || chunks[j].Choice?
  }

  lemma {:induction false} FinishesIff(chunks: seq<Chunk>)
    ensures Finishes(chunks) <==> exists k: nat :: EndsWell(chunks, k)
    decreases |chunks|
  {
    if chunks != [] {
      var rest := chunks[1..];
      FinishesIff(rest);
      if Finishes(chunks) {
        if chunks[0].Done? || chunks[0].Usage? {
          assert EndsWell(chunks, 0);
        } else {
          var k: nat :| EndsWell(rest, k);
          assert EndsWell(chunks, k + 1);
        }
      }
      if exists k: nat :: EndsWell(chunks, k) {
        var k: nat :| EndsWell(chunks, k);
        if k > 0 {
          assert EndsWell(rest, k - 1);
        }
      }
    }
  }

  /**
   The provider's half of a turn: for every stream the accumulator finishes exactly when the stream
   does, and then holds all its text, and in each slot the arguments of that slot's own fragments.
   */
  method ReadTurn(chunks: seq<Chunk>) returns (acc: Accumulator, done: bool)
    ensures fresh(acc) && acc.Valid() && (done <==> Finishes(chunks))
    ensures done ==> acc.content == Spoken(Body(chunks))
    ensures done ==> forall i: nat ::
      Opened(Slot(acc.toolCalls, i)).args == JoinedArgs(Own(Fragments(Body(chunks)), i))
  {
    acc := new Accumulator();
    var deltas := StreamSSE(chunks);
    done := acc.Consume(deltas);
    StreamTaken(map[], chunks, []);
    StreamSays(map[], chunks);
    if done {
      forall i: nat ensures Opened(Slot(acc.toolCalls, i)).args == JoinedArgs(Own(Fragments(Body(chunks)), i)) {
        StreamReassembles(chunks, i);
      }
    }
  }

  // ---------------------------------------------------------------- ids and names

  /** The last id sent. */
  function LastId(ds: seq<CallDelta>): string {
    if ds == [] then ""
    else if ds[|ds| - 1].id != "" then ds[|ds| - 1].id
    else LastId(ds[..|ds| - 1])
  }

  /** The last name sent. */
  function LastName(ds: seq<CallDelta>): string {
    if ds == [] then ""
    else var f := ds[|ds| - 1].fn;
      if f.Some? && f.value.name != "" then f.value.name else LastName(ds[..|ds| - 1])
  }

  predicate Announced(ds: seq<CallDelta>) {
    FollowAll(ds).rc.announced
  }

  /** The last id sent is at position k, and none behind it; the same of the name. */
  lemma {:induction false} LastIs(ds: seq<CallDelta>, k: nat)
    requires k < |ds|
    ensures ds[k].id != "" && (forall j | k < j < |ds| :: ds[j].id == "") ==> LastId(ds) == ds[k].id
    ensures ds[k].fn.Some? && ds[k].fn.value.name != ""
            && (forall j | k < j < |ds| :: ds[j].fn.None? || ds[j].fn.value.name == "")
            ==> LastName(ds) == ds[k].fn.value.name
    decreases |ds|
  {
    if k < |ds| - 1 {
      LastIs(ds[..|ds| - 1], k);
    }
  }

  /** Fragment k brings a function while an id is known. */
  predicate CanAnnounce(ds: seq<CallDelta>, k: nat)
    requires k < |ds|
  {
    ds[k].fn.Some? && LastId(ds[..k + 1]) != ""
  }

  lemma {:induction false} AnnouncedIff(ds: seq<CallDelta>)
    ensures Announced(ds) <==> exists k | 0 <= k < |ds| :: CanAnnounce(ds, k)
    decreases |ds|
  {
    if ds != [] {
      var front, last := ds[..|ds| - 1], |ds| - 1;
      AnnouncedIff(front);
      TrackName(front);
      TrackName(ds);
      assert ds[..last + 1] == ds;
      assert CanAnnounce(ds, last) <==> ds[last].fn.Some? && LastId(ds) != "";
      forall k | 0 <= k < last ensures CanAnnounce(front, k) == CanAnnounce(ds, k) {
        assert front[..k + 1] == ds[..k + 1];
      }
    }
  }

  lemma {:induction false} TrackName(ds: seq<CallDelta>)
    ensures FollowAll(ds).rc.name == LastName(ds) && FollowAll(ds).rc.id == LastId(ds)
    ensures !Announced(ds) ==> Opened(FollowAll(ds).slot).name == "" && Opened(FollowAll(ds).slot).id == ""
    decreases |ds|
  {
    if ds != [] {
      TrackName(ds[..|ds| - 1]);
    }
  }

  lemma {:induction false} NameFrozen(ds: seq<CallDelta>, k: nat)
    requires k <= |ds| && Announced(ds[..k])
    ensures Announced(ds) && Opened(FollowAll(ds).slot).name == Opened(FollowAll(ds[..k]).slot).name
    ensures Opened(FollowAll(ds).slot).id == Opened(FollowAll(ds[..k]).slot).id
    decreases |ds| - k
  {
    if k == |ds| {
      assert ds[..k] == ds;
    } else {
      assert ds[..k + 1][..k] == ds[..k];
      NameFrozen(ds, k + 1);
    }
  }

  lemma {:induction false} LastNameSplit(ds: seq<CallDelta>, k: nat)
    requires k <= |ds|
    ensures LastName(ds) == if LastName(ds[k..]) != "" then LastName(ds[k..]) else LastName(ds[..k])
    decreases |ds|
  {
    if k == |ds| {
      assert ds[..k] == ds;
    } else {
      var front := ds[..|ds| - 1];
      assert front[k..] == ds[k..][..|ds| - k - 1] && front[..k] == ds[..k];
      LastNameSplit(front, k);
    }
  }

  /** With the fragment that announces the call its slot has the name and the id sent so far. */
  lemma Announcement(ds: seq<CallDelta>)
    requires ds != [] && Announced(ds) && !Announced(ds[..|ds| - 1])
    ensures Opened(FollowAll(ds).slot).name == LastName(ds)
    ensures Opened(FollowAll(ds).slot).id == LastId(ds) != ""
  {
    var before := FollowAll(ds[..|ds| - 1]);
    TrackName(ds);
    TrackName(ds[..|ds| - 1]);
    assert FollowAll(ds) == Follow(before, ds[|ds| - 1]);
  }

  lemma AnnouncedAt(ds: seq<CallDelta>, k: nat)
    requires 0 < k <= |ds| && Announced(ds[..k]) && !Announced(ds[..k - 1])
    ensures Opened(FollowAll(ds).slot).name == LastName(ds[..k])
    ensures Opened(FollowAll(ds).slot).id == LastId(ds[..k]) != ""
  {
    var sent := ds[..k];
    assert sent[..|sent| - 1] == ds[..k - 1];
    Announcement(sent);
    NameFrozen(ds, k);
  }

  /**
   A call's name reaches the accumulator as it stood when the call was announced: with k the length
   of the announcing prefix, the stored name is the last one sent exactly when no later fragment
   changes it.
   */
  lemma NameExact(ds: seq<CallDelta>, k: nat)
    requires 0 < k <= |ds| && Announced(ds[..k]) && !Announced(ds[..k - 1])
    ensures Opened(FollowAll(ds).slot).name == LastName(ds[..k])
    ensures Opened(FollowAll(ds).slot).name == LastName(ds)
       <==> LastName(ds[k..]) == "" || LastName(ds[k..]) == LastName(ds[..k])
  {
    LastNameSplit(ds, k);
    AnnouncedAt(ds, k);
  }

  lemma {:induction false} LastIdSplit(ds: seq<CallDelta>, k: nat)
    requires k <= |ds|
    ensures LastId(ds) == if LastId(ds[k..]) != "" then LastId(ds[k..]) else LastId(ds[..k])
    decreases |ds|
  {
    if k == |ds| {
      assert ds[..k] == ds;
    } else {
      var front := ds[..|ds| - 1];
      assert front[k..] == ds[k..][..|ds| - k - 1] && front[..k] == ds[..k];
      LastIdSplit(front, k);
    }
  }

  /**
   So does its id, which is never empty then. It is the last id sent exactly when the later fragments
   end on no other one.
   */
  lemma IdExact(ds: seq<CallDelta>, k: nat)
    requires 0 < k <= |ds| && Announced(ds[..k]) && !Announced(ds[..k - 1])
    ensures Opened(FollowAll(ds).slot).id == LastId(ds[..k]) != ""
    ensures Opened(FollowAll(ds).slot).id == LastId(ds)
       <==> LastId(ds[k..]) == "" || LastId(ds[k..]) == LastId(ds[..k])
  {
    LastIdSplit(ds, k);
    AnnouncedAt(ds, k);
  }

  /** A call whose id comes before its name is announced without one, and the name never reaches the slot. */
  lemma LateNameLost(id: string, name: string)
    requires id != "" && name != ""
    ensures var ds := [CallDelta(0, id, Some(Function("", ""))), CallDelta(0, "", Some(Function(name, "{}")))];
      Opened(FollowAll(ds).slot) == Call(id, "", "{}") && LastName(ds) == name
  {
    var a, b := CallDelta(0, id, Some(Function("", ""))), CallDelta(0, "", Some(Function(name, "{}")));
    assert [a, b][..1] == [a] && [a][..0] == [];
    assert FollowAll([]) == Track(NEW_CALL, None);
    assert FollowAll([a]) == Follow(FollowAll([]), a);
    assert FollowAll([a]).slot == Some(Call(id, "", ""));
  }

  // ---------------------------------------------------------------- the exchange

  const MAX_CONTENT := 32 * 1024

  const TRUNCATED := "\n\n[tool result truncated]"

  function TruncateToolResult(s: string): (r: string)
    ensures |r| <= 32768
    ensures |s| <= 32768 ==> r == s
    ensures |s| > 32768 ==>
      |r| == 32768 && r[..32743] <= s && r[32743..] == "\n\n[tool result truncated]"
  {
    if |s| <= MAX_CONTENT then s else s[..MAX_CONTENT - |TRUNCATED|] + TRUNCATED
  }

  function Decimal(n: nat): (s: string)
    ensures s != []
  {
    if n < 10 then [DIGITS[n]] else Decimal(n / 10) + [DIGITS[n % 10]]
  }

  const DIGITS := "0123456789"

  function NormalizedId(id: string, turn: nat, index: nat): (r: string)
    ensures r != ""
    ensures Text.TrimSpace(id) != "" ==> r == Text.TrimSpace(id)
  {
    if Text.TrimSpace(id) != "" then Text.TrimSpace(id)
    else "call_" + Decimal(turn) + "_" + Decimal(index)
  }

  function Completed(s: Slots, turn: nat): seq<ToolCall> {
    if s == [] then []
    else var i := |s| - 1;
      Completed(s[..i], turn)
      + if s[i].Some? then [ToolCall(NormalizedId(s[i].value.id, turn, i), s[i].value.name, s[i].value.args)] else []
  }

  /** How many slots were ever used. */
  function Used(s: Slots): nat {
    if s == [] then 0 else Used(s[..|s| - 1]) + if s[|s| - 1].Some? then 1 else 0
  }

  lemma {:induction false} CompletedCount(s: Slots, turn: nat)
    ensures |Completed(s, turn)| == Used(s)
  {
    if s != [] {
      CompletedCount(s[..|s| - 1], turn);
    }
  }

  /** The call of a used slot keeps its name and arguments, and its place among the used slots. */
  lemma {:induction false} CompletedAt(s: Slots, turn: nat, i: nat)
    requires i < |s| && s[i].Some?
    ensures Used(s[..i]) < |Completed(s, turn)|
    ensures Completed(s, turn)[Used(s[..i])] ==
      ToolCall(NormalizedId(s[i].value.id, turn, i), s[i].value.name, s[i].value.args)
    decreases |s|
  {
    var front := s[..|s| - 1];
    CompletedCount(front, turn);
    if i < |s| - 1 {
      assert front[..i] == s[..i];
      CompletedAt(front, turn, i);
    }
  }

  /** A call without an id is named after its turn and slot, so no two of a turn share a made-up id. */
  lemma MadeUpIds(turn: nat, i: nat, j: nat)
    requires i != j
    ensures NormalizedId("", turn, i) == "call_" + Decimal(turn) + "_" + Decimal(i)
    ensures NormalizedId("", turn, i) != NormalizedId("", turn, j)
  {
    DecimalDiffers(i, j);
    var head := "call_" + Decimal(turn) + "_";
    assert (head + Decimal(i))[|head|..] == Decimal(i) && (head + Decimal(j))[|head|..] == Decimal(j);
  }

  lemma {:induction false} DecimalDiffers(m: nat, n: nat)
    requires m != n
    ensures Decimal(m) != Decimal(n)
    decreases m
  {
    if m >= 10 && n >= 10 {
      var a, b := Decimal(m), Decimal(n);
      assert a[..|a| - 1] == Decimal(m / 10) && b[..|b| - 1] == Decimal(n / 10);
      assert a[|a| - 1] == DIGITS[m % 10] && b[|b| - 1] == DIGITS[n % 10];
      if m / 10 != n / 10 {
        DecimalDiffers(m / 10, n / 10);
      }
    }
  }

  lemma {:induction false} CompletedIds(s: Slots, turn: nat)
    ensures forall k | 0 <= k < |Completed(s, turn)| :: Completed(s, turn)[k].id != ""
    ensures s != [] && Tight(s) ==> Completed(s, turn) != []
    decreases |s|
  {
    if s != [] {
      CompletedIds(s[..|s| - 1], turn);
    }
  }

  datatype ToolResult = ToolResult(callId: string, toolName: string, content: string)

  datatype Appended = Rejected | Rows(rows: History)

  function ResultRow(r: ToolResult): Message {
    Message(Tool, r.content, [], r.callId, r.toolName)
  }

  predicate Acceptable(r: ToolResult) {
    r.callId != "" && |r.content| <= MAX_CONTENT
  }

  /** The calling row and one row for each result. */
  function ExchangeRows(content: string, calls: seq<ToolCall>, results: seq<ToolResult>): History {
    [Message(Assistant, content, calls, "", "")]
    + seq(|results|, k requires 0 <= k < |results| => ResultRow(results[k]))
  }

  lemma ExchangeIsBlock(content: string, calls: seq<ToolCall>, results: seq<ToolResult>)
    requires calls != [] && |results| == |calls|
    requires forall k | 0 <= k < |calls| :: results[k].callId == calls[k].id
    ensures var rows := ExchangeRows(content, calls, results);
      IsBlock(rows) && |rows| == 1 + |calls| && forall k | 0 <= k < |calls| :: rows[1 + k] == ResultRow(results[k])
  {
    var rows := ExchangeRows(content, calls, results);
    assert forall k | 0 <= k < |calls| :: rows[1 + k] == ResultRow(results[k]);
    assert forall k | 0 <= k < |calls| :: Answered(rows, 0, k);
    assert Complete(rows, 0);
  }

  /** AppendAssistantToolExchange: the rows it stores, or its refusal. */
  method AppendAssistantToolExchange(content: string, calls: seq<ToolCall>, results: seq<ToolResult>)
    returns (r: Appended)
    ensures r.Rows? <==> calls != [] && |results| == |calls|
                         && forall k | 0 <= k < |results| :: results[k].callId != "" && |results[k].content| <= 32768
    ensures r.Rows? ==> r.rows == ExchangeRows(content, calls, results)
  {
    if |calls| == 0 {
      return Rejected;
    }
    if |results| != |calls| {
      return Rejected;
    }
    var msgs := [Message(Assistant, content, calls, "", "")];
    for i := 0 to |results|
      invariant msgs == [Message(Assistant, content, calls, "", "")]
                        + seq(i, k requires 0 <= k < i => ResultRow(results[k]))
      invariant forall k | 0 <= k < i :: Acceptable(results[k])
    {
      if results[i].callId == "" {
        return Rejected;
      }
      if |results[i].content| > MAX_CONTENT {
        return Rejected;
      }
      msgs := msgs + [ResultRow(results[i])];
    }
    r := Rows(msgs);
  }

  /**
   The tool half of a turn, for any tools: the exchange built from a non-empty accumulator is always
   accepted, and what is stored is one whole block.
   */
  method ToolTurn(acc: Accumulator, turn: nat, dispatch: (string, string) -> string) returns (r: Appended)
    requires acc.Valid() && acc.toolCalls != []
    ensures r.Rows? && IsBlock(r.rows) && |r.rows| == 1 + |r.rows[0].calls|
    ensures r.rows[0].calls == Completed(acc.toolCalls, turn) && r.rows[0].content == acc.content
    ensures r.rows[0].role == Assistant
    ensures forall k | 0 <= k < |r.rows[0].calls| ::
      && r.rows[1 + k].role == Tool && r.rows[1 + k].callId == r.rows[0].calls[k].id
      && r.rows[1 + k].toolName == r.rows[0].calls[k].name
      && r.rows[1 + k].content == TruncateToolResult(dispatch(r.rows[0].calls[k].name, r.rows[0].calls[k].args))
  {
    var calls := acc.CompletedToolCalls(turn);
    CompletedIds(acc.toolCalls, turn);
    var results := Dispatch(calls, dispatch);
    r := AppendAssistantToolExchange(acc.content, calls, results);
    ExchangeIsBlock(acc.content, calls, results);
  }

  /** The loop over the calls of a turn. */
  method Dispatch(calls: seq<ToolCall>, dispatch: (string, string) -> string) returns (results: seq<ToolResult>)
    ensures |results| == |calls|
    ensures forall k | 0 <= k < |calls| ::
      && results[k].callId == calls[k].id && results[k].toolName == calls[k].name
      && results[k].content == TruncateToolResult(dispatch(calls[k].name, calls[k].args))
  {
    results := [];
    for i := 0 to |calls|
      invariant |results| == i
      invariant forall k | 0 <= k < i ::
        && results[k].callId == calls[k].id && results[k].toolName == calls[k].name
        && results[k].content == TruncateToolResult(dispatch(calls[k].name, calls[k].args))
    {
      var result := dispatch(calls[i].name, calls[i].args);
      results := results + [ToolResult(calls[i].id, calls[i].name, TruncateToolResult(result))];
    }
  }
}
