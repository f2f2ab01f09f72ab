/**
 The event stream as text: the writer of the stream handler, and its reader as section 9.2.6 of the HTML Living
 Standard ("Interpreting an event stream") prescribes it.
 */
module SseStream {
  import EventSpec

  /** What is written for one event: the marshalled body holds the whole event. */
  datatype Frame = Frame(id: string, kind: string, body: string)

  // The writer

  /** `strings.Split(body, "\n")`. */
  function Lines(body: string): (lines: seq<string>)
    ensures lines != []
  {
    if body == [] then [""]
    else
      var rest := Lines(body[1..]);
      if body[0] == '\n' then [""] + rest else [[body[0]] + rest[0]] + rest[1..]
  }

  function Field(name: string, value: string): string {
    name + ": " + value + "\n"
  }

  /** The reconnection time, and a blank line. */
  const PREAMBLE := Field("retry", "3000") + "\n"

  function DataText(lines: seq<string>): string {
    if lines == [] then [] else Field("data", lines[0]) + DataText(lines[1..])
  }

  function KindOf(f: Frame): string {
    if f.kind == "" then EventSpec.DEFAULT_TYPE else f.kind
  }

  function IdText(f: Frame): string {
    if f.id == "" then "" else Field("id", f.id)
  }

  /** A frame without the blank line that ends it. */
  function FrameFields(f: Frame): string {
    IdText(f) + (Field("event", KindOf(f)) + DataText(Lines(f.body)))
  }

  function FrameText(f: Frame): string {
    FrameFields(f) + "\n"
  }

  function StreamText(frames: seq<Frame>): string {
    if frames == [] then [] else FrameText(frames[0]) + StreamText(frames[1..])
  }

  method WriteSseEvent(w: string, f: Frame) returns (out: string)
    ensures out == w + FrameText(f)
  {
    ghost var id, event, data := IdText(f), Field("event", KindOf(f)), DataText(Lines(f.body));
    out := w;
    if f.id != "" {
      out := out + Field("id", f.id);
    }
    assert out == w + id by { assert w + "" == w; }
    out := out + Field("event", if f.kind == "" then EventSpec.DEFAULT_TYPE else f.kind);
    out := WriteData(out, Lines(f.body));
    out := out + "\n";
    Assembled(w, id, event, data, "\n");
  }

  lemma Assembled(w: string, a: string, b: string, c: string, d: string)
    ensures w + a + b + c + d == w + (a + (b + c) + d)
  {
  }

  method WriteData(w: string, lines: seq<string>) returns (out: string)
    ensures out == w + DataText(lines)
  {
    out := w;
    for i := 0 to |lines|
      invariant out + DataText(lines[i..]) == w + DataText(lines)
    {
      assert lines[i..][1..] == lines[i + 1..];
      out := out + Field("data", lines[i]);
    }
  }

  // The reader

  datatype Message = Message(kind: string, data: string, lastEventId: string)

  /** The interpreter's buffers; `afterCR` remembers that a line just ended with CR, so an LF belongs to it. */
  datatype Reader = Reader(line: string, afterCR: bool, data: string, kind: string, id: string,
                           lastEventId: string, messages: seq<Message>)

  const START := Reader("", false, "", "", "", "", [])

  function Dispatch(r: Reader): Reader {
    var r := r.(lastEventId := r.id);
    if r.data == "" then r.(data := "", kind := "")
    else
      var data := if r.data[|r.data| - 1] == '\n' then r.data[..|r.data| - 1] else r.data;
      r.(messages := r.messages + [Message(if r.kind == "" then "message" else r.kind, data, r.lastEventId)],
         data := "", kind := "")
  }

  function ProcessField(r: Reader, name: string, value: string): Reader {
    if name == "event" then r.(kind := value)
    else if name == "data" then r.(data := r.data + value + "\n")
    else if name == "id" then (if '\0' in value then r else r.(id := value))
    else r
  }

  /** The position of the first colon, or the length when there is none. */
  function ColonAt(s: string): (i: nat)
    ensures i <= |s|
  {
    if s == [] || s[0] == ':' then 0 else 1 + ColonAt(s[1..])
  }

  function ProcessLine(r: Reader, line: string): Reader {
    if line == "" then Dispatch(r)
    else if line[0] == ':' then r
    else
      var i := ColonAt(line);
      if i == |line| then ProcessField(r, line, "")
      else
        var value := line[i + 1..];
        ProcessField(r, line[..i], if value != "" && value[0] == ' ' then value[1..] else value)
  }

  function Read(r: Reader, c: char): Reader {
    if c == '\n' && r.afterCR then r.(afterCR := false)
    else if c == '\n' || c == '\r' then ProcessLine(r.(line := "", afterCR := c == '\r'), r.line)
    else r.(line := r.line + [c], afterCR := false)
  }

  function ReadAll(r: Reader, s: string): Reader
    decreases |s|
  {
    if s == [] then r else ReadAll(Read(r, s[0]), s[1..])
  }

  lemma {:induction false} ReadAppend(r: Reader, s: string, t: string)
    ensures ReadAll(r, s + t) == ReadAll(ReadAll(r, s), t)
    decreases |s|
  {
    if s == [] {
      assert s + t == t;
    } else {
      assert (s + t)[1..] == s[1..] + t;
      ReadAppend(Read(r, s[0]), s[1..], t);
    }
  }

  predicate NoBreak(s: string) {
    '\n' !in s && '\r' !in s
  }

  lemma {:induction false} ReadPlain(r: Reader, s: string)
    requires NoBreak(s) && !r.afterCR
    ensures ReadAll(r, s) == r.(line := r.line + s)
    decreases |s|
  {
    if s == [] {
      assert r.line + s == r.line;
    } else {
      ReadPlain(Read(r, s[0]), s[1..]);
      assert r.line + [s[0]] + s[1..] == r.line + s;
    }
  }

  lemma ReadLine(r: Reader, s: string)
    requires NoBreak(s) && !r.afterCR && r.line == ""
    ensures ReadAll(r, s + "\n") == ProcessLine(r, s)
  {
    ReadAppend(r, s, "\n");
    ReadPlain(r, s);
    assert "" + s == s;
    var q := r.(line := s);
    assert ReadAll(q, "\n") == Read(q, '\n') by { assert "\n"[1..] == []; }
    assert q.(line := "", afterCR := false) == r;
  }

  lemma {:induction false} ColonAfter(name: string, rest: string)
    requires ':' !in name
    ensures ColonAt(name + ":" + rest) == |name|
  {
    if name != [] {
      assert (name + ":" + rest)[1..] == name[1..] + ":" + rest;
      ColonAfter(name[1..], rest);
    }
  }

  /** A field line reaches the field's handler with its exact value. */
  lemma ReadField(r: Reader, name: string, value: string)
    requires name != "" && ':' !in name && NoBreak(name) && NoBreak(value) && !r.afterCR && r.line == ""
    ensures ReadAll(r, Field(name, value)) == ProcessField(r, name, value)
  {
    var line := name + ": " + value;
    ReadLine(r, line);
    assert line == name + ":" + (" " + value);
    ColonAfter(name, " " + value);
    assert line[..|name|] == name && line[|name| + 1..] == " " + value;
    assert (" " + value)[1..] == value;
  }

  lemma {:induction false} ReadData(r: Reader, body: string)
    requires '\r' !in body && !r.afterCR && r.line == ""
    ensures ReadAll(r, DataText(Lines(body))) == r.(data := r.data + body + "\n")
    decreases |body|
  {
    DataSplits(body);
    var lines := Lines(body);
    ReadDataLine(r, lines);
    if |lines| > 1 {
      var rest := body[|lines[0]| + 1..];
      ReadData(r.(data := r.data + lines[0] + "\n"), rest);
      Regrouped(r.data, lines[0], rest);
    }
  }

  lemma Regrouped(data: string, line: string, rest: string)
    ensures data + line + "\n" + rest + "\n" == data + (line + "\n" + rest) + "\n"
  {
  }

  lemma ReadDataLine(r: Reader, lines: seq<string>)
    requires lines != [] && '\n' !in lines[0] && '\r' !in lines[0] && !r.afterCR && r.line == ""
    ensures ReadAll(r, DataText(lines)) == ReadAll(r.(data := r.data + lines[0] + "\n"), DataText(lines[1..]))
  {
    ReadAppend(r, Field("data", lines[0]), DataText(lines[1..]));
    ReadField(r, "data", lines[0]);
  }

  /** The first line and the lines of the rest. */
  lemma {:induction false} DataSplits(body: string)
    ensures var lines := Lines(body);
            && '\n' !in lines[0] && lines[0] <= body
            && if |lines| == 1 then body == lines[0]
               else |lines[0]| < |body| && body == lines[0] + "\n" + body[|lines[0]| + 1..]
                    && lines[1..] == Lines(body[|lines[0]| + 1..])
  {
    if body != [] {
      DataSplits(body[1..]);
      var rest, lines := Lines(body[1..]), Lines(body);
      if body[0] == '\n' {
        assert lines[1..] == rest && body[1..] == body[|lines[0]| + 1..];
      } else {
        assert lines[1..] == rest[1..];
        if |rest| > 1 { assert body[1..][|rest[0]| + 1..] == body[|lines[0]| + 1..]; }
      }
    }
  }

  // Round trip

  predicate Writable(f: Frame) {
    NoBreak(f.id) && '\0' !in f.id && NoBreak(f.kind) && '\r' !in f.body
  }

  /** Between frames the reader's line, data and type buffers are empty. */
  predicate Clean(r: Reader) {
    r.line == "" && !r.afterCR && r.data == "" && r.kind == ""
  }

  function NextId(id: string, f: Frame): string {
    if f.id == "" then id else f.id
  }

  lemma ReadId(r: Reader, f: Frame)
    requires Clean(r) && Writable(f)
    ensures ReadAll(r, IdText(f)) == r.(id := NextId(r.id, f))
  {
    if f.id != "" { ReadField(r, "id", f.id); }
  }

  lemma ReadKindAndData(r: Reader, kind: string, body: string)
    requires Clean(r) && NoBreak(kind) && '\r' !in body
    ensures ReadAll(r, Field("event", kind) + DataText(Lines(body))) == r.(kind := kind, data := body + "\n")
  {
    ReadAppend(r, Field("event", kind), DataText(Lines(body)));
    ReadField(r, "event", kind);
    ReadData(r.(kind := kind), body);
    assert "" + body + "\n" == body + "\n";
  }

  lemma ReadFields(r: Reader, f: Frame)
    requires Clean(r) && Writable(f)
    ensures ReadAll(r, FrameFields(f)) == r.(id := NextId(r.id, f), kind := KindOf(f), data := f.body + "\n")
  {
    ReadAppend(r, IdText(f), Field("event", KindOf(f)) + DataText(Lines(f.body)));
    ReadId(r, f);
    ReadKindAndData(r.(id := NextId(r.id, f)), KindOf(f), f.body);
  }

  /** Reading one frame dispatches exactly its type and body and moves the cursor exactly when it has an ID. */
  lemma ReadFrame(r: Reader, f: Frame)
    requires Clean(r) && Writable(f)
    ensures var id := NextId(r.id, f);
            ReadAll(r, FrameText(f)) ==
              r.(id := id, lastEventId := id, messages := r.messages + [Message(KindOf(f), f.body, id)])
  {
    ReadFields(r, f);
    ReadAppend(r, FrameFields(f), "\n");
    var q := r.(id := NextId(r.id, f), kind := KindOf(f), data := f.body + "\n");
    ReadLine(q, "");
    assert "" + "\n" == "\n";
    assert q.data[..|q.data| - 1] == f.body;
  }

  /** The messages a sequence of frames stands for, given the ID in force before them. */
  function Meaning(frames: seq<Frame>, id: string): seq<Message> {
    if frames == [] then []
    else [Message(KindOf(frames[0]), frames[0].body, NextId(id, frames[0]))] + Meaning(frames[1..], NextId(id, frames[0]))
  }

  /** The ID of the last frame that has one. */
  function LastId(frames: seq<Frame>, id: string): string {
    if frames == [] then id else LastId(frames[1..], NextId(id, frames[0]))
  }

  lemma {:induction false} ReadFrames(r: Reader, frames: seq<Frame>)
    requires Clean(r) && r.lastEventId == r.id && forall f | f in frames :: Writable(f)
    ensures var id := LastId(frames, r.id);
            ReadAll(r, StreamText(frames)) == r.(id := id, lastEventId := id, messages := r.messages + Meaning(frames, r.id))
    decreases |frames|
  {
    if frames == [] {
      assert r.messages + Meaning(frames, r.id) == r.messages;
    } else {
      ReadAppend(r, FrameText(frames[0]), StreamText(frames[1..]));
      ReadFrame(r, frames[0]);
      var q := ReadAll(r, FrameText(frames[0]));
      ReadFrames(q, frames[1..]);
      OneMore(r.messages, Message(KindOf(frames[0]), frames[0].body, q.id), Meaning(frames[1..], q.id));
    }
  }

  /** A text in which no line is blank; `begins` says that a line is about to begin. */
  predicate NoBlankLine(s: string, begins: bool) {
    s == [] ||
    if s[0] == '\n' then !begins && NoBlankLine(s[1..], true) else s[0] != '\r' && NoBlankLine(s[1..], false)
  }

  lemma {:induction false} NoBlankAppend(s: string, t: string, begins: bool)
    requires NoBlankLine(s, begins) && NoBlankLine(t, true) && s != [] && s[|s| - 1] == '\n'
    ensures NoBlankLine(s + t, begins)
  {
    assert (s + t)[1..] == s[1..] + t;
    if |s| == 1 {
      assert s[1..] + t == t;
    } else {
      NoBlankAppend(s[1..], t, s[0] == '\n');
    }
  }

  lemma {:induction false} NoBlankPlain(s: string, begins: bool)
    requires NoBreak(s) && (s == [] ==> !begins)
    ensures NoBlankLine(s + "\n", begins)
  {
    if s == [] {
      assert s + "\n" == "\n" && "\n"[1..] == [];
    } else {
      assert (s + "\n")[1..] == s[1..] + "\n";
      NoBlankPlain(s[1..], false);
    }
  }

  lemma FieldHasNoBlank(name: string, value: string)
    requires NoBreak(name) && NoBreak(value)
    ensures NoBlankLine(Field(name, value), true) && Field(name, value)[|Field(name, value)| - 1] == '\n'
  {
    NoBlankPlain(name + ": " + value, true);
  }

  lemma {:induction false} DataHasNoBlank(body: string)
    requires '\r' !in body
    ensures NoBlankLine(DataText(Lines(body)), true)
    decreases |body|
  {
    DataSplits(body);
    var lines := Lines(body);
    FieldHasNoBlank("data", lines[0]);
    var first := Field("data", lines[0]);
    if |lines| > 1 {
      DataHasNoBlank(body[|lines[0]| + 1..]);
      NoBlankAppend(first, DataText(lines[1..]), true);
    } else {
      assert first + DataText(lines[1..]) == first;
    }
  }

  lemma FieldsHaveNoBlank(f: Frame)
    requires Writable(f)
    ensures NoBlankLine(FrameFields(f), true)
  {
    DataHasNoBlank(f.body);
    FieldHasNoBlank("event", KindOf(f));
    var tail := Field("event", KindOf(f)) + DataText(Lines(f.body));
    NoBlankAppend(Field("event", KindOf(f)), DataText(Lines(f.body)), true);
    if f.id == "" {
      assert "" + tail == tail;
    } else {
      FieldHasNoBlank("id", f.id);
      NoBlankAppend(Field("id", f.id), tail, true);
    }
  }

  /** Text without a blank line dispatches nothing and leaves the cursor alone, however far it is read. */
  lemma {:induction false} NothingDispatched(r: Reader, s: string, n: nat)
    requires n <= |s| && NoBlankLine(s, r.line == "") && !r.afterCR
    ensures ReadAll(r, s[..n]).messages == r.messages && ReadAll(r, s[..n]).lastEventId == r.lastEventId
    decreases n
  {
    if n > 0 {
      assert s[..n][1..] == s[1..][..n - 1];
      NothingDispatched(Read(r, s[0]), s[1..], n - 1);
    }
  }

  /** Number of whole frames within the first n characters. */
  function WholeFrames(frames: seq<Frame>, n: nat): (k: nat)
    ensures k <= |frames|
  {
    if frames == [] || n < |FrameText(frames[0])| then 0
    else 1 + WholeFrames(frames[1..], n - |FrameText(frames[0])|)
  }

  /** What has been read by the first n characters of the frames, starting from a clean reader. */
  ghost predicate CutOk(r: Reader, frames: seq<Frame>, n: nat)
    requires n <= |StreamText(frames)|
  {
    Dispatched(r, ReadAll(r, StreamText(frames)[..n]), frames, WholeFrames(frames, n))
  }

  /** From r to q the first k frames have been dispatched. */
  ghost predicate Dispatched(r: Reader, q: Reader, frames: seq<Frame>, k: nat)
    requires k <= |frames|
  {
    q.messages == r.messages + Meaning(frames[..k], r.id) && q.lastEventId == LastId(frames[..k], r.id)
  }

  lemma CutInside(r: Reader, frames: seq<Frame>, n: nat)
    requires Clean(r) && r.lastEventId == r.id && frames != [] && Writable(frames[0]) && n < |FrameText(frames[0])|
    requires n <= |StreamText(frames)|
    ensures CutOk(r, frames, n)
  {
    assert StreamText(frames)[..n] == FrameFields(frames[0])[..n];
    FieldsHaveNoBlank(frames[0]);
    NothingDispatched(r, FrameFields(frames[0]), n);
    assert r.messages + [] == r.messages;
  }

  /** The part of the cut behind the first frame. */
  lemma CutBeyond(r: Reader, q: Reader, frames: seq<Frame>, n: nat)
    requires frames != [] && |FrameText(frames[0])| <= n <= |StreamText(frames)|
    requires q == ReadAll(r, FrameText(frames[0])) && q.id == NextId(r.id, frames[0])
    requires q.messages == r.messages + [Message(KindOf(frames[0]), frames[0].body, q.id)]
    requires CutOk(q, frames[1..], n - |FrameText(frames[0])|)
    ensures CutOk(r, frames, n)
  {
    var first, rest := FrameText(frames[0]), StreamText(frames[1..]);
    SplitCut(r, first, rest, n);
    DispatchedOneMore(r, q, ReadAll(q, rest[..n - |first|]), frames, WholeFrames(frames[1..], n - |first|));
  }

  lemma DispatchedOneMore(r: Reader, q: Reader, end: Reader, frames: seq<Frame>, k: nat)
    requires frames != [] && k < |frames| && q.id == NextId(r.id, frames[0])
    requires q.messages == r.messages + [Message(KindOf(frames[0]), frames[0].body, q.id)]
    requires Dispatched(q, end, frames[1..], k)
    ensures Dispatched(r, end, frames, k + 1)
  {
    MeaningStep(frames, k, r.id);
    OneMore(r.messages, Message(KindOf(frames[0]), frames[0].body, q.id), Meaning(frames[1..][..k], q.id));
  }

  lemma OneMore(before: seq<Message>, m: Message, after: seq<Message>)
    ensures before + ([m] + after) == (before + [m]) + after
  {
  }

  lemma SplitCut(r: Reader, first: string, rest: string, n: nat)
    requires |first| <= n <= |first + rest|
    ensures ReadAll(r, (first + rest)[..n]) == ReadAll(ReadAll(r, first), rest[..n - |first|])
  {
    assert (first + rest)[..n] == first + rest[..n - |first|];
    ReadAppend(r, first, rest[..n - |first|]);
  }

  lemma MeaningStep(frames: seq<Frame>, k: nat, id: string)
    requires frames != [] && k < |frames|
    ensures var id' := NextId(id, frames[0]);
            && Meaning(frames[..k + 1], id) == [Message(KindOf(frames[0]), frames[0].body, id')] + Meaning(frames[1..][..k], id')
            && LastId(frames[..k + 1], id) == LastId(frames[1..][..k], id')
  {
    assert frames[..k + 1][1..] == frames[1..][..k];
  }

  lemma {:induction false} ReadCut(r: Reader, frames: seq<Frame>, n: nat)
    requires Clean(r) && r.lastEventId == r.id && (forall f | f in frames :: Writable(f)) && n <= |StreamText(frames)|
    ensures CutOk(r, frames, n)
    decreases |frames|
  {
    if frames == [] {
      assert StreamText(frames)[..n] == [];
      assert r.messages + [] == r.messages;
    } else if n < |FrameText(frames[0])| {
      CutInside(r, frames, n);
    } else {
      ReadFrame(r, frames[0]);
      var q := ReadAll(r, FrameText(frames[0]));
      ReadCut(q, frames[1..], n - |FrameText(frames[0])|);
      CutBeyond(r, q, frames, n);
    }
  }

  /** What a client that comes back with an ID starts the next stream with. */
  function Resuming(id: string): Reader {
    START.(id := id, lastEventId := id)
  }

  /** The preamble dispatches nothing and, if the ID is in the reader's buffer, keeps it. */
  lemma ReadPreamble(r: Reader)
    requires Clean(r)
    ensures ReadAll(r, PREAMBLE) == r.(lastEventId := r.id)
  {
    var retry := Field("retry", "3000");
    ReadAppend(r, retry, "\n");
    ReadRetry(r);
    ReadLine(r, "");
    assert "" + "\n" == "\n";
  }

  lemma ReadRetry(r: Reader)
    requires Clean(r)
    ensures ReadAll(r, Field("retry", "3000")) == r
  {
    ReadField(r, "retry", "3000");
  }

  /** The buffer matters: a reader that keeps its last ID but starts every stream with an empty buffer, as the standard
      words it, forgets the ID at the blank line of the preamble. */
  lemma EmptyBufferForgets(id: string)
    ensures ReadAll(START.(lastEventId := id), PREAMBLE).lastEventId == ""
  {
    ReadPreamble(START.(lastEventId := id));
  }

  function ConnectionText(frames: seq<Frame>): string {
    PREAMBLE + StreamText(frames)
  }

  /** Number of whole frames within the first n characters of a connection. */
  function Arrived(frames: seq<Frame>, n: nat): (k: nat)
    ensures k <= |frames|
  {
    if n < |PREAMBLE| then 0 else WholeFrames(frames, n - |PREAMBLE|)
  }

  lemma NothingBefore(messages: seq<Message>)
    ensures [] + messages == messages
  {
  }

  lemma CutInPreamble(r: Reader, frames: seq<Frame>, n: nat)
    requires Clean(r) && n < |PREAMBLE|
    ensures var q := ReadAll(r, ConnectionText(frames)[..n]);
            q.messages == r.messages && q.lastEventId == r.lastEventId
  {
    var retry := Field("retry", "3000");
    FieldHasNoBlank("retry", "3000");
    NothingDispatched(r, retry, n);
    assert ConnectionText(frames)[..n] == retry[..n];
  }

  /**
   A connection cut after any number of characters: the client has dispatched exactly the frames that arrived
   whole, with their types and bodies, and its last event ID is that of the last such frame that has an ID, or
   the one it came with. Frames without an ID (the connected and heartbeat frames) never move it.
   */
  lemma ClientSeesWholeFrames(frames: seq<Frame>, id: string, n: nat)
    requires (forall f | f in frames :: Writable(f)) && n <= |ConnectionText(frames)|
    ensures var k := Arrived(frames, n);
            var q := ReadAll(Resuming(id), ConnectionText(frames)[..n]);
            q.messages == Meaning(frames[..k], id) && q.lastEventId == LastId(frames[..k], id)
  {
    var r := Resuming(id);
    if n < |PREAMBLE| {
      CutInPreamble(r, frames, n);
    } else {
      ReadPreamble(r);
      SplitCut(r, PREAMBLE, StreamText(frames), n);
      ReadCut(r, frames, n - |PREAMBLE|);
      NothingBefore(Meaning(frames[..Arrived(frames, n)], id));
    }
  }

  /** The whole stream yields the whole sequence of events. */
  lemma StreamRoundTrip(frames: seq<Frame>, id: string)
    requires forall f | f in frames :: Writable(f)
    ensures var q := ReadAll(Resuming(id), ConnectionText(frames));
            q.messages == Meaning(frames, id) && q.lastEventId == LastId(frames, id)
  {
    ReadPreamble(Resuming(id));
    ReadAppend(Resuming(id), PREAMBLE, StreamText(frames));
    ReadFrames(Resuming(id), frames);
    NothingBefore(Meaning(frames, id));
  }
}
