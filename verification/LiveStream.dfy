/**
 Server-sent events from both ends: the frames the server writes, and the client that receives the
 stream in arbitrary pieces, cuts it into frames and reads each one's event name and data.
 */
module LiveStream {

  const SEPARATOR := "\n\n"

  // ---------------------------------------------------------------- the frames of a stream

  /** buf.indexOf("\n\n"), or the length of buf when there is none. */
  function IndexOf(buf: string): (i: nat)
    ensures i <= |buf|
    ensures i < |buf| ==> i + 2 <= |buf| && buf[i] == '\n' && buf[i + 1] == '\n'
    ensures forall k :: 0 <= k < i && k + 1 < |buf| ==> !(buf[k] == '\n' && buf[k + 1] == '\n')
  {
    if |buf| < 2 then |buf|
    else if buf[0] == '\n' && buf[1] == '\n' then 0
    else
      var j := IndexOf(buf[1..]);
      assert forall k :: 0 < k <= j && k + 1 < |buf| ==> buf[1..][k - 1] == buf[k] && buf[1..][k] == buf[k + 1];
      j + 1
  }

  /** The complete frames of the text. */
  function Frames(text: string): seq<string>
    decreases |text|
  {
    var i := IndexOf(text);
    if i == |text| then [] else [text[..i]] + Frames(text[i + 2..])
  }

  /** What is left after the last separator. */
  function Rest(text: string): string
    decreases |text|
  {
    var i := IndexOf(text);
    if i == |text| then text else Rest(text[i + 2..])
  }

  /** A separator once seen stays the first one. */
  lemma {:induction false} IndexOfAppend(a: string, b: string)
    requires IndexOf(a) < |a|
    ensures IndexOf(a + b) == IndexOf(a)
  {
    if !(a[0] == '\n' && a[1] == '\n') {
      assert (a + b)[1..] == a[1..] + b;
      IndexOfAppend(a[1..], b);
    }
  }

  /** The first frame and what follows it. */
  lemma {:induction false} FirstFrame(text: string)
    ensures IndexOf(text) == |text| ==> Frames(text) == [] && Rest(text) == text
    ensures IndexOf(text) < |text| ==>
      var tail := text[IndexOf(text) + 2..];
      Frames(text) == [text[..IndexOf(text)]] + Frames(tail) && Rest(text) == Rest(tail)
  {
  }

  /** Text that has arrived in two pieces gives the frames of the whole. */
  lemma {:induction false} FramesAppend(a: string, b: string)
    ensures Frames(a + b) == Frames(a) + Frames(Rest(a) + b)
    ensures Rest(a + b) == Rest(Rest(a) + b)
    decreases |a|
  {
    hide IndexOf, Frames, Rest;
    FirstFrame(a);
    var i := IndexOf(a);
    if i < |a| {
      var tail := a[i + 2..];
      IndexOfAppend(a, b);
      FirstFrame(a + b);
      assert (a + b)[..i] == a[..i] && (a + b)[i + 2..] == tail + b;
      FramesAppend(tail, b);
    }
  }

  // ---------------------------------------------------------------- reading one frame

  /** What JavaScript's trim removes. */
  predicate IsSpace(c: char) {
    || c in {' ', '\t', '\n', '\U{0B}', '\U{0C}', '\r', '\U{A0}', '\U{1680}'}
    || '\U{2000}' <= c <= '\U{200A}'
    || c in {'\U{2028}', '\U{2029}', '\U{202F}', '\U{205F}', '\U{3000}', '\U{FEFF}'}
  }

  /** White space and line terminators of ECMA-262, sections 12.2 and 12.3, by code point. */
  lemma SpaceCodes(c: char)
    ensures var n := c as int;
      IsSpace(c) <==>
      || 9 <= n <= 13 || 0x2000 <= n <= 0x200A
      || n in {0x20, 0xA0, 0x1680, 0x2028, 0x2029, 0x202F, 0x205F, 0x3000, 0xFEFF}
  {
  }

  function TrimStart(s: string): string {
    if s != "" && IsSpace(s[0]) then TrimStart(s[1..]) else s
  }

  function TrimEnd(s: string): string {
    if s != "" && IsSpace(s[|s| - 1]) then TrimEnd(s[..|s| - 1]) else s
  }

  function Trim(s: string): string { TrimEnd(TrimStart(s)) }

  predicate Trimmed(s: string) {
    s == "" || (!IsSpace(s[0]) && !IsSpace(s[|s| - 1]))
  }

  /** frame.split("\n") */
  function Split(frame: string): (lines: seq<string>)
    ensures |lines| >= 1
  {
    if frame == "" then [""]
    else
      var front := Split(frame[..|frame| - 1]);
      if frame[|frame| - 1] == '\n' then front + [""]
      else front[..|front| - 1] + [front[|front| - 1] + [frame[|frame| - 1]]]
  }

  datatype Event = Event(name: string, data: string)

  /** One line of a frame: it may set the event name or add to the data. */
  function ReadLine(e: Event, line: string): Event {
    if "event:" <= line then e.(name := Trim(line[6..]))
    else if "data:" <= line then e.(data := e.data + Trim(line[5..]))
    else e
  }

  function ReadLines(lines: seq<string>): Event {
    if lines == [] then Event("message", "") else ReadLine(ReadLines(lines[..|lines| - 1]), lines[|lines| - 1])
  }

  predicate Dispatched(e: Event) {
    e.data != "" && e.data != "{}" && (e.name == "activity" || e.name == "node_health")
  }

  /** The events handed to the page for a sequence of frames. */
  function Dispatch(frames: seq<string>): seq<Event> {
    if frames == [] then []
    else
      var e := ReadLines(Split(frames[|frames| - 1]));
      Dispatch(frames[..|frames| - 1]) + if Dispatched(e) then [e] else []
  }

  lemma {:induction false} DispatchAppend(a: seq<string>, b: seq<string>)
    ensures Dispatch(a + b) == Dispatch(a) + Dispatch(b)
  {
    if b == [] {
      assert a + b == a;
    } else {
      assert (a + b)[..|a + b| - 1] == a + b[..|b| - 1];
      DispatchAppend(a, b[..|b| - 1]);
    }
  }

  predicate HasName(lines: seq<string>) { exists i :: 0 <= i < |lines| && "event:" <= lines[i] }

  lemma HasNameSnoc(lines: seq<string>, line: string)
    ensures HasName(lines + [line]) <==> HasName(lines) || "event:" <= line
  {
    var more := lines + [line];
    assert more[|lines|] == line;
    if i :| 0 <= i < |lines| && "event:" <= lines[i] { assert more[i] == lines[i]; }
  }

  /** A frame read in two parts: the data is joined, and the last event line gives the name. */
  lemma {:induction false} ReadInParts(a: seq<string>, b: seq<string>)
    ensures ReadLines(a + b).data == ReadLines(a).data + ReadLines(b).data
    ensures ReadLines(a + b).name == if HasName(b) then ReadLines(b).name else ReadLines(a).name
  {
    if b == [] {
      assert a + b == a;
    } else {
      hide Trim, HasName, ReadLines, ReadLine;
      var c, line := b[..|b| - 1], b[|b| - 1];
      assert b == c + [line] && a + b == (a + c) + [line];
      ReadInParts(a, c);
      HasNameSnoc(c, line);
      ReadSnoc(c, line);
      ReadSnoc(a + c, line);
    }
  }

  lemma {:induction false} ReadSnoc(lines: seq<string>, line: string)
    ensures var e, e' := ReadLines(lines), ReadLines(lines + [line]);
      && e'.name == (if "event:" <= line then Trim(line[6..]) else e.name)
      && e'.data == e.data + if !("event:" <= line) && "data:" <= line then Trim(line[5..]) else ""
  {
    hide Trim;
    assert (lines + [line])[..|lines|] == lines;
  }

  /** Of one line the part after its field name counts, trimmed; a line without one counts for nothing. */
  lemma ReadOneLine(line: string)
    ensures ReadLines([line]) ==
      if "event:" <= line then Event(Trim(line[6..]), "")
      else if "data:" <= line then Event("message", Trim(line[5..]))
      else Event("message", "")
  {
    hide Trim;
    assert [line][..0] == [];
  }

  /** The page is handed a frame exactly when it is named as one of the two events it knows and carries data
      other than the empty object. */
  lemma DispatchOne(frame: string)
    ensures var e := ReadLines(Split(frame));
      Dispatch([frame]) ==
        if e.name in {"activity", "node_health"} && e.data !in {"", "{}"} then [e] else []
  {
    assert [frame][..0] == [];
  }

  // ---------------------------------------------------------------- the client

  class Client {
    var buf: string
    var handled: seq<Event>
    ghost var received: string

    ghost predicate Valid()
      reads this
    {
      buf == Rest(received) && handled == Dispatch(Frames(received))
    }

    constructor ()
      ensures Valid() && received == ""
    {
      buf, handled, received := "", [], "";
    }

    /** The loop over the lines of one frame. */
    static method ReadFrame(frame: string) returns (e: Event)
      ensures e == ReadLines(Split(frame))
    {
      var event, data := "message", "";
      var lines := Split(frame);
      for i := 0 to |lines|
        invariant Event(event, data) == ReadLines(lines[..i])
      {
        assert lines[..i + 1][..i] == lines[..i];
        if "event:" <= lines[i] {
          event := Trim(lines[i][6..]);
        } else if "data:" <= lines[i] {
          data := data + Trim(lines[i][5..]);
        }
      }
      assert lines[..|lines|] == lines;
      e := Event(event, data);
    }

    /** One read: append the decoded text, then handle every complete frame. */
    method Receive(piece: string)
      requires Valid()
      modifies this
      ensures Valid() && received == old(received) + piece
    {
      ghost var text := received + piece;
      FramesAppend(received, piece);
      DispatchAppend(Frames(received), Frames(buf + piece));
      received := text;
      buf := buf + piece;
      HandleFrames();
    }

    /** The loop over the separators of buf. */
    method HandleFrames()
      modifies this`buf, this`handled
      ensures buf == Rest(old(buf)) && handled == old(handled) + Dispatch(Frames(old(buf)))
    {
      hide IndexOf, Frames, Rest, Dispatch, Split, ReadLines;
      ghost var start, before := buf, handled;
      ghost var taken: seq<string> := [];
      NothingTaken(buf, handled);
      var sep := IndexOf(buf);
      while sep < |buf|
        invariant sep == IndexOf(buf)
        invariant Frames(start) == taken + Frames(buf) && Rest(start) == Rest(buf)
        invariant handled == before + Dispatch(taken)
        decreases |buf|
      {
        var frame := buf[..sep];
        TakeFrame(start, taken, buf);
        buf := buf[sep + 2..];
        var e := ReadFrame(frame);
        DispatchMore(before, taken, frame);
        taken := taken + [frame];
        if Dispatched(e) { handled := handled + [e]; }
        sep := IndexOf(buf);
      }
      FirstFrame(buf);
      assert taken + [] == taken;
    }
  }

  lemma {:induction false} NothingTaken(buf: string, handled: seq<Event>)
    ensures Frames(buf) == [] + Frames(buf) && handled == handled + Dispatch([])
  {
  }

  lemma {:induction false} TakeFrame(start: string, taken: seq<string>, buf: string)
    requires Frames(start) == taken + Frames(buf) && Rest(start) == Rest(buf) && IndexOf(buf) < |buf|
    ensures var i := IndexOf(buf);
      Frames(start) == (taken + [buf[..i]]) + Frames(buf[i + 2..]) && Rest(start) == Rest(buf[i + 2..])
  {
    hide Frames, Rest, IndexOf;
    FirstFrame(buf);
    var i := IndexOf(buf);
    var frame, tail := buf[..i], buf[i + 2..];
    assert taken + ([frame] + Frames(tail)) == (taken + [frame]) + Frames(tail);
  }

  lemma {:induction false} DispatchMore(before: seq<Event>, taken: seq<string>, frame: string)
    ensures var e := ReadLines(Split(frame));
      before + Dispatch(taken + [frame]) == before + Dispatch(taken) + if Dispatched(e) then [e] else []
  {
    assert (taken + [frame])[..|taken|] == taken;
  }

  function Joined(pieces: seq<string>): string {
    if pieces == [] then "" else Joined(pieces[..|pieces| - 1]) + pieces[|pieces| - 1]
  }

  /** However the stream is cut into reads, the page sees the same events. */
  method ReceiveAll(pieces: seq<string>) returns (events: seq<Event>)
    ensures events == Dispatch(Frames(Joined(pieces)))
  {
    var client := new Client();
    for i := 0 to |pieces|
      invariant client.Valid() && fresh(client) && client.received == Joined(pieces[..i])
    {
      client.Receive(pieces[i]);
      assert pieces[..i + 1][..i] == pieces[..i];
    }
    assert pieces[..|pieces|] == pieces;
    events := client.handled;
  }

  // ---------------------------------------------------------------- the server

  datatype Message = Hello | Keepalive | Activity(payload: string) | NodeHealth(data: string)

  function Frame(name: string, data: string): string {
    "event: " + name + "\n" + ("data: " + data)
  }

  /** What Stream writes for one message. */
  function Print(m: Message): string {
    match m
    case Hello => Frame("hello", "{}") + SEPARATOR
    case Keepalive => ": keepalive" + SEPARATOR
    case Activity(payload) => Frame("activity", payload) + SEPARATOR
    case NodeHealth(data) => Frame("node_health", data) + SEPARATOR
  }

  function PrintAll(ms: seq<Message>): string {
    if ms == [] then "" else PrintAll(ms[..|ms| - 1]) + Print(ms[|ms| - 1])
  }

  /** What the page should see of it. */
  function Expected(ms: seq<Message>): seq<Event> {
    if ms == [] then []
    else Expected(ms[..|ms| - 1]) + match ms[|ms| - 1]
      case Activity(payload) => [Event("activity", payload)]
      case NodeHealth(data) => [Event("node_health", data)]
      case _ => []
  }

  /** Payloads that survive: one line, nothing to trim, and not the empty object. */
  predicate Plain(payload: string) {
    '\n' !in payload && Trimmed(payload) && payload != "" && payload != "{}"
  }

  predicate Sendable(m: Message) {
    (m.Activity? ==> Plain(m.payload)) && (m.NodeHealth? ==> Plain(m.data))
  }

  // ---------------------------------------------------------------- trimming

  lemma {:induction false} TrimTrims(s: string)
    ensures Trimmed(Trim(s))
    decreases |s|
  {
    if s != "" && IsSpace(s[0]) {
      TrimTrims(s[1..]);
    } else {
      TrimEndTrims(s);
    }
  }

  lemma {:induction false} TrimEndTrims(s: string)
    requires s == "" || !IsSpace(s[0])
    ensures Trimmed(TrimEnd(s))
  {
    if s != "" && IsSpace(s[|s| - 1]) { TrimEndTrims(s[..|s| - 1]); }
  }

  /** And takes nothing but space away, from the two ends. */
  lemma TrimCuts(s: string) returns (i: nat, j: nat)
    ensures i <= j <= |s| && Trim(s) == s[i..j]
    ensures forall k :: 0 <= k < |s| && !(i <= k < j) ==> IsSpace(s[k])
  {
    i := TrimStartCuts(s);
    var n := TrimEndCuts(s[i..]);
    j := i + n;
    assert s[i..][..n] == s[i..j];
    forall k | i <= k < |s| ensures s[k] == s[i..][k - i] {}
  }

  lemma {:induction false} TrimStartCuts(s: string) returns (i: nat)
    ensures i <= |s| && TrimStart(s) == s[i..] && forall k :: 0 <= k < i ==> IsSpace(s[k])
  {
    i := 0;
    if s != "" && IsSpace(s[0]) {
      i := TrimStartCuts(s[1..]);
      assert s[1..][i..] == s[i + 1..];
      forall k | 0 < k < i + 1 ensures s[k] == s[1..][k - 1] {}
      i := i + 1;
    }
  }

  lemma {:induction false} TrimEndCuts(s: string) returns (j: nat)
    ensures j <= |s| && TrimEnd(s) == s[..j] && forall k :: j <= k < |s| ==> IsSpace(s[k])
  {
    j := |s|;
    if s != "" && IsSpace(s[|s| - 1]) {
      j := TrimEndCuts(s[..|s| - 1]);
      assert s[..|s| - 1][..j] == s[..j];
      forall k | j <= k < |s| - 1 ensures s[k] == s[..|s| - 1][k] {}
    }
  }

  lemma TrimIdle(s: string)
    requires Trimmed(s)
    ensures Trim(s) == s && Trim(" " + s) == s
  {
    assert (" " + s)[1..] == s;
  }

  lemma TrimBlank(s: string)
    ensures Trim(" " + s) == Trim(s)
  {
    assert (" " + s)[1..] == s;
  }

  lemma {:induction false} TrimKeepsOut(s: string)
    requires '\n' !in s
    ensures '\n' !in Trim(s)
    decreases |s|
  {
    if s != "" && IsSpace(s[0]) {
      TrimKeepsOut(s[1..]);
    } else {
      TrimEndKeepsOut(s);
    }
  }

  lemma {:induction false} TrimEndKeepsOut(s: string)
    requires '\n' !in s
    ensures '\n' !in TrimEnd(s)
  {
    if s != "" && IsSpace(s[|s| - 1]) { TrimEndKeepsOut(s[..|s| - 1]); }
  }

  // ---------------------------------------------------------------- lines

  lemma {:induction false} SplitPlain(x: string)
    requires '\n' !in x
    ensures Split(x) == [x]
  {
    if x != "" {
      SplitPlain(x[..|x| - 1]);
      assert x == x[..|x| - 1] + [x[|x| - 1]];
    }
  }

  lemma {:induction false} SplitTwo(x: string, y: string)
    requires '\n' !in x && '\n' !in y
    ensures Split(x + "\n" + y) == [x, y]
  {
    var all := x + "\n" + y;
    if y == "" {
      assert all == x + "\n" && all[..|all| - 1] == x;
      SplitPlain(x);
    } else {
      var z := y[..|y| - 1];
      assert y == z + [y[|y| - 1]];
      assert all[..|all| - 1] == x + "\n" + z && all[|all| - 1] == y[|y| - 1];
      SplitTwo(x, z);
      assert y[|y| - 1] in y;
    }
  }

  lemma {:induction false} SplitLines(frame: string)
    ensures forall i :: 0 <= i < |Split(frame)| ==> '\n' !in Split(frame)[i]
  {
    if frame != "" { SplitLines(frame[..|frame| - 1]); }
  }

  /** The data of an event never holds a newline. */
  lemma {:induction false} DataIsOneLine(lines: seq<string>)
    requires forall i :: 0 <= i < |lines| ==> '\n' !in lines[i]
    ensures '\n' !in ReadLines(lines).data
  {
    if lines != [] {
      DataIsOneLine(lines[..|lines| - 1]);
      var line := lines[|lines| - 1];
      if "data:" <= line { TrimKeepsOut(line[5..]); }
    }
  }

  lemma {:induction false} FrameLines(name: string, data: string)
    requires '\n' !in name && '\n' !in data && Trimmed(name)
    ensures ReadLines(Split(Frame(name, data))) == Event(name, Trim(data))
  {
    var x, y := "event: " + name, "data: " + data;
    assert Frame(name, data) == x + "\n" + y;
    SplitTwo(x, y);
    hide Split, Trim;
    EventLine(name);
    DataLine(Event(name, ""), data);
    ReadTwo(x, y);
  }

  lemma {:induction false} EventLine(name: string)
    requires Trimmed(name)
    ensures ReadLine(Event("message", ""), "event: " + name) == Event(name, "")
  {
    assert ("event: " + name)[6..] == " " + name;
    TrimIdle(name);
  }

  lemma {:induction false} DataLine(e: Event, data: string)
    requires e.data == ""
    ensures ReadLine(e, "data: " + data) == Event(e.name, Trim(data))
  {
    var y := "data: " + data;
    assert y[5..] == " " + data && y[0] == 'd' && "event:"[0] == 'e';
    TrimBlank(data);
  }

  lemma {:induction false} ReadTwo(x: string, y: string)
    ensures ReadLines([x, y]) == ReadLine(ReadLine(Event("message", ""), x), y)
  {
    hide ReadLine;
    assert [x, y][..1] == [x] && [x][..0] == [];
    assert ReadLines([x]) == ReadLine(ReadLines([]), x);
    assert ReadLines([x, y]) == ReadLine(ReadLines([x]), y);
  }

  // ---------------------------------------------------------------- frames of printed text

  predicate NoGap(a: string) {
    && (forall k :: 0 <= k < |a| - 1 ==> !(a[k] == '\n' && a[k + 1] == '\n'))
    && (a != "" ==> a[|a| - 1] != '\n')
  }

  lemma {:induction false} IndexOfSeparator(a: string, b: string)
    requires NoGap(a)
    ensures IndexOf(a + SEPARATOR + b) == |a|
  {
    var all := a + SEPARATOR + b;
    if a != "" {
      assert all[1..] == a[1..] + SEPARATOR + b;
      assert !(all[0] == '\n' && all[1] == '\n') by {
        if |a| > 1 { assert all[0] == a[0] && all[1] == a[1]; }
      }
      IndexOfSeparator(a[1..], b);
    }
  }

  lemma OneFrame(a: string)
    requires NoGap(a)
    ensures Frames(a + SEPARATOR) == [a] && Rest(a + SEPARATOR) == ""
  {
    hide Frames, Rest, IndexOf;
    IndexOfSeparator(a, "");
    assert a + SEPARATOR + "" == a + SEPARATOR;
    FirstFrame(a + SEPARATOR);
    assert (a + SEPARATOR)[..|a|] == a && (a + SEPARATOR)[|a| + 2..] == "";
    FirstFrame("");
  }

  lemma FrameHasNoGap(name: string, data: string)
    requires '\n' !in name && '\n' !in data
    ensures NoGap(Frame(name, data))
  {
    var x, y := "event: " + name, "data: " + data;
    var f := Frame(name, data);
    assert f == x + "\n" + y;
    assert forall k :: 0 <= k < |x| ==> f[k] == x[k] != '\n';
    assert forall k :: |x| < k < |f| ==> f[k] == y[k - |x| - 1] != '\n';
  }

  lemma {:induction false} PrintedEvent(name: string, data: string)
    requires '\n' !in name && '\n' !in data && Trimmed(name)
    ensures var text := Frame(name, data) + SEPARATOR;
      var e := Event(name, Trim(data));
      Rest(text) == "" && Dispatch(Frames(text)) == if Dispatched(e) then [e] else []
  {
    FrameHasNoGap(name, data);
    OneFrame(Frame(name, data));
    FrameLines(name, data);
    DispatchOne(Frame(name, data));
  }

  lemma PrintedKeepalive()
    ensures Rest(Print(Keepalive)) == "" && Dispatch(Frames(Print(Keepalive))) == []
  {
    var line: string := ": keepalive";
    assert '\n' !in line;
    OneFrame(line);
    SplitPlain(line);
    assert |[line][..0]| == 0;
    assert line[0] == ':';
    assert ReadLines([line]) == Event("message", "");
    DispatchOne(line);
  }

  lemma PrintedHello()
    ensures Rest(Print(Hello)) == "" && Dispatch(Frames(Print(Hello))) == []
  {
    hide Frames, Rest, IndexOf, Dispatch, Split, ReadLines;
    TrimIdle("{}");
    PrintedEvent("hello", "{}");
  }

  lemma {:induction false} PrintedMessage(m: Message)
    requires Sendable(m)
    ensures Rest(Print(m)) == "" && Dispatch(Frames(Print(m))) == Expected([m])
  {
    hide Frames, Rest, IndexOf, Dispatch, Split, ReadLines, Trim, Frame, Plain;
    assert |[m][..0]| == 0;
    match m
    case Hello => PrintedHello();
    case Keepalive => PrintedKeepalive();
    case Activity(payload) => PrintedPlain("activity", payload);
    case NodeHealth(data) => PrintedPlain("node_health", data);
  }

  lemma {:induction false} PrintedPlain(name: string, payload: string)
    requires (name == "activity" || name == "node_health") && Plain(payload)
    ensures var text := Frame(name, payload) + SEPARATOR;
      Rest(text) == "" && Dispatch(Frames(text)) == [Event(name, payload)]
  {
    hide Frames, Rest, IndexOf, Dispatch, Split, ReadLines, Trim, Frame;
    TrimIdle(payload);
    PrintedEvent(name, payload);
  }

  lemma EmptyStream()
    ensures Dispatch(Frames("")) == [] && Rest("") == ""
  {
    FirstFrame("");
  }

  /** Parsing what the server printed gives back the messages, in order: the hello and the
      keepalives leave no trace. */
  lemma {:induction false} StreamRoundTrip(ms: seq<Message>)
    requires forall i :: 0 <= i < |ms| ==> Sendable(ms[i])
    ensures Dispatch(Frames(PrintAll(ms))) == Expected(ms) && Rest(PrintAll(ms)) == ""
  {
    hide Frames, Rest, IndexOf, Dispatch, Print, Sendable;
    EmptyStream();
    if ms != [] {
      var front, m := ms[..|ms| - 1], ms[|ms| - 1];
      StreamRoundTrip(front);
      PrintedMessage(m);
      FramesAppend(PrintAll(front), Print(m));
      assert "" + Print(m) == Print(m);
      DispatchAppend(Frames(PrintAll(front)), Frames(Print(m)));
      ExpectedSnoc(front, m);
      assert ms == front + [m];
      assert PrintAll(ms) == PrintAll(front) + Print(m);
    }
  }

  lemma ExpectedSnoc(front: seq<Message>, m: Message)
    ensures Expected(front + [m]) == Expected(front) + Expected([m])
  {
    assert (front + [m])[..|front|] == front && |[m][..0]| == 0;
  }

  lemma {:induction false} DispatchedAreOneLine(frames: seq<string>)
    ensures forall i :: 0 <= i < |Dispatch(frames)| ==>
      '\n' !in Dispatch(frames)[i].data && Dispatched(Dispatch(frames)[i])
  {
    if frames != [] {
      DispatchedAreOneLine(frames[..|frames| - 1]);
      SplitLines(frames[|frames| - 1]);
      DataIsOneLine(Split(frames[|frames| - 1]));
    }
  }

  /** Exactly the plain payloads make the trip: the server relays whatever was published. */
  lemma ActivitySurvivesIffPlain(payload: string)
    ensures Dispatch(Frames(Print(Activity(payload)))) == [Event("activity", payload)] <==> Plain(payload)
  {
    hide Frames, Rest, IndexOf, Dispatch, Split, ReadLines;
    if Plain(payload) {
      TrimIdle(payload);
      PrintedEvent("activity", payload);
    } else if Dispatch(Frames(Print(Activity(payload)))) == [Event("activity", payload)] {
      DispatchedAreOneLine(Frames(Print(Activity(payload))));
      assert Dispatch(Frames(Print(Activity(payload))))[0] == Event("activity", payload);
      PrintedEvent("activity", payload);
      TrimTrims(payload);
      assert false;
    }
  }
}
