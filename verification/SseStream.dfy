/** The server-sent-event reader of the benchmark (section 9.2.6 of the WHATWG
    HTML Standard, with the differences stated below). */
module SseStream {
  import opened Collections
  import opened Strings

  /** An event with the data lines that are joined and decoded afterwards. */
  datatype Event = Event(name: string, lines: seq<string>)

  datatype Reader = Reader(name: string, lines: seq<string>, out: seq<Event>)

  const MESSAGE := "message"

  const START := Reader(MESSAGE, [], [])

  predicate StartsWith(s: string, prefix: string) {
    |prefix| <= |s| && s[..|prefix|] == prefix
  }

  function NameIn(text: string): string {
    if Strip(text) == "" then MESSAGE else Strip(text)
  }

  function Step(r: Reader, line: string): Reader {
    if line == "" then Reader(MESSAGE, [], if r.lines != [] then r.out + [Event(r.name, r.lines)] else r.out)
    else if StartsWith(line, ":") then r
    else if StartsWith(line, "event:") then r.(name := NameIn(line[6..]))
    else if StartsWith(line, "data:") then r.(lines := r.lines + [StripLeft(line[5..])])
    else r
  }

  function Read(r: Reader, lines: seq<string>): Reader {
    if lines == [] then r else Step(Read(r, lines[..|lines| - 1]), lines[|lines| - 1])
  }

  /** What the end of the stream still delivers. */
  function Flush(r: Reader): seq<Event> {
    if r.lines != [] then r.out + [Event(r.name, r.lines)] else r.out
  }

  function Parse(lines: seq<string>): seq<Event> { Flush(Read(START, lines)) }

  // ----- what the source yields

  /** `"\n".join(lines)`. */
  function Joined(lines: seq<string>): string {
    if lines == [] then ""
    else if |lines| == 1 then lines[0]
    else Joined(lines[..|lines| - 1]) + "\n" + lines[|lines| - 1]
  }

  /** The name and the payload: the decoded data, or the empty object if the data
      are no JSON object. */
  function Yielded<P>(e: Event, decode: string -> Option<P>, empty: P): (string, P) {
    (e.name, match decode(Joined(e.lines)) case Some(payload) => payload case None => empty)
  }

  function YieldedAll<P>(events: seq<Event>, decode: string -> Option<P>, empty: P): seq<(string, P)> {
    seq(|events|, i requires 0 <= i < |events| => Yielded(events[i], decode, empty))
  }

  lemma YieldedNone<P>(decode: string -> Option<P>, empty: P)
    ensures YieldedAll([], decode, empty) == []
  {
  }

  lemma YieldedLast<P>(events: seq<Event>, e: Event, decode: string -> Option<P>, empty: P)
    ensures YieldedAll(events + [e], decode, empty) == YieldedAll(events, decode, empty) + [Yielded(e, decode, empty)]
  {
  }

  /** `_iter_sse_events`, collecting what it yields. */
  method IterSseEvents<P>(lines: seq<string>, decode: string -> Option<P>, empty: P)
    returns (yielded: seq<(string, P)>)
    ensures yielded == YieldedAll(Parse(lines), decode, empty)
  {
    hide YieldedAll;
    var name, data: seq<string> := MESSAGE, [];
    ghost var events: seq<Event> := [];
    yielded := [];
    YieldedNone(decode, empty);
    for i := 0 to |lines|
      invariant Reader(name, data, events) == Read(START, lines[..i])
      invariant yielded == YieldedAll(events, decode, empty)
    {
      var line := lines[i];
      assert lines[..i + 1][..i] == lines[..i];
      if line == "" {
        if data != [] {
          YieldedLast(events, Event(name, data), decode, empty);
          var payload := decode(Joined(data));
          yielded := yielded + [(name, if payload.Some? then payload.value else empty)];
          events := events + [Event(name, data)];
        }
        name, data := MESSAGE, [];
      } else if StartsWith(line, ":") {
      } else if StartsWith(line, "event:") {
        name := Strip(line[6..]);
        if name == "" {
          name := MESSAGE;
        }
      } else if StartsWith(line, "data:") {
        data := data + [StripLeft(line[5..])];
      }
    }
    assert lines[..|lines|] == lines;
    if data != [] {
      YieldedLast(events, Event(name, data), decode, empty);
      var payload := decode(Joined(data));
      yielded := yielded + [(name, if payload.Some? then payload.value else empty)];
    }
  }

  lemma ReadLast(r: Reader, lines: seq<string>, line: string)
    ensures Read(r, lines + [line]) == Step(Read(r, lines), line)
  {
    assert (lines + [line])[..|lines|] == lines;
  }

  lemma {:induction false} ReadConcat(r: Reader, a: seq<string>, b: seq<string>)
    ensures Read(r, a + b) == Read(Read(r, a), b)
    decreases |b|
  {
    if b == [] {
      assert a + b == a;
    } else {
      ReadConcat(r, a, b[..|b| - 1]);
      assert a + b == (a + b[..|b| - 1]) + [b[|b| - 1]];
      ReadLast(r, a + b[..|b| - 1], b[|b| - 1]);
    }
  }

  // ----- what may be added to a stream, or left off

  /** A comment line changes nothing wherever it stands. */
  lemma CommentsIgnored(a: seq<string>, comment: string, b: seq<string>)
    requires StartsWith(comment, ":")
    ensures Parse(a + [comment] + b) == Parse(a + b)
  {
    hide Step, Read;
    ReadConcat(START, a + [comment], b);
    ReadLast(START, a, comment);
    ReadConcat(START, a, b);
    IgnoredLine(Read(START, a), comment);
  }

  lemma IgnoredLine(r: Reader, comment: string)
    requires StartsWith(comment, ":")
    ensures Step(r, comment) == r
  {
  }

  /** Unlike in the standard, an event that the stream leaves unterminated is
      delivered: a last blank line is never needed. */
  lemma LastBlankNotNeeded(lines: seq<string>)
    ensures Parse(lines + [""]) == Parse(lines)
  {
    ReadLast(START, lines, "");
  }

  // ----- printing and reading back

  function PrintLines(lines: seq<string>): seq<string> {
    if lines == [] then [] else PrintLines(lines[..|lines| - 1]) + ["data: " + lines[|lines| - 1]]
  }

  function Print(e: Event): seq<string> { ["event: " + e.name] + PrintLines(e.lines) + [""] }

  function PrintAll(events: seq<Event>): seq<string> {
    if events == [] then [] else PrintAll(events[..|events| - 1]) + Print(events[|events| - 1])
  }

  function Trimmed(line: string): Option<string> { Some(StripLeft(line)) }

  /** What a printed event is read back as; one without data is lost. */
  function Delivered(e: Event): Option<Event> {
    if e.lines == [] then None else Some(Event(NameIn(e.name), FilterMap(Trimmed, e.lines)))
  }

  /** Names are trimmed and not empty, there is data, and no data line starts
      with white space. */
  predicate Printable(e: Event) {
    && e.name != "" && Strip(e.name) == e.name
    && e.lines != []
    && forall l :: l in e.lines ==> l == "" || !IsSpace(l[0])
  }

  lemma StripSpace(s: string)
    ensures StripLeft(" " + s) == StripLeft(s) && Strip(" " + s) == Strip(s)
  {
    assert (" " + s)[1..] == s;
  }

  lemma {:induction false} StripLeftFixed(s: string)
    ensures |StripLeft(s)| <= |s|
    ensures StripLeft(s) == s <==> s == "" || !IsSpace(s[0])
  {
    if s != "" && IsSpace(s[0]) {
      StripLeftFixed(s[1..]);
    }
  }

  lemma DataLine(r: Reader, line: string)
    ensures Step(r, "data: " + line) == r.(lines := r.lines + [StripLeft(line)])
  {
    var text := "data: " + line;
    assert text[0] == 'd' && text[..5] == "data:" && text[5..] == " " + line;
    assert text[..1] != ":" && (|text| >= 6 ==> text[..6][0] == 'd');
    StripSpace(line);
  }

  lemma EventLine(r: Reader, name: string)
    ensures Step(r, "event: " + name) == r.(name := NameIn(name))
  {
    var text := "event: " + name;
    assert text[..6] == "event:" && text[6..] == " " + name && text[..1][0] == 'e';
    StripSpace(name);
  }

  lemma {:induction false} DataLines(r: Reader, lines: seq<string>)
    ensures Read(r, PrintLines(lines)) == r.(lines := r.lines + FilterMap(Trimmed, lines))
  {
    hide Step, FilterMap;
    if lines == [] {
      FilterMapEmpty(Trimmed);
      assert r.lines + [] == r.lines;
    } else {
      var front, last := lines[..|lines| - 1], lines[|lines| - 1];
      assert lines == front + [last];
      DataLines(r, front);
      ReadLast(r, PrintLines(front), "data: " + last);
      DataLine(Read(r, PrintLines(front)), last);
      FilterMapLast(Trimmed, front, last);
      assert r.lines + (FilterMap(Trimmed, front) + [StripLeft(last)]) ==
             (r.lines + FilterMap(Trimmed, front)) + [StripLeft(last)];
    }
  }

  /** Between events the reader is as at the start, but for what it delivered. */
  predicate Idle(r: Reader) { r.name == MESSAGE && r.lines == [] }

  lemma PrintedEvent(r: Reader, e: Event)
    requires Idle(r)
    ensures Read(r, Print(e)) ==
            Reader(MESSAGE, [], r.out + match Delivered(e) case None => [] case Some(d) => [d])
  {
    hide Step, FilterMap, PrintLines;
    ReadConcat(r, ["event: " + e.name] + PrintLines(e.lines), [""]);
    ReadConcat(r, ["event: " + e.name], PrintLines(e.lines));
    OneLine(r, "event: " + e.name);
    EventLine(r, e.name);
    var named := r.(name := NameIn(e.name));
    DataLines(named, e.lines);
    var read := Read(named, PrintLines(e.lines));
    OneLine(read, "");
    TrimmedCount(e.lines);
    assert [] + FilterMap(Trimmed, e.lines) == FilterMap(Trimmed, e.lines);
    BlankLine(read);
  }

  lemma OneLine(r: Reader, line: string)
    ensures Read(r, [line]) == Step(r, line)
  {
    assert [] + [line] == [line];
    ReadLast(r, [], line);
  }

  lemma BlankLine(r: Reader)
    ensures Step(r, "") == Reader(MESSAGE, [], if r.lines != [] then r.out + [Event(r.name, r.lines)] else r.out)
  {
  }

  lemma {:induction false} TrimmedCount(lines: seq<string>)
    ensures |FilterMap(Trimmed, lines)| == |lines|
    ensures forall i :: 0 <= i < |lines| ==> FilterMap(Trimmed, lines)[i] == StripLeft(lines[i])
  {
    if lines != [] {
      var front := lines[..|lines| - 1];
      TrimmedCount(front);
      assert forall i :: 0 <= i < |front| ==> front[i] == lines[i];
    }
  }

  /** Reading a printed stream delivers every event that has data, trimmed. */
  lemma {:induction false} PrintedStream(events: seq<Event>)
    ensures Read(START, PrintAll(events)) == Reader(MESSAGE, [], FilterMap(Delivered, events))
    ensures Parse(PrintAll(events)) == FilterMap(Delivered, events)
  {
    hide Step, FilterMap, Print;
    if events == [] {
      FilterMapEmpty(Delivered);
    } else {
      var front, last := events[..|events| - 1], events[|events| - 1];
      assert events == front + [last];
      PrintedStream(front);
      ReadConcat(START, PrintAll(front), Print(last));
      PrintedEvent(Read(START, PrintAll(front)), last);
      FilterMapLast(Delivered, front, last);
    }
  }

  lemma {:induction false} FilteredToItself<T>(f: T -> Option<T>, s: seq<T>)
    ensures |FilterMap(f, s)| <= |s|
    ensures FilterMap(f, s) == s <==> forall x :: x in s ==> f(x) == Some(x)
  {
    if |s| > 0 {
      var front, last := s[..|s| - 1], s[|s| - 1];
      assert s == front + [last];
      FilteredToItself(f, front);
      if FilterMap(f, s) == s {
        assert f(last).Some?;
        assert FilterMap(f, s)[..|s| - 1] == FilterMap(f, front);
      }
    }
  }

  lemma TrimmedLines(lines: seq<string>)
    ensures FilterMap(Trimmed, lines) == lines <==> forall l :: l in lines ==> l == "" || !IsSpace(l[0])
  {
    hide FilterMap;
    TrimmedCount(lines);
    forall i | 0 <= i < |lines|
      ensures FilterMap(Trimmed, lines)[i] == lines[i] <==> lines[i] == "" || !IsSpace(lines[i][0])
    {
      StripLeftFixed(lines[i]);
    }
    if forall l :: l in lines ==> l == "" || !IsSpace(l[0]) {
      assert FilterMap(Trimmed, lines) == lines;
    }
  }

  lemma DeliveredAsPrinted(e: Event)
    ensures Delivered(e) == Some(e) <==> Printable(e)
  {
    hide FilterMap, IsSpace;
    TrimmedLines(e.lines);
    MessageTrimmed();
  }

  lemma MessageTrimmed()
    ensures Strip(MESSAGE) == MESSAGE && MESSAGE != ""
  {
    assert !IsSpace(MESSAGE[0]) && !IsSpace(MESSAGE[|MESSAGE| - 1]);
  }

  /** Printing and reading back is the identity exactly on streams of printable
      events. */
  lemma RoundTrip(events: seq<Event>)
    ensures Parse(PrintAll(events)) == events <==> forall e :: e in events ==> Printable(e)
  {
    hide FilterMap, Printable, Delivered;
    PrintedStream(events);
    FilteredToItself(Delivered, events);
    forall e | e in events ensures Delivered(e) == Some(e) <==> Printable(e) {
      DeliveredAsPrinted(e);
    }
  }

  // ----- lines that printing does not make

  /** Lines may be exchanged for others that leave the reader in the same state. */
  lemma SameAfter(a: seq<string>, x: seq<string>, y: seq<string>, b: seq<string>)
    requires Read(Read(START, a), x) == Read(Read(START, a), y)
    ensures Parse(a + x + b) == Parse(a + y + b)
  {
    hide Step, Read;
    ReadConcat(START, a + x, b);
    ReadConcat(START, a, x);
    ReadConcat(START, a + y, b);
    ReadConcat(START, a, y);
  }

  lemma TwoLines(r: Reader, line: string, next: string)
    ensures Read(r, [line, next]) == Step(Step(r, line), next)
  {
    hide Step;
    assert [line] + [next] == [line, next];
    OneLine(r, line);
    ReadLast(r, [line], next);
  }

  /** A line that is no comment and starts with neither field is ignored anywhere. */
  lemma OtherFieldsIgnored(a: seq<string>, line: string, b: seq<string>)
    requires line != "" && !StartsWith(line, "event:") && !StartsWith(line, "data:")
    ensures Parse(a + [line] + b) == Parse(a + b)
  {
    assert a + [] == a;
    OneLine(Read(START, a), line);
    SameAfter(a, [line], [], b);
  }

  lemma TightData(r: Reader, text: string)
    ensures Step(r, "data:" + text) == r.(lines := r.lines + [StripLeft(text)])
  {
    var line := "data:" + text;
    assert line[0] == 'd' && line[..5] == "data:" && line[5..] == text;
    assert line[..1] != ":" && (|line| >= 6 ==> line[..6][0] == 'd');
  }

  lemma TightEvent(r: Reader, text: string)
    ensures Step(r, "event:" + text) == r.(name := NameIn(text))
  {
    var line := "event:" + text;
    assert line[..6] == "event:" && line[6..] == text && line[..1][0] == 'e';
  }

  /** The space behind a colon may be left out. */
  lemma SpaceNotNeeded(a: seq<string>, text: string, b: seq<string>)
    ensures Parse(a + ["data:" + text] + b) == Parse(a + ["data: " + text] + b)
    ensures Parse(a + ["event:" + text] + b) == Parse(a + ["event: " + text] + b)
  {
    hide Step, Read;
    var r := Read(START, a);
    TightData(r, text);
    DataLine(r, text);
    TightEvent(r, text);
    EventLine(r, text);
    OneLine(r, "data:" + text);
    OneLine(r, "data: " + text);
    OneLine(r, "event:" + text);
    OneLine(r, "event: " + text);
    SameAfter(a, ["data:" + text], ["data: " + text], b);
    SameAfter(a, ["event:" + text], ["event: " + text], b);
  }

  /** A name counts for its whole event, before its data or behind, and the last of
      several names is the one that counts. */
  lemma NameAnywhere(a: seq<string>, name: string, other: string, b: seq<string>)
    ensures Parse(a + ["data: " + other, "event: " + name] + b) ==
            Parse(a + ["event: " + name, "data: " + other] + b)
    ensures Parse(a + ["event: " + other, "event: " + name] + b) == Parse(a + ["event: " + name] + b)
  {
    hide Step, Read;
    var r := Read(START, a);
    var data, event, earlier := "data: " + other, "event: " + name, "event: " + other;
    TwoLines(r, data, event);
    TwoLines(r, event, data);
    TwoLines(r, earlier, event);
    OneLine(r, event);
    DataLine(r, other);
    EventLine(r.(lines := r.lines + [StripLeft(other)]), name);
    EventLine(r, name);
    DataLine(r.(name := NameIn(name)), other);
    EventLine(r, other);
    EventLine(r.(name := NameIn(other)), name);
    SameAfter(a, [data, event], [event, data], b);
    SameAfter(a, [earlier, event], [event], b);
  }

  /** Data lines are joined by line feeds, wherever the list is cut. */
  lemma {:induction false} JoinedParts(a: seq<string>, b: seq<string>)
    requires a != [] && b != []
    ensures Joined(a + b) == Joined(a) + "\n" + Joined(b)
    decreases |b|
  {
    var front, last := b[..|b| - 1], b[|b| - 1];
    assert (a + b)[..|a + b| - 1] == a + front;
    if front == [] {
      assert a + front == a;
    } else {
      JoinedParts(a, front);
      assert Joined(a) + "\n" + Joined(front) + "\n" + last == Joined(a) + "\n" + (Joined(front) + "\n" + last);
    }
  }
}
