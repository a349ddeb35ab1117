/** Server-sent events: the printer, and a parser written from sections 9.2.5 and 9.2.6
    of the WHATWG HTML Living Standard that reads its output back. */
module Sse {
  import opened Lists
  import opened Text
  import opened Wrappers

  datatype Event = Event(id: Option<string>, event: Option<string>, data: string, retry: Option<nat>)

  // ----- Printing -----

  /** `str::lines`: LF ends a line, a CR before it goes too, and no empty last line. */
  function RustLines(s: string): seq<string>
    decreases |s|
  {
    if s == "" then []
    else
      match Find(s, "\n")
      case None => [s]
      case Some(k) => [StripCr(s[..k])] + RustLines(s[k + 1..])
  }

  function StripCr(s: string): string {
    if s != "" && s[|s| - 1] == '\r' then s[..|s| - 1] else s
  }

  /** Decimal notation without leading zeros. */
  function Decimal(n: nat): (r: string)
    ensures r != ""
  {
    if n < 10 then [DigitChar(n)] else Decimal(n / 10) + [DigitChar(n % 10)]
  }

  function DigitChar(d: nat): char
    requires d < 10
  {
    '0' + d as char
  }

  function OptionalLine(field: string, value: Option<string>): seq<string> {
    if value.Some? then [field + ": " + value.value] else []
  }

  function DataLines(lines: seq<string>): (r: seq<string>)
    ensures |r| == |lines| && forall i :: 0 <= i < |lines| ==> r[i] == "data: " + lines[i]
  {
    seq(|lines|, i requires 0 <= i < |lines| => "data: " + lines[i])
  }

  function RetryText(e: Event): Option<string> {
    if e.retry.Some? then Some(Decimal(e.retry.value)) else None
  }

  function HeadLines(e: Event): seq<string> {
    OptionalLine("id", e.id) + OptionalLine("event", e.event) + OptionalLine("retry", RetryText(e))
  }

  /** The lines of an event, the blank one last. */
  function EventLines(e: Event): seq<string> {
    HeadLines(e) + DataLines(RustLines(e.data)) + [""]
  }

  /** Every line ended by LF. */
  function Join(lines: seq<string>): string {
    if lines == [] then "" else lines[0] + "\n" + Join(lines[1..])
  }

  method PushOptional(before: string, field: string, value: Option<string>) returns (output: string)
    ensures output == before + Join(OptionalLine(field, value))
  {
    output := before;
    if value.Some? {
      var line := field + ": " + value.value;
      assert Join([line]) == line + "\n" + Join([]);
      output := output + line + "\n";
    }
  }

  method PushHead(e: Event) returns (output: string)
    ensures output == Join(HeadLines(e))
  {
    output := PushOptional("", "id", e.id);
    output := PushOptional(output, "event", e.event);
    output := PushOptional(output, "retry", RetryText(e));
    JoinAppend(OptionalLine("id", e.id), OptionalLine("event", e.event));
    JoinAppend(OptionalLine("id", e.id) + OptionalLine("event", e.event), OptionalLine("retry", RetryText(e)));
  }

  method PushData(before: string, data: string) returns (output: string)
    ensures output == before + Join(DataLines(RustLines(data)))
  {
    output := before;
    var lines := RustLines(data);
    ghost var dataLines := DataLines(lines);
    for i := 0 to |lines|
      invariant output == before + Join(dataLines[..i])
    {
      JoinLast(dataLines[..i], dataLines[i]);
      assert dataLines[..i] + [dataLines[i]] == dataLines[..i + 1];
      output := output + ("data: " + lines[i] + "\n");
    }
    assert dataLines[..|lines|] == dataLines;
  }

  method Format(e: Event) returns (output: string)
    ensures output == Join(EventLines(e))
  {
    output := PushHead(e);
    output := PushData(output, e.data);
    JoinAppend(HeadLines(e), DataLines(RustLines(e.data)));
    JoinLast(HeadLines(e) + DataLines(RustLines(e.data)), "");
    output := output + "\n";
  }

  lemma {:induction false} JoinAppend(a: seq<string>, b: seq<string>)
    ensures Join(a + b) == Join(a) + Join(b)
    decreases |a|
  {
    if a == [] {
      assert a + b == b;
    } else {
      assert (a + b)[1..] == a[1..] + b;
      JoinAppend(a[1..], b);
    }
  }

  lemma JoinLast(a: seq<string>, line: string)
    ensures Join(a + [line]) == Join(a) + (line + "\n")
  {
    JoinAppend(a, [line]);
    assert Join([line]) == line + "\n" + Join([]);
  }

  /** A comment, used to keep a connection alive. */
  function Comment(text: string): string { ": " + text + "\n\n" }

  // ----- Parsing: from a stream to lines -----

  predicate IsLineEnd(c: char) { c == '\r' || c == '\n' }

  /** The length of the text before the first line end, or of all of it. */
  function LineLength(s: string): (k: nat)
    ensures k <= |s| && (k < |s| ==> IsLineEnd(s[k])) && forall i :: 0 <= i < k ==> !IsLineEnd(s[i])
  {
    if s == "" || IsLineEnd(s[0]) then 0 else 1 + LineLength(s[1..])
  }

  /** Lines end with CR LF, CR or LF; an unfinished last line is dropped. */
  function Lines(s: string): seq<string>
    decreases |s|
  {
    var k := LineLength(s);
    if k == |s| then []
    else if s[k] == '\r' && k + 1 < |s| && s[k + 1] == '\n' then [s[..k]] + Lines(s[k + 2..])
    else [s[..k]] + Lines(s[k + 1..])
  }

  // ----- Parsing: from lines to events -----

  datatype Dispatched = Dispatched(event: string, data: string, lastEventId: string, reconnection: Option<nat>)

  datatype Reader = Reader(data: string, event: string, lastEventId: string, reconnection: Option<nat>,
      out: seq<Dispatched>)

  const START := Reader("", "", "", None, [])

  predicate AllDigits(s: string) { forall i :: 0 <= i < |s| ==> '0' <= s[i] <= '9' }

  function Number(s: string): nat
    requires AllDigits(s)
  {
    if s == "" then 0 else Number(s[..|s| - 1]) * 10 + (s[|s| - 1] - '0') as nat
  }

  function Field(r: Reader, name: string, value: string): Reader {
    if name == "event" then r.(event := value)
    else if name == "data" then r.(data := r.data + value + "\n")
    else if name == "id" then if '\0' in value then r else r.(lastEventId := value)
    else if name == "retry" then if value != "" && AllDigits(value) then r.(reconnection := Some(Number(value))) else r
    else r
  }

  function StripLf(s: string): string {
    if s != "" && s[|s| - 1] == '\n' then s[..|s| - 1] else s
  }

  /** A blank line: without data nothing is dispatched, but the buffers are cleared. */
  function Dispatch(r: Reader): Reader {
    var cleared := r.(data := "", event := "");
    if r.data == "" then cleared
    else
      var name := if r.event == "" then "message" else r.event;
      cleared.(out := r.out + [Dispatched(name, StripLf(r.data), r.lastEventId, r.reconnection)])
  }

  function DropSpace(value: string): string {
    if value != "" && value[0] == ' ' then value[1..] else value
  }

  function ReadLine(r: Reader, line: string): Reader {
    if line == "" then Dispatch(r)
    else
      match Find(line, ":")
      case None => Field(r, line, "")
      case Some(0) => r
      case Some(k) => Field(r, line[..k], DropSpace(line[k + 1..]))
  }

  function ReadLines(r: Reader, lines: seq<string>): Reader
    decreases |lines|
  {
    if lines == [] then r else ReadLines(ReadLine(r, lines[0]), lines[1..])
  }

  /** The events a client sees. */
  function ParseStream(s: string): seq<Dispatched> {
    var body := if s != "" && s[0] == '\U{FEFF}' then s[1..] else s;
    ReadLines(START, Lines(body)).out
  }

  // ----- The printed lines are read back -----

  predicate OneLine(s: string) { forall i :: 0 <= i < |s| ==> !IsLineEnd(s[i]) }

  lemma LineLengthIs(line: string, rest: string)
    requires OneLine(line)
    ensures LineLength(line + "\n" + rest) == |line|
  {
    var s := line + "\n" + rest;
    assert forall i :: 0 <= i < |line| ==> s[i] == line[i];
    assert s[|line|] == '\n';
  }

  lemma FirstLine(line: string, tail: string)
    requires OneLine(line)
    ensures Lines(line + "\n" + tail) == [line] + Lines(tail)
  {
    var s := line + "\n" + tail;
    LineLengthIs(line, tail);
    assert s[..|line|] == line;
    assert s[|line| + 1..] == tail;
  }

  ghost predicate AllLines(lines: seq<string>) { forall i :: 0 <= i < |lines| ==> OneLine(lines[i]) }

  lemma JoinCons(line: string, lines: seq<string>, rest: string)
    ensures Join([line] + lines) + rest == line + "\n" + (Join(lines) + rest)
  {
    assert ([line] + lines)[1..] == lines;
  }

  /** `f` cuts off a leading line. */
  ghost predicate CutsLines(f: string -> seq<string>) {
    forall line: string, tail: string :: OneLine(line) ==> f(line + "\n" + tail) == [line] + f(tail)
  }

  lemma {:induction false} CutsJoined(f: string -> seq<string>, lines: seq<string>, rest: string)
    requires AllLines(lines) && CutsLines(f)
    ensures f(Join(lines) + rest) == lines + f(rest)
    decreases |lines|
  {
    if lines == [] {
      assert Join(lines) + rest == rest;
    } else {
      var line, more := lines[0], lines[1..];
      assert lines == [line] + more;
      CutsJoined(f, more, rest);
      JoinCons(line, more, rest);
      assert f(line + "\n" + (Join(more) + rest)) == [line] + f(Join(more) + rest);
    }
  }

  lemma LinesOfJoin(lines: seq<string>, rest: string)
    requires AllLines(lines)
    ensures Lines(Join(lines) + rest) == lines + Lines(rest)
  {
    var f := s => Lines(s);
    forall line: string, tail: string | OneLine(line)
      ensures f(line + "\n" + tail) == [line] + f(tail)
    {
      FirstLine(line, tail);
    }
    CutsJoined(f, lines, rest);
    assert f(Join(lines) + rest) == Lines(Join(lines) + rest) && f(rest) == Lines(rest);
  }

  lemma {:induction false} ReadLinesAppend(r: Reader, a: seq<string>, b: seq<string>)
    ensures ReadLines(r, a + b) == ReadLines(ReadLines(r, a), b)
    decreases |a|
  {
    if a == [] {
      assert a + b == b;
    } else {
      assert (a + b)[1..] == a[1..] + b;
      ReadLinesAppend(ReadLine(r, a[0]), a[1..], b);
    }
  }

  lemma ReadField(r: Reader, name: string, value: string)
    requires name != "" && ':' !in name
    ensures ReadLine(r, name + ": " + value) == Field(r, name, value)
  {
    var line := name + ": " + value;
    FindAfter(name, ":", " " + value);
    assert line == name + ":" + (" " + value);
    assert line[..|name|] == name;
    assert line[|name| + 1..] == " " + value;
    assert (" " + value)[1..] == value;
  }

  lemma ReadOptional(r: Reader, name: string, value: Option<string>)
    requires name != "" && ':' !in name
    ensures ReadLines(r, OptionalLine(name, value)) == if value.Some? then Field(r, name, value.value) else r
  {
    if value.Some? {
      ReadField(r, name, value.value);
      var line := name + ": " + value.value;
      assert ReadLines(ReadLine(r, line), []) == ReadLine(r, line);
      assert [line][1..] == [];
    }
  }

  lemma ReadOneData(r: Reader, line: string, more: seq<string>)
    ensures ReadLines(r, ["data: " + line] + more) == ReadLines(r.(data := r.data + (line + "\n")), more)
  {
    ReadField(r, "data", line);
    assert "data: " + line == "data" + ": " + line;
    assert r.data + line + "\n" == r.data + (line + "\n");
    assert (["data: " + line] + more)[1..] == more;
  }

  lemma DataLinesCons(line: string, more: seq<string>)
    ensures DataLines([line] + more) == ["data: " + line] + DataLines(more)
  {
  }

  lemma ReadMoreData(r: Reader, line: string, more: seq<string>)
    requires var next := r.(data := r.data + (line + "\n"));
             ReadLines(next, DataLines(more)) == next.(data := next.data + Join(more))
    ensures ReadLines(r, DataLines([line] + more)) == r.(data := r.data + Join([line] + more))
  {
    DataLinesCons(line, more);
    ReadOneData(r, line, DataLines(more));
    JoinCons(line, more, "");
    assert Join([line] + more) + "" == Join([line] + more) && Join(more) + "" == Join(more);
    assert r.data + (line + "\n") + Join(more) == r.data + (line + "\n" + Join(more));
  }

  lemma {:induction false} ReadData(r: Reader, lines: seq<string>)
    ensures ReadLines(r, DataLines(lines)) == r.(data := r.data + Join(lines))
    decreases |lines|
  {
    if lines == [] {
      assert r.data + "" == r.data;
    } else {
      var line, more := lines[0], lines[1..];
      assert lines == [line] + more;
      ReadData(r.(data := r.data + (line + "\n")), more);
      ReadMoreData(r, line, more);
    }
  }

  // ----- Numbers -----

  lemma {:induction false} DecimalRead(n: nat)
    ensures AllDigits(Decimal(n)) && Number(Decimal(n)) == n
  {
    if n >= 10 {
      DecimalRead(n / 10);
      var s := Decimal(n);
      assert s[..|s| - 1] == Decimal(n / 10);
    } else {
      assert Decimal(n)[..0] == "";
      assert Number("") == 0;
    }
  }

  // ----- Data -----

  lemma {:induction false} DataJoined(data: string)
    requires '\r' !in data && data != ""
    ensures Join(RustLines(data)) == if data[|data| - 1] == '\n' then data else data + "\n"
    decreases |data|
  {
    match Find(data, "\n") {
      case None =>
        NotIn(data, '\n');
        assert Join([data]) == data + "\n" + Join([]);
      case Some(k) =>
        var line, rest := data[..k], data[k + 1..];
        assert data[k..k + 1] == "\n";
        assert data == line + "\n" + rest;
        assert StripCr(line) == line;
        if rest == "" {
          assert Join([line]) == line + "\n" + Join([]);
        } else {
          DataJoined(rest);
          assert ([line] + RustLines(rest))[1..] == RustLines(rest);
          assert rest[|rest| - 1] == data[|data| - 1];
        }
    }
  }

  lemma NotIn(s: string, c: char)
    requires Find(s, [c]).None?
    ensures c !in s
  {
    forall i | 0 <= i < |s|
      ensures s[i] != c
    {
      assert s[i..i + 1] == [s[i]];
      assert !At(s, [c], i);
    }
  }

  lemma {:induction false} DataLinesAreLines(data: string)
    requires '\r' !in data
    ensures AllLines(RustLines(data))
    decreases |data|
  {
    if data == "" {
    } else {
      match Find(data, "\n") {
        case None =>
          NotIn(data, '\n');
        case Some(k) =>
          forall i | 0 <= i < k
            ensures data[i] != '\n'
          {
            assert data[i..i + 1] == [data[i]];
            assert !At(data, "\n", i);
          }
          DataLinesAreLines(data[k + 1..]);
      }
    }
  }

  // ----- Whole streams -----

  datatype Item = Sent(e: Event) | KeepAlive(text: string)

  function Print(item: Item): string {
    match item
    case Sent(e) => Join(EventLines(e))
    case KeepAlive(text) => Comment(text)
  }

  function PrintAll(items: seq<Item>): string {
    if items == [] then "" else Print(items[0]) + PrintAll(items[1..])
  }

  predicate Printable(item: Item) {
    match item
    case Sent(e) =>
      && (e.id.Some? ==> OneLine(e.id.value) && '\0' !in e.id.value)
      && (e.event.Some? ==> OneLine(e.event.value))
      && '\r' !in e.data
    case KeepAlive(text) => OneLine(text)
  }

  /** What a client remembers between events. */
  datatype Memory = Memory(lastEventId: string, reconnection: Option<nat>)

  function Remember(m: Memory, e: Event): Memory {
    Memory(if e.id.Some? then e.id.value else m.lastEventId, if e.retry.Some? then e.retry else m.reconnection)
  }

  /** The reference result: each event with its name, its data, and the latest id and retry so far. */
  function Expected(m: Memory, items: seq<Item>): seq<Dispatched>
    decreases |items|
  {
    if items == [] then []
    else
      match items[0]
      case KeepAlive(_) => Expected(m, items[1..])
      case Sent(e) => Arrival(Remember(m, e), e) + Expected(Remember(m, e), items[1..])
  }

  /** What one event looks like to the client; without data it is not seen. */
  function Arrival(m: Memory, e: Event): seq<Dispatched> {
    if e.data == "" then []
    else
      [Dispatched(if e.event.Some? && e.event.value != "" then e.event.value else "message",
                  StripLf(e.data), m.lastEventId, m.reconnection)]
  }

  function Between(m: Memory, out: seq<Dispatched>): Reader { Reader("", "", m.lastEventId, m.reconnection, out) }

  lemma ReadHead(m: Memory, out: seq<Dispatched>, e: Event)
    requires e.id.Some? ==> '\0' !in e.id.value
    ensures ReadLines(Between(m, out), HeadLines(e))
         == Between(Remember(m, e), out).(event := if e.event.Some? then e.event.value else "")
  {
    var r := Between(m, out);
    ReadOptional(r, "id", e.id);
    var r1 := ReadLines(r, OptionalLine("id", e.id));
    ReadOptional(r1, "event", e.event);
    var r2 := ReadLines(r1, OptionalLine("event", e.event));
    ReadOptional(r2, "retry", RetryText(e));
    if e.retry.Some? {
      DecimalRead(e.retry.value);
    }
    ReadLinesAppend(r, OptionalLine("id", e.id), OptionalLine("event", e.event));
    ReadLinesAppend(r, OptionalLine("id", e.id) + OptionalLine("event", e.event), OptionalLine("retry", RetryText(e)));
  }

  lemma ReadBlank(r: Reader)
    ensures ReadLines(r, [""]) == Dispatch(r)
  {
    assert [""][1..] == [];
    assert ReadLines(ReadLine(r, ""), []) == Dispatch(r);
  }

  lemma EventData(data: string)
    requires '\r' !in data
    ensures (Join(RustLines(data)) == "" <==> data == "")
    ensures data != "" ==> StripLf(Join(RustLines(data))) == StripLf(data)
  {
    if data != "" {
      DataJoined(data);
      assert (data + "\n")[..|data|] == data;
    }
  }

  lemma DispatchEvent(m: Memory, out: seq<Dispatched>, e: Event)
    requires '\r' !in e.data
    ensures Dispatch(Between(m, out).(event := if e.event.Some? then e.event.value else "",
                                      data := Join(RustLines(e.data))))
         == Between(m, out + Arrival(m, e))
  {
    EventData(e.data);
    assert out + [] == out;
  }

  lemma ReadEvent(m: Memory, out: seq<Dispatched>, e: Event)
    requires Printable(Sent(e))
    ensures ReadLines(Between(m, out), EventLines(e)) == Between(Remember(m, e), out + Arrival(Remember(m, e), e))
  {
    var r := Between(m, out);
    var lines := DataLines(RustLines(e.data));
    ReadHead(m, out, e);
    ReadLinesAppend(r, HeadLines(e), lines);
    ReadData(ReadLines(r, HeadLines(e)), RustLines(e.data));
    ReadLinesAppend(r, HeadLines(e) + lines, [""]);
    ReadBlank(ReadLines(r, HeadLines(e) + lines));
    DispatchEvent(Remember(m, e), out, e);
    assert "" + Join(RustLines(e.data)) == Join(RustLines(e.data));
  }

  lemma OptionalIsLine(field: string, value: Option<string>)
    requires OneLine(field) && (value.Some? ==> OneLine(value.value))
    ensures AllLines(OptionalLine(field, value))
  {
  }

  lemma EventLinesAreLines(e: Event)
    requires Printable(Sent(e))
    ensures AllLines(EventLines(e))
  {
    OptionalIsLine("id", e.id);
    OptionalIsLine("event", e.event);
    if e.retry.Some? {
      DecimalRead(e.retry.value);
    }
    OptionalIsLine("retry", RetryText(e));
    DataLinesAreLines(e.data);
    DataPrefixed(RustLines(e.data));
  }

  lemma DataPrefixed(lines: seq<string>)
    requires AllLines(lines)
    ensures AllLines(DataLines(lines))
  {
    forall i | 0 <= i < |lines|
      ensures OneLine("data: " + lines[i])
    {
      assert OneLine(lines[i]);
    }
  }

  lemma ReadKeepAlive(m: Memory, out: seq<Dispatched>, text: string)
    ensures Comment(text) == Join([": " + text, ""])
    ensures ReadLines(Between(m, out), [": " + text, ""]) == Between(m, out)
  {
    var line := ": " + text;
    assert line[0..1] == ":";
    FindIs(line, ":", 0);
    assert [line, ""][1..] == [""];
    ReadBlank(Between(m, out));
    assert Join([""]) == "" + "\n" + Join([]);
    assert Join([line, ""]) == line + "\n" + Join([""]);
  }

  lemma ReadPrinted(r: Reader, lines: seq<string>, rest: string)
    requires AllLines(lines)
    ensures ReadLines(r, Lines(Join(lines) + rest)) == ReadLines(ReadLines(r, lines), Lines(rest))
  {
    LinesOfJoin(lines, rest);
    ReadLinesAppend(r, lines, Lines(rest));
  }

  lemma ReadSent(m: Memory, out: seq<Dispatched>, e: Event, rest: string)
    requires Printable(Sent(e))
    ensures var n := Remember(m, e);
            ReadLines(Between(m, out), Lines(Print(Sent(e)) + rest)) ==
                ReadLines(Between(n, out + Arrival(n, e)), Lines(rest))
  {
    ReadEvent(m, out, e);
    EventLinesAreLines(e);
    ReadPrinted(Between(m, out), EventLines(e), rest);
  }

  lemma ReadComment(m: Memory, out: seq<Dispatched>, text: string, rest: string)
    requires OneLine(text)
    ensures ReadLines(Between(m, out), Lines(Print(KeepAlive(text)) + rest)) == ReadLines(Between(m, out), Lines(rest))
  {
    ReadKeepAlive(m, out, text);
    ReadPrinted(Between(m, out), [": " + text, ""], rest);
  }

  predicate AllPrintable(items: seq<Item>) { forall i :: 0 <= i < |items| ==> Printable(items[i]) }

  /** Reading from this point gives what is expected, whatever came before. */
  ghost predicate ReadsBack(items: seq<Item>) {
    forall m: Memory, out: seq<Dispatched> ::
      ReadLines(Between(m, out), Lines(PrintAll(items))).out == out + Expected(m, items)
  }

  lemma ExpectedSent(m: Memory, e: Event, items: seq<Item>)
    ensures var n := Remember(m, e);
            Expected(m, [Sent(e)] + items) == Arrival(n, e) + Expected(n, items)
  {
    assert ([Sent(e)] + items)[1..] == items;
  }

  lemma PrintAllCons(item: Item, items: seq<Item>)
    ensures PrintAll([item] + items) == Print(item) + PrintAll(items)
  {
    assert ([item] + items)[1..] == items;
  }

  lemma SentStep(m: Memory, out: seq<Dispatched>, e: Event, text: string, expected: seq<Dispatched>)
    requires Printable(Sent(e))
    requires var n := Remember(m, e);
             ReadLines(Between(n, out + Arrival(n, e)), Lines(text)).out == out + Arrival(n, e) + expected
    ensures ReadLines(Between(m, out), Lines(Print(Sent(e)) + text)).out ==
        out + (Arrival(Remember(m, e), e) + expected)
  {
    ReadSent(m, out, e, text);
    Regroup(out, Arrival(Remember(m, e), e), expected);
  }

  lemma ReadsBackSent(e: Event, items: seq<Item>)
    requires Printable(Sent(e)) && ReadsBack(items)
    ensures ReadsBack([Sent(e)] + items)
  {
    PrintAllCons(Sent(e), items);
    forall m: Memory, out: seq<Dispatched>
      ensures ReadLines(Between(m, out), Lines(PrintAll([Sent(e)] + items))).out == out + Expected(m, [Sent(e)] + items)
    {
      var n := Remember(m, e);
      SentStep(m, out, e, PrintAll(items), Expected(n, items));
      ExpectedSent(m, e, items);
    }
  }

  lemma ReadsBackComment(text: string, items: seq<Item>)
    requires OneLine(text) && ReadsBack(items)
    ensures ReadsBack([KeepAlive(text)] + items)
  {
    assert ([KeepAlive(text)] + items)[1..] == items;
    forall m: Memory, out: seq<Dispatched>
      ensures ReadLines(Between(m, out), Lines(PrintAll([KeepAlive(text)] + items))).out ==
          out + Expected(m, [KeepAlive(text)] + items)
    {
      ReadComment(m, out, text, PrintAll(items));
    }
  }

  lemma {:induction false} ReadAll(items: seq<Item>)
    requires AllPrintable(items)
    ensures ReadsBack(items)
  {
    if items == [] {
      assert forall out: seq<Dispatched> :: out + [] == out;
    } else {
      assert Printable(items[0]);
      ReadAll(items[1..]);
      assert items == [items[0]] + items[1..];
      match items[0] {
        case KeepAlive(text) => ReadsBackComment(text, items[1..]);
        case Sent(e) => ReadsBackSent(e, items[1..]);
      }
    }
  }

  lemma NoByteOrderMark(items: seq<Item>)
    ensures PrintAll(items) != "" ==> PrintAll(items)[0] != '\U{FEFF}'
  {
    if items != [] {
      var p := Print(items[0]);
      match items[0] {
        case KeepAlive(text) => assert p[0] == ':';
        case Sent(e) =>
          var first := EventLines(e)[0];
          assert p == first + "\n" + Join(EventLines(e)[1..]);
          assert first == "" || first[0] == 'i' || first[0] == 'e' || first[0] == 'r' || first[0] == 'd';
      }
      assert PrintAll(items)[0] == p[0];
    }
  }

  /** Parsing a printed stream recovers every event in order: its name, its multi-line data,
      and the id and retry in force, with keep-alive comments leaving no trace. */
  lemma {:induction false} ParseUndoesPrint(items: seq<Item>)
    requires AllPrintable(items)
    ensures ParseStream(PrintAll(items)) == Expected(Memory("", None), items)
  {
    NoByteOrderMark(items);
    ReadAll(items);
    assert START == Between(Memory("", None), []);
    assert [] + Expected(Memory("", None), items) == Expected(Memory("", None), items);
  }

  // ----- A parser never delivers a CR -----

  lemma {:induction false} LinesAreLines(s: string)
    ensures AllLines(Lines(s))
    decreases |s|
  {
    var k := LineLength(s);
    if k < |s| {
      assert OneLine(s[..k]);
      LinesAreLines(s[if s[k] == '\r' && k + 1 < |s| && s[k + 1] == '\n' then k + 2 else k + 1..]);
    }
  }

  ghost predicate NoCr(r: Reader) {
    '\r' !in r.data && forall i :: 0 <= i < |r.out| ==> '\r' !in r.out[i].data
  }

  lemma NoCrField(r: Reader, name: string, value: string)
    requires NoCr(r) && OneLine(value)
    ensures NoCr(Field(r, name, value))
  {
  }

  lemma NoCrLine(r: Reader, line: string)
    requires NoCr(r) && OneLine(line)
    ensures NoCr(ReadLine(r, line))
  {
    if line != "" {
      match Find(line, ":") {
        case None => NoCrField(r, line, "");
        case Some(k) => NoCrField(r, line[..k], DropSpace(line[k + 1..]));
      }
    }
  }

  lemma {:induction false} NoCrLines(r: Reader, lines: seq<string>)
    requires NoCr(r) && AllLines(lines)
    ensures NoCr(ReadLines(r, lines))
    decreases |lines|
  {
    if lines == [] {
    } else {
      assert OneLine(lines[0]);
      NoCrLine(r, lines[0]);
      NoCrLines(ReadLine(r, lines[0]), lines[1..]);
    }
  }

  lemma ParsedWithoutCr(s: string, i: nat)
    requires i < |ParseStream(s)|
    ensures '\r' !in ParseStream(s)[i].data
  {
    var body := if s != "" && s[0] == '\U{FEFF}' then s[1..] else s;
    LinesAreLines(body);
    NoCrLines(START, Lines(body));
  }

  /** The event's id and name stay on their lines. */
  predicate PrintableHead(e: Event) {
    && (e.id.Some? ==> OneLine(e.id.value) && '\0' !in e.id.value)
    && (e.event.Some? ==> OneLine(e.event.value))
  }

  /** An event arrives, alone and with exactly its data, precisely when the data has no CR, is not empty and
      does not end in LF. */
  lemma {:induction false} DataSurvivesIff(e: Event)
    requires PrintableHead(e)
    ensures var got := ParseStream(PrintAll([Sent(e)]));
            (|got| == 1 && got[0].data == e.data) <==> ('\r' !in e.data && e.data != "" && e.data[|e.data| - 1] != '\n')
  {
    var text := PrintAll([Sent(e)]);
    if |ParseStream(text)| == 1 {
      ParsedWithoutCr(text, 0);
    }
    if '\r' !in e.data {
      DataWithoutCr(e);
    }
  }

  lemma {:induction false} DataWithoutCr(e: Event)
    requires Printable(Sent(e))
    ensures var got := ParseStream(PrintAll([Sent(e)]));
            (|got| == 1 && got[0].data == e.data) <==> (e.data != "" && e.data[|e.data| - 1] != '\n')
  {
    ParseUndoesPrint([Sent(e)]);
    assert [Sent(e)][1..] == [];
    assert Expected(Remember(Memory("", None), e), []) == [];
    assert Arrival(Remember(Memory("", None), e), e) + [] == Arrival(Remember(Memory("", None), e), e);
  }

  // ----- What is printed, letter by letter -----

  /** LF ends a line, one CR before it goes too, and the rest is cut in the same way. */
  lemma LinesCut(a: string, b: string)
    requires '\n' !in a
    ensures RustLines(a + "\r\n" + b) == [a] + RustLines(b)
    ensures (a == "" || a[|a| - 1] != '\r') ==> RustLines(a + "\n" + b) == [a] + RustLines(b)
  {
    CutCrLf(a, b);
    CutAt(a, b);
  }

  lemma CutCrLf(a: string, b: string)
    requires '\n' !in a
    ensures RustLines(a + "\r\n" + b) == [a] + RustLines(b)
  {
    CutAt(a + ['\r'], b);
    StripsOne(a);
    SameText(s => RustLines(s), a + ['\r'] + "\n" + b, a + "\r\n" + b);
  }

  lemma SameText(f: string -> seq<string>, s: string, t: string)
    requires s == t
    ensures f(s) == f(t)
  {
  }

  lemma StripsOne(a: string)
    ensures StripCr(a + ['\r']) == a
  {
    assert (a + ['\r'])[..|a|] == a;
  }

  lemma LastLine(a: string)
    requires '\n' !in a && a != ""
    ensures RustLines(a) == [a]
  {
    if Find(a, "\n").Some? {
      FoundIn(a, '\n');
    }
  }

  lemma FoundIn(s: string, c: char)
    requires Find(s, [c]).Some?
    ensures c in s
  {
    var k := Find(s, [c]).value;
    assert s[k..k + 1] == [c];
    assert s[k..k + 1][0] == s[k];
  }

  lemma CutAt(line: string, rest: string)
    requires '\n' !in line
    ensures RustLines(line + "\n" + rest) == [StripCr(line)] + RustLines(rest)
  {
    FindAfter(line, "\n", rest);
    var s := line + "\n" + rest;
    assert s[..|line|] == line && s[|line| + 1..] == rest;
  }

  /** One event is its id, its name, its retry time and its data, each present field on a line of its own and in this
      order, and a blank line. */
  lemma PrintedIs(e: Event)
    ensures var id := if e.id.Some? then "id: " + e.id.value + "\n" else "";
            var name := if e.event.Some? then "event: " + e.event.value + "\n" else "";
            var retry := if e.retry.Some? then "retry: " + Decimal(e.retry.value) + "\n" else "";
            Print(Sent(e)) == id + name + retry + Join(DataLines(RustLines(e.data))) + "\n"
  {
    JoinOptional("id", e.id);
    JoinOptional("event", e.event);
    JoinOptional("retry", RetryText(e));
    assert "id" + ": " == "id: " && "event" + ": " == "event: " && "retry" + ": " == "retry: ";
    JoinHead(e);
    JoinEvent(e);
  }

  lemma JoinHead(e: Event)
    ensures Join(HeadLines(e)) == Join(OptionalLine("id", e.id)) + Join(OptionalLine("event", e.event)) +
                                  Join(OptionalLine("retry", RetryText(e)))
  {
    JoinAppend(OptionalLine("id", e.id), OptionalLine("event", e.event));
    JoinAppend(OptionalLine("id", e.id) + OptionalLine("event", e.event), OptionalLine("retry", RetryText(e)));
  }

  lemma JoinEvent(e: Event)
    ensures Join(EventLines(e)) == Join(HeadLines(e)) + Join(DataLines(RustLines(e.data))) + "\n"
  {
    JoinAppend(HeadLines(e), DataLines(RustLines(e.data)));
    JoinLast(HeadLines(e) + DataLines(RustLines(e.data)), "");
  }

  lemma JoinOptional(field: string, value: Option<string>)
    ensures Join(OptionalLine(field, value)) == if value.Some? then field + ": " + value.value + "\n" else ""
  {
    if value.Some? {
      var line := field + ": " + value.value;
      assert Join([line]) == line + "\n" + Join([]);
    }
  }

  /** A keep-alive is one comment line and a blank one. */
  lemma CommentIs(text: string)
    requires OneLine(text)
    ensures Lines(Comment(text)) == [": " + text, ""]
  {
    ReadKeepAlive(Memory("", None), [], text);
    LinesOfJoin([": " + text, ""], "");
    assert Join([": " + text, ""]) + "" == Comment(text);
  }
}
