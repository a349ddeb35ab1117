/** The multipart/form-data parser: a body is cut at its delimiters, each piece is
    cut into headers and content, and the pieces become form fields and files. */
module Multipart {
  import opened Lists
  import opened Text
  import opened Wrappers

  const CRLF: string := "\r\n"
  const BLANK_LINE: string := "\r\n\r\n"
  const DEFAULT_CONTENT_TYPE: string := "application/octet-stream"

  datatype UploadedFile = UploadedFile(name: string, filename: string, contentType: string, content: string)

  /** The value of a form: the last text per name and the files per name in arrival order. */
  datatype Form = Form(fields: map<string, string>, files: map<string, seq<UploadedFile>>) {
    function AddField(name: string, value: string): Form {
      this.(fields := fields[name := value])
    }
    function AddFile(name: string, file: UploadedFile): Form {
      this.(files := files[name := (if name in files then files[name] else []) + [file]])
    }
  }

  const EMPTY_FORM := Form(map[], map[])

  /** What one piece between delimiters means. */
  datatype Entry = Ignored | TextField(name: string, value: string) | FileField(file: UploadedFile)

  // ----- Specification of splitting, on the suffix still to be read -----

  function SkipCrlf(rest: string): (r: string)
    ensures |r| <= |rest|
  {
    if |rest| > 2 && rest[..2] == CRLF then rest[2..] else rest
  }

  function SplitTail(rest: string, delim: string): (parts: seq<string>)
    requires delim != ""
    decreases |rest|, 0
  {
    match Find(rest, delim)
    case None => if rest == "" then [] else [rest]
    case Some(end) => [rest[..end]] + SplitAfter(rest[end + |delim|..], delim)
  }

  /** What follows a delimiter: nothing if it is the closing one. */
  function SplitAfter(after: string, delim: string): (parts: seq<string>)
    requires delim != ""
    decreases |after|, 1
  {
    if StartsWith(after, "--") then [] else SplitTail(SkipCrlf(after), delim)
  }

  function SplitStart(body: string, delim: string): (rest: string)
    requires delim != ""
  {
    match Find(body, delim)
    case None => body
    case Some(pos) => SkipCrlf(body[pos + |delim|..])
  }

  function Split(body: string, delim: string): (parts: seq<string>)
    requires delim != ""
  {
    SplitTail(SplitStart(body, delim), delim)
  }

  // ----- Splitting as the source does it, by moving `start` -----

  method SkipLineEnd(body: string, start: nat) returns (next: nat)
    requires start <= |body|
    ensures next <= |body| && body[next..] == SkipCrlf(body[start..])
  {
    next := start;
    if |body| > start + 2 && body[start..start + 2] == CRLF {
      assert body[start..][..2] == CRLF;
      next := start + 2;
    }
  }

  lemma SplitTailStep(rest: string, delim: string, end: nat)
    requires delim != "" && Find(rest, delim) == Some(end)
    ensures SplitTail(rest, delim) == [rest[..end]] + SplitAfter(rest[end + |delim|..], delim)
  {
  }

  lemma SliceOfSlice(s: string, from: nat, k: nat)
    requires from + k <= |s|
    ensures s[from..][..k] == s[from..from + k] && s[from..][k..] == s[from + k..]
  {
  }

  /** One turn of the loop, in terms of positions in the body. */
  lemma SplitTailAt(body: string, delim: string, start: nat, end: nat)
    requires delim != "" && start <= |body| && Find(body[start..], delim) == Some(end)
    ensures start + end + |delim| <= |body|
    ensures SplitTail(body[start..], delim) ==
              [body[start..start + end]] + SplitAfter(body[start + end + |delim|..], delim)
  {
    SliceOfSlice(body, start, end);
    SliceOfSlice(body, start, end + |delim|);
    SplitTailStep(body[start..], delim, end);
  }

  /** One turn of the loop: the piece it cuts off, if any, and where the next one starts. */
  method NextPiece(body: string, delim: string, start: nat) returns (piece: seq<string>, next: nat, done: bool)
    requires delim != "" && start <= |body|
    ensures next <= |body| && (!done ==> start < next)
    ensures SplitTail(body[start..], delim) == piece + if done then [] else SplitTail(body[next..], delim)
  {
    var found := Find(body[start..], delim);
    if found.Some? {
      var end := found.value;
      SplitTailAt(body, delim, start, end);
      piece := [body[start..start + end]];
      next := start + end + |delim|;
      done := |body| > next && StartsWith(body[next..], "--");
      if !done {
        next := SkipLineEnd(body, next);
      }
    } else {
      piece := if start < |body| then [body[start..]] else [];
      next, done := start, true;
    }
  }

  /** The loop, from the position after the first delimiter. */
  method SplitFrom(body: string, delim: string, from: nat) returns (parts: seq<string>)
    requires delim != "" && from <= |body|
    ensures parts == SplitTail(body[from..], delim)
  {
    parts := [];
    var start := from;
    ghost var left := SplitTail(body[from..], delim);
    ghost var whole := left;
    var done := false;
    while !done
      invariant 0 <= start <= |body|
      invariant whole == parts + left
      invariant left == if done then [] else SplitTail(body[start..], delim)
      decreases !done, |body| - start
    {
      var piece;
      piece, start, done := NextPiece(body, delim, start);
      left := if done then [] else SplitTail(body[start..], delim);
      Regroup(parts, piece, left);
      parts := parts + piece;
    }
  }

  method SplitMultipart(body: string, delim: string) returns (parts: seq<string>)
    requires delim != ""
    ensures parts == Split(body, delim)
  {
    var start := 0;
    var first := Find(body, delim);
    if first.Some? {
      start := SkipLineEnd(body, first.value + |delim|);
    }
    assert body[start..] == SplitStart(body, delim);
    parts := SplitFrom(body, delim, start);
  }

  // ----- Headers -----

  method FindDoubleCrlf(data: string) returns (r: Option<nat>)
    ensures r == Find(data, BLANK_LINE)
  {
    var limit := if |data| < 3 then 0 else |data| - 3;
    for i := 0 to limit
      invariant forall j :: 0 <= j < i ==> !At(data, BLANK_LINE, j)
    {
      if data[i..i + 4] == BLANK_LINE {
        FindIs(data, BLANK_LINE, i);
        return Some(i);
      }
    }
    return None;
  }

  function AddHeader(headers: map<string, string>, line: string): map<string, string> {
    match Find(line, ":")
    case None => headers
    case Some(k) => headers[ToLower(Trim(line[..k])) := Trim(line[k + 1..])]
  }

  /** Later lines win. */
  function HeaderMap(lines: seq<string>): map<string, string> {
    if lines == [] then map[]
    else AddHeader(HeaderMap(lines[..|lines| - 1]), lines[|lines| - 1])
  }

  method ParseHeaderLine(headers: map<string, string>, line: string) returns (r: map<string, string>)
    ensures r == AddHeader(headers, line)
  {
    r := headers;
    var colon := Find(line, ":");
    if colon.Some? {
      r := r[ToLower(Trim(line[..colon.value])) := Trim(line[colon.value + 1..])];
    }
  }

  method ParsePartHeaders(headerBytes: string) returns (headers: map<string, string>)
    ensures headers == HeaderMap(SplitOn(headerBytes, CRLF))
  {
    headers := map[];
    var lines := SplitOn(headerBytes, CRLF);
    for i := 0 to |lines|
      invariant headers == HeaderMap(lines[..i])
    {
      assert lines[..i + 1][..i] == lines[..i];
      headers := ParseHeaderLine(headers, lines[i]);
    }
    assert lines[..|lines|] == lines;
  }

  datatype Disposition = Disposition(name: Option<string>, filename: Option<string>)

  predicate IsQuote(c: char) { c == '"' }

  function Unquote(s: string): string {
    TrimBoth(s, IsQuote)
  }

  function AddParameter(d: Disposition, piece: string): Disposition {
    var p := Trim(piece);
    if StartsWith(p, "name=") then d.(name := Some(Unquote(p[5..])))
    else if StartsWith(p, "filename=") then d.(filename := Some(Unquote(p[9..])))
    else d
  }

  function DispositionOf(pieces: seq<string>): Disposition {
    if pieces == [] then Disposition(None, None)
    else AddParameter(DispositionOf(pieces[..|pieces| - 1]), pieces[|pieces| - 1])
  }

  method ParseContentDisposition(value: string) returns (name: Option<string>, filename: Option<string>)
    ensures Disposition(name, filename) == DispositionOf(SplitOn(value, ";"))
  {
    name, filename := None, None;
    var pieces := SplitOn(value, ";");
    for i := 0 to |pieces|
      invariant Disposition(name, filename) == DispositionOf(pieces[..i])
    {
      assert pieces[..i + 1][..i] == pieces[..i];
      var part := Trim(pieces[i]);
      if StartsWith(part, "name=") {
        name := Some(Unquote(part[5..]));
      } else if StartsWith(part, "filename=") {
        filename := Some(Unquote(part[9..]));
      }
    }
    assert pieces[..|pieces|] == pieces;
  }

  // ----- What header lines and parameters mean, whoever wrote them -----

  /** A value is read without the quotes around it, however many, and keeps everything else. */
  lemma UnquoteIs(s: string)
    ensures IsTrimmed(s, IsQuote, Unquote(s))
    ensures '"' !in s ==> Unquote(s) == s
  {
    TrimBothIs(s, IsQuote);
    if '"' !in s {
      TrimPlain(s, IsQuote);
    }
  }

  /** `name=v`, with or without white space around it, sets the name to `v` unquoted. */
  lemma NameIs(d: Disposition, piece: string, v: string)
    requires Trim(piece) == "name=" + v
    ensures AddParameter(d, piece) == d.(name := Some(Unquote(v)))
  {
    assert ("name=" + v)[5..] == v;
  }

  lemma FilenameIs(d: Disposition, piece: string, v: string)
    requires Trim(piece) == "filename=" + v
    ensures AddParameter(d, piece) == d.(filename := Some(Unquote(v)))
  {
    var p := "filename=" + v;
    assert p[9..] == v && p[0] == 'f';
  }

  /** Any other parameter is ignored. */
  lemma OtherParameterIs(d: Disposition, piece: string)
    requires !StartsWith(Trim(piece), "name=") && !StartsWith(Trim(piece), "filename=")
    ensures AddParameter(d, piece) == d
  {
  }

  /** A line `name:value` gives the value without the white space around it to the lower-case name, also without the
      white space around that; a line without a colon gives nothing. */
  lemma HeaderLineIs(headers: map<string, string>, name: string, value: string)
    requires ':' !in name
    ensures AddHeader(headers, name + ":" + value) == headers[ToLower(Trim(name)) := Trim(value)]
    ensures AddHeader(headers, name) == headers
    ensures IsTrimmed(value, IsSpace, Trim(value)) && IsTrimmed(name, IsSpace, Trim(name))
  {
    FindAfter(name, ":", value);
    var line := name + ":" + value;
    assert line[..|name|] == name && line[|name| + 1..] == value;
    TrimBothIs(name, IsSpace);
    TrimBothIs(value, IsSpace);
    SplitOnLast(name, ":");
    forall j
      ensures !At(name, ":", j)
    {
      if 0 <= j && j + 1 <= |name| {
        assert name[j..j + 1][0] == name[j];
      }
    }
  }

  // ----- From pieces to a form -----

  function StripOneCrlf(s: string): string {
    if EndsWith(s, CRLF) then s[..|s| - 2] else s
  }

  function EntryOf(headers: map<string, string>, content: string): Entry {
    if "content-disposition" !in headers then Ignored
    else
      match DispositionOf(SplitOn(headers["content-disposition"], ";"))
      case Disposition(None, _) => Ignored
      case Disposition(Some(name), None) => TextField(name, TrimEnd(content, CRLF))
      case Disposition(Some(name), Some(filename)) =>
        var contentType := if "content-type" in headers then headers["content-type"] else DEFAULT_CONTENT_TYPE;
        FileField(UploadedFile(name, filename, contentType, StripOneCrlf(content)))
  }

  function ReadPart(part: string): Entry {
    match Find(part, BLANK_LINE)
    case None => Ignored
    case Some(k) => EntryOf(HeaderMap(SplitOn(part[..k], CRLF)), part[k + 4..])
  }

  function AddEntry(form: Form, e: Entry): Form {
    match e
    case Ignored => form
    case TextField(name, value) => form.AddField(name, value)
    case FileField(file) => form.AddFile(file.name, file)
  }

  function Collect(entries: seq<Entry>): Form {
    if entries == [] then EMPTY_FORM
    else AddEntry(Collect(entries[..|entries| - 1]), entries[|entries| - 1])
  }

  function ReadParts(parts: seq<string>): (entries: seq<Entry>)
    ensures |entries| == |parts| && forall i :: 0 <= i < |parts| ==> entries[i] == ReadPart(parts[i])
  {
    seq(|parts|, i requires 0 <= i < |parts| => ReadPart(parts[i]))
  }

  function Parse(body: string, boundary: string): Form {
    Collect(ReadParts(Split(body, "--" + boundary)))
  }

  /** The form object that the parser fills in place. */
  class FormData {
    var fields: map<string, string>
    var files: map<string, seq<UploadedFile>>

    function Value(): Form reads this { Form(fields, files) }

    constructor ()
      ensures Value() == EMPTY_FORM
    {
      fields, files := map[], map[];
    }

    method AddField(name: string, value: string)
      modifies this
      ensures Value() == old(Value()).AddField(name, value)
    {
      fields := fields[name := value];
    }

    method AddFile(name: string, file: UploadedFile)
      modifies this
      ensures Value() == old(Value()).AddFile(name, file)
    {
      if name !in files {
        files := files[name := []];
      }
      files := files[name := files[name] + [file]];
    }
  }

  method ParseMultipart(body: string, boundary: string) returns (form: FormData)
    ensures fresh(form) && form.Value() == Parse(body, boundary)
  {
    form := new FormData();
    var parts := SplitMultipart(body, "--" + boundary);
    ghost var entries := ReadParts(parts);
    for i := 0 to |parts|
      invariant fresh(form) && form.Value() == Collect(entries[..i])
    {
      assert entries[..i + 1][..i] == entries[..i];
      ParseOnePart(form, parts[i]);
    }
    assert entries[..|parts|] == entries;
  }

  /** One turn of the parser's loop. */
  method ParseOnePart(form: FormData, part: string)
    modifies form
    ensures form.Value() == AddEntry(old(form.Value()), ReadPart(part))
  {
    if part == "" {
      return;
    }
    var sep := FindDoubleCrlf(part);
    if sep.None? {
      return;
    }
    var headers := ParsePartHeaders(part[..sep.value]);
    var content := part[sep.value + 4..];
    if "content-disposition" in headers {
      var name, filename := ParseContentDisposition(headers["content-disposition"]);
      if name.Some? && filename.Some? {
        var contentType := if "content-type" in headers then headers["content-type"] else DEFAULT_CONTENT_TYPE;
        var stripped := if EndsWith(content, CRLF) then content[..|content| - 2] else content;
        form.AddFile(name.value, UploadedFile(name.value, filename.value, contentType, stripped));
      } else if name.Some? {
        form.AddField(name.value, TrimEnd(content, CRLF));
      }
    }
  }

  /** A later line of the same name wins. */
  lemma LaterLineWins(lines: seq<string>, name: string, value: string)
    requires ':' !in name
    ensures HeaderMap(lines + [name + ":" + value]) == HeaderMap(lines)[ToLower(Trim(name)) := Trim(value)]
  {
    assert (lines + [name + ":" + value])[..|lines|] == lines;
    HeaderLineIs(HeaderMap(lines), name, value);
  }

  /** A part gives nothing exactly if it has no blank line, no disposition header, or no name in it. */
  lemma IgnoredIff(part: string)
    ensures ReadPart(part) == Ignored <==>
              match Find(part, BLANK_LINE)
              case None => true
              case Some(k) =>
                var headers := HeaderMap(SplitOn(part[..k], CRLF));
                "content-disposition" !in headers ||
                DispositionOf(SplitOn(headers["content-disposition"], ";")).name.None?
  {
  }

  // ----- What splitting guarantees on every body -----

  /** Where the next piece starts after a delimiter that ends at `from`, which skips a line end that is not the last. */
  function AfterDelimiter(body: string, from: nat): nat {
    if At(body, CRLF, from) && |body| > from + 2 then from + 2 else from
  }

  /** A piece that ends at `end` is followed by a delimiter, and the next one starts at `next`. */
  ghost predicate Followed(body: string, delim: string, end: nat, next: nat) {
    && At(body, delim, end) && !At(body, "--", end + |delim|)
    && next == AfterDelimiter(body, end + |delim|)
  }

  /** Nothing follows a piece that ends at `end`: there the body ends, or a closing delimiter is, or a delimiter at the
      very end of the body. */
  ghost predicate EndsThere(body: string, delim: string, end: nat) {
    end == |body| || (At(body, delim, end) && (At(body, "--", end + |delim|) || end + |delim| == |body|))
  }

  /** From `base` to `end` no delimiter begins. */
  ghost predicate NoneBegins(body: string, delim: string, base: nat, end: nat) {
    forall k :: base <= k < end ==> !At(body, delim, k)
  }

  /** Piece `i` is the slice at its offset, up to the next delimiter, and then comes the next piece or the end. */
  ghost predicate SliceAt(body: string, delim: string, parts: seq<string>, offs: seq<nat>, i: nat)
    requires i < |parts| == |offs|
  {
    var end := offs[i] + |parts[i]|;
    && At(body, parts[i], offs[i]) && NoneBegins(body, delim, offs[i], end)
    && (if i + 1 < |parts| then Followed(body, delim, end, offs[i + 1]) else EndsThere(body, delim, end))
  }

  /** The pieces are slices of `body` in order, each up to the next delimiter, and nothing is left out between them. */
  ghost predicate OrderedSlices(body: string, delim: string, parts: seq<string>, offs: seq<nat>) {
    |offs| == |parts| && forall i :: 0 <= i < |parts| ==> SliceAt(body, delim, parts, offs, i)
  }

  /** The same for the text from `base` on, all of it. */
  ghost predicate SlicesFrom(body: string, delim: string, base: nat, parts: seq<string>, offs: seq<nat>) {
    && OrderedSlices(body, delim, parts, offs)
    && (if parts == [] then base == |body| else offs[0] == base)
  }

  lemma SliceLast(body: string, delim: string, base: nat, end: nat)
    requires base <= end <= |body| && NoneBegins(body, delim, base, end) && EndsThere(body, delim, end)
    ensures SlicesFrom(body, delim, base, [body[base..end]], [base])
  {
    assert SliceAt(body, delim, [body[base..end]], [base], 0);
  }

  lemma SliceMore(body: string, delim: string, base: nat, end: nat, next: nat, parts: seq<string>, offs: seq<nat>)
    requires base <= end <= |body| && NoneBegins(body, delim, base, end) && Followed(body, delim, end, next)
    requires SlicesFrom(body, delim, next, parts, offs)
    ensures SlicesFrom(body, delim, base, [body[base..end]] + parts, [base] + offs)
  {
    if parts == [] {
      SliceLast(body, delim, base, end);
      assert [body[base..end]] + parts == [body[base..end]] && [base] + offs == [base];
    } else {
      SliceInFront(body, delim, base, end, next, parts, offs);
    }
  }

  lemma SliceInFront(body: string, delim: string, base: nat, end: nat, next: nat, parts: seq<string>, offs: seq<nat>)
    requires base <= end <= |body| && NoneBegins(body, delim, base, end) && Followed(body, delim, end, next)
    requires SlicesFrom(body, delim, next, parts, offs) && parts != []
    ensures SlicesFrom(body, delim, base, [body[base..end]] + parts, [base] + offs)
  {
    var all, at := [body[base..end]] + parts, [base] + offs;
    forall i | 0 <= i < |all|
      ensures SliceAt(body, delim, all, at, i)
    {
      if i > 0 {
        assert SliceAt(body, delim, parts, offs, i - 1);
        assert all[i] == parts[i - 1] && at[i] == offs[i - 1] && (i < |parts| ==> at[i + 1] == offs[i]);
      }
    }
  }

  lemma SkipIs(body: string, from: nat)
    requires from <= |body|
    ensures from <= AfterDelimiter(body, from) <= |body| && SkipCrlf(body[from..]) == body[AfterDelimiter(body, from)..]
  {
    assert |body| > from + 2 ==> body[from..][..2] == body[from..from + 2];
  }

  ghost predicate SomeSlices(body: string, delim: string, base: nat, parts: seq<string>) {
    exists offs :: SlicesFrom(body, delim, base, parts, offs)
  }

  lemma OneMore(body: string, delim: string, base: nat, end: nat, next: nat, parts: seq<string>, all: seq<string>)
    requires base <= end <= |body| && NoneBegins(body, delim, base, end) && Followed(body, delim, end, next)
    requires SomeSlices(body, delim, next, parts) && all == [body[base..end]] + parts
    ensures SomeSlices(body, delim, base, all)
  {
    var offs :| SlicesFrom(body, delim, next, parts, offs);
    SliceMore(body, delim, base, end, next, parts, offs);
  }

  /** The first delimiter from `base` on, in terms of the body. */
  lemma FirstFrom(body: string, delim: string, base: nat)
    requires delim != "" && base <= |body|
    ensures match Find(body[base..], delim)
            case None => NoneBegins(body, delim, base, |body|)
            case Some(k) => NoneBegins(body, delim, base, base + k) && At(body, delim, base + k)
  {
    var rest := body[base..];
    forall i | base <= i
      ensures At(body, delim, i) <==> At(rest, delim, i - base)
    {
      if i + |delim| <= |body| {
        assert rest[i - base..i - base + |delim|] == body[i..i + |delim|];
      }
    }
  }

  lemma StartsAt(body: string, from: nat)
    requires from <= |body|
    ensures StartsWith(body[from..], "--") <==> At(body, "--", from)
  {
    assert |body| >= from + 2 ==> body[from..][..2] == body[from..from + 2];
  }

  lemma SlicesStep(body: string, delim: string, base: nat, k: nat, parts: seq<string>, all: seq<string>)
    requires delim != "" && base <= |body| && Find(body[base..], delim) == Some(k)
    requires base + k + |delim| <= |body| && !At(body, "--", base + k + |delim|)
    requires SomeSlices(body, delim, AfterDelimiter(body, base + k + |delim|), parts)
    requires all == [body[base..base + k]] + parts
    ensures SomeSlices(body, delim, base, all)
  {
    FirstFrom(body, delim, base);
    OneMore(body, delim, base, base + k, AfterDelimiter(body, base + k + |delim|), parts, all);
  }

  lemma SlicesEnd(body: string, delim: string, base: nat, end: nat, parts: seq<string>)
    requires base <= end <= |body| && NoneBegins(body, delim, base, end) && EndsThere(body, delim, end)
    requires parts == [body[base..end]]
    ensures SomeSlices(body, delim, base, parts)
  {
    SliceLast(body, delim, base, end);
  }

  lemma LastSlice(body: string, delim: string, base: nat, parts: seq<string>)
    requires delim != "" && base <= |body| && Find(body[base..], delim).None?
    requires parts == if body[base..] == "" then [] else [body[base..]]
    ensures SomeSlices(body, delim, base, parts)
  {
    FirstFrom(body, delim, base);
    if base < |body| {
      assert body[base..] == body[base..|body|] != "";
      SlicesEnd(body, delim, base, |body|, parts);
    } else {
      var none: seq<nat> := [];
      assert SlicesFrom(body, delim, base, parts, none);
    }
  }

  /** `f` cuts `s` at its first delimiter and leaves the rest to `g`. */
  ghost predicate Cuts(f: string -> seq<string>, g: string -> seq<string>, delim: string, s: string) {
    match Find(s, delim)
    case None => f(s) == if s == "" then [] else [s]
    case Some(k) => f(s) == [s[..k]] + g(s[k + |delim|..])
  }

  /** `g` stops at a closing delimiter and else goes on with `f`. */
  ghost predicate GoesOn(f: string -> seq<string>, g: string -> seq<string>, s: string) {
    g(s) == if StartsWith(s, "--") then [] else f(SkipCrlf(s))
  }

  ghost predicate AlwaysCuts(f: string -> seq<string>, g: string -> seq<string>, delim: string) {
    forall s: string :: Cuts(f, g, delim, s) && GoesOn(f, g, s)
  }

  lemma CutAt(f: string -> seq<string>, g: string -> seq<string>, delim: string, body: string, base: nat, k: nat)
    requires AlwaysCuts(f, g, delim) && base <= |body| && Find(body[base..], delim) == Some(k)
    ensures base + k + |delim| <= |body|
    ensures f(body[base..]) == [body[base..base + k]] + g(body[base + k + |delim|..])
  {
    assert Cuts(f, g, delim, body[base..]);
    SliceOfSlice(body, base, k);
    SliceOfSlice(body, base, k + |delim|);
  }

  lemma GoesOnAt(f: string -> seq<string>, g: string -> seq<string>, delim: string, body: string, from: nat)
    requires AlwaysCuts(f, g, delim) && from <= |body|
    ensures from <= AfterDelimiter(body, from) <= |body|
    ensures g(body[from..]) == if At(body, "--", from) then [] else f(body[AfterDelimiter(body, from)..])
  {
    assert GoesOn(f, g, body[from..]);
    SkipIs(body, from);
    StartsAt(body, from);
  }

  lemma {:induction false} CutSlices(f: string -> seq<string>, g: string -> seq<string>, delim: string,
                                     body: string, base: nat)
    requires AlwaysCuts(f, g, delim) && delim != "" && base <= |body|
    ensures SomeSlices(body, delim, base, f(body[base..]))
    decreases |body| - base
  {
    match Find(body[base..], delim) {
      case None =>
        assert Cuts(f, g, delim, body[base..]);
        LastSlice(body, delim, base, f(body[base..]));
      case Some(k) =>
        var from := base + k + |delim|;
        CutAt(f, g, delim, body, base, k);
        GoesOnAt(f, g, delim, body, from);
        if At(body, "--", from) {
          FirstFrom(body, delim, base);
          SlicesEnd(body, delim, base, base + k, f(body[base..]));
        } else {
          CutSlices(f, g, delim, body, AfterDelimiter(body, from));
          SlicesStep(body, delim, base, k, g(body[from..]), f(body[base..]));
        }
    }
  }

  lemma SplitTailSlices(body: string, delim: string, base: nat)
    requires delim != "" && base <= |body|
    ensures SomeSlices(body, delim, base, SplitTail(body[base..], delim))
  {
    var f, g := (s: string) => SplitTail(s, delim), (s: string) => SplitAfter(s, delim);
    forall s: string
      ensures Cuts(f, g, delim, s) && GoesOn(f, g, s)
    {
      if Find(s, delim).Some? {
        SplitTailStep(s, delim, Find(s, delim).value);
      }
    }
    CutSlices(f, g, delim, body, base);
    assert f(body[base..]) == SplitTail(body[base..], delim);
  }

  /** Where the first piece starts: at the beginning without a delimiter, and otherwise after the first one. */
  ghost predicate FirstAt(body: string, delim: string, start: nat) {
    || (start == 0 && NoneBegins(body, delim, 0, |body|))
    || exists k: nat :: NoneBegins(body, delim, 0, k) && At(body, delim, k) &&
        start == AfterDelimiter(body, k + |delim|)
  }

  /** For every body: the pieces are slices of it, one after the other, from the first delimiter to the closing one or
      to the end, with nothing between them but a delimiter and at most one line end, and no delimiter begins inside a
      piece. */
  lemma SplitIsExact(body: string, boundary: string)
    ensures exists start: nat, offs: seq<nat> :: FirstAt(body, "--" + boundary, start) &&
              SlicesFrom(body, "--" + boundary, start, Split(body, "--" + boundary), offs)
  {
    var delim := "--" + boundary;
    assert body[0..] == body;
    FirstFrom(body, delim, 0);
    var found := Find(body, delim);
    var start := if found.None? then 0 else AfterDelimiter(body, found.value + |delim|);
    if found.Some? {
      SkipIs(body, found.value + |delim|);
    }
    assert FirstAt(body, delim, start);
    assert SplitStart(body, delim) == body[start..];
    SplitTailSlices(body, delim, start);
    var offs :| SlicesFrom(body, delim, start, SplitTail(body[start..], delim), offs);
    assert SlicesFrom(body, delim, start, Split(body, delim), offs);
  }

  /** So the pieces are in order and disjoint, and none holds the delimiter. */
  lemma SplitIsOrderedAndDelimiterFree(body: string, boundary: string)
    ensures exists offs :: InOrder(body, "--" + boundary, Split(body, "--" + boundary), offs)
    ensures forall p :: p in Split(body, "--" + boundary) ==> !Contains(p, "--" + boundary)
  {
    var delim := "--" + boundary;
    SplitIsExact(body, boundary);
    var start: nat, offs: seq<nat> :| FirstAt(body, delim, start) &&
        SlicesFrom(body, delim, start, Split(body, delim), offs);
    SlicesAreInOrder(body, delim, Split(body, delim), offs);
  }

  lemma SlicesAreInOrder(body: string, delim: string, parts: seq<string>, offs: seq<nat>)
    requires delim != "" && OrderedSlices(body, delim, parts, offs)
    ensures InOrder(body, delim, parts, offs)
    ensures forall p :: p in parts ==> !Contains(p, delim)
  {
    forall i, j | 0 <= i < j < |parts|
      ensures offs[i] + |parts[i]| + |delim| <= offs[j]
    {
      SlicesInOrder(body, delim, parts, offs, i, j);
    }
    forall i | 0 <= i < |parts|
      ensures At(body, parts[i], offs[i]) && !Contains(parts[i], delim)
    {
      assert SliceAt(body, delim, parts, offs, i);
      SliceIsFree(body, delim, parts[i], offs[i]);
    }
  }

  ghost predicate InOrder(body: string, delim: string, parts: seq<string>, offs: seq<nat>) {
    && |offs| == |parts|
    && (forall i :: 0 <= i < |parts| ==> At(body, parts[i], offs[i]))
    && (forall i, j :: 0 <= i < j < |parts| ==> offs[i] + |parts[i]| + |delim| <= offs[j])
  }

  lemma {:induction false} SlicesInOrder(body: string, delim: string, parts: seq<string>, offs: seq<nat>, i: nat,
      j: nat)
    requires OrderedSlices(body, delim, parts, offs) && i < j < |parts|
    ensures offs[i] + |parts[i]| + |delim| <= offs[j]
  {
    assert SliceAt(body, delim, parts, offs, j - 1);
    if i < j - 1 {
      SlicesInOrder(body, delim, parts, offs, i, j - 1);
    }
  }

  lemma SubSlice(s: string, a: nat, b: nat, i: nat, j: nat)
    requires a <= b <= |s| && i <= j <= b - a
    ensures s[a..b][i..j] == s[a + i..a + j]
  {
    assert forall k :: 0 <= k < j - i ==> s[a..b][i..j][k] == s[a + i..a + j][k];
  }

  lemma SliceIsFree(body: string, delim: string, p: string, at: nat)
    requires delim != "" && At(body, p, at) && NoneBegins(body, delim, at, at + |p|)
    ensures !Contains(p, delim)
  {
    forall i
      ensures !At(p, delim, i)
    {
      if 0 <= i && i + |delim| <= |p| {
        SubSlice(body, at, at + |p|, i, i + |delim|);
        assert !At(body, delim, at + i);
      }
    }
  }
}
