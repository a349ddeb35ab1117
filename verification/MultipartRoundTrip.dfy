/** A reference encoder for forms (section 4 of RFC 7578 over section 5.1.1 of RFC 2046)
    and the proof that the parser undoes it. */
module MultipartRoundTrip {
  import opened Text
  import opened Wrappers
  import opened Multipart

  /** A parameter's value, and whether it is written in quotes or as a token. */
  datatype Quoting = Quoted | Token

  datatype Part = Part(
    name: string, filename: Option<string>, contentType: Option<string>, content: string,
    nameForm: Quoting, filenameForm: Quoting)

  const DISPOSITION: string := "Content-Disposition"
  const TYPE: string := "Content-Type"

  function Written(value: string, form: Quoting): string { if form == Quoted then "\"" + value + "\"" else value }

  function NameParam(name: string, form: Quoting): string { " name=" + Written(name, form) }

  function FilenameParam(filename: string, form: Quoting): string { " filename=" + Written(filename, form) }

  /** Parameters of a header value, separated by semicolons. */
  function Parameters(pieces: seq<string>): string
    requires pieces != []
  {
    if |pieces| == 1 then pieces[0] else pieces[0] + ";" + Parameters(pieces[1..])
  }

  function DispositionPieces(p: Part): (r: seq<string>)
    ensures |r| == if p.filename.Some? then 3 else 2
  {
    ["form-data", NameParam(p.name, p.nameForm)] +
    if p.filename.Some? then [FilenameParam(p.filename.value, p.filenameForm)] else []
  }

  function DispositionValue(p: Part): string { Parameters(DispositionPieces(p)) }

  function DispositionLine(p: Part): string { DISPOSITION + ":" + " " + DispositionValue(p) }

  function TypeLine(contentType: string): string { TYPE + ":" + " " + contentType }

  function TypeLineOf(p: Part): Option<string> {
    if p.contentType.Some? then Some(TypeLine(p.contentType.value)) else None
  }

  function JoinHeaders(d: string, t: Option<string>): string {
    if t.Some? then d + CRLF + t.value else d
  }

  function HeaderText(p: Part): string { JoinHeaders(DispositionLine(p), TypeLineOf(p)) }

  function PartBytes(p: Part): string { HeaderText(p) + BLANK_LINE + p.content }

  /** Everything after the first delimiter line. */
  function EncodeFrom(blocks: seq<string>, delim: string, epilogue: string): string
    requires blocks != []
  {
    blocks[0] + CRLF + delim +
    if |blocks| == 1 then "--" + epilogue else CRLF + EncodeFrom(blocks[1..], delim, epilogue)
  }

  function Blocks(parts: seq<Part>): (r: seq<string>)
    ensures |r| == |parts| && forall i :: 0 <= i < |parts| ==> r[i] == PartBytes(parts[i])
  {
    seq(|parts|, i requires 0 <= i < |parts| => PartBytes(parts[i]))
  }

  function Encode(parts: seq<Part>, boundary: string, preamble: Option<string>, epilogue: string): string
    requires parts != []
  {
    (if preamble.Some? then preamble.value + CRLF else "") +
    ("--" + boundary) + (CRLF + EncodeFrom(Blocks(parts), "--" + boundary, epilogue))
  }

  predicate NoLineBreak(s: string) { '\r' !in s && '\n' !in s }

  predicate Plain(s: string) { NoLineBreak(s) && ';' !in s && '"' !in s }

  /** A token does not end in white space. */
  predicate Writable(s: string, form: Quoting) {
    Plain(s) && (form == Quoted || s == "" || !IsSpace(s[|s| - 1]))
  }

  predicate WritableNames(p: Part) {
    Writable(p.name, p.nameForm) && (p.filename.Some? ==> Writable(p.filename.value, p.filenameForm))
  }

  ghost predicate Encodable(p: Part, delim: string) {
    && WritableNames(p)
    && (p.contentType.Some? ==> NoLineBreak(p.contentType.value))
    && !Contains(HeaderText(p), delim)
    && !Contains(p.content, delim)
  }

  // ----- The reference result, computed from the part list alone -----

  function FileOf(p: Part): UploadedFile
    requires p.filename.Some?
  {
    UploadedFile(p.name, p.filename.value,
                 if p.contentType.Some? then Trim(p.contentType.value) else DEFAULT_CONTENT_TYPE, p.content)
  }

  /** The files sent under `name`, in order. */
  function FilesNamed(parts: seq<Part>, name: string): seq<UploadedFile> {
    if parts == [] then []
    else
      var last := parts[|parts| - 1];
      FilesNamed(parts[..|parts| - 1], name) +
      if last.filename.Some? && last.name == name then [FileOf(last)] else []
  }

  /** The last text sent under `name`, without its trailing line breaks. */
  function LastText(parts: seq<Part>, name: string): Option<string> {
    if parts == [] then None
    else
      var last := parts[|parts| - 1];
      if last.filename.None? && last.name == name then Some(TrimEnd(last.content, CRLF))
      else LastText(parts[..|parts| - 1], name)
  }

  // ----- A delimiter without CR or LF cannot straddle a line break -----

  lemma NoStraddle(a: string, b: string, delim: string)
    requires delim != "" && NoLineBreak(delim)
    requires !Contains(a, delim) && !Contains(b, delim)
    ensures !Contains(a + CRLF + b, delim)
  {
    var s := a + CRLF + b;
    forall i | 0 <= i && i + |delim| <= |s|
      ensures !At(s, delim, i)
    {
      var w := s[i..i + |delim|];
      if i + |delim| <= |a| {
        assert w == a[i..i + |delim|];
        assert !At(a, delim, i);
      } else if |a| + 2 <= i {
        var k := i - |a| - 2;
        assert w == b[k..k + |delim|];
        assert !At(b, delim, k);
      } else if i <= |a| {
        assert w[|a| - i] == '\r';
      } else {
        assert w[0] == '\n';
      }
    }
  }

  /** The next delimiter after a line break is the one that was written there. */
  lemma FindDelimiter(a: string, delim: string, after: string)
    requires delim != "" && NoLineBreak(delim) && !Contains(a, delim)
    ensures Find(a + CRLF + delim + after, delim) == Some(|a| + 2)
  {
    var s := a + CRLF + delim + after;
    assert s[|a| + 2..|a| + 2 + |delim|] == delim;
    forall i | 0 <= i < |a| + 2
      ensures !At(s, delim, i)
    {
      var w := s[i..i + |delim|];
      if i + |delim| <= |a| {
        assert w == a[i..i + |delim|];
        assert !At(a, delim, i);
      } else if i <= |a| {
        assert w[|a| - i] == '\r';
      } else {
        assert w[0] == '\n';
      }
    }
    FindIs(s, delim, |a| + 2);
  }

  lemma PartHasNoDelimiter(p: Part, delim: string)
    requires delim != "" && NoLineBreak(delim) && Encodable(p, delim)
    ensures !Contains(PartBytes(p), delim)
  {
    var h := HeaderText(p);
    assert !Contains("", delim);
    NoStraddle("", p.content, delim);
    NoStraddle(h, "" + CRLF + p.content, delim);
    assert h + CRLF + ("" + CRLF + p.content) == PartBytes(p);
  }

  lemma SplitStep(a: string, delim: string, after: string)
    requires delim != "" && NoLineBreak(delim) && !Contains(a, delim)
    ensures SplitTail(a + CRLF + delim + after, delim)
         == [a + CRLF] + if StartsWith(after, "--") then [] else SplitTail(SkipCrlf(after), delim)
  {
    var rest := a + CRLF + delim + after;
    FindDelimiter(a, delim, after);
    assert rest[..|a| + 2] == a + CRLF;
    assert rest[|a| + 2 + |delim|..] == after;
  }

  lemma {:induction false} SplitEncoded(blocks: seq<string>, delim: string, epilogue: string)
    requires blocks != [] && delim != "" && NoLineBreak(delim)
    requires forall b :: b in blocks ==> !Contains(b, delim)
    ensures var parts := SplitTail(EncodeFrom(blocks, delim, epilogue), delim);
            |parts| == |blocks| && forall i :: 0 <= i < |blocks| ==> parts[i] == blocks[i] + CRLF
    decreases |blocks|
  {
    if |blocks| == 1 {
      SplitStep(blocks[0], delim, "--" + epilogue);
    } else {
      var next := EncodeFrom(blocks[1..], delim, epilogue);
      var after := CRLF + next;
      SplitStep(blocks[0], delim, after);
      assert after[0] == '\r';
      assert SkipCrlf(after) == next;
      SplitEncoded(blocks[1..], delim, epilogue);
    }
  }

  // ----- One part -----

  lemma FindBlankLine(p: Part, tail: string)
    requires NoLineBreak(DispositionLine(p))
    requires p.contentType.Some? ==> NoLineBreak(p.contentType.value)
    ensures Find(HeaderText(p) + BLANK_LINE + tail, BLANK_LINE) == Some(|HeaderText(p)|)
  {
    var h := HeaderText(p);
    var s := h + BLANK_LINE + tail;
    var d := DispositionLine(p);
    assert s[|h|..|h| + 4] == BLANK_LINE;
    forall i | 0 <= i < |h|
      ensures !At(s, BLANK_LINE, i)
    {
      var w := s[i..i + 4];
      assert w[0] == h[i] && w[2] == s[i + 2];
      if i < |d| {
        assert h[i] == d[i];
      } else if i == |d| {
        assert s[i + 2] == 'C';
      } else if i == |d| + 1 {
        assert h[i] == '\n';
      } else {
        assert h[i] == TypeLine(p.contentType.value)[i - |d| - 2];
      }
    }
    FindIs(s, BLANK_LINE, |h|);
  }

  lemma TrimLeading(c: char, s: string, drop: char -> bool)
    requires drop(c) && (s == "" || !drop(s[0]))
    ensures TrimLeft([c] + s, drop) == s
  {
    assert ([c] + s)[1..] == s;
  }

  lemma UnquoteQuoted(s: string)
    requires '"' !in s
    ensures Unquote("\"" + s + "\"") == s
  {
    var t := s + "\"";
    assert "\"" + s + "\"" == ['"'] + t;
    assert (['"'] + t)[1..] == t;
    assert t[..|t| - 1] == s;
    if s == "" {
      assert t == ['"'] && t[1..] == "";
      assert TrimLeft(t, IsQuote) == TrimLeft("", IsQuote) == "";
    } else {
      assert s[0] in s && s[|s| - 1] in s;
      assert t[0] == s[0];
      TrimLeading('"', t, IsQuote);
      assert TrimRight(t, IsQuote) == TrimRight(s, IsQuote) == s;
    }
  }

  /** `Trim` only removes the leading space of a parameter. */
  lemma TrimParameter(body: string)
    requires body != "" && !IsSpace(body[0]) && !IsSpace(body[|body| - 1])
    ensures Trim(" " + body) == body
  {
    TrimLeading(' ', body, IsSpace);
    assert " " + body == [' '] + body;
  }

  lemma WrittenRead(value: string, form: Quoting)
    requires Writable(value, form)
    ensures Unquote(Written(value, form)) == value
    ensures var w := Written(value, form); w == "" || !IsSpace(w[|w| - 1])
  {
    if form == Quoted {
      UnquoteQuoted(value);
    } else {
      UnquoteIs(value);
    }
  }

  lemma NameParamRead(d: Disposition, name: string, form: Quoting)
    requires Writable(name, form)
    ensures AddParameter(d, NameParam(name, form)) == d.(name := Some(name))
  {
    var body := "name=" + Written(name, form);
    assert NameParam(name, form) == " " + body;
    WrittenRead(name, form);
    TrimParameter(body);
    NameIs(d, NameParam(name, form), Written(name, form));
  }

  lemma FilenameParamRead(d: Disposition, filename: string, form: Quoting)
    requires Writable(filename, form)
    ensures AddParameter(d, FilenameParam(filename, form)) == d.(filename := Some(filename))
  {
    var body := "filename=" + Written(filename, form);
    assert FilenameParam(filename, form) == " " + body;
    WrittenRead(filename, form);
    TrimParameter(body);
    FilenameIs(d, FilenameParam(filename, form), Written(filename, form));
  }

  lemma {:induction false} SplitParameters(pieces: seq<string>)
    requires pieces != [] && forall s :: s in pieces ==> ';' !in s
    ensures SplitOn(Parameters(pieces), ";") == pieces
    decreases |pieces|
  {
    if |pieces| == 1 {
      SplitOnLast(pieces[0], ";");
    } else {
      SplitOnCons(pieces[0], ";", Parameters(pieces[1..]));
      SplitParameters(pieces[1..]);
      assert [pieces[0]] + pieces[1..] == pieces;
    }
  }

  lemma DispositionOfAppend(pieces: seq<string>, piece: string)
    ensures DispositionOf(pieces + [piece]) == AddParameter(DispositionOf(pieces), piece)
  {
    assert (pieces + [piece])[..|pieces|] == pieces;
  }

  lemma FormDataIgnored(d: Disposition)
    ensures AddParameter(d, "form-data") == d
  {
    var form := "form-data";
    assert form[0] == 'f' && form[1] == 'o' && form[8] == 'a';
    assert Trim(form) == form;
  }

  lemma PiecesPlain(p: Part)
    requires WritableNames(p)
    ensures forall s :: s in DispositionPieces(p) ==> NoLineBreak(s) && ';' !in s
  {
    assert Plain("form-data");
    var n := NameParam(p.name, p.nameForm);
    assert NoLineBreak(n) && ';' !in n;
    if p.filename.Some? {
      var f := FilenameParam(p.filename.value, p.filenameForm);
      assert NoLineBreak(f) && ';' !in f;
    }
  }

  lemma DispositionRead(p: Part)
    requires WritableNames(p)
    ensures DispositionOf(SplitOn(DispositionValue(p), ";")) == Disposition(Some(p.name), p.filename)
  {
    var none, named := Disposition(None, None), Disposition(Some(p.name), None);
    var n := NameParam(p.name, p.nameForm);
    PiecesPlain(p);
    SplitParameters(DispositionPieces(p));
    DispositionOfAppend([], "form-data");
    FormDataIgnored(none);
    DispositionOfAppend([] + ["form-data"], n);
    NameParamRead(none, p.name, p.nameForm);
    assert [] + ["form-data"] + [n] == ["form-data", n];
    if p.filename.Some? {
      DispositionOfAppend(["form-data", n], FilenameParam(p.filename.value, p.filenameForm));
      FilenameParamRead(named, p.filename.value, p.filenameForm);
    } else {
      assert DispositionPieces(p) == ["form-data", n];
    }
  }

  /** A header line `Name: value` is read back under its lower-case name. */
  lemma HeaderRead(headers: map<string, string>, name: string, value: string)
    requires ':' !in name && Trim(name) == name
    ensures AddHeader(headers, name + ":" + " " + value) == headers[ToLower(name) := Trim(value)]
  {
    var line := name + ":" + " " + value;
    FindAfter(name, ":", " " + value);
    assert line == name + ":" + (" " + value);
    assert line[..|name|] == name;
    assert line[|name| + 1..] == " " + value;
    assert (" " + value)[1..] == value;
  }

  lemma HeaderNames()
    ensures ToLower(DISPOSITION) == "content-disposition" && Trim(DISPOSITION) == DISPOSITION
    ensures ToLower(TYPE) == "content-type" && Trim(TYPE) == TYPE
    ensures "content-type" != "content-disposition"
  {
    assert |"content-type"| == 12 && |"content-disposition"| == 19;
  }

  lemma HeaderMapOf(d: string, t: Option<string>)
    requires '\r' !in d && (t.Some? ==> '\r' !in t.value)
    ensures HeaderMap(SplitOn(JoinHeaders(d, t), CRLF))
         == if t.Some? then AddHeader(AddHeader(map[], d), t.value) else AddHeader(map[], d)
  {
    SplitOnLast(d, CRLF);
    assert [d][..0] == [];
    assert HeaderMap([d]) == AddHeader(HeaderMap([]), d);
    if t.Some? {
      SplitOnLast(t.value, CRLF);
      SplitOnCons(d, CRLF, t.value);
      assert ([d] + [t.value])[..1] == [d];
    }
  }

  lemma TrimNothing(s: string)
    requires s != "" && !IsSpace(s[0]) && !IsSpace(s[|s| - 1])
    ensures Trim(s) == s
  {
  }

  lemma {:induction false} ParametersEnd(pieces: seq<string>)
    requires pieces != [] && forall i :: 0 <= i < |pieces| ==> pieces[i] != ""
    ensures Parameters(pieces) != ""
    ensures var v, last := Parameters(pieces), pieces[|pieces| - 1]; v[|v| - 1] == last[|last| - 1]
    ensures Parameters(pieces)[0] == pieces[0][0]
    decreases |pieces|
  {
    if |pieces| > 1 {
      ParametersEnd(pieces[1..]);
    }
  }

  lemma {:induction false} ParametersPlain(pieces: seq<string>)
    requires pieces != [] && forall i :: 0 <= i < |pieces| ==> NoLineBreak(pieces[i])
    ensures NoLineBreak(Parameters(pieces))
    decreases |pieces|
  {
    if |pieces| > 1 {
      ParametersPlain(pieces[1..]);
      assert NoLineBreak(pieces[0]);
    }
  }

  lemma DispositionValueTrimmed(p: Part)
    requires WritableNames(p)
    ensures Trim(DispositionValue(p)) == DispositionValue(p)
  {
    var v := DispositionValue(p);
    var pieces := DispositionPieces(p);
    WrittenRead(p.name, p.nameForm);
    if p.filename.Some? {
      WrittenRead(p.filename.value, p.filenameForm);
    }
    ParametersEnd(pieces);
    assert pieces[0][0] == 'f';
    TrimNothing(v);
  }

  lemma HeadersRead(p: Part)
    requires WritableNames(p)
    requires NoLineBreak(DispositionLine(p))
    requires p.contentType.Some? ==> NoLineBreak(p.contentType.value)
    ensures var headers := HeaderMap(SplitOn(HeaderText(p), CRLF));
            && "content-disposition" in headers && headers["content-disposition"] == DispositionValue(p)
            && ("content-type" in headers <==> p.contentType.Some?)
            && (p.contentType.Some? ==> headers["content-type"] == Trim(p.contentType.value))
  {
    HeaderNames();
    HeaderRead(map[], DISPOSITION, DispositionValue(p));
    DispositionValueTrimmed(p);
    if p.contentType.Some? {
      TypeLinePlain(p.contentType.value);
    }
    HeaderMapOf(DispositionLine(p), TypeLineOf(p));
    if p.contentType.Some? {
      HeaderRead(AddHeader(map[], DispositionLine(p)), TYPE, p.contentType.value);
    }
  }

  lemma TypeLinePlain(contentType: string)
    requires NoLineBreak(contentType)
    ensures NoLineBreak(TypeLine(contentType))
  {
  }

  lemma TrimOneMore(s: string)
    ensures TrimEnd(s + CRLF, CRLF) == TrimEnd(s, CRLF)
    ensures StripOneCrlf(s + CRLF) == s
  {
    assert (s + CRLF)[..|s|] == s;
  }

  function EntryFor(p: Part): Entry {
    if p.filename.Some? then FileField(FileOf(p)) else TextField(p.name, TrimEnd(p.content, CRLF))
  }

  lemma SlicesAround(h: string, sep: string, content: string)
    ensures (h + sep + content)[..|h|] == h && (h + sep + content)[|h| + |sep|..] == content
  {
  }

  lemma ReadAtBlankLine(part: string, h: string, content: string)
    requires Find(part, BLANK_LINE) == Some(|h|)
    requires part[..|h|] == h && part[|h| + 4..] == content
    ensures ReadPart(part) == EntryOf(HeaderMap(SplitOn(h, CRLF)), content)
  {
  }

  lemma PlainLines(p: Part)
    requires WritableNames(p)
    ensures NoLineBreak(DispositionLine(p))
  {
    PiecesPlain(p);
    ParametersPlain(DispositionPieces(p));
  }

  ghost predicate Headed(p: Part) {
    WritableNames(p) && (p.contentType.Some? ==> NoLineBreak(p.contentType.value))
  }

  lemma ReadAfterHeader(p: Part, part: string, content: string)
    requires Headed(p) && part == HeaderText(p) + BLANK_LINE + content
    ensures ReadPart(part) == EntryOf(HeaderMap(SplitOn(HeaderText(p), CRLF)), content)
  {
    PlainLines(p);
    FindBlankLine(p, content);
    SlicesAround(HeaderText(p), BLANK_LINE, content);
    ReadAtBlankLine(part, HeaderText(p), content);
  }

  lemma EntryRead(p: Part, headers: map<string, string>, content: string)
    requires WritableNames(p)
    requires "content-disposition" in headers && headers["content-disposition"] == DispositionValue(p)
    requires "content-type" in headers <==> p.contentType.Some?
    requires p.contentType.Some? ==> headers["content-type"] == Trim(p.contentType.value)
    ensures EntryOf(headers, content) ==
              if p.filename.Some? then FileField(FileOf(p.(content := StripOneCrlf(content))))
              else TextField(p.name, TrimEnd(content, CRLF))
  {
    DispositionRead(p);
  }

  /** A part's headers followed by any content. */
  lemma PartWith(p: Part, part: string, content: string)
    requires Headed(p) && part == HeaderText(p) + BLANK_LINE + content
    ensures ReadPart(part) ==
              if p.filename.Some? then FileField(FileOf(p.(content := StripOneCrlf(content))))
              else TextField(p.name, TrimEnd(content, CRLF))
  {
    ReadAfterHeader(p, part, content);
    PlainLines(p);
    HeadersRead(p);
    EntryRead(p, HeaderMap(SplitOn(HeaderText(p), CRLF)), content);
  }

  lemma PartRead(p: Part, delim: string)
    requires Encodable(p, delim)
    ensures ReadPart(PartBytes(p) + CRLF) == EntryFor(p)
  {
    var part := PartBytes(p) + CRLF;
    assert part == HeaderText(p) + BLANK_LINE + (p.content + CRLF);
    PartWith(p, part, p.content + CRLF);
    TrimOneMore(p.content);
  }

  /** A part at the end of a body without a closing delimiter: a file loses one final line break, if it has one, and a
      text all of them. */
  lemma PartReadUnclosed(p: Part, delim: string)
    requires Encodable(p, delim)
    ensures ReadPart(PartBytes(p)) ==
              if p.filename.Some? then FileField(FileOf(p.(content := StripOneCrlf(p.content))))
              else TextField(p.name, TrimEnd(p.content, CRLF))
    ensures EndsWith(p.content, CRLF) ==> StripOneCrlf(p.content) + CRLF == p.content
    ensures !EndsWith(p.content, CRLF) ==> StripOneCrlf(p.content) == p.content
  {
    PartWith(p, PartBytes(p), p.content);
  }

  // ----- The whole form -----

  /** The form's two tables, each given as a function of the name. */
  ghost predicate FormIs(form: Form, files: string -> seq<UploadedFile>, texts: string -> Option<string>) {
    forall name ::
      && (if name in form.files then form.files[name] else []) == files(name)
      && (if name in form.fields then Some(form.fields[name]) else None) == texts(name)
  }

  function Files(parts: seq<Part>): string -> seq<UploadedFile> { n => FilesNamed(parts, n) }

  function Texts(parts: seq<Part>): string -> Option<string> { n => LastText(parts, n) }

  ghost predicate FormMatches(form: Form, parts: seq<Part>) {
    FormIs(form, Files(parts), Texts(parts))
  }

  lemma FieldAdded(form: Form, name: string, value: string,
                   files: string -> seq<UploadedFile>, texts: string -> Option<string>,
                   files': string -> seq<UploadedFile>, texts': string -> Option<string>)
    requires FormIs(form, files, texts)
    requires forall n :: files'(n) == files(n) && texts'(n) == if n == name then Some(value) else texts(n)
    ensures FormIs(form.AddField(name, value), files', texts')
  {
  }

  lemma FileAdded(form: Form, file: UploadedFile,
                  files: string -> seq<UploadedFile>, texts: string -> Option<string>,
                  files': string -> seq<UploadedFile>, texts': string -> Option<string>)
    requires FormIs(form, files, texts)
    requires forall n :: texts'(n) == texts(n) && files'(n) == if n == file.name then files(n) + [file] else files(n)
    ensures FormIs(form.AddFile(file.name, file), files', texts')
  {
  }

  lemma NamedInMore(parts: seq<Part>, p: Part, n: string)
    ensures FilesNamed(parts + [p], n) ==
              FilesNamed(parts, n) + if p.filename.Some? && p.name == n then [FileOf(p)] else []
    ensures LastText(parts + [p], n)
         == if p.filename.None? && p.name == n then Some(TrimEnd(p.content, CRLF)) else LastText(parts, n)
  {
    assert (parts + [p])[..|parts|] == parts;
  }

  lemma CollectMore(entries: seq<Entry>, e: Entry)
    ensures Collect(entries + [e]) == AddEntry(Collect(entries), e)
  {
    assert (entries + [e])[..|entries|] == entries;
  }

  lemma OneMoreText(form: Form, parts: seq<Part>, p: Part)
    requires p.filename.None? && FormMatches(form, parts)
    ensures FormMatches(form.AddField(p.name, TrimEnd(p.content, CRLF)), parts + [p])
  {
    forall n: string
      ensures Files(parts + [p])(n) == Files(parts)(n)
      ensures Texts(parts + [p])(n) == if n == p.name then Some(TrimEnd(p.content, CRLF)) else Texts(parts)(n)
    {
      NamedInMore(parts, p, n);
    }
    FieldAdded(form, p.name, TrimEnd(p.content, CRLF), Files(parts), Texts(parts), Files(parts + [p]),
        Texts(parts + [p]));
  }

  lemma OneMoreFile(form: Form, parts: seq<Part>, p: Part)
    requires p.filename.Some? && FormMatches(form, parts)
    ensures FormMatches(form.AddFile(p.name, FileOf(p)), parts + [p])
  {
    forall n: string
      ensures Files(parts + [p])(n) == if n == p.name then Files(parts)(n) + [FileOf(p)] else Files(parts)(n)
      ensures Texts(parts + [p])(n) == Texts(parts)(n)
    {
      NamedInMore(parts, p, n);
    }
    FileAdded(form, FileOf(p), Files(parts), Texts(parts), Files(parts + [p]), Texts(parts + [p]));
  }

  lemma OneMoreMatches(entries: seq<Entry>, parts: seq<Part>, p: Part)
    requires FormMatches(Collect(entries), parts)
    ensures FormMatches(Collect(entries + [EntryFor(p)]), parts + [p])
  {
    CollectMore(entries, EntryFor(p));
    if p.filename.Some? {
      OneMoreFile(Collect(entries), parts, p);
    } else {
      OneMoreText(Collect(entries), parts, p);
    }
  }

  /** Induction over two lists that grow together. */
  lemma {:induction false} GrowTogether<A, B>(P: (seq<A>, seq<B>) -> bool, f: B -> A, a: seq<A>, b: seq<B>)
    requires P([], []) && forall x: seq<A>, y: seq<B>, e: B :: P(x, y) ==> P(x + [f(e)], y + [e])
    requires |a| == |b| && forall i :: 0 <= i < |b| ==> a[i] == f(b[i])
    ensures P(a, b)
    decreases |b|
  {
    if b == [] {
      assert a == [];
    } else {
      var n := |b| - 1;
      GrowTogether(P, f, a[..n], b[..n]);
      assert a == a[..n] + [f(b[n])] && b == b[..n] + [b[n]];
    }
  }

  lemma CollectMatches(entries: seq<Entry>, parts: seq<Part>)
    requires |entries| == |parts| && forall i :: 0 <= i < |parts| ==> entries[i] == EntryFor(parts[i])
    ensures FormMatches(Collect(entries), parts)
  {
    var matches := (es: seq<Entry>, ps: seq<Part>) => FormMatches(Collect(es), ps);
    forall es: seq<Entry>, ps: seq<Part>, p: Part | matches(es, ps)
      ensures matches(es + [EntryFor(p)], ps + [p])
    {
      OneMoreMatches(es, ps, p);
    }
    GrowTogether(matches, EntryFor, entries, parts);
  }

  /** Parsing undoes encoding: for every part list, boundary, preamble and epilogue, the form
      holds every file's exact bytes in order per name and the last text of each field. */
  lemma {:induction false} ParseUndoesEncode(parts: seq<Part>, boundary: string, preamble: Option<string>,
      epilogue: string)
    requires parts != [] && NoLineBreak(boundary)
    requires forall p :: p in parts ==> Encodable(p, "--" + boundary)
    requires preamble.Some? ==> !Contains(preamble.value, "--" + boundary)
    ensures FormMatches(Parse(Encode(parts, boundary, preamble, epilogue), boundary), parts)
  {
    var delim := "--" + boundary;
    var rest := EncodeFrom(Blocks(parts), delim, epilogue);
    var body := Encode(parts, boundary, preamble, epilogue);
    var pre := if preamble.Some? then preamble.value + CRLF else "";
    if preamble.Some? {
      FindDelimiter(preamble.value, delim, CRLF + rest);
      assert body == preamble.value + CRLF + delim + (CRLF + rest);
    } else {
      assert body[0..0 + |delim|] == delim;
      FindIs(body, delim, 0);
    }
    assert body == pre + delim + (CRLF + rest);
    assert body[|pre| + |delim|..] == CRLF + rest;
    assert SkipCrlf(CRLF + rest) == rest;
    forall i | 0 <= i < |parts|
      ensures !Contains(Blocks(parts)[i], delim) && ReadPart(Blocks(parts)[i] + CRLF) == EntryFor(parts[i])
    {
      PartHasNoDelimiter(parts[i], delim);
      PartRead(parts[i], delim);
    }
    SplitEncoded(Blocks(parts), delim, epilogue);
    CollectMatches(ReadParts(Split(body, delim)), parts);
  }

  lemma {:induction false} LastTextIs(parts: seq<Part>, i: nat)
    requires i < |parts| && parts[i].filename.None?
    requires forall j :: i < j < |parts| ==> parts[j].filename.Some? || parts[j].name != parts[i].name
    ensures LastText(parts, parts[i].name) == Some(TrimEnd(parts[i].content, CRLF))
  {
    if i < |parts| - 1 {
      LastTextIs(parts[..|parts| - 1], i);
    }
  }

  /** In any form, the last text sent under a name survives unchanged exactly when it does not end in a line break. */
  lemma {:induction false} TextSurvivesIff(parts: seq<Part>, i: nat, boundary: string, preamble: Option<string>,
      epilogue: string)
    requires i < |parts| && parts[i].filename.None?
    requires forall j :: i < j < |parts| ==> parts[j].filename.Some? || parts[j].name != parts[i].name
    requires NoLineBreak(boundary) && forall p :: p in parts ==> Encodable(p, "--" + boundary)
    requires preamble.Some? ==> !Contains(preamble.value, "--" + boundary)
    ensures var form := Parse(Encode(parts, boundary, preamble, epilogue), boundary);
            && parts[i].name in form.fields
            && (form.fields[parts[i].name] == parts[i].content <==> !EndsWith(parts[i].content, CRLF))
  {
    ParseUndoesEncode(parts, boundary, preamble, epilogue);
    LastTextIs(parts, i);
    assert Texts(parts)(parts[i].name) == LastText(parts, parts[i].name);
  }
}
