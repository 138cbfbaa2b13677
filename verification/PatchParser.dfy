/** The line-oriented patch envelope: parsing, the texts it accepts, and the printed form. */
module PatchParser {
  import opened Basics
  import opened PatchText

  const MAX_PATCH_CHARS: nat := 200_000
  const MAX_PATCH_FILES: nat := 50
  const BEGIN := "*** Begin Patch"
  const END := "*** End Patch"
  const ADD := "*** Add File: "
  const UPDATE := "*** Update File: "
  const DELETE := "*** Delete File: "

  datatype Hunk = Hunk(lines: seq<string>)

  datatype FilePatch =
    | Add(path: string, lines: seq<string>)
    | Update(path: string, hunks: seq<Hunk>)
    | Delete(path: string)

  datatype ParseError =
    | TooLong
    | NoBegin
    | InvalidMarker
    | InvalidPath
    | DuplicatePath
    | AddedLineWithoutPlus
    | DeleteWithBody
    | NoHunkMarker
    | InvalidHunkLine
    | EmptyHunk
    | NoHunks
    | TooManyFiles
    | MissingEnd
    | ContentAfterEnd
    | NoFiles

  type Parsed<T> = Result<T, ParseError>

  // ---------- Paths ----------

  function LowerChar(c: char): char {
    if 'A' <= c <= 'Z' then c + ('a' - 'A') else c
  }

  function Lower(s: string): string { seq(|s|, i requires 0 <= i < |s| => LowerChar(s[i])) }

  /** A project-relative path that neither leaves the project nor touches protected metadata. Empty
      and `.` components are dropped before the check, as `pathlib` does. */
  predicate ValidPath(path: string) {
    && path != "" && path[0] != '/' && ':' !in path
    && forall part :: part in Split(path, '/') ==>
         part != ".." && Lower(part) != ".git" && Lower(part) != ".coding-kid"
  }

  function Canonical(path: string): string {
    seq(|path|, i requires 0 <= i < |path| => if path[i] == '\\' then '/' else path[i])
  }

  // ---------- Headers ----------

  datatype Action = Adding | Updating | Deleting

  datatype Header = Header(action: Action, path: string)

  function HeaderLine(h: Header): string {
    match h.action
    case Adding => ADD + h.path
    case Updating => UPDATE + h.path
    case Deleting => DELETE + h.path
  }

  function ReadHeader(line: string): Option<Header> {
    if ADD <= line then Some(Header(Adding, line[|ADD|..]))
    else if UPDATE <= line then Some(Header(Updating, line[|UPDATE|..]))
    else if DELETE <= line then Some(Header(Deleting, line[|DELETE|..]))
    else None
  }

  predicate FileMarker(line: string) { "*** " <= line }

  predicate HunkMarker(line: string) { "@@" <= line }

  lemma HeaderReadsBack(h: Header)
    ensures ReadHeader(HeaderLine(h)) == Some(h)
    ensures FileMarker(HeaderLine(h)) && HeaderLine(h) != END
  {
    var line := HeaderLine(h);
    match h.action {
      case Adding => assert line[4] == 'A' && line[|ADD|..] == h.path;
      case Updating => assert line[4] == 'U' && line[|UPDATE|..] == h.path;
      case Deleting => assert line[4] == 'D' && line[|DELETE|..] == h.path;
    }
  }

  lemma ReadHeaderIsHeaderLine(line: string)
    ensures ReadHeader(line).Some? ==> HeaderLine(ReadHeader(line).value) == line
  {
    if ADD <= line {
      assert line == ADD + line[|ADD|..];
    } else if UPDATE <= line {
      assert line == UPDATE + line[|UPDATE|..];
    } else if DELETE <= line {
      assert line == DELETE + line[|DELETE|..];
    }
  }

  // ---------- Parsing, on values ----------

  predicate HunkLine(line: string) { line != "" && line[0] in {' ', '+', '-'} }

  predicate AllHunkLines(lines: seq<string>) {
    forall i :: 0 <= i < |lines| ==> HunkLine(lines[i])
  }

  /** The index of the first file marker at or after `at`. */
  function BodyEnd(lines: seq<string>, at: nat): (end: nat)
    requires at <= |lines|
    ensures at <= end <= |lines|
    ensures forall i :: at <= i < end ==> !FileMarker(lines[i])
    ensures end < |lines| ==> FileMarker(lines[end])
    decreases |lines| - at
  {
    if at == |lines| || FileMarker(lines[at]) then at else BodyEnd(lines, at + 1)
  }

  /** The index of the first hunk marker at or after `at`. */
  function HunkEnd(body: seq<string>, at: nat): (end: nat)
    requires at <= |body|
    ensures at <= end <= |body|
    ensures forall i :: at <= i < end ==> !HunkMarker(body[i])
    ensures end < |body| ==> HunkMarker(body[end])
    decreases |body| - at
  {
    if at == |body| || HunkMarker(body[at]) then at else HunkEnd(body, at + 1)
  }

  function Prepend<T>(done: seq<T>, rest: Parsed<seq<T>>): Parsed<seq<T>> {
    match rest
    case Err(e) => Err(e)
    case Ok(more) => Ok(done + more)
  }

  function ParseHunks(body: seq<string>, at: nat): Parsed<seq<Hunk>>
    requires at <= |body|
    decreases |body| - at
  {
    if at == |body| then Ok([])
    else if !HunkMarker(body[at]) then Err(NoHunkMarker)
    else
      var end := HunkEnd(body, at + 1);
      if !AllHunkLines(body[at + 1..end]) then Err(InvalidHunkLine)
      else if at + 1 == end then Err(EmptyHunk)
      else Prepend([Hunk(body[at + 1..end])], ParseHunks(body, end))
  }

  predicate AllAdded(lines: seq<string>) {
    forall i :: 0 <= i < |lines| ==> "+" <= lines[i]
  }

  function DropFirstChars(lines: seq<string>): seq<string>
    requires AllAdded(lines)
  {
    seq(|lines|, i requires 0 <= i < |lines| => lines[i][1..])
  }

  function ParseFile(h: Header, body: seq<string>): Parsed<FilePatch> {
    match h.action
    case Adding => if AllAdded(body) then Ok(Add(h.path, DropFirstChars(body))) else Err(AddedLineWithoutPlus)
    case Deleting => if body == [] then Ok(Delete(h.path)) else Err(DeleteWithBody)
    case Updating =>
      match ParseHunks(body, 0)
      case Err(e) => Err(e)
      case Ok(hunks) => if hunks == [] then Err(NoHunks) else Ok(Update(h.path, hunks))
  }

  predicate BlankFrom(lines: seq<string>, at: nat) {
    forall i :: at <= i < |lines| ==> lines[i] == ""
  }

  function ParseFiles(lines: seq<string>, at: nat, seen: set<string>, count: nat): Parsed<seq<FilePatch>>
    requires at <= |lines|
    decreases |lines| - at
  {
    if at == |lines| then Err(MissingEnd)
    else if lines[at] == END then
      if BlankFrom(lines, at + 1) then Ok([]) else Err(ContentAfterEnd)
    else match ReadHeader(lines[at])
      case None => Err(InvalidMarker)
      case Some(h) =>
        if !ValidPath(h.path) then Err(InvalidPath)
        else if Canonical(h.path) in seen then Err(DuplicatePath)
        else
          var end := BodyEnd(lines, at + 1);
          match ParseFile(h, lines[at + 1..end])
          case Err(e) => Err(e)
          case Ok(file) =>
            if count == MAX_PATCH_FILES then Err(TooManyFiles)
            else Prepend([file], ParseFiles(lines, end, seen + {Canonical(h.path)}, count + 1))
  }

  function ParseLines(lines: seq<string>): Parsed<seq<FilePatch>> {
    if lines == [] || lines[0] != BEGIN then Err(NoBegin)
    else match ParseFiles(lines, 1, {}, 0)
      case Err(e) => Err(e)
      case Ok(files) => if files == [] then Err(NoFiles) else Ok(files)
  }

  function LinesOf(patch: string): seq<string> { Split(NormalizeNewlines(patch), '\n') }

  function Parse(patch: string): Parsed<seq<FilePatch>> {
    if |patch| > MAX_PATCH_CHARS then Err(TooLong) else ParseLines(LinesOf(patch))
  }

  // ---------- Parsing, with the source's loops ----------

  lemma PrependChain<T>(done: seq<T>, one: seq<T>, rest: Parsed<seq<T>>)
    ensures Prepend(done, Prepend(one, rest)) == Prepend(done + one, rest)
    ensures Prepend([], rest) == rest
  {
    if rest.Ok? {
      assert done + (one + rest.value) == done + one + rest.value;
      assert [] + rest.value == rest.value;
    }
  }

  method ReadHunkLines(body: seq<string>, start: nat) returns (result: Parsed<seq<string>>, cursor: nat)
    requires start <= |body|
    ensures result == (if AllHunkLines(body[start..HunkEnd(body, start)]) then Ok(body[start..HunkEnd(body, start)])
                       else Err(InvalidHunkLine))
    ensures result.Ok? ==> cursor == HunkEnd(body, start)
  {
    cursor := start;
    var hunkLines := [];
    while cursor < |body| && !HunkMarker(body[cursor])
      invariant start <= cursor <= |body|
      invariant HunkEnd(body, start) == HunkEnd(body, cursor)
      invariant hunkLines == body[start..cursor] && AllHunkLines(hunkLines)
    {
      var line := body[cursor];
      if !HunkLine(line) {
        assert body[start..HunkEnd(body, start)][cursor - start] == line;
        return Err(InvalidHunkLine), cursor;
      }
      hunkLines := hunkLines + [line];
      cursor := cursor + 1;
    }
    result := Ok(hunkLines);
  }

  method ReadHunks(body: seq<string>) returns (result: Parsed<seq<Hunk>>)
    ensures result == ParseHunks(body, 0)
  {
    var hunks: seq<Hunk> := [];
    var cursor := 0;
    PrependChain(hunks, hunks, ParseHunks(body, 0));
    while cursor < |body|
      invariant 0 <= cursor <= |body|
      invariant ParseHunks(body, 0) == Prepend(hunks, ParseHunks(body, cursor))
    {
      if !HunkMarker(body[cursor]) {
        return Err(NoHunkMarker);
      }
      var hunkLines, next := ReadHunkLines(body, cursor + 1);
      if hunkLines.Err? {
        return Err(hunkLines.error);
      }
      if hunkLines.value == [] {
        return Err(EmptyHunk);
      }
      PrependChain(hunks, [Hunk(hunkLines.value)], ParseHunks(body, next));
      hunks := hunks + [Hunk(hunkLines.value)];
      cursor := next;
    }
    assert hunks + [] == hunks;
    return Ok(hunks);
  }

  method ReadFile(h: Header, body: seq<string>) returns (result: Parsed<FilePatch>)
    ensures result == ParseFile(h, body)
  {
    if h.action == Adding {
      if !AllAdded(body) {
        return Err(AddedLineWithoutPlus);
      }
      return Ok(Add(h.path, DropFirstChars(body)));
    } else if h.action == Deleting {
      if body != [] {
        return Err(DeleteWithBody);
      }
      return Ok(Delete(h.path));
    }
    var hunks := ReadHunks(body);
    if hunks.Err? {
      return Err(hunks.error);
    }
    return if hunks.value == [] then Err(NoHunks) else Ok(Update(h.path, hunks.value));
  }

  method ReadBody(lines: seq<string>, start: nat) returns (body: seq<string>, index: nat)
    requires start <= |lines|
    ensures index == BodyEnd(lines, start) && body == lines[start..index]
  {
    index := start;
    body := [];
    while index < |lines| && !FileMarker(lines[index])
      invariant start <= index <= |lines|
      invariant BodyEnd(lines, start) == BodyEnd(lines, index)
      invariant body == lines[start..index]
    {
      body := body + [lines[index]];
      index := index + 1;
    }
  }

  method ReadFiles(lines: seq<string>) returns (result: Parsed<seq<FilePatch>>)
    requires lines != []
    ensures result == ParseFiles(lines, 1, {}, 0)
  {
    hide ParseFile, ReadHeader, ValidPath, Canonical, BodyEnd, FileMarker, BlankFrom;
    var index := 1;
    var files: seq<FilePatch> := [];
    var seen: set<string> := {};
    PrependChain(files, files, ParseFiles(lines, 1, {}, 0));
    while index < |lines| && lines[index] != END
      invariant 1 <= index <= |lines|
      invariant |files| <= MAX_PATCH_FILES
      invariant ParseFiles(lines, 1, {}, 0) == Prepend(files, ParseFiles(lines, index, seen, |files|))
    {
      var header := ReadHeader(lines[index]);
      if header.None? {
        return Err(InvalidMarker);
      }
      var path := header.value.path;
      if !ValidPath(path) {
        return Err(InvalidPath);
      }
      if Canonical(path) in seen {
        return Err(DuplicatePath);
      }
      var body;
      body, index := ReadBody(lines, index + 1);
      var file := ReadFile(header.value, body);
      if file.Err? {
        return Err(file.error);
      }
      if |files| + 1 > MAX_PATCH_FILES {
        return Err(TooManyFiles);
      }
      PrependChain(files, [file.value], ParseFiles(lines, index, seen + {Canonical(path)}, |files| + 1));
      seen := seen + {Canonical(path)};
      files := files + [file.value];
    }
    if index >= |lines| {
      return Err(MissingEnd);
    }
    if !BlankFrom(lines, index + 1) {
      return Err(ContentAfterEnd);
    }
    assert files + [] == files;
    return Ok(files);
  }

  method ParsePatch(patch: string) returns (result: Parsed<seq<FilePatch>>)
    ensures result == Parse(patch)
  {
    if |patch| > MAX_PATCH_CHARS {
      return Err(TooLong);
    }
    var lines := LinesOf(patch);
    if lines[0] != BEGIN {
      return Err(NoBegin);
    }
    result := ReadFiles(lines);
    if result == Ok([]) {
      return Err(NoFiles);
    }
  }

  // ---------- The accepted texts ----------

  predicate GoodHunk(hunk: Hunk) { hunk.lines != [] && AllHunkLines(hunk.lines) }

  predicate GoodHunks(hunks: seq<Hunk>) {
    forall i :: 0 <= i < |hunks| ==> GoodHunk(hunks[i])
  }

  predicate WellFormedFile(f: FilePatch) {
    ValidPath(f.path) && (f.Update? ==> f.hunks != [] && GoodHunks(f.hunks))
  }

  /** Well-formed files with pairwise distinct canonical paths, none of them in `seen`. */
  predicate WellFormedFrom(files: seq<FilePatch>, seen: set<string>) {
    files == [] ||
    (&& WellFormedFile(files[0])
     && Canonical(files[0].path) !in seen
     && WellFormedFrom(files[1..], seen + {Canonical(files[0].path)}))
  }

  predicate WellFormed(files: seq<FilePatch>) {
    1 <= |files| <= MAX_PATCH_FILES && WellFormedFrom(files, {})
  }

  function HeaderOf(f: FilePatch): Header {
    match f
    case Add(path, _) => Header(Adding, path)
    case Update(path, _) => Header(Updating, path)
    case Delete(path) => Header(Deleting, path)
  }

  function HunksSize(hunks: seq<Hunk>): nat {
    if hunks == [] then 0 else 1 + |hunks[0].lines| + HunksSize(hunks[1..])
  }

  function BodySize(f: FilePatch): nat {
    match f
    case Add(_, lines) => |lines|
    case Update(_, hunks) => HunksSize(hunks)
    case Delete(_) => 0
  }

  /** From `at` on, the body shows the hunks: each is a marker line, whose text after `@@` is free,
      followed by the hunk's lines. */
  predicate RendersHunks(body: seq<string>, at: nat, hunks: seq<Hunk>)
    decreases |hunks|
  {
    if hunks == [] then at == |body|
    else
      var end := at + 1 + |hunks[0].lines|;
      && end <= |body|
      && HunkMarker(body[at])
      && body[at + 1..end] == hunks[0].lines
      && RendersHunks(body, end, hunks[1..])
  }

  predicate RendersBody(body: seq<string>, f: FilePatch) {
    match f
    case Add(_, lines) => |body| == |lines| && forall i :: 0 <= i < |lines| ==> body[i] == "+" + lines[i]
    case Update(_, hunks) => RendersHunks(body, 0, hunks)
    case Delete(_) => body == []
  }

  predicate RendersFiles(lines: seq<string>, at: nat, files: seq<FilePatch>)
    decreases |files|
  {
    if files == [] then at < |lines| && lines[at] == END && BlankFrom(lines, at + 1)
    else
      var end := at + 1 + BodySize(files[0]);
      && end <= |lines|
      && lines[at] == HeaderLine(HeaderOf(files[0]))
      && RendersBody(lines[at + 1..end], files[0])
      && RendersFiles(lines, end, files[1..])
  }

  /** The whole envelope, with any number of blank lines at the end. */
  predicate Renders(lines: seq<string>, files: seq<FilePatch>) {
    lines != [] && lines[0] == BEGIN && RendersFiles(lines, 1, files)
  }

  // ---------- Rendered texts are parsed back ----------

  predicate NoMarkers(lines: seq<string>) {
    forall i :: 0 <= i < |lines| ==> !FileMarker(lines[i])
  }

  lemma HunkLinesAreNotMarkers(lines: seq<string>)
    requires AllHunkLines(lines)
    ensures forall i :: 0 <= i < |lines| ==> !HunkMarker(lines[i]) && !FileMarker(lines[i])
  {
    forall i | 0 <= i < |lines| ensures !HunkMarker(lines[i]) && !FileMarker(lines[i]) {
      assert HunkLine(lines[i]);
    }
  }

  lemma {:induction false} RenderedHunksParse(body: seq<string>, at: nat, hunks: seq<Hunk>)
    requires RendersHunks(body, at, hunks) && GoodHunks(hunks)
    ensures at <= |body| && ParseHunks(body, at) == Ok(hunks)
    ensures at < |body| ==> HunkMarker(body[at])
    ensures forall i :: at <= i < |body| ==> !FileMarker(body[i])
    decreases |hunks|
  {
    if hunks != [] {
      var lines := hunks[0].lines;
      var end := at + 1 + |lines|;
      assert GoodHunk(hunks[0]);
      RenderedHunksParse(body, end, hunks[1..]);
      HunkLinesAreNotMarkers(lines);
      assert forall i :: at + 1 <= i < end ==> body[i] == lines[i - at - 1];
      assert HunkEnd(body, at + 1) == end;
      assert hunks == [Hunk(lines)] + hunks[1..];
      assert body[at][0] == '@';
    }
  }

  lemma {:induction false} RenderedHunksSize(body: seq<string>, at: nat, hunks: seq<Hunk>)
    requires RendersHunks(body, at, hunks)
    ensures |body| == at + HunksSize(hunks)
    decreases |hunks|
  {
    if hunks != [] {
      RenderedHunksSize(body, at + 1 + |hunks[0].lines|, hunks[1..]);
    }
  }

  lemma RenderedBodyParses(f: FilePatch, body: seq<string>)
    requires WellFormedFile(f) && RendersBody(body, f)
    ensures ParseFile(HeaderOf(f), body) == Ok(f)
    ensures NoMarkers(body) && |body| == BodySize(f)
  {
    match f {
      case Add(path, lines) =>
        assert forall i :: 0 <= i < |lines| ==> body[i][1..] == lines[i] && body[i][0] == '+';
        assert DropFirstChars(body) == lines;
      case Update(path, hunks) =>
        RenderedHunksParse(body, 0, hunks);
        RenderedHunksSize(body, 0, hunks);
      case Delete(path) =>
    }
  }

  /** One file read from its header line and body, followed by the rest. */
  lemma ParseFilesStep(lines: seq<string>, at: nat, f: FilePatch, seen: set<string>, count: nat)
    requires WellFormedFile(f) && Canonical(f.path) !in seen && count < MAX_PATCH_FILES
    requires at + 1 + BodySize(f) < |lines| && FileMarker(lines[at + 1 + BodySize(f)])
    requires lines[at] == HeaderLine(HeaderOf(f))
    requires RendersBody(lines[at + 1..at + 1 + BodySize(f)], f)
    ensures ParseFiles(lines, at, seen, count) ==
            Prepend([f], ParseFiles(lines, at + 1 + BodySize(f), seen + {Canonical(f.path)}, count + 1))
    ensures FileMarker(lines[at])
  {
    var end := at + 1 + BodySize(f);
    var body := lines[at + 1..end];
    HeaderReadsBack(HeaderOf(f));
    RenderedBodyParses(f, body);
    hide RendersBody, GoodHunks, HeaderLine, ReadHeader, ParseFile, Canonical, ValidPath;
    assert forall i :: at + 1 <= i < end ==> lines[i] == body[i - at - 1];
    assert BodyEnd(lines, at + 1) == end;
  }

  lemma {:induction false} RenderedFilesParse(lines: seq<string>, at: nat, files: seq<FilePatch>,
                                              seen: set<string>, count: nat)
    requires RendersFiles(lines, at, files) && WellFormedFrom(files, seen) && count + |files| <= MAX_PATCH_FILES
    ensures at < |lines| && FileMarker(lines[at])
    ensures ParseFiles(lines, at, seen, count) == Ok(files)
    decreases |files|
  {
    hide RendersBody, ValidPath, Canonical, GoodHunks, ParseFile, BodyEnd, WellFormedFile, ReadHeader, HeaderLine;
    if files != [] {
      var f := files[0];
      RenderedFilesParse(lines, at + 1 + BodySize(f), files[1..], seen + {Canonical(f.path)}, count + 1);
      ParseFilesStep(lines, at, f, seen, count);
      assert files == [f] + files[1..];
    }
  }

  // ---------- Parsed texts are rendered ----------

  lemma {:induction false} ParsedHunksRender(body: seq<string>, at: nat)
    requires at <= |body| && ParseHunks(body, at).Ok?
    ensures var hunks := ParseHunks(body, at).value; RendersHunks(body, at, hunks) && GoodHunks(hunks)
    decreases |body| - at
  {
    if at < |body| {
      var end := HunkEnd(body, at + 1);
      ParsedHunksRender(body, end);
      assert ParseHunks(body, at).value[1..] == ParseHunks(body, end).value;
    }
  }

  lemma ParsedFileRenders(h: Header, body: seq<string>)
    requires ParseFile(h, body).Ok? && ValidPath(h.path)
    ensures var f := ParseFile(h, body).value;
            HeaderOf(f) == h && RendersBody(body, f) && WellFormedFile(f) && |body| == BodySize(f)
  {
    match h.action {
      case Adding => assert forall i :: 0 <= i < |body| ==> body[i] == "+" + body[i][1..];
      case Deleting =>
      case Updating =>
        ParsedHunksRender(body, 0);
        RenderedHunksSize(body, 0, ParseHunks(body, 0).value);
    }
  }

  /** One file in front of a rendered, well-formed rest. */
  lemma RendersFilesStep(lines: seq<string>, at: nat, f: FilePatch, rest: seq<FilePatch>, seen: set<string>)
    requires at + 1 + BodySize(f) <= |lines| && lines[at] == HeaderLine(HeaderOf(f))
    requires RendersBody(lines[at + 1..at + 1 + BodySize(f)], f)
    requires RendersFiles(lines, at + 1 + BodySize(f), rest)
    ensures RendersFiles(lines, at, [f] + rest)
    ensures WellFormedFile(f) && Canonical(f.path) !in seen && WellFormedFrom(rest, seen + {Canonical(f.path)}) ==>
              WellFormedFrom([f] + rest, seen)
  {
    var files := [f] + rest;
    assert files[0] == f && files[1..] == rest;
  }

  lemma {:induction false} ParsedFilesRender(lines: seq<string>, at: nat, seen: set<string>, count: nat)
    requires at <= |lines| && count <= MAX_PATCH_FILES && ParseFiles(lines, at, seen, count).Ok?
    ensures var files := ParseFiles(lines, at, seen, count).value;
            && RendersFiles(lines, at, files) && WellFormedFrom(files, seen)
            && count + |files| <= MAX_PATCH_FILES
    decreases |lines| - at
  {
    if lines[at] != END {
      var h := ReadHeader(lines[at]).value;
      var end := BodyEnd(lines, at + 1);
      var body := lines[at + 1..end];
      var f := ParseFile(h, body).value;
      var rest := ParseFiles(lines, end, seen + {Canonical(h.path)}, count + 1).value;
      ReadHeaderIsHeaderLine(lines[at]);
      ParsedFileRenders(h, body);
      ParsedFilesRender(lines, end, seen + {Canonical(h.path)}, count + 1);
      RendersFilesStep(lines, at, f, rest, seen);
    }
  }

  // ---------- Accepted paths ----------

  /** Two path texts that differ in the direction of their slashes at most. */
  predicate SamePath(a: string, b: string) {
    && |a| == |b|
    && forall k :: 0 <= k < |a| ==> a[k] == b[k] || (a[k] in {'/', '\\'} && b[k] in {'/', '\\'})
  }

  lemma CanonicalIffSame(a: string, b: string)
    ensures Canonical(a) == Canonical(b) <==> SamePath(a, b)
  {
    var x, y := Canonical(a), Canonical(b);
    if x == y {
      forall k | 0 <= k < |a| ensures a[k] == b[k] || (a[k] in {'/', '\\'} && b[k] in {'/', '\\'}) {
        assert x[k] == y[k];
      }
    }
  }

  lemma {:induction false} WellFormedPaths(files: seq<FilePatch>, seen: set<string>, i: nat, j: nat)
    requires WellFormedFrom(files, seen) && i < j <= |files|
    ensures ValidPath(files[i].path) && Canonical(files[i].path) !in seen
    ensures j < |files| ==> ValidPath(files[j].path) && Canonical(files[j].path) != Canonical(files[i].path)
    decreases |files|
  {
    var more := seen + {Canonical(files[0].path)};
    if i > 0 {
      assert files[1..][i - 1] == files[i];
      WellFormedPaths(files[1..], more, i - 1, j - 1);
    } else if j < |files| {
      assert files[1..][j - 1] == files[j];
      WellFormedPaths(files[1..], more, j - 1, |files| - 1);
    }
    if j < |files| { assert files[1..][j - 1] == files[j]; }
  }

  /** The paths of an accepted patch: not empty, not absolute, without a colon, no component that leads
      upwards or names protected metadata in any case of ASCII letters, and no two the same but for the
      direction of their slashes. */
  lemma AcceptedPaths(patch: string, files: seq<FilePatch>, i: nat, j: nat)
    requires Parse(patch) == Ok(files) && i < j <= |files|
    ensures var path := files[i].path;
            && path != "" && path[0] != '/' && (forall k :: 0 <= k < |path| ==> path[k] != ':')
            && (forall part :: part in Split(path, '/') ==>
                  && part != ".."
                  && (|part| == 4 ==> !(part[0] == '.' && part[1] in "gG" && part[2] in "iI" && part[3] in "tT"))
                  && Lower(part) != ".coding-kid")
            && (j < |files| ==> !SamePath(path, files[j].path))
  {
    ParseIsExact(patch, files);
    WellFormedPaths(files, {}, i, j);
    if j < |files| { CanonicalIffSame(files[i].path, files[j].path); }
    var path := files[i].path;
    forall part | part in Split(path, '/') && |part| == 4
      ensures !(part[0] == '.' && part[1] in "gG" && part[2] in "iI" && part[3] in "tT")
    {
      assert part[0] == '.' && part[1] in "gG" && part[2] in "iI" && part[3] in "tT" ==> Lower(part) == ".git";
    }
  }

  // ---------- Main results ----------

  /** The parser accepts exactly the renderings of well-formed file lists within the size limit,
      and returns the list that was rendered. */
  lemma ParseIsExact(patch: string, files: seq<FilePatch>)
    ensures Parse(patch) == Ok(files) <==>
            |patch| <= MAX_PATCH_CHARS && WellFormed(files) && Renders(LinesOf(patch), files)
  {
    var lines := LinesOf(patch);
    if lines[0] == BEGIN {
      if ParseFiles(lines, 1, {}, 0).Ok? {
        ParsedFilesRender(lines, 1, {}, 0);
      }
      if RendersFiles(lines, 1, files) && WellFormed(files) {
        RenderedFilesParse(lines, 1, files, {}, 0);
      }
    }
  }

  // ---------- The printed form ----------

  function PrintHunks(hunks: seq<Hunk>): seq<string> {
    if hunks == [] then [] else ["@@"] + hunks[0].lines + PrintHunks(hunks[1..])
  }

  function PrintBody(f: FilePatch): seq<string> {
    match f
    case Add(_, lines) => seq(|lines|, i requires 0 <= i < |lines| => "+" + lines[i])
    case Update(_, hunks) => PrintHunks(hunks)
    case Delete(_) => []
  }

  function PrintFiles(files: seq<FilePatch>): seq<string> {
    if files == [] then [END]
    else [HeaderLine(HeaderOf(files[0]))] + PrintBody(files[0]) + PrintFiles(files[1..])
  }

  function Print(files: seq<FilePatch>): string { Join([BEGIN] + PrintFiles(files), '\n') }

  predicate NoLineBreaks(s: string) { '\n' !in s && '\r' !in s }

  predicate LineBreakFree(lines: seq<string>) {
    forall i :: 0 <= i < |lines| ==> NoLineBreaks(lines[i])
  }

  predicate PrintableFile(f: FilePatch) {
    && NoLineBreaks(f.path)
    && (f.Add? ==> LineBreakFree(f.lines))
    && (f.Update? ==> forall i :: 0 <= i < |f.hunks| ==> LineBreakFree(f.hunks[i].lines))
  }

  predicate Printable(files: seq<FilePatch>) {
    forall i :: 0 <= i < |files| ==> PrintableFile(files[i])
  }

  /** Where the parts of `[head] + body + tail` are when it is the end of `lines`. */
  lemma LayOut(lines: seq<string>, at: nat, head: string, body: seq<string>, tail: seq<string>)
    requires at <= |lines| && lines[at..] == [head] + body + tail
    ensures at + 1 + |body| <= |lines| && lines[at] == head
    ensures lines[at + 1..at + 1 + |body|] == body && lines[at + 1 + |body|..] == tail
  {
    var rest := lines[at..];
    assert rest[0] == lines[at];
    assert rest[1..1 + |body|] == lines[at + 1..at + 1 + |body|];
    assert rest[1 + |body|..] == lines[at + 1 + |body|..];
  }

  lemma LineBreakFreeParts(head: string, body: seq<string>, tail: seq<string>)
    requires NoLineBreaks(head) && LineBreakFree(body) && LineBreakFree(tail)
    ensures LineBreakFree([head] + body + tail)
  {
  }

  lemma {:induction false} PrintHunksRenders(lines: seq<string>, at: nat, hunks: seq<Hunk>)
    requires at <= |lines| && lines[at..] == PrintHunks(hunks)
    ensures RendersHunks(lines, at, hunks)
    decreases |hunks|
  {
    if hunks != [] {
      LayOut(lines, at, "@@", hunks[0].lines, PrintHunks(hunks[1..]));
      PrintHunksRenders(lines, at + 1 + |hunks[0].lines|, hunks[1..]);
    }
  }

  lemma {:induction false} PrintedHunksAreLineBreakFree(hunks: seq<Hunk>)
    requires forall i :: 0 <= i < |hunks| ==> LineBreakFree(hunks[i].lines)
    ensures LineBreakFree(PrintHunks(hunks))
    decreases |hunks|
  {
    if hunks != [] {
      PrintedHunksAreLineBreakFree(hunks[1..]);
      LineBreakFreeParts("@@", hunks[0].lines, PrintHunks(hunks[1..]));
    }
  }

  lemma PrintBodyRenders(f: FilePatch)
    ensures RendersBody(PrintBody(f), f) && |PrintBody(f)| == BodySize(f)
  {
    if f.Update? {
      PrintHunksRenders(PrintBody(f), 0, f.hunks);
      RenderedHunksSize(PrintBody(f), 0, f.hunks);
    }
  }

  lemma {:induction false} PrintFilesRenders(lines: seq<string>, at: nat, files: seq<FilePatch>)
    requires at <= |lines| && lines[at..] == PrintFiles(files)
    ensures RendersFiles(lines, at, files)
    decreases |files|
  {
    if files == [] {
      assert lines[at] == lines[at..][0];
    } else {
      var f := files[0];
      LayOut(lines, at, HeaderLine(HeaderOf(f)), PrintBody(f), PrintFiles(files[1..]));
      PrintBodyRenders(f);
      PrintFilesRenders(lines, at + 1 + BodySize(f), files[1..]);
    }
  }

  lemma PrintedFileIsLineBreakFree(f: FilePatch)
    requires PrintableFile(f)
    ensures LineBreakFree(PrintBody(f)) && NoLineBreaks(HeaderLine(HeaderOf(f)))
  {
    if f.Update? {
      PrintedHunksAreLineBreakFree(f.hunks);
    }
  }

  lemma {:induction false} PrintedFilesAreLineBreakFree(files: seq<FilePatch>)
    requires Printable(files)
    ensures LineBreakFree(PrintFiles(files))
    decreases |files|
  {
    if files == [] {
      assert NoLineBreaks(END);
    } else {
      PrintedFileIsLineBreakFree(files[0]);
      PrintedFilesAreLineBreakFree(files[1..]);
      LineBreakFreeParts(HeaderLine(HeaderOf(files[0])), PrintBody(files[0]), PrintFiles(files[1..]));
    }
  }

  /** Printing a well-formed list of changes and parsing the text gives the list back. */
  lemma PrintThenParse(files: seq<FilePatch>)
    requires WellFormed(files) && Printable(files) && |Print(files)| <= MAX_PATCH_CHARS
    ensures Parse(Print(files)) == Ok(files)
  {
    hide Parse, WellFormed, Printable, PrintFiles, RendersFiles, Split, Join, NormalizeNewlines;
    var lines := [BEGIN] + PrintFiles(files);
    PrintFilesRenders(lines, 1, files);
    PrintedFilesAreLineBreakFree(files);
    assert LineBreakFree(lines) by {
      assert NoLineBreaks(BEGIN);
    }
    JoinHasNoCr(lines);
    NormalizeWithoutCr(Print(files));
    SplitJoin(lines, '\n');
    ParseIsExact(Print(files), files);
  }

  /** No printed body line can be taken for a file marker, and no hunk line for a hunk marker. */
  lemma PrintedBodyLinesAreNotMarkers(f: FilePatch)
    requires WellFormedFile(f) && PrintableFile(f)
    ensures NoMarkers(PrintBody(f))
    ensures f.Update? ==> forall i, j :: 0 <= i < |f.hunks| && 0 <= j < |f.hunks[i].lines| ==>
                            !HunkMarker(f.hunks[i].lines[j])
  {
    PrintBodyRenders(f);
    RenderedBodyParses(f, PrintBody(f));
    if f.Update? {
      forall i | 0 <= i < |f.hunks|
        ensures forall j :: 0 <= j < |f.hunks[i].lines| ==> !HunkMarker(f.hunks[i].lines[j])
      {
        assert GoodHunk(f.hunks[i]);
        HunkLinesAreNotMarkers(f.hunks[i].lines);
      }
    }
  }
}
