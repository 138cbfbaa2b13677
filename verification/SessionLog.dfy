/** The append-only JSONL log of one session: line splitting, the hash chain, reading with a
    torn final line, and truncation of an incomplete tail. */
module SessionLog {
  import opened Basics
  import opened SessionRecords

  const LF: byte := 10
  const CR: byte := 13

  /** What `json.loads` makes of one raw line. `NotObject` stands for a JSON value that is not an
      object (the reader then fails with an attribute error), `Keyless` for an object that lacks
      one of the three chain fields. */
  datatype Parsed = Malformed | NotObject | Keyless | Object(record: Record)

  /** The canonical encoder, the JSON reader and the hash, as parameters of the whole model. */
  datatype Codec = Codec(
    canonical: Record -> Bytes,
    parse: Bytes -> Parsed,
    digest: (Bytes, Body) -> Bytes)
  {
    /** The canonical line of `r` contains no line break, reads back to `r` (with or without the
        newline), and no strict prefix of it is valid JSON. */
    ghost predicate FaithfulFor(r: Record) {
      && canonical(r) != []
      && parse(canonical(r)) == Object(r)
      && parse(canonical(r) + [LF]) == Object(r)
      && LF !in canonical(r) && CR !in canonical(r)
      && forall k: nat :: k < |canonical(r)| ==> parse(canonical(r)[..k]) == Malformed
    }

    ghost predicate Faithful() {
      forall r: Record :: FaithfulFor(r)
    }

    /** A non-empty piece of the line of `r` followed by the whole line of `s` is not valid JSON. */
    ghost predicate NoSplicingFor(r: Record, s: Record) {
      forall k: nat :: 0 < k <= |canonical(r)| ==> parse(canonical(r)[..k] + canonical(s) + [LF]) == Malformed
    }

    ghost predicate NoSplicing() {
      forall r: Record, s: Record :: NoSplicingFor(r, s)
    }

    /** Cutting one line that reads as an object leaves the same object, or a piece that is not
        JSON and has lost its line break. */
    ghost predicate StableFor(line: Bytes) {
      FirstLine(line) == |line| && parse(line).Object? ==>
        forall k: nat :: k <= |line| ==>
          || parse(line[..k]) == parse(line)
          || (parse(line[..k]) == Malformed && !Complete(line[..k]))
    }

    ghost predicate PrefixStable() {
      forall line: Bytes :: StableFor(line)
    }

    /** The hash is injective in the record body. */
    ghost predicate Distinguishes(p: Bytes, b: Body, q: Bytes, d: Body) {
      digest(p, b) == digest(q, d) ==> b == d
    }

    ghost predicate CollisionFree() {
      forall p: Bytes, b: Body, q: Bytes, d: Body :: Distinguishes(p, b, q, d)
    }
  }

  datatype LogError = InvalidJson | BrokenChain | NoCreationRecord | ReaderCrash

  function LastHash(records: seq<Record>): Bytes {
    if records == [] then [] else records[|records| - 1].hash
  }

  function MakeRecord(c: Codec, sequence: int, previous: Bytes, timestamp: int, payload: Payload): Record {
    var body := Body(sequence, previous, timestamp, payload);
    Record(body, c.digest(previous, body))
  }

  /** `r` may follow `records`: its sequence number, previous hash and own hash all fit. */
  predicate Links(c: Codec, records: seq<Record>, r: Record) {
    && r.body.sequence == |records|
    && r.body.previous == LastHash(records)
    && r.hash == c.digest(LastHash(records), r.body)
  }

  ghost predicate Chain(c: Codec, records: seq<Record>) {
    records == [] ||
    var last := |records| - 1;
    Chain(c, records[..last]) && Links(c, records[..last], records[last])
  }

  /** A log the application may resume: a chain that starts with a creation record. */
  ghost predicate ValidLog(c: Codec, records: seq<Record>) {
    Chain(c, records) && records != [] && records[0].body.payload.Created?
  }

  // ---------- Lines ----------

  /** Length of the first line, its terminator included: `\n`, `\r` and `\r\n` all end a line. */
  function FirstLine(data: Bytes): (n: nat)
    ensures n <= |data|
    ensures data != [] ==> n > 0
  {
    if data == [] then 0
    else if data[0] == LF then 1
    else if data[0] == CR then (if |data| > 1 && data[1] == LF then 2 else 1)
    else 1 + FirstLine(data[1..])
  }

  function SplitLines(data: Bytes): seq<Bytes> {
    if data == [] then []
    else [data[..FirstLine(data)]] + SplitLines(data[FirstLine(data)..])
  }

  predicate Complete(line: Bytes) {
    line != [] && line[|line| - 1] in {LF, CR}
  }

  function Line(c: Codec, r: Record): Bytes {
    c.canonical(r) + [LF]
  }

  function EncodeLog(c: Codec, records: seq<Record>): Bytes {
    if records == [] then []
    else EncodeLog(c, records[..|records| - 1]) + Line(c, records[|records| - 1])
  }

  // ---------- Reading ----------

  function ReadLines(c: Codec, lines: seq<Bytes>, records: seq<Record>): Result<seq<Record>, LogError>
    decreases |lines|
  {
    if lines == [] then Ok(records)
    else match c.parse(lines[0])
      case Malformed =>
        if |lines| == 1 && !Complete(lines[0]) then Ok(records) else Err(InvalidJson)
      case NotObject => Err(ReaderCrash)
      case Keyless => Err(BrokenChain)
      case Object(r) =>
        if Links(c, records, r) then ReadLines(c, lines[1..], records + [r]) else Err(BrokenChain)
  }

  function ReadLog(c: Codec, data: Bytes): Result<seq<Record>, LogError> {
    match ReadLines(c, SplitLines(data), [])
    case Err(e) => Err(e)
    case Ok(records) =>
      if records == [] || !records[0].body.payload.Created? then Err(NoCreationRecord) else Ok(records)
  }

  /** The reader as the loop the source runs. */
  method ReadRecords(c: Codec, data: Bytes) returns (result: Result<seq<Record>, LogError>)
    ensures result == ReadLog(c, data)
  {
    var lines := SplitLines(data);
    var records: seq<Record> := [];
    var previous: Bytes := [];
    var index := 0;
    while index < |lines|
      invariant 0 <= index <= |lines|
      invariant previous == LastHash(records)
      invariant ReadLines(c, lines, []) == ReadLines(c, lines[index..], records)
    {
      var line := lines[index];
      assert lines[index..][0] == line && lines[index..][1..] == lines[index + 1..];
      match c.parse(line) {
        case Malformed =>
          if index == |lines| - 1 && !Complete(line) {
            break;
          }
          return Err(InvalidJson);
        case NotObject =>
          return Err(ReaderCrash);
        case Keyless =>
          return Err(BrokenChain);
        case Object(r) =>
          if r.body.sequence != |records| || r.body.previous != previous {
            return Err(BrokenChain);
          }
          var expected := c.digest(previous, r.body);
          if r.hash != expected {
            return Err(BrokenChain);
          }
          records := records + [r];
          previous := expected;
      }
      index := index + 1;
    }
    if records == [] || !records[0].body.payload.Created? {
      return Err(NoCreationRecord);
    }
    return Ok(records);
  }

  /** Everything after the last `\n`, unless the data already ends with a line break. */
  function TruncateTail(data: Bytes): Bytes {
    if data == [] || data[|data| - 1] in {LF, CR} then data else data[..AfterLastLf(data)]
  }

  function AfterLastLf(data: Bytes): (n: nat)
    ensures n <= |data|
  {
    if data == [] then 0
    else if data[|data| - 1] == LF then |data|
    else AfterLastLf(data[..|data| - 1])
  }

  lemma {:induction false} AfterLastLfIsLast(data: Bytes)
    ensures var n := AfterLastLf(data); (n == 0 || data[n - 1] == LF) && LF !in data[n..]
  {
    if data != [] && data[|data| - 1] != LF {
      AfterLastLfIsLast(data[..|data| - 1]);
      var n := AfterLastLf(data);
      assert data[n..] == data[..|data| - 1][n..] + [data[|data| - 1]];
    }
  }

  /** A file that ends in a line break of either kind is left as it is; any other is cut behind its last
      newline, to nothing if it has none. */
  lemma TruncationCutsOnlyThePiece(data: Bytes)
    ensures var left := TruncateTail(data);
            if data == [] || data[|data| - 1] == LF || data[|data| - 1] == CR then left == data
            else && left <= data && LF !in data[|left|..] && (left == [] || left[|left| - 1] == LF)
  {
    AfterLastLfIsLast(data);
  }

  // ---------- Accepted logs are chains ----------

  lemma ChainExtend(c: Codec, records: seq<Record>, r: Record)
    requires Chain(c, records) && Links(c, records, r)
    ensures Chain(c, records + [r])
  {
    assert (records + [r])[..|records|] == records;
  }

  lemma {:induction false} ChainLink(c: Codec, records: seq<Record>, n: nat)
    requires Chain(c, records) && n < |records|
    ensures Links(c, records[..n], records[n])
  {
    var last := |records| - 1;
    if n < last {
      ChainLink(c, records[..last], n);
      assert records[..last][..n] == records[..n];
    }
  }

  lemma {:induction false} ReadLinesChain(c: Codec, lines: seq<Bytes>, records: seq<Record>)
    requires Chain(c, records) && ReadLines(c, lines, records).Ok?
    ensures Chain(c, ReadLines(c, lines, records).value)
    decreases |lines|
  {
    if lines != [] && c.parse(lines[0]).Object? {
      var r := c.parse(lines[0]).record;
      ChainExtend(c, records, r);
      ReadLinesChain(c, lines[1..], records + [r]);
    }
  }

  /** Whatever bytes are on disk, an accepted log is one hash chain from its creation record. */
  lemma AcceptedLogIsChain(c: Codec, data: Bytes)
    requires ReadLog(c, data).Ok?
    ensures ValidLog(c, ReadLog(c, data).value)
  {
    ReadLinesChain(c, SplitLines(data), []);
  }

  /** The last hash commits to the whole history. */
  lemma {:induction false} SameLastHashSameHistory(c: Codec, a: seq<Record>, b: seq<Record>)
    requires c.CollisionFree()
    requires Chain(c, a) && Chain(c, b) && a != [] && b != []
    requires LastHash(a) == LastHash(b)
    ensures a == b
    decreases |a|
  {
    var m, n := |a| - 1, |b| - 1;
    assert c.Distinguishes(LastHash(a[..m]), a[m].body, LastHash(b[..n]), b[n].body);
    assert m == n && a[m] == b[n];
    if m > 0 {
      SameLastHashSameHistory(c, a[..m], b[..n]);
    }
    assert a == a[..m] + [a[m]] && b == b[..n] + [b[n]];
  }

  /** Two accepted logs with the same final hash hold the same records, whatever their bytes. */
  lemma FinalHashCommitsToLog(c: Codec, data: Bytes, other: Bytes)
    requires c.CollisionFree()
    requires ReadLog(c, data).Ok? && ReadLog(c, other).Ok?
    ensures LastHash(ReadLog(c, data).value) == LastHash(ReadLog(c, other).value)
            <==> ReadLog(c, data) == ReadLog(c, other)
  {
    AcceptedLogIsChain(c, data);
    AcceptedLogIsChain(c, other);
    if LastHash(ReadLog(c, data).value) == LastHash(ReadLog(c, other).value) {
      SameLastHashSameHistory(c, ReadLog(c, data).value, ReadLog(c, other).value);
    }
  }

  // ---------- Cutting an accepted log ----------

  lemma {:induction false} FirstLineOfPrefix(data: Bytes, k: nat)
    requires k <= |data|
    ensures FirstLine(data[..k]) == if k <= FirstLine(data) then k else FirstLine(data)
  {
    if k > 0 && data[0] != LF && data[0] != CR {
      assert data[..k][1..] == data[1..][..k - 1];
      FirstLineOfPrefix(data[1..], k - 1);
    }
  }

  /** Length of the part of `data` whose lines read as objects; the rest is a torn final line. */
  function ReadableLength(c: Codec, data: Bytes): (n: nat)
    ensures n <= |data|
  {
    if data == [] || !c.parse(data[..FirstLine(data)]).Object? then 0
    else FirstLine(data) + ReadableLength(c, data[FirstLine(data)..])
  }

  /** One readable first line: the reader goes on with the remaining bytes. */
  lemma ReadFirstLine(c: Codec, data: Bytes, records: seq<Record>)
    requires data != [] && c.parse(data[..FirstLine(data)]).Object?
    ensures ReadLines(c, SplitLines(data), records) ==
            var r := c.parse(data[..FirstLine(data)]).record;
            if Links(c, records, r)
            then ReadLines(c, SplitLines(data[FirstLine(data)..]), records + [r])
            else Err(BrokenChain)
  {
    assert SplitLines(data)[0] == data[..FirstLine(data)];
    assert SplitLines(data)[1..] == SplitLines(data[FirstLine(data)..]);
  }

  /** A cut inside a readable first line leaves that record or nothing. */
  lemma CutInsideFirstLine(c: Codec, data: Bytes, k: nat, records: seq<Record>)
    requires c.PrefixStable()
    requires data != [] && c.parse(data[..FirstLine(data)]).Object? && 0 < k <= FirstLine(data)
    requires Links(c, records, c.parse(data[..FirstLine(data)]).record)
    ensures var r := c.parse(data[..FirstLine(data)]).record;
            var read := ReadLines(c, SplitLines(data[..k]), records);
            read == Ok(records + [r]) || (k < FirstLine(data) && read == Ok(records))
  {
    var n := FirstLine(data);
    var piece := data[..k];
    FirstLineOfPrefix(data, n);
    FirstLineOfPrefix(data, k);
    assert c.StableFor(data[..n]);
    assert piece == data[..n][..k];
    assert c.parse(piece) == c.parse(data[..n]) || (c.parse(piece) == Malformed && !Complete(piece));
    assert piece[..k] == piece && piece[k..] == [];
    assert SplitLines(piece) == [piece];
    var noLines: seq<Bytes> := [];
    assert [piece][1..] == noLines;
    assert ReadLines(c, noLines, records + [c.parse(data[..n]).record]) == Ok(records + [c.parse(data[..n]).record]);
  }

  lemma {:induction false} CutReadsPrefix(c: Codec, data: Bytes, k: nat, records: seq<Record>)
    requires c.PrefixStable()
    requires ReadLines(c, SplitLines(data), records).Ok? && k <= ReadableLength(c, data)
    ensures ReadLines(c, SplitLines(data[..k]), records).Ok?
    ensures ReadLines(c, SplitLines(data[..k]), records).value
            <= ReadLines(c, SplitLines(data), records).value
    ensures FirstLine(data) <= k && data != [] ==>
              |ReadLines(c, SplitLines(data[..k]), records).value| > |records|
    decreases |data|
  {
    hide FirstLine, Links;
    if k == 0 {
      assert data[..k] == [];
      ReadLinesGrow(c, SplitLines(data), records);
    } else {
      var n := FirstLine(data);
      var r := c.parse(data[..n]).record;
      ReadFirstLine(c, data, records);
      if k > n {
        ReadFirstLineOfCut(c, data, k, records);
        CutReadsPrefix(c, data[n..], k - n, records + [r]);
        ReadLinesGrow(c, SplitLines(data[n..][..k - n]), records + [r]);
      } else {
        CutInsideFirstLine(c, data, k, records);
        ReadLinesGrow(c, SplitLines(data[n..]), records + [r]);
      }
    }
  }

  /** A cut behind the first line leaves that line whole. */
  lemma ReadFirstLineOfCut(c: Codec, data: Bytes, k: nat, records: seq<Record>)
    requires data != [] && c.parse(data[..FirstLine(data)]).Object? && FirstLine(data) < k <= |data|
    requires Links(c, records, c.parse(data[..FirstLine(data)]).record)
    ensures var n := FirstLine(data);
            ReadLines(c, SplitLines(data[..k]), records)
            == ReadLines(c, SplitLines(data[n..][..k - n]), records + [c.parse(data[..n]).record])
  {
    var n := FirstLine(data);
    FirstLineOfPrefix(data, k);
    assert data[..k][..n] == data[..n] && data[..k][n..] == data[n..][..k - n];
    ReadFirstLine(c, data[..k], records);
  }

  lemma {:induction false} ReadLinesGrow(c: Codec, lines: seq<Bytes>, records: seq<Record>)
    requires ReadLines(c, lines, records).Ok?
    ensures records <= ReadLines(c, lines, records).value
    decreases |lines|
  {
    if lines != [] && c.parse(lines[0]).Object? {
      ReadLinesGrow(c, lines[1..], records + [c.parse(lines[0]).record]);
    }
  }

  /** Cutting an accepted log anywhere from the end of its creation line up to its last readable
      byte gives an accepted log that holds a non-empty prefix of the records. */
  lemma CutLogIsAcceptedPrefix(c: Codec, data: Bytes, k: nat)
    requires c.PrefixStable() && ReadLog(c, data).Ok?
    requires FirstLine(data) <= k <= ReadableLength(c, data)
    ensures ReadLog(c, data[..k]).Ok?
    ensures [] < ReadLog(c, data[..k]).value <= ReadLog(c, data).value
  {
    CutReadsPrefix(c, data, k, []);
  }

  lemma CutOnlyLine(c: Codec, data: Bytes, k: nat)
    requires FirstLine(data) == |data| && 0 < k <= |data|
    ensures SplitLines(data[..k]) == [data[..k]]
  {
    var piece := data[..k];
    FirstLineOfPrefix(data, k);
    assert piece[..k] == piece && piece[k..] == [];
  }

  lemma SliceOfRest(data: Bytes, n: nat, m: nat, k: nat)
    requires n + m <= k <= |data|
    ensures data[n..][m..k - n] == data[n + m..k]
  {
  }

  /** A cut inside the torn final line leaves all records and a piece of that line. */
  lemma {:induction false} CutTornLine(c: Codec, data: Bytes, k: nat, records: seq<Record>)
    requires ReadLines(c, SplitLines(data), records).Ok? && ReadableLength(c, data) < k <= |data|
    ensures ReadLines(c, SplitLines(data[..k]), records) ==
            ReadLines(c, [data[ReadableLength(c, data)..k]], ReadLines(c, SplitLines(data), records).value)
    decreases |data|
  {
    hide SplitLines, Links, FirstLine;
    var n := FirstLine(data);
    if c.parse(data[..n]).Object? {
      var r := c.parse(data[..n]).record;
      ReadFirstLine(c, data, records);
      ReadFirstLineOfCut(c, data, k, records);
      CutTornLine(c, data[n..], k - n, records + [r]);
      SliceOfRest(data, n, ReadableLength(c, data[n..]), k);
    } else {
      CutWholeTornLine(c, data, k, records);
    }
  }

  lemma CutWholeTornLine(c: Codec, data: Bytes, k: nat, records: seq<Record>)
    requires ReadLines(c, SplitLines(data), records).Ok? && 0 < k <= |data|
    requires !c.parse(data[..FirstLine(data)]).Object?
    ensures ReadLines(c, SplitLines(data), records) == Ok(records)
    ensures SplitLines(data[..k]) == [data[0..k]]
  {
    TornLineIsIncomplete(c, data, records);
    assert data[0..] == data && data[0..k] == data[..k];
    CutOnlyLine(c, data, k);
  }

  lemma {:induction false} NoBreakInside(line: Bytes, k: nat)
    requires FirstLine(line) == |line| && !Complete(line) && 0 < k <= |line|
    ensures !Complete(line[..k])
  {
    if k > 1 {
      assert line[..k][1..] == line[1..][..k - 1] && !Complete(line[1..]);
      NoBreakInside(line[1..], k - 1);
    }
  }

  /** What follows the readable part of an accepted log is one line without a line break. */
  lemma {:induction false} TornLineIsIncomplete(c: Codec, data: Bytes, records: seq<Record>)
    requires ReadLines(c, SplitLines(data), records).Ok? && ReadableLength(c, data) < |data|
    ensures var rest := data[ReadableLength(c, data)..]; FirstLine(rest) == |rest| && !Complete(rest)
    decreases |data|
  {
    var n := FirstLine(data);
    assert SplitLines(data)[0] == data[..n] && SplitLines(data)[1..] == SplitLines(data[n..]);
    if c.parse(data[..n]).Object? {
      ReadFirstLine(c, data, records);
      TornLineIsIncomplete(c, data[n..], records + [c.parse(data[..n]).record]);
      assert data[n..][ReadableLength(c, data[n..])..] == data[ReadableLength(c, data)..];
    } else {
      assert data[n..] == [];
      assert data[..n] == data == data[0..];
    }
  }

  /** Cutting an accepted log at any byte at or after the end of its creation line leaves an accepted
      log with a prefix of its records if and only if the cut is not inside a torn final line at a
      point where the piece before it is JSON by itself. */
  lemma CutLogIsAcceptedPrefixIff(c: Codec, data: Bytes, k: nat)
    requires c.PrefixStable() && ReadLog(c, data).Ok? && FirstLine(data) <= k <= |data|
    ensures var n := ReadableLength(c, data);
            ReadLog(c, data[..k]).Ok? && ReadLog(c, data[..k]).value <= ReadLog(c, data).value <==>
            k <= n || c.parse(data[n..k]) == Malformed
  {
    var n := ReadableLength(c, data);
    if k <= n {
      CutLogIsAcceptedPrefix(c, data, k);
    } else {
      CutTornLine(c, data, k, []);
      TornLineIsIncomplete(c, data, []);
      NoBreakInside(data[n..], k - n);
      var piece := data[n..k];
      assert piece == data[n..][..k - n];
      var noLines: seq<Bytes> := [];
      assert [piece][0] == piece && [piece][1..] == noLines;
    }
  }

  // ---------- Logs the application writes ----------

  lemma {:induction false} FirstLineOfCleanLine(text: Bytes, rest: Bytes)
    requires LF !in text && CR !in text
    ensures FirstLine(text + [LF] + rest) == |text| + 1
    ensures FirstLine(text) == |text|
  {
    var whole := text + [LF] + rest;
    if text != [] {
      assert whole[1..] == text[1..] + [LF] + rest;
      assert whole[0] == text[0];
      FirstLineOfCleanLine(text[1..], rest);
    }
  }

  function LinesOf(c: Codec, records: seq<Record>): (lines: seq<Bytes>)
    ensures |lines| == |records|
  {
    seq(|records|, i requires 0 <= i < |records| => Line(c, records[i]))
  }

  lemma {:induction false} EncodeLogCons(c: Codec, records: seq<Record>)
    requires records != []
    ensures EncodeLog(c, records) == Line(c, records[0]) + EncodeLog(c, records[1..])
  {
    var n := |records| - 1;
    if n > 0 {
      EncodeLogCons(c, records[..n]);
      assert records[..n][1..] == records[1..][..n - 1];
      assert records[1..][n - 1] == records[n];
    } else {
      assert records[..n] == [] && records[1..] == [];
    }
  }

  lemma SplitFirstLine(text: Bytes, rest: Bytes)
    requires LF !in text && CR !in text
    ensures SplitLines(text + [LF] + rest) == [text + [LF]] + SplitLines(rest)
  {
    var data := text + [LF] + rest;
    FirstLineOfCleanLine(text, rest);
    assert data[..|text| + 1] == text + [LF] && data[|text| + 1..] == rest;
  }

  lemma SplitOnlyLine(line: Bytes)
    requires FirstLine(line) == |line|
    ensures SplitLines(line) == if line == [] then [] else [line]
  {
    if line != [] {
      assert line[..|line|] == line && line[|line|..] == [];
    }
  }

  /** Splitting an encoded log followed by one more line, whole or partial, gives those lines. */
  lemma {:induction false} SplitEncodedLog(c: Codec, records: seq<Record>, tail: Bytes)
    requires c.Faithful() && FirstLine(tail) == |tail|
    ensures SplitLines(EncodeLog(c, records) + tail)
            == LinesOf(c, records) + (if tail == [] then [] else [tail])
    decreases |records|
  {
    hide SplitLines, FirstLine;
    var data := EncodeLog(c, records) + tail;
    if records == [] {
      assert data == tail;
      SplitOnlyLine(tail);
    } else {
      var text := c.canonical(records[0]);
      var rest := EncodeLog(c, records[1..]) + tail;
      EncodeLogCons(c, records);
      assert c.FaithfulFor(records[0]);
      assert data == text + [LF] + rest;
      SplitFirstLine(text, rest);
      SplitEncodedLog(c, records[1..], tail);
      assert LinesOf(c, records) == [Line(c, records[0])] + LinesOf(c, records[1..]);
    }
  }

  /** Reading written lines one by one collects their records. */
  lemma {:induction false} ReadWrittenLines(c: Codec, records: seq<Record>, n: nat, rest: seq<Bytes>)
    requires c.Faithful() && Chain(c, records) && n <= |records|
    ensures ReadLines(c, LinesOf(c, records)[n..] + rest, records[..n]) == ReadLines(c, rest, records)
    decreases |records| - n
  {
    var lines := LinesOf(c, records)[n..] + rest;
    if n == |records| {
      assert lines == rest && records[..n] == records;
    } else {
      assert c.FaithfulFor(records[n]);
      ChainLink(c, records, n);
      assert lines[0] == Line(c, records[n]) == c.canonical(records[n]) + [LF];
      assert lines[1..] == LinesOf(c, records)[n + 1..] + rest;
      assert records[..n] + [records[n]] == records[..n + 1];
      ReadWrittenLines(c, records, n + 1, rest);
    }
  }

  /** Exactly when a written log followed by one more line is accepted, and with which records. */
  lemma WrittenLogWithTail(c: Codec, records: seq<Record>, tail: Bytes)
    requires c.Faithful() && ValidLog(c, records) && FirstLine(tail) == |tail|
    ensures ReadLog(c, EncodeLog(c, records) + tail) ==
            if tail == [] then Ok(records)
            else match c.parse(tail)
              case Malformed => if Complete(tail) then Err(InvalidJson) else Ok(records)
              case NotObject => Err(ReaderCrash)
              case Keyless => Err(BrokenChain)
              case Object(r) => if Links(c, records, r) then Ok(records + [r]) else Err(BrokenChain)
  {
    SplitEncodedLog(c, records, tail);
    var rest := if tail == [] then [] else [tail];
    ReadWrittenLines(c, records, 0, rest);
    assert LinesOf(c, records)[0..] == LinesOf(c, records) && records[..0] == [];
    if tail != [] {
      assert rest[0] == tail && |rest[1..]| == 0;
    }
  }

  lemma WrittenLogReadsBack(c: Codec, records: seq<Record>)
    requires c.Faithful() && ValidLog(c, records)
    ensures ReadLog(c, EncodeLog(c, records)) == Ok(records)
  {
    assert EncodeLog(c, records) + [] == EncodeLog(c, records);
    WrittenLogWithTail(c, records, []);
  }

  /** A torn piece of a line: whether it is ignored, read as a record, or a complete line. */
  lemma TornLogReadsBack(c: Codec, records: seq<Record>, r: Record, k: nat)
    requires c.Faithful() && ValidLog(c, records) && Links(c, records, r) && k <= |Line(c, r)|
    ensures ReadLog(c, EncodeLog(c, records) + Line(c, r)[..k])
            == if k < |c.canonical(r)| then Ok(records) else Ok(records + [r])
  {
    var text := c.canonical(r);
    var tail := Line(c, r)[..k];
    assert c.FaithfulFor(r);
    FirstLineOfCleanLine(text, []);
    assert text + [LF] + [] == Line(c, r);
    FirstLineOfPrefix(Line(c, r), k);
    if k < |text| {
      assert tail == text[..k] && c.parse(text[..k]) == Malformed;
      if k > 0 { assert tail[k - 1] == text[k - 1] && text[k - 1] in text; }
    } else if k == |text| {
      assert tail == text;
    } else {
      assert tail == text + [LF];
    }
    WrittenLogWithTail(c, records, tail);
  }

  // ---------- Truncating the tail ----------

  lemma {:induction false} AfterLastLfOfTail(data: Bytes, tail: Bytes)
    requires LF !in tail
    ensures AfterLastLf(data + tail) == AfterLastLf(data)
    decreases |tail|
  {
    if tail == [] {
      assert data + tail == data;
    } else {
      var shorter := tail[..|tail| - 1];
      assert (data + tail)[..|data + tail| - 1] == data + shorter;
      AfterLastLfOfTail(data, shorter);
    }
  }

  /** Truncation removes a line-break-free tail and nothing else. */
  lemma TruncateTornLog(c: Codec, records: seq<Record>, tail: Bytes)
    requires records != [] && LF !in tail && CR !in tail
    ensures TruncateTail(EncodeLog(c, records) + tail) == EncodeLog(c, records)
  {
    var data := EncodeLog(c, records);
    assert data[|data| - 1] == LF;
    AfterLastLfOfTail(data, tail);
    if tail == [] {
      assert data + tail == data;
    } else {
      assert (data + tail)[|data + tail| - 1] == tail[|tail| - 1];
      assert (data + tail)[..|data|] == data;
    }
  }
}
