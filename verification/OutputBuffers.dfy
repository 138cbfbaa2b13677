/** Bounded buffers over an unbounded output stream: the first and last bytes, the recent bytes behind
    an incremental cursor, and what the polls of a reader add up to. */
module OutputBuffers {
  import opened Basics

  // ---------- What is kept, said on the whole stream ----------

  function HeadLimit(limit: nat): nat { limit / 2 }

  function TailLimit(limit: nat): nat { limit - HeadLimit(limit) }

  /** Where the kept head ends and the kept tail begins. */
  function HeadEnd(size: nat, limit: nat): nat { Min(size, HeadLimit(limit)) }

  function TailStart(size: nat, limit: nat): (start: nat)
    ensures HeadEnd(size, limit) <= start <= size
  {
    Max(HeadEnd(size, limit), size - TailLimit(limit))
  }

  function RecentStart(size: nat, limit: nat): nat { Max(0, size - limit) }

  function LastBytes(s: Bytes, n: nat): Bytes { s[Max(0, |s| - n)..] }

  lemma LastOfAppended(s: Bytes, c: Bytes, n: nat)
    ensures LastBytes(LastBytes(s, n) + c, n) == LastBytes(s + c, n)
  {
    var start := Max(0, |s| - n);
    assert LastBytes(s, n) + c == (s + c)[start..];
  }

  function KeptHead(stream: Bytes, limit: nat): Bytes { stream[..HeadEnd(|stream|, limit)] }

  function KeptTail(stream: Bytes, limit: nat): Bytes { stream[TailStart(|stream|, limit)..] }

  function KeptRecent(stream: Bytes, limit: nat): Bytes { stream[RecentStart(|stream|, limit)..] }

  lemma TailIsLast(stream: Bytes, limit: nat)
    ensures KeptTail(stream, limit) == LastBytes(stream[HeadEnd(|stream|, limit)..], TailLimit(limit))
  {
  }

  /** How much of a chunk still goes to the head. */
  function Taken(stream: Bytes, chunk: Bytes, limit: nat): (taken: nat)
    ensures taken <= |chunk|
  {
    Min(HeadLimit(limit) - HeadEnd(|stream|, limit), |chunk|)
  }

  lemma HeadAppend(stream: Bytes, chunk: Bytes, limit: nat)
    ensures var taken := Taken(stream, chunk, limit);
            && KeptHead(stream + chunk, limit) == KeptHead(stream, limit) + chunk[..taken]
            && (stream + chunk)[HeadEnd(|stream + chunk|, limit)..] ==
               stream[HeadEnd(|stream|, limit)..] + chunk[taken..]
  {
  }

  lemma TailAppend(stream: Bytes, chunk: Bytes, limit: nat)
    ensures var rest := chunk[Taken(stream, chunk, limit)..];
            KeptTail(stream + chunk, limit) == LastBytes(KeptTail(stream, limit) + rest, TailLimit(limit))
  {
    TailIsLast(stream, limit);
    TailIsLast(stream + chunk, limit);
    HeadAppend(stream, chunk, limit);
    LastOfAppended(stream[HeadEnd(|stream|, limit)..], chunk[Taken(stream, chunk, limit)..], TailLimit(limit));
  }

  /** How many bytes are gone between the kept head and the kept tail. */
  function Gap(stream: Bytes, limit: nat): nat {
    TailStart(|stream|, limit) - HeadEnd(|stream|, limit)
  }

  lemma GapAppend(stream: Bytes, chunk: Bytes, limit: nat)
    ensures var combined := KeptTail(stream, limit) + chunk[Taken(stream, chunk, limit)..];
            Gap(stream + chunk, limit) == Gap(stream, limit) + Max(0, |combined| - TailLimit(limit))
  {
  }

  /** What an append of `chunk` does to the kept head and tail, in the terms of the buffers. */
  lemma AppendFacts(stream: Bytes, chunk: Bytes, limit: nat)
    ensures var head, tail := KeptHead(stream, limit), KeptTail(stream, limit);
            var remaining := HeadLimit(limit) - |head|;
            var taken := if remaining > 0 then Min(remaining, |chunk|) else 0;
            && 0 <= taken <= |chunk|
            && KeptHead(stream + chunk, limit) == head + chunk[..taken]
            && KeptTail(stream + chunk, limit) == LastBytes(tail + chunk[taken..], TailLimit(limit))
            && |tail| <= TailLimit(limit)
            && Gap(stream + chunk, limit) ==
               Gap(stream, limit) + Max(0, |tail + chunk[taken..]| - TailLimit(limit))
  {
    HeadAppend(stream, chunk, limit);
    TailAppend(stream, chunk, limit);
    GapAppend(stream, chunk, limit);
    assert |KeptHead(stream, limit)| == HeadEnd(|stream|, limit);
    hide Gap, LastBytes;
  }

  lemma RecentAppend(stream: Bytes, chunk: Bytes, limit: nat)
    ensures KeptRecent(stream + chunk, limit) == LastBytes(KeptRecent(stream, limit) + chunk, limit)
  {
    LastOfAppended(stream, chunk, limit);
  }

  lemma KeptWhole(stream: Bytes, limit: nat)
    ensures |KeptHead(stream, limit)| + |KeptTail(stream, limit)| <= |stream|
    ensures |KeptHead(stream, limit)| + |KeptTail(stream, limit)| == |stream| ==>
              KeptHead(stream, limit) + KeptTail(stream, limit) == stream
  {
  }

  /** What one poll shows: bytes of the stream, or a marker for bytes that are gone. */
  datatype Part = Shown(bytes: Bytes) | Omitted(count: nat)

  /** The first non-empty view shows head and tail, a later one what is new and still kept. */
  function PartsSince(stream: Bytes, cursor: nat, limit: nat): seq<Part>
    requires cursor <= |stream|
  {
    if cursor == 0 then
      var gap := Gap(stream, limit);
      if gap == 0 then [Shown(stream)]
      else [Shown(KeptHead(stream, limit)), Omitted(gap), Shown(KeptTail(stream, limit))]
    else
      var start := RecentStart(|stream|, limit);
      if cursor < start then [Omitted(start - cursor), Shown(stream[start..])] else [Shown(stream[cursor..])]
  }

  /** The bytes shown for parts, given the texts of the markers. */
  function Rendered(parts: seq<Part>, marker: nat -> Bytes): Bytes {
    if parts == [] then []
    else Rendered(parts[..|parts| - 1], marker) +
         (match parts[|parts| - 1]
          case Shown(bytes) => bytes
          case Omitted(count) => marker(count))
  }

  lemma RenderedShort(a: Bytes, count: nat, b: Bytes, marker: nat -> Bytes)
    ensures Rendered([Shown(a)], marker) == a
    ensures Rendered([Omitted(count), Shown(b)], marker) == marker(count) + b
    ensures Rendered([Shown(a), Omitted(count), Shown(b)], marker) == a + marker(count) + b
  {
    var parts := [Shown(a), Omitted(count), Shown(b)];
    assert parts[..2] == [Shown(a), Omitted(count)] && parts[..2][..1] == [Shown(a)];
    assert [Shown(a)][..0] == [] && [Omitted(count), Shown(b)][..1] == [Omitted(count)];
    assert Rendered([Shown(a)], marker) == a;
    assert Rendered([Omitted(count)], marker) == marker(count);
    assert Rendered([Shown(a), Omitted(count)], marker) == a + marker(count);
  }

  // ---------- The buffers ----------

  /** Drops what exceeds `n` bytes from the front. */
  method Trimmed(buffer: Bytes, n: nat) returns (kept: Bytes)
    ensures kept == LastBytes(buffer, n)
  {
    var overflow := |buffer| - n;
    kept := if overflow > 0 then buffer[overflow..] else buffer;
  }

  class OutputBytes {
    const limit: nat
    var head: Bytes
    var tail: Bytes
    var recent: Bytes
    var total: nat
    ghost var stream: Bytes

    ghost predicate Valid()
      reads this
    {
      && total == |stream|
      && head == KeptHead(stream, limit)
      && tail == KeptTail(stream, limit)
      && recent == KeptRecent(stream, limit)
    }

    constructor (limit: nat)
      ensures Valid() && stream == [] && this.limit == limit
    {
      this.limit := limit;
      head, tail, recent, total, stream := [], [], [], 0, [];
    }

    function OmittedCount(): int
      reads this
    {
      total - |head| - |tail|
    }

    method Append(chunk: Bytes)
      requires Valid()
      modifies this
      ensures Valid() && stream == old(stream) + chunk
    {
      AppendFacts(stream, chunk, limit);
      RecentAppend(stream, chunk, limit);
      hide KeptHead, KeptTail, KeptRecent, Gap;
      stream := stream + chunk;
      total := total + |chunk|;
      recent := Trimmed(recent + chunk, limit);
      var rest := chunk;
      var headRemaining := HeadLimit(limit) - |head|;
      if headRemaining > 0 {
        var taken := Min(headRemaining, |rest|);
        head := head + rest[..taken];
        rest := rest[taken..];
      }
      if rest == [] {
        return;
      }
      tail := Trimmed(tail + rest, TailLimit(limit));
    }

    method Render(gap: nat -> Bytes) returns (output: Bytes)
      requires Valid()
      ensures output == Rendered(PartsSince(stream, 0, limit), gap)
    {
      RenderedShort(stream, 0, [], gap);
      KeptWhole(stream, limit);
      if OmittedCount() == 0 {
        return head + tail;
      }
      RenderedShort(head, OmittedCount(), tail, gap);
      return head + gap(OmittedCount()) + tail;
    }

    method Since(cursor: nat, gap: nat -> Bytes, unread: nat -> Bytes)
      returns (output: Bytes, newCursor: nat, lost: bool)
      requires Valid() && cursor <= total
      ensures output == Rendered(PartsSince(stream, cursor, limit), if cursor == 0 then gap else unread)
      ensures newCursor == |stream|
      ensures lost <==> |PartsSince(stream, cursor, limit)| > 1
    {
      newCursor := total;
      if cursor == 0 {
        output := Render(gap);
        lost := OmittedCount() != 0;
        return;
      }
      var recentStart := total - |recent|;
      var offset := Max(0, Max(cursor, recentStart) - recentStart);
      output := recent[offset..];
      lost := cursor < recentStart;
      RenderedShort(output, 0, [], unread);
      if lost {
        RenderedShort([], recentStart - cursor, output, unread);
        output := unread(recentStart - cursor) + output;
      }
    }
  }

  class HeadTailBytes {
    const limit: nat
    var head: Bytes
    var tail: Bytes
    var omitted: nat
    ghost var stream: Bytes

    ghost predicate Valid()
      reads this
    {
      && head == KeptHead(stream, limit)
      && tail == KeptTail(stream, limit)
      && omitted == Gap(stream, limit)
    }

    constructor (limit: nat)
      ensures Valid() && stream == [] && this.limit == limit
    {
      this.limit := limit;
      head, tail, omitted, stream := [], [], 0, [];
    }

    method Append(chunk: Bytes)
      requires Valid()
      modifies this
      ensures Valid() && stream == old(stream) + chunk
    {
      AppendFacts(stream, chunk, limit);
      hide KeptHead, KeptTail, Gap;
      stream := stream + chunk;
      if chunk == [] {
        return;
      }
      var rest := chunk;
      var headRemaining := HeadLimit(limit) - |head|;
      if headRemaining > 0 {
        var headChunk := rest[..Min(headRemaining, |rest|)];
        head := head + headChunk;
        rest := rest[|headChunk|..];
      }
      if rest == [] {
        return;
      }
      var combined := tail + rest;
      if |combined| > TailLimit(limit) {
        var dropped := |combined| - TailLimit(limit);
        omitted := omitted + dropped;
        combined := combined[dropped..];
      }
      tail := combined;
    }

    method Render(gap: nat -> Bytes) returns (output: Bytes)
      requires Valid()
      ensures output == Rendered(PartsSince(stream, 0, limit), gap)
    {
      RenderedShort(stream, 0, [], gap);
      KeptWhole(stream, limit);
      if omitted == 0 {
        return head + tail;
      }
      RenderedShort(head, omitted, tail, gap);
      return head + gap(omitted) + tail;
    }
  }

  lemma JoinedOneMore(chunks: seq<Bytes>, i: nat)
    requires i < |chunks|
    ensures Joined(chunks[..i + 1]) == Joined(chunks[..i]) + chunks[i]
  {
    assert chunks[..i + 1][..i] == chunks[..i];
  }

  method FeedTask(limit: nat, chunks: seq<Bytes>) returns (task: OutputBytes)
    ensures task.Valid() && task.limit == limit && task.stream == Joined(chunks)
  {
    hide KeptHead, KeptTail, KeptRecent, HeadEnd, TailStart;
    task := new OutputBytes(limit);
    var i := 0;
    while i < |chunks|
      invariant 0 <= i <= |chunks| && task.limit == limit && task.Valid()
      invariant task.stream == Joined(chunks[..i]) && fresh(task)
    {
      task.Append(chunks[i]);
      JoinedOneMore(chunks, i);
      i := i + 1;
    }
    assert chunks[..i] == chunks;
  }

  method FeedCommand(limit: nat, chunks: seq<Bytes>) returns (command: HeadTailBytes)
    ensures command.Valid() && command.limit == limit && command.stream == Joined(chunks)
  {
    hide KeptHead, KeptTail, HeadEnd, TailStart;
    command := new HeadTailBytes(limit);
    var i := 0;
    while i < |chunks|
      invariant 0 <= i <= |chunks| && command.limit == limit && command.Valid()
      invariant command.stream == Joined(chunks[..i]) && fresh(command)
    {
      command.Append(chunks[i]);
      JoinedOneMore(chunks, i);
      i := i + 1;
    }
    assert chunks[..i] == chunks;
  }

  /** After the same stream, in whatever chunks it came, both buffers hold the same head and tail and
      agree on what is missing. */
  method FeedBoth(limit: nat, chunks: seq<Bytes>, otherChunks: seq<Bytes>)
    returns (head: Bytes, tail: Bytes, omitted: int, otherHead: Bytes, otherTail: Bytes, otherOmitted: int)
    requires Joined(chunks) == Joined(otherChunks)
    ensures head == otherHead && tail == otherTail && omitted == otherOmitted
    ensures head <= Joined(chunks) && 0 <= omitted && |head| + omitted + |tail| == |Joined(chunks)|
    ensures tail == Joined(chunks)[|head| + omitted..]
  {
    var task := FeedTask(limit, chunks);
    head, tail, omitted := task.head, task.tail, task.OmittedCount();
    var command := FeedCommand(limit, otherChunks);
    otherHead, otherTail, otherOmitted := command.head, command.tail, command.omitted;
  }

  function Joined(chunks: seq<Bytes>): Bytes {
    if chunks == [] then [] else Joined(chunks[..|chunks| - 1]) + chunks[|chunks| - 1]
  }

  // ---------- Polls ----------

  datatype Event = Chunk(bytes: Bytes) | Poll

  /** The stream so far, the reader's cursor, and all parts its polls have shown. */
  datatype Reader = Reader(stream: Bytes, cursor: nat, parts: seq<Part>)

  function Next(r: Reader, e: Event, limit: nat): Reader
    requires r.cursor <= |r.stream|
  {
    match e
    case Chunk(bytes) => r.(stream := r.stream + bytes)
    case Poll => Reader(r.stream, |r.stream|, r.parts + PartsSince(r.stream, r.cursor, limit))
  }

  function Run(r: Reader, events: seq<Event>, limit: nat): (after: Reader)
    requires r.cursor <= |r.stream|
    ensures after.cursor <= |after.stream|
    decreases |events|
  {
    if events == [] then r else Run(Next(r, events[0], limit), events[1..], limit)
  }

  /** All bytes that arrive in a run. */
  function Arrived(events: seq<Event>): Bytes {
    if events == [] then [] else (if events[0].Chunk? then events[0].bytes else []) + Arrived(events[1..])
  }

  /** The stream of a reader is what it was and all that arrived, and a reader that polls last is at its end. */
  lemma {:induction false} StreamIsWhatArrived(r: Reader, events: seq<Event>, limit: nat)
    requires r.cursor <= |r.stream|
    ensures Run(r, events, limit).stream == r.stream + Arrived(events)
    ensures events != [] && events[|events| - 1].Poll? ==>
              Run(r, events, limit).cursor == |r.stream| + |Arrived(events)|
    decreases |events|
  {
    if events != [] {
      var next := Next(r, events[0], limit);
      StreamIsWhatArrived(next, events[1..], limit);
      if |events| == 1 {
        assert Run(next, events[1..], limit) == next;
      }
    }
  }

  /** The parts cover positions `from` to `to` of the stream, in order, without gap or overlap: a
      shown part is exactly those bytes, an omission stands for that many. */
  predicate Tiles(stream: Bytes, from: nat, parts: seq<Part>, to: nat)
    decreases |parts|
  {
    if parts == [] then from == to && to <= |stream|
    else
      match parts[0]
      case Shown(bytes) =>
        && from + |bytes| <= |stream| && stream[from..from + |bytes|] == bytes
        && Tiles(stream, from + |bytes|, parts[1..], to)
      case Omitted(count) => Tiles(stream, from + count, parts[1..], to)
  }

  lemma {:induction false} TilesGrow(stream: Bytes, more: Bytes, from: nat, parts: seq<Part>, to: nat)
    requires Tiles(stream, from, parts, to)
    ensures Tiles(stream + more, from, parts, to)
    decreases |parts|
  {
    if parts != [] {
      match parts[0] {
        case Shown(bytes) =>
          assert (stream + more)[from..from + |bytes|] == bytes;
          TilesGrow(stream, more, from + |bytes|, parts[1..], to);
        case Omitted(count) =>
          TilesGrow(stream, more, from + count, parts[1..], to);
      }
    }
  }

  lemma {:induction false} TilesJoin(stream: Bytes, from: nat, a: seq<Part>, middle: nat, b: seq<Part>, to: nat)
    requires Tiles(stream, from, a, middle) && Tiles(stream, middle, b, to)
    ensures Tiles(stream, from, a + b, to)
    decreases |a|
  {
    if a == [] {
      assert a + b == b;
    } else {
      assert (a + b)[1..] == a[1..] + b;
      match a[0] {
        case Shown(bytes) => TilesJoin(stream, from + |bytes|, a[1..], middle, b, to);
        case Omitted(count) => TilesJoin(stream, from + count, a[1..], middle, b, to);
      }
    }
  }

  lemma OneTile(stream: Bytes, from: nat)
    requires from <= |stream|
    ensures Tiles(stream, from, [Shown(stream[from..])], |stream|)
  {
    assert [Shown(stream[from..])][1..] == [];
  }

  lemma PollTiles(stream: Bytes, cursor: nat, limit: nat)
    requires cursor <= |stream|
    ensures Tiles(stream, cursor, PartsSince(stream, cursor, limit), |stream|)
  {
    var parts := PartsSince(stream, cursor, limit);
    if cursor == 0 {
      OneTile(stream, 0);
      assert stream[0..] == stream;
      var head, tail := HeadEnd(|stream|, limit), TailStart(|stream|, limit);
      if head != tail {
        OneTile(stream, tail);
        assert stream[0..head] == KeptHead(stream, limit);
        assert parts[1..] == [Omitted(tail - head), Shown(stream[tail..])];
        assert parts[1..][1..] == [Shown(stream[tail..])];
      }
    } else {
      var start := RecentStart(|stream|, limit);
      OneTile(stream, Max(cursor, start));
      if cursor < start {
        assert parts[1..] == [Shown(stream[start..])];
      }
    }
  }

  /** Poll accounting is exact for every chunking and every poll schedule: what all polls showed tiles
      the stream up to the cursor. */
  lemma {:induction false} PollsTileTheStream(r: Reader, events: seq<Event>, limit: nat)
    requires Tiles(r.stream, 0, r.parts, r.cursor)
    ensures r.cursor <= |r.stream|
    ensures var after := Run(r, events, limit); Tiles(after.stream, 0, after.parts, after.cursor)
    decreases |events|
  {
    TilesEnd(r.stream, 0, r.parts, r.cursor);
    if events != [] {
      match events[0] {
        case Chunk(bytes) =>
          TilesGrow(r.stream, bytes, 0, r.parts, r.cursor);
        case Poll =>
          PollTiles(r.stream, r.cursor, limit);
          TilesJoin(r.stream, 0, r.parts, r.cursor, PartsSince(r.stream, r.cursor, limit), |r.stream|);
      }
      PollsTileTheStream(Next(r, events[0], limit), events[1..], limit);
    }
  }

  lemma {:induction false} TilesEnd(stream: Bytes, from: nat, parts: seq<Part>, to: nat)
    requires Tiles(stream, from, parts, to)
    ensures from <= to <= |stream|
    decreases |parts|
  {
    if parts != [] {
      match parts[0] {
        case Shown(bytes) => TilesEnd(stream, from + |bytes|, parts[1..], to);
        case Omitted(count) => TilesEnd(stream, from + count, parts[1..], to);
      }
    }
  }

  // ---------- Readers that keep up ----------

  /** At most `limit` bytes are unread whenever the reader polls. */
  predicate KeepsUp(r: Reader, events: seq<Event>, limit: nat)
    requires r.cursor <= |r.stream|
    decreases |events|
  {
    events == [] ||
    (&& (events[0].Poll? ==> |r.stream| - r.cursor <= limit)
     && KeepsUp(Next(r, events[0], limit), events[1..], limit))
  }

  predicate NothingOmitted(parts: seq<Part>) { forall i :: 0 <= i < |parts| ==> parts[i].Shown? }

  function ShownBytes(parts: seq<Part>): Bytes {
    if parts == [] then []
    else (match parts[0] case Shown(bytes) => bytes case Omitted(_) => []) + ShownBytes(parts[1..])
  }

  lemma {:induction false} TiledBytes(stream: Bytes, from: nat, parts: seq<Part>, to: nat)
    requires Tiles(stream, from, parts, to) && NothingOmitted(parts)
    ensures from <= to <= |stream| && ShownBytes(parts) == stream[from..to]
    decreases |parts|
  {
    if parts != [] {
      assert parts[0].Shown?;
      var next := from + |parts[0].bytes|;
      TiledBytes(stream, next, parts[1..], to);
      assert stream[from..to] == stream[from..next] + stream[next..to];
    }
  }

  lemma {:induction false} KeepingUpOmitsNothing(r: Reader, events: seq<Event>, limit: nat)
    requires r.cursor <= |r.stream| && KeepsUp(r, events, limit) && NothingOmitted(r.parts)
    ensures NothingOmitted(Run(r, events, limit).parts)
    decreases |events|
  {
    if events != [] {
      KeepingUpOmitsNothing(Next(r, events[0], limit), events[1..], limit);
    }
  }

  /** A reader that polls before more than `limit` unread bytes have arrived sees the whole stream. */
  lemma KeepingUpSeesEverything(events: seq<Event>, limit: nat)
    requires KeepsUp(Reader([], 0, []), events, limit)
    ensures var after := Run(Reader([], 0, []), events, limit);
            ShownBytes(after.parts) == after.stream[..after.cursor]
  {
    var after := Run(Reader([], 0, []), events, limit);
    PollsTileTheStream(Reader([], 0, []), events, limit);
    KeepingUpOmitsNothing(Reader([], 0, []), events, limit);
    TiledBytes(after.stream, 0, after.parts, after.cursor);
  }
}
