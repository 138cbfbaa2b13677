/** Applying hunks to one file: the in-place loop with its moving cursor, and the simultaneous splice
    of the original lines that it computes. */
module PatchHunks {
  import opened Basics
  import opened PatchText
  import opened PatchParser

  /** `number` is the one-based hunk, `found` how many context matches it had. */
  datatype HunkError = HunkError(number: nat, found: nat)

  // ---------- Lines ----------

  predicate EndsWithNewline(s: string) { s != "" && s[|s| - 1] == '\n' }

  /** `content.splitlines(keepends=True)` for text whose only line break is `\n`. */
  function LinesWithEnds(content: string): (lines: seq<string>)
    ensures forall i :: 0 <= i < |lines| ==> lines[i] != ""
    ensures forall i :: 0 <= i < |lines| - 1 ==> EndsWithNewline(lines[i])
    ensures content == "" <==> lines == []
    ensures lines != [] ==> (EndsWithNewline(lines[|lines| - 1]) <==> EndsWithNewline(content))
  {
    if content == "" then []
    else
      var rest := LinesWithEnds(content[1..]);
      if content[0] == '\n' || rest == [] then [[content[0]]] + rest
      else [[content[0]] + rest[0]] + rest[1..]
  }

  function Concat(lines: seq<string>): string {
    if lines == [] then "" else lines[0] + Concat(lines[1..])
  }

  lemma ConcatCons(line: string, rest: seq<string>)
    ensures Concat([]) == ""
    ensures Concat([line] + rest) == line + Concat(rest)
  {
    assert ([line] + rest)[1..] == rest;
  }

  lemma LinesStep(content: string)
    requires content != ""
    ensures var first, rest := [content[0]], LinesWithEnds(content[1..]);
            LinesWithEnds(content) ==
            if content[0] == '\n' || rest == [] then [first] + rest else [first + rest[0]] + rest[1..]
  {
  }

  lemma {:induction false} ConcatLines(content: string)
    ensures Concat(LinesWithEnds(content)) == content
  {
    hide Concat, LinesWithEnds;
    ConcatCons("", []);
    if content != "" {
      LinesStep(content);
      ConcatLines(content[1..]);
      var first, rest := [content[0]], LinesWithEnds(content[1..]);
      assert content == first + content[1..];
      if content[0] == '\n' || rest == [] {
        ConcatCons(first, rest);
      } else {
        assert rest == [rest[0]] + rest[1..];
        ConcatCons(rest[0], rest[1..]);
        ConcatCons(first + rest[0], rest[1..]);
      }
    }
  }

  // ---------- The two sides of a hunk ----------

  function Side(lines: seq<string>, sign: char): seq<string>
    requires forall i :: 0 <= i < |lines| ==> lines[i] != ""
  {
    if lines == [] then []
    else
      var rest := Side(lines[1..], sign);
      if lines[0][0] == ' ' || lines[0][0] == sign then [lines[0][1..] + "\n"] + rest else rest
  }

  function TrimLast(lines: seq<string>): seq<string>
    requires lines != [] && lines[|lines| - 1] != ""
  {
    var last := lines[|lines| - 1];
    lines[..|lines| - 1] + [if EndsWithNewline(last) then last[..|last| - 1] else last]
  }

  lemma {:induction false} SideLinesEnd(lines: seq<string>, sign: char)
    requires forall i :: 0 <= i < |lines| ==> lines[i] != ""
    ensures forall i :: 0 <= i < |Side(lines, sign)| ==> EndsWithNewline(Side(lines, sign)[i])
  {
    if lines != [] {
      SideLinesEnd(lines[1..], sign);
    }
  }

  /** Whether the last old line of every hunk loses its newline: the file has text and no final newline. */
  predicate Trims(content: string) { content != "" && !EndsWithNewline(content) }

  /** The lines a hunk expects to find. */
  function OldSide(hunk: Hunk, trim: bool): seq<string>
    requires AllHunkLines(hunk.lines)
  {
    HunkLinesNonEmpty(hunk.lines);
    SideLinesEnd(hunk.lines, '-');
    var wanted := Side(hunk.lines, '-');
    if wanted != [] && trim then TrimLast(wanted) else wanted
  }

  /** The lines it puts there. */
  function NewSide(hunk: Hunk, trim: bool): seq<string>
    requires AllHunkLines(hunk.lines)
  {
    HunkLinesNonEmpty(hunk.lines);
    SideLinesEnd(hunk.lines, '+');
    var wanted := OldSide(hunk, trim);
    var added := Side(hunk.lines, '+');
    if wanted != [] && wanted[|wanted| - 1] != "" && !EndsWithNewline(wanted[|wanted| - 1]) && added != []
    then TrimLast(added)
    else added
  }

  lemma HunkLinesNonEmpty(lines: seq<string>)
    requires AllHunkLines(lines)
    ensures forall i :: 0 <= i < |lines| ==> lines[i] != ""
  {
    forall i | 0 <= i < |lines| ensures lines[i] != "" {
      assert HunkLine(lines[i]);
    }
  }

  datatype Sides = Sides(before: seq<string>, after: seq<string>)

  /** The two sides of every hunk. */
  function SidesOf(hunks: seq<Hunk>, trim: bool): (sides: seq<Sides>)
    requires GoodHunks(hunks)
    ensures |sides| == |hunks|
    ensures forall i :: 0 <= i < |hunks| ==>
              GoodHunk(hunks[i]) && sides[i] == Sides(OldSide(hunks[i], trim), NewSide(hunks[i], trim))
  {
    if hunks == [] then []
    else
      assert GoodHunk(hunks[0]);
      [Sides(OldSide(hunks[0], trim), NewSide(hunks[0], trim))] + SidesOf(hunks[1..], trim)
  }

  // ---------- Searching ----------

  predicate Match(lines: seq<string>, at: int, wanted: seq<string>) {
    0 <= at && at + |wanted| <= |lines| && lines[at..at + |wanted|] == wanted
  }

  ghost predicate OnlyMatch(lines: seq<string>, from: int, wanted: seq<string>, at: int) {
    && from <= at && Match(lines, at, wanted)
    && forall i :: from <= i && Match(lines, i, wanted) ==> i == at
  }

  /** All matches at or after `from`, in order. */
  function Positions(lines: seq<string>, from: nat, wanted: seq<string>): seq<nat>
    requires wanted != []
    decreases |lines| - from
  {
    if from + |wanted| > |lines| then []
    else if Match(lines, from, wanted) then [from] + Positions(lines, from + 1, wanted)
    else Positions(lines, from + 1, wanted)
  }

  ghost predicate NoMatch(lines: seq<string>, from: int, wanted: seq<string>) {
    forall i :: from <= i ==> !Match(lines, i, wanted)
  }

  lemma {:induction false} NoPosition(lines: seq<string>, from: nat, wanted: seq<string>)
    requires wanted != []
    ensures Positions(lines, from, wanted) == [] <==> NoMatch(lines, from, wanted)
    decreases |lines| - from
  {
    if from + |wanted| <= |lines| {
      NoPosition(lines, from + 1, wanted);
    }
  }

  lemma SingletonIff(first: nat, rest: seq<nat>, at: nat)
    ensures [first] + rest == [at] <==> first == at && rest == []
  {
    assert ([first] + rest)[0] == first && ([first] + rest)[1..] == rest;
  }

  /** A single candidate is the only match. */
  lemma {:induction false} OnePosition(lines: seq<string>, from: nat, wanted: seq<string>, at: nat)
    requires wanted != []
    ensures Positions(lines, from, wanted) == [at] <==> OnlyMatch(lines, from, wanted, at)
    decreases |lines| - from
  {
    if from + |wanted| <= |lines| {
      if Match(lines, from, wanted) {
        NoPosition(lines, from + 1, wanted);
        SingletonIff(from, Positions(lines, from + 1, wanted), at);
      } else {
        OnePosition(lines, from + 1, wanted, at);
      }
    }
  }

  lemma SuffixMatch(lines: seq<string>, from: nat, orig: seq<string>, at: nat, wanted: seq<string>)
    requires from <= |lines| && at <= |orig| && lines[from..] == orig[at..]
    ensures |lines| - from == |orig| - at
    ensures Match(lines, from, wanted) <==> Match(orig, at, wanted)
    ensures from < |lines| ==> lines[from + 1..] == orig[at + 1..]
  {
    assert |lines[from..]| == |orig[at..]|;
    if from + |wanted| <= |lines| {
      assert lines[from..][..|wanted|] == lines[from..from + |wanted|];
      assert orig[at..][..|wanted|] == orig[at..at + |wanted|];
    }
    if from < |lines| {
      assert lines[from..][1..] == lines[from + 1..] && orig[at..][1..] == orig[at + 1..];
    }
  }

  /** Only the lines from the search start on matter. */
  lemma {:induction false} PositionsShift(lines: seq<string>, from: nat, orig: seq<string>, at: nat,
                                          wanted: seq<string>)
    requires from <= |lines| && at <= |orig| && lines[from..] == orig[at..] && wanted != []
    ensures |Positions(lines, from, wanted)| == |Positions(orig, at, wanted)|
    ensures forall k :: 0 <= k < |Positions(lines, from, wanted)| ==>
              Positions(lines, from, wanted)[k] - from == Positions(orig, at, wanted)[k] - at
    decreases |lines| - from
  {
    SuffixMatch(lines, from, orig, at, wanted);
    if from + |wanted| <= |lines| {
      PositionsShift(lines, from + 1, orig, at + 1, wanted);
    }
  }

  // ---------- Simultaneous splices ----------

  /** Lines `before` at `at` are replaced by lines `after`. */
  datatype Edit = Edit(at: nat, before: seq<string>, after: seq<string>)

  /** Where the span of the last edit ends. */
  function End(edits: seq<Edit>): nat {
    if edits == [] then 0 else edits[|edits| - 1].at + |edits[|edits| - 1].before|
  }

  function Init(edits: seq<Edit>): seq<Edit>
    requires edits != []
  {
    edits[..|edits| - 1]
  }

  function Last(edits: seq<Edit>): Edit
    requires edits != []
  {
    edits[|edits| - 1]
  }

  /** Ordered, disjoint spans of `lines`, each equal to its edit's old lines. */
  predicate Fits(lines: seq<string>, edits: seq<Edit>) {
    edits == [] ||
    (&& Fits(lines, Init(edits))
     && End(Init(edits)) <= Last(edits).at
     && Match(lines, Last(edits).at, Last(edits).before))
  }

  /** The untouched gaps before each span, interleaved with the new lines. */
  function Front(lines: seq<string>, edits: seq<Edit>): seq<string>
    requires Fits(lines, edits)
  {
    if edits == [] then []
    else Front(lines, Init(edits)) + (lines[End(Init(edits))..Last(edits).at] + Last(edits).after)
  }

  function Splice(lines: seq<string>, edits: seq<Edit>): seq<string>
    requires Fits(lines, edits)
  {
    Front(lines, edits) + lines[End(edits)..]
  }

  /** Where the new lines of the last edit end in the result. */
  function NewEnd(edits: seq<Edit>): int {
    if edits == [] then 0
    else NewEnd(Init(edits)) + (Last(edits).at - End(Init(edits))) + |Last(edits).after|
  }

  /** The edits that put the old lines back where the new ones were put. */
  function Inverse(lines: seq<string>, edits: seq<Edit>): (inverse: seq<Edit>)
    requires Fits(lines, edits)
    ensures End(inverse) == NewEnd(edits) == |Front(lines, edits)|
  {
    if edits == [] then []
    else
      var e := Last(edits);
      Inverse(lines, Init(edits)) +
      [Edit(|Front(lines, Init(edits))| + (e.at - End(Init(edits))), e.after, e.before)]
  }

  predicate StartsWith(lines: seq<string>, front: seq<string>) {
    |front| <= |lines| && lines[..|front|] == front
  }

  lemma FrontSlices(result: seq<string>, front: seq<string>, gap: seq<string>, added: seq<string>)
    requires StartsWith(result, front + (gap + added))
    ensures StartsWith(result, front)
    ensures Match(result, |front|, gap)
    ensures Match(result, |front| + |gap|, added)
  {
    var whole := front + (gap + added);
    assert whole[..|front|] == front && whole[|front|..|front| + |gap|] == gap && whole[|front| + |gap|..] == added;
    assert result[..|whole|][..|front|] == result[..|front|];
    assert result[..|whole|][|front|..|front| + |gap|] == result[|front|..|front| + |gap|];
    assert result[..|whole|][|front| + |gap|..] == result[|front| + |gap|..|whole|];
  }

  lemma FitsOneMore(lines: seq<string>, edits: seq<Edit>, e: Edit)
    requires Fits(lines, edits) && End(edits) <= e.at && Match(lines, e.at, e.before)
    ensures Fits(lines, edits + [e]) && End(edits + [e]) == e.at + |e.before| <= |lines|
    ensures Front(lines, edits + [e]) == Front(lines, edits) + (lines[End(edits)..e.at] + e.after)
  {
    assert Init(edits + [e]) == edits;
  }

  lemma ThreeParts(lines: seq<string>, a: nat, b: nat, c: nat)
    requires a <= b <= c <= |lines|
    ensures lines[..c] == lines[..a] + (lines[a..b] + lines[b..c])
  {
  }

  lemma FitsParts(lines: seq<string>, edits: seq<Edit>)
    requires Fits(lines, edits) && edits != []
    ensures Fits(lines, Init(edits)) && End(Init(edits)) <= Last(edits).at
    ensures Match(lines, Last(edits).at, Last(edits).before)
    ensures Last(edits).at + |Last(edits).before| <= |lines|
    ensures End(edits) == Last(edits).at + |Last(edits).before|
    ensures Front(lines, edits) ==
            Front(lines, Init(edits)) + (lines[End(Init(edits))..Last(edits).at] + Last(edits).after)
  {
  }

  lemma InverseParts(lines: seq<string>, edits: seq<Edit>)
    requires Fits(lines, edits) && edits != [] && Fits(lines, Init(edits))
    ensures var inverse, e := Inverse(lines, Init(edits)), Last(edits);
            && End(inverse) == |Front(lines, Init(edits))|
            && Inverse(lines, edits) == inverse + [Edit(End(inverse) + (e.at - End(Init(edits))), e.after, e.before)]
  {
    hide Fits, Match, Front, End, NewEnd;
  }

  /** One more edit undone: the old lines are back up to the end of its span. */
  lemma UndoOneMore(lines: seq<string>, from: nat, e: Edit, result: seq<string>, inverse: seq<Edit>)
    requires from <= e.at && Match(lines, e.at, e.before)
    requires Fits(result, inverse) && Front(result, inverse) == lines[..from]
    requires Match(result, End(inverse), lines[from..e.at])
    requires Match(result, End(inverse) + (e.at - from), e.after)
    ensures var undo := Edit(End(inverse) + (e.at - from), e.after, e.before);
            && Fits(result, inverse + [undo])
            && Front(result, inverse + [undo]) == lines[..e.at + |e.before|]
  {
    hide Fits, Front, End;
    FitsOneMore(result, inverse, Edit(End(inverse) + (e.at - from), e.after, e.before));
    ThreeParts(lines, from, e.at, e.at + |e.before|);
  }

  /** What the step from one edit fewer gives, without looking into any definition. */
  lemma InverseStep(lines: seq<string>, edits: seq<Edit>, result: seq<string>)
    requires Fits(lines, edits) && edits != [] && Fits(lines, Init(edits))
    requires StartsWith(result, Front(lines, edits))
    requires StartsWith(result, Front(lines, Init(edits))) ==>
               && Fits(result, Inverse(lines, Init(edits)))
               && Front(result, Inverse(lines, Init(edits))) == lines[..End(Init(edits))]
    ensures Fits(result, Inverse(lines, edits))
    ensures Front(result, Inverse(lines, edits)) == lines[..End(edits)]
  {
    hide Fits, Front, Match, End, NewEnd, Inverse, Init, Last, StartsWith;
    var init, e := Init(edits), Last(edits);
    FitsParts(lines, edits);
    InverseParts(lines, edits);
    FrontSlices(result, Front(lines, init), lines[End(init)..e.at], e.after);
    UndoOneMore(lines, End(init), e, result, Inverse(lines, init));
  }

  lemma {:induction false} InverseFits(lines: seq<string>, edits: seq<Edit>, result: seq<string>)
    requires Fits(lines, edits) && StartsWith(result, Front(lines, edits))
    ensures Fits(result, Inverse(lines, edits))
    ensures Front(result, Inverse(lines, edits)) == lines[..End(edits)]
    decreases |edits|
  {
    hide Match, NewEnd, StartsWith;
    if edits != [] {
      if StartsWith(result, Front(lines, Init(edits))) {
        InverseFits(lines, Init(edits), result);
      }
      InverseStep(lines, edits, result);
    }
  }

  lemma Halves(a: seq<string>, b: seq<string>)
    ensures (a + b)[..|a|] == a && (a + b)[|a|..] == b
  {
  }

  /** Reversing the splices at the recorded positions gives back the original lines. */
  lemma SpliceUndo(lines: seq<string>, edits: seq<Edit>)
    requires Fits(lines, edits)
    ensures Fits(Splice(lines, edits), Inverse(lines, edits))
    ensures Splice(Splice(lines, edits), Inverse(lines, edits)) == lines
  {
    var front, rest := Front(lines, edits), lines[End(edits)..];
    Halves(front, rest);
    InverseFits(lines, edits, front + rest);
    assert lines == lines[..End(edits)] + lines[End(edits)..];
  }

  // ---------- Choosing the spans ----------

  /** Where a hunk may go: at the search start for a pure insertion, else wherever its old lines are. */
  function Candidates(lines: seq<string>, from: nat, wanted: seq<string>): seq<nat> {
    if wanted == [] then [from] else Positions(lines, from, wanted)
  }

  lemma CandidateMatches(lines: seq<string>, from: nat, wanted: seq<string>, at: nat)
    requires from <= |lines| && Candidates(lines, from, wanted) == [at]
    ensures from <= at && Match(lines, at, wanted)
  {
    if wanted != [] { OnePosition(lines, from, wanted, at); }
  }

  lemma EndWithin(lines: seq<string>, edits: seq<Edit>)
    requires Fits(lines, edits)
    ensures End(edits) <= |lines|
  {
  }

  /** One more edit after those in `done`, for each remaining hunk: its span is the only candidate
      after the previous span. */
  function Select(lines: seq<string>, sides: seq<Sides>, done: seq<Edit>): (edits: Result<seq<Edit>, HunkError>)
    requires Fits(lines, done) && |done| <= |sides|
    ensures edits.Ok? ==> Fits(lines, edits.value)
    decreases |sides| - |done|
  {
    if |done| == |sides| then Ok(done)
    else
      var side := sides[|done|];
      var found := Candidates(lines, End(done), side.before);
      if |found| != 1 then Err(HunkError(|done| + 1, |found|))
      else
        EndWithin(lines, done);
        CandidateMatches(lines, End(done), side.before, found[0]);
        FitsOneMore(lines, done, Edit(found[0], side.before, side.after));
        Select(lines, sides, done + [Edit(found[0], side.before, side.after)])
  }

  /** All spans are chosen on the original lines, then spliced at once. */
  function Apply(content: string, hunks: seq<Hunk>): Result<string, HunkError>
    requires GoodHunks(hunks)
  {
    match Select(LinesWithEnds(content), SidesOf(hunks, Trims(content)), [])
    case Err(e) => Err(e)
    case Ok(edits) => Ok(Concat(Splice(LinesWithEnds(content), edits)))
  }

  // ---------- The loop computes the splice ----------

  /** The candidates found in the edited lines are those of the original ones, moved. */
  lemma CandidatesShift(lines: seq<string>, cursor: nat, orig: seq<string>, from: nat, wanted: seq<string>)
    requires cursor <= |lines| && from <= |orig| && lines[cursor..] == orig[from..]
    ensures |Candidates(lines, cursor, wanted)| == |Candidates(orig, from, wanted)|
    ensures |Candidates(lines, cursor, wanted)| == 1 ==>
              Candidates(lines, cursor, wanted)[0] - cursor == Candidates(orig, from, wanted)[0] - from
  {
    if wanted != [] {
      PositionsShift(lines, cursor, orig, from, wanted);
    }
  }

  lemma ReplaceSpan(lines: seq<string>, cursor: nat, orig: seq<string>, from: nat, at: nat, size: nat)
    requires cursor <= |lines| && from <= at && at + size <= |orig| && lines[cursor..] == orig[from..]
    ensures var position := cursor + at - from;
            && position + size <= |lines|
            && lines[..position] == lines[..cursor] + orig[from..at]
            && lines[position + size..] == orig[at + size..]
  {
    var position := cursor + at - from;
    assert |lines[cursor..]| == |orig[from..]|;
    assert lines[cursor..][..at - from] == lines[cursor..position];
    assert orig[from..][..at - from] == orig[from..at];
    assert lines[..position] == lines[..cursor] + lines[cursor..position];
    assert lines[position + size..] == lines[cursor..][at - from + size..];
    assert orig[at + size..] == orig[from..][at - from + size..];
  }

  /** The loop state after the edits in `done`: their splice, with the cursor behind the last new lines. */
  ghost predicate Reached(lines: seq<string>, cursor: nat, orig: seq<string>, done: seq<Edit>) {
    && Fits(orig, done) && End(done) <= |orig| && cursor <= |lines|
    && lines[..cursor] == Front(orig, done)
    && lines[cursor..] == orig[End(done)..]
  }

  lemma Regroup(a: seq<string>, b: seq<string>, c: seq<string>)
    ensures a + b + c == a + (b + c)
  {
  }

  /** Replacing the only match behind the cursor adds its edit to the splice. */
  lemma ReachedNext(lines: seq<string>, cursor: nat, orig: seq<string>, done: seq<Edit>, side: Sides, at: nat)
    requires Reached(lines, cursor, orig, done)
    requires End(done) <= at && Match(orig, at, side.before)
    ensures var position := cursor + at - End(done);
            && position + |side.before| <= |lines|
            && Reached(lines[..position] + side.after + lines[position + |side.before|..], position + |side.after|,
                       orig, done + [Edit(at, side.before, side.after)])
  {
    hide Fits, Front, Match, End;
    FitsOneMore(orig, done, Edit(at, side.before, side.after));
    ReplaceSpan(lines, cursor, orig, End(done), at, |side.before|);
    var position := cursor + at - End(done);
    Halves(lines[..position] + side.after, lines[position + |side.before|..]);
    Regroup(lines[..cursor], orig[End(done)..at], side.after);
  }

  /** One turn of the loop. */
  method ApplyHunk(lines: seq<string>, cursor: nat, side: Sides, ghost orig: seq<string>, ghost done: seq<Edit>)
    returns (found: nat, newLines: seq<string>, newCursor: nat)
    requires Reached(lines, cursor, orig, done)
    ensures var spans := Candidates(orig, End(done), side.before);
            && found == |spans|
            && (found == 1 ==> Reached(newLines, newCursor, orig, done + [Edit(spans[0], side.before, side.after)]))
  {
    var positions := Candidates(lines, cursor, side.before);
    CandidatesShift(lines, cursor, orig, End(done), side.before);
    found, newLines, newCursor := |positions|, lines, cursor;
    if found == 1 {
      var position := positions[0];
      ghost var at := Candidates(orig, End(done), side.before)[0];
      CandidateMatches(orig, End(done), side.before, at);
      ReachedNext(lines, cursor, orig, done, side, at);
      hide Reached, Fits, Match, Candidates;
      newLines := lines[..position] + side.after + lines[position + |side.before|..];
      newCursor := position + |side.after|;
    }
  }

  lemma ReachedIsSplice(lines: seq<string>, cursor: nat, orig: seq<string>, done: seq<Edit>)
    requires Reached(lines, cursor, orig, done)
    ensures lines == Splice(orig, done)
  {
    assert lines == lines[..cursor] + lines[cursor..];
  }

  lemma SelectStep(lines: seq<string>, sides: seq<Sides>, done: seq<Edit>)
    requires Fits(lines, done) && |done| < |sides|
    ensures var side := sides[|done|];
            var found := Candidates(lines, End(done), side.before);
            if |found| != 1 then Select(lines, sides, done) == Err(HunkError(|done| + 1, |found|))
            else
              var next := done + [Edit(found[0], side.before, side.after)];
              Fits(lines, next) && Select(lines, sides, done) == Select(lines, sides, next)
  {
    var side := sides[|done|];
    var found := Candidates(lines, End(done), side.before);
    if |found| == 1 {
      EndWithin(lines, done);
      CandidateMatches(lines, End(done), side.before, found[0]);
      FitsOneMore(lines, done, Edit(found[0], side.before, side.after));
    }
  }

  method ApplyHunks(content: string, hunks: seq<Hunk>) returns (result: Result<string, HunkError>)
    requires GoodHunks(hunks)
    ensures result == Apply(content, hunks)
  {
    var lines := LinesWithEnds(content);
    var cursor: nat, number: nat := 0, 0;
    ghost var orig, sides := lines, SidesOf(hunks, Trims(content));
    ghost var done: seq<Edit> := [];
    assert Reached(lines, cursor, orig, done) by { assert lines[..0] == []; }
    while number < |hunks|
      invariant |done| == number <= |hunks|
      invariant Reached(lines, cursor, orig, done)
      invariant Select(orig, sides, []) == Select(orig, sides, done)
    {
      assert GoodHunk(hunks[number]);
      var side := Sides(OldSide(hunks[number], Trims(content)), NewSide(hunks[number], Trims(content)));
      SelectStep(orig, sides, done);
      var found, newLines, newCursor := ApplyHunk(lines, cursor, side, orig, done);
      if found != 1 {
        return Err(HunkError(number + 1, found));
      }
      done := done + [Edit(Candidates(orig, End(done), side.before)[0], side.before, side.after)];
      lines, cursor, number := newLines, newCursor, number + 1;
    }
    ReachedIsSplice(lines, cursor, orig, done);
    return Ok(Concat(lines));
  }

  // ---------- What was chosen ----------

  /** A hunk's span in the original lines: at `from` for a pure insertion, else its only match there. */
  ghost predicate Chosen(lines: seq<string>, from: nat, side: Sides, e: Edit) {
    && e.before == side.before && e.after == side.after
    && if side.before == [] then e.at == from else OnlyMatch(lines, from, side.before, e.at)
  }

  /** One edit for each hunk from number `k` on, chosen after the end of the previous span. */
  ghost predicate ChosenFrom(lines: seq<string>, sides: seq<Sides>, edits: seq<Edit>, k: nat) {
    && |edits| == |sides|
    && forall i :: k <= i < |edits| ==> Chosen(lines, End(edits[..i]), sides[i], edits[i])
  }

  ghost predicate Selects(lines: seq<string>, sides: seq<Sides>, edits: seq<Edit>) {
    ChosenFrom(lines, sides, edits, 0)
  }

  lemma ChosenIsCandidate(lines: seq<string>, from: nat, side: Sides, e: Edit)
    ensures Chosen(lines, from, side, e) <==>
            && e.before == side.before && e.after == side.after
            && Candidates(lines, from, side.before) == [e.at]
  {
    if side.before != [] {
      OnePosition(lines, from, side.before, e.at);
    }
  }

  lemma ChosenNext(lines: seq<string>, sides: seq<Sides>, done: seq<Edit>, edits: seq<Edit>)
    requires |done| < |sides| == |edits| && done <= edits
    ensures ChosenFrom(lines, sides, edits, |done|) <==>
            && Chosen(lines, End(done), sides[|done|], edits[|done|])
            && ChosenFrom(lines, sides, edits, |done| + 1)
  {
    assert edits[..|done|] == done;
  }

  lemma OneMoreIsPrefix(done: seq<Edit>, e: Edit, edits: seq<Edit>)
    ensures done + [e] <= edits <==> done <= edits && |done| < |edits| && edits[|done|] == e
  {
    if done <= edits && |done| < |edits| {
      assert edits[..|done|] == done;
      assert edits[..|done| + 1] == done + [edits[|done|]];
    }
    if done + [e] <= edits {
      assert edits[..|done| + 1] == done + [e];
    }
  }

  lemma {:induction false} SelectIsExact(lines: seq<string>, sides: seq<Sides>, done: seq<Edit>, edits: seq<Edit>)
    requires Fits(lines, done) && |done| <= |sides|
    ensures Select(lines, sides, done) == Ok(edits) <==> done <= edits && ChosenFrom(lines, sides, edits, |done|)
    decreases |sides| - |done|
  {
    if |done| == |sides| {
      if |edits| == |done| && done <= edits {
        assert edits == done;
      }
    } else {
      var side := sides[|done|];
      var found := Candidates(lines, End(done), side.before);
      SelectStep(lines, sides, done);
      if done <= edits && |edits| == |sides| {
        ChosenNext(lines, sides, done, edits);
        ChosenIsCandidate(lines, End(done), side, edits[|done|]);
      }
      if |found| == 1 {
        var e := Edit(found[0], side.before, side.after);
        OneMoreIsPrefix(done, e, edits);
        SelectIsExact(lines, sides, done + [e], edits);
      }
    }
  }

  // ---------- Main results ----------

  /** Whenever every hunk has its span, in order and disjoint, the hunks apply. The result is the
      simultaneous splice of the original lines, and reversing it gives back the original text. */
  lemma ApplyIsSimultaneousSplice(content: string, hunks: seq<Hunk>, edits: seq<Edit>)
    requires GoodHunks(hunks) && Selects(LinesWithEnds(content), SidesOf(hunks, Trims(content)), edits)
    ensures var lines := LinesWithEnds(content);
            && Fits(lines, edits)
            && Apply(content, hunks) == Ok(Concat(Splice(lines, edits)))
            && Fits(Splice(lines, edits), Inverse(lines, edits))
            && Concat(Splice(Splice(lines, edits), Inverse(lines, edits))) == content
  {
    SelectIsExact(LinesWithEnds(content), SidesOf(hunks, Trims(content)), [], edits);
    SpliceUndo(LinesWithEnds(content), edits);
    ConcatLines(content);
  }

  ghost predicate HaveSpans(lines: seq<string>, sides: seq<Sides>) {
    exists edits :: Selects(lines, sides, edits)
  }

  /** Hunks apply exactly when every hunk has its span. */
  lemma AppliesIffSpansExist(content: string, hunks: seq<Hunk>)
    requires GoodHunks(hunks)
    ensures Apply(content, hunks).Ok? <==> HaveSpans(LinesWithEnds(content), SidesOf(hunks, Trims(content)))
  {
    var lines, sides := LinesWithEnds(content), SidesOf(hunks, Trims(content));
    var outcome := Select(lines, sides, []);
    if outcome.Ok? {
      SelectIsExact(lines, sides, [], outcome.value);
      assert Selects(lines, sides, outcome.value);
    }
    if HaveSpans(lines, sides) {
      var edits :| Selects(lines, sides, edits);
      SelectIsExact(lines, sides, [], edits);
    }
  }

  // ---------- Files without a final newline ----------

  predicate NewlineFree(hunks: seq<Hunk>) {
    forall i, j :: 0 <= i < |hunks| && 0 <= j < |hunks[i].lines| ==> '\n' !in hunks[i].lines[j]
  }

  lemma {:induction false} SideHasOneNewline(lines: seq<string>, sign: char)
    requires forall i :: 0 <= i < |lines| ==> lines[i] != "" && '\n' !in lines[i]
    ensures forall i :: 0 <= i < |Side(lines, sign)| ==>
              Side(lines, sign)[i] != "" && '\n' !in Side(lines, sign)[i][..|Side(lines, sign)[i]| - 1]
  {
    if lines != [] {
      SideHasOneNewline(lines[1..], sign);
      assert (lines[0][1..] + "\n")[..|lines[0]| - 1] == lines[0][1..];
    }
  }

  /** Without a final newline, a span with context can only be the end of the file. */
  lemma TrimmedSpanEndsTheFile(content: string, hunk: Hunk, at: int)
    requires Trims(content) && GoodHunk(hunk) && NewlineFree([hunk]) && OldSide(hunk, true) != []
    requires Match(LinesWithEnds(content), at, OldSide(hunk, true))
    ensures at + |OldSide(hunk, true)| == |LinesWithEnds(content)|
  {
    var lines, wanted := LinesWithEnds(content), OldSide(hunk, true);
    var last := at + |wanted| - 1;
    assert lines[at..at + |wanted|][|wanted| - 1] == lines[last];
    HunkLinesNonEmpty(hunk.lines);
    SideLinesEnd(hunk.lines, '-');
    assert [hunk][0] == hunk;
    SideHasOneNewline(hunk.lines, '-');
    assert '\n' !in wanted[|wanted| - 1];
  }

  /** In a file without a final newline, the old lines of each of these sides can only match its end. */
  ghost predicate OnlyAtEnd(lines: seq<string>, sides: seq<Sides>) {
    forall i, at :: 0 <= i < |sides| && sides[i].before != [] && Match(lines, at, sides[i].before) ==>
                      at + |sides[i].before| == |lines|
  }

  lemma TrimmedSidesOnlyAtEnd(content: string, hunks: seq<Hunk>)
    requires Trims(content) && GoodHunks(hunks) && NewlineFree(hunks)
    ensures OnlyAtEnd(LinesWithEnds(content), SidesOf(hunks, true))
  {
    var lines, sides := LinesWithEnds(content), SidesOf(hunks, true);
    forall i, at | 0 <= i < |sides| && sides[i].before != [] && Match(lines, at, sides[i].before)
      ensures at + |sides[i].before| == |lines|
    {
      TrimmedSpanEndsTheFile(content, hunks[i], at);
    }
  }

  /** At most one hunk has context, and that context is the end of the file. */
  predicate OneFinalContext(lines: seq<string>, sides: seq<Sides>) {
    && (forall i, j :: 0 <= i < j < |sides| ==> sides[i].before == [] || sides[j].before == [])
    && forall i :: 0 <= i < |sides| && sides[i].before != [] ==>
                     Match(lines, |lines| - |sides[i].before|, sides[i].before)
  }

  lemma {:induction false} EndsAreOrdered(lines: seq<string>, edits: seq<Edit>, i: nat, j: nat)
    requires Fits(lines, edits) && i < j < |edits|
    ensures Match(lines, edits[i].at, edits[i].before)
    ensures edits[i].at + |edits[i].before| <= edits[j].at
    decreases |edits|
  {
    if j < |edits| - 1 {
      EndsAreOrdered(lines, Init(edits), i, j);
    } else if i < |edits| - 2 {
      EndsAreOrdered(lines, Init(edits), i, |edits| - 2);
    }
  }

  lemma {:induction false} FinalContextSelects(lines: seq<string>, sides: seq<Sides>, done: seq<Edit>)
    requires OnlyAtEnd(lines, sides) && OneFinalContext(lines, sides)
    requires Fits(lines, done) && |done| <= |sides|
    requires End(done) == 0 || (End(done) == |lines| && forall i :: |done| <= i < |sides| ==> sides[i].before == [])
    ensures Select(lines, sides, done).Ok?
    decreases |sides| - |done|
  {
    if |done| < |sides| {
      var wanted := sides[|done|].before;
      var at := if wanted == [] then End(done) else |lines| - |wanted|;
      if wanted != [] {
        OnePosition(lines, End(done), wanted, at);
      }
      var e := Edit(at, wanted, sides[|done|].after);
      FitsOneMore(lines, done, e);
      FinalContextSelects(lines, sides, done + [e]);
    }
  }

  lemma SelectedHasFinalContext(lines: seq<string>, sides: seq<Sides>, edits: seq<Edit>)
    requires OnlyAtEnd(lines, sides) && Selects(lines, sides, edits) && Fits(lines, edits)
    ensures OneFinalContext(lines, sides)
  {
    forall i | 0 <= i < |sides| && sides[i].before != []
      ensures Match(lines, |lines| - |sides[i].before|, sides[i].before)
      ensures edits[i].at + |sides[i].before| == |lines|
    {
      assert Chosen(lines, End(edits[..i]), sides[i], edits[i]);
    }
    forall i, j | 0 <= i < j < |sides| ensures sides[i].before == [] || sides[j].before == [] {
      EndsAreOrdered(lines, edits, i, j);
      assert Chosen(lines, End(edits[..i]), sides[i], edits[i]) && Chosen(lines, End(edits[..j]), sides[j], edits[j]);
    }
  }

  /** A file that does not end in a newline takes a patch if and only if at most one hunk has context
      lines and those lines are the end of the file. */
  lemma PatchWithoutFinalNewlineIff(content: string, hunks: seq<Hunk>)
    requires Trims(content) && GoodHunks(hunks) && NewlineFree(hunks)
    ensures Apply(content, hunks).Ok? <==> OneFinalContext(LinesWithEnds(content), SidesOf(hunks, true))
  {
    var lines, sides := LinesWithEnds(content), SidesOf(hunks, true);
    TrimmedSidesOnlyAtEnd(content, hunks);
    if OneFinalContext(lines, sides) {
      FinalContextSelects(lines, sides, []);
    }
    if Select(lines, sides, []).Ok? {
      var edits := Select(lines, sides, []).value;
      SelectIsExact(lines, sides, [], edits);
      SelectedHasFinalContext(lines, sides, edits);
    }
  }

  lemma SmallLines(c: char, d: char)
    requires c != '\n' && d != '\n'
    ensures LinesWithEnds([c, '\n', d]) == [[c, '\n'], [d]]
  {
    assert [c, '\n', d][1..] == ['\n', d] && ['\n', d][1..] == [d] && [d][1..] == "";
    assert LinesWithEnds([d]) == [[d]];
    var rest := [['\n'], [d]];
    assert LinesWithEnds(['\n', d]) == rest;
    assert rest[1..] == [[d]] && [c] + rest[0] == [c, '\n'];
  }

  lemma SmallHunk(c: char, d: char)
    ensures GoodHunk(Hunk([[' ', c], ['+', d]]))
    ensures OldSide(Hunk([[' ', c], ['+', d]]), true) == [[c]]
  {
    var lines := [[' ', c], ['+', d]];
    assert AllHunkLines(lines);
    assert lines[1..] == [['+', d]] && [['+', d]][1..] == [];
    assert Side([['+', d]], '-') == [];
    assert [' ', c][1..] + "\n" == [c, '\n'];
    assert Side(lines, '-') == [[c, '\n']];
  }

  /** A hunk whose context line occurs exactly once is refused when that line is not the last one of
      a file without a final newline. */
  lemma UniqueContextRefused(c: char, d: char, added: char)
    requires c != d && c != '\n' && d != '\n' && added != '\n'
    ensures var hunk := Hunk([[' ', c], ['+', added]]);
            GoodHunks([hunk]) && Apply([c, '\n', d], [hunk]).Err?
  {
    var content, hunks := [c, '\n', d], [Hunk([[' ', c], ['+', added]])];
    SmallLines(c, d);
    SmallHunk(c, added);
    var lines, sides := LinesWithEnds(content), SidesOf(hunks, true);
    assert sides[0].before == [[c]];
    assert !Match(lines, |lines| - |sides[0].before|, sides[0].before) by { assert lines[1..2][0] == [d]; }
    PatchWithoutFinalNewlineIff(content, hunks);
  }

  // ---------- Line endings of the whole file ----------

  function Count(text: string, c: char): nat {
    if text == "" then 0 else (if text[0] == c then 1 else 0) + Count(text[1..], c)
  }

  function CountCrlf(text: string): nat {
    if |text| < 2 then 0
    else if text[0] == '\r' && text[1] == '\n' then 1 + CountCrlf(text[2..])
    else CountCrlf(text[1..])
  }

  /** One character in front adds a `\r\n` exactly if it is the `\r` of one. */
  lemma CrlfIsCounted(c: char, text: string)
    ensures CountCrlf("") == 0
    ensures CountCrlf([c] + text) == CountCrlf(text) + if c == '\r' && text != "" && text[0] == '\n' then 1 else 0
  {
    var longer := [c] + text;
    assert longer[1..] == text;
    if c == '\r' && text != "" && text[0] == '\n' {
      assert longer[2..] == text[1..];
    }
  }

  /** Whether the file is rewritten with `\r\n` line ends. */
  predicate UsesCrlf(text: string) { CountCrlf(text) > Count(text, '\n') - CountCrlf(text) }

  function ToCrlf(text: string): string {
    if text == "" then ""
    else (if text[0] == '\n' then "\r\n" else [text[0]]) + ToCrlf(text[1..])
  }

  function UpdateText(original: string, hunks: seq<Hunk>): Result<string, HunkError>
    requires GoodHunks(hunks)
  {
    match Apply(NormalizeNewlines(original), hunks)
    case Err(e) => Err(e)
    case Ok(updated) => Ok(if UsesCrlf(original) then ToCrlf(updated) else updated)
  }

  lemma {:induction false} CrlfCounts(text: string)
    requires '\r' !in text
    ensures NormalizeNewlines(ToCrlf(text)) == text
    ensures Count(ToCrlf(text), '\n') == Count(text, '\n') == CountCrlf(ToCrlf(text))
    ensures CountCrlf(text) == 0
    ensures Count(text, '\n') == 0 ==> ToCrlf(text) == text
  {
    if text != "" {
      var rest, crlf := ToCrlf(text[1..]), ToCrlf(text);
      CrlfCounts(text[1..]);
      if text[0] == '\n' {
        assert crlf[1..] == "\n" + rest && crlf[2..] == rest && ("\n" + rest)[1..] == rest;
      } else {
        assert crlf[1..] == rest;
      }
    }
  }

  /** A uniformly CRLF file is patched like its LF form and keeps its line ends; so does an LF file. */
  lemma UniformLineEndingsAreKept(text: string, hunks: seq<Hunk>)
    requires '\r' !in text && GoodHunks(hunks)
    ensures UpdateText(text, hunks) == Apply(text, hunks)
    ensures UpdateText(ToCrlf(text), hunks) ==
            match Apply(text, hunks)
            case Err(e) => Err(e)
            case Ok(updated) => Ok(if Count(text, '\n') == 0 then updated else ToCrlf(updated))
  {
    NormalizeWithoutCr(text);
    CrlfCounts(text);
  }

  // ---------- The lines of the result ----------

  /** No newline except perhaps at the end. */
  predicate OneLine(s: string) { s == "" || '\n' !in s[..|s| - 1] }

  predicate AllOneLine(pieces: seq<string>) {
    forall i :: 0 <= i < |pieces| ==> OneLine(pieces[i])
  }

  /** Every piece but the last has its newline, and the last is not empty. */
  predicate Separated(pieces: seq<string>) {
    && (forall i :: 0 <= i < |pieces| - 1 ==> EndsWithNewline(pieces[i]))
    && (pieces != [] ==> pieces[|pieces| - 1] != "")
  }

  lemma {:induction false} FirstLineSplits(line: string, rest: string)
    requires OneLine(line) && line != "" && (EndsWithNewline(line) || rest == "")
    ensures LinesWithEnds(line + rest) == [line] + LinesWithEnds(rest)
    decreases |line|
  {
    hide LinesWithEnds;
    var text := line + rest;
    LinesStep(text);
    assert [text[0]] + line[1..] == line && text[1..] == line[1..] + rest;
    if |line| == 1 {
      assert [text[0]] == line && text[1..] == rest;
    } else {
      LineTail(line);
      FirstLineSplits(line[1..], rest);
    }
  }

  lemma LineTail(line: string)
    requires OneLine(line) && |line| > 1
    ensures line[0] != '\n' && OneLine(line[1..]) && (EndsWithNewline(line[1..]) <==> EndsWithNewline(line))
  {
    assert line[..|line| - 1][0] == line[0];
    assert line[1..][..|line| - 2] == line[..|line| - 1][1..];
  }

  lemma {:induction false} LinesAreOneLine(content: string)
    ensures AllOneLine(LinesWithEnds(content))
  {
    if content != "" {
      LinesAreOneLine(content[1..]);
      LinesStep(content);
      var rest := LinesWithEnds(content[1..]);
      if content[0] != '\n' && rest != [] {
        var line := [content[0]] + rest[0];
        assert line[..|line| - 1] == [content[0]] + rest[0][..|rest[0]| - 1];
      }
    }
  }

  /** Joined pieces are read back as the same lines exactly if they are separated. */
  lemma {:induction false} PiecesAreLinesIff(pieces: seq<string>)
    requires AllOneLine(pieces)
    ensures LinesWithEnds(Concat(pieces)) == pieces <==> Separated(pieces)
    decreases |pieces|
  {
    if pieces != [] && Separated(pieces) {
      var first, rest := pieces[0], pieces[1..];
      assert pieces == [first] + rest;
      ConcatCons(first, rest);
      PiecesAreLinesIff(rest);
      if rest == [] { assert Concat(rest) == ""; }
      FirstLineSplits(first, Concat(rest));
    }
  }

  /** No hunk line holds a newline, as in every parsed patch. */
  predicate Unbroken(lines: seq<string>) {
    forall i :: 0 <= i < |lines| ==> '\n' !in lines[i]
  }

  predicate AllUnbroken(hunks: seq<Hunk>) {
    forall i :: 0 <= i < |hunks| ==> Unbroken(hunks[i].lines)
  }

  lemma {:induction false} RenderedHunksAreUnbroken(body: seq<string>, at: nat, hunks: seq<Hunk>)
    requires Unbroken(body) && RendersHunks(body, at, hunks)
    ensures AllUnbroken(hunks)
    decreases |hunks|
  {
    if hunks != [] {
      var end := at + 1 + |hunks[0].lines|;
      RenderedHunksAreUnbroken(body, end, hunks[1..]);
      forall j | 0 <= j < |hunks[0].lines| ensures '\n' !in hunks[0].lines[j] {
        assert hunks[0].lines[j] == body[at + 1..end][j] == body[at + 1 + j];
      }
      forall i | 0 <= i < |hunks| ensures Unbroken(hunks[i].lines) {
        if i > 0 { assert hunks[i] == hunks[1..][i - 1]; }
      }
    }
  }

  lemma {:induction false} RenderedFilesAreUnbroken(lines: seq<string>, at: nat, files: seq<FilePatch>, k: nat)
    requires Unbroken(lines) && RendersFiles(lines, at, files) && k < |files| && files[k].Update?
    ensures AllUnbroken(files[k].hunks)
    decreases |files|
  {
    var end := at + 1 + BodySize(files[0]);
    if k == 0 {
      var body := lines[at + 1..end];
      forall i | 0 <= i < |body| ensures '\n' !in body[i] { assert body[i] == lines[at + 1 + i]; }
      RenderedHunksAreUnbroken(body, 0, files[0].hunks);
    } else {
      RenderedFilesAreUnbroken(lines, end, files[1..], k - 1);
    }
  }

  lemma ParsedHunksAreUnbroken(patch: string, files: seq<FilePatch>, k: nat)
    requires Parse(patch) == Ok(files) && k < |files| && files[k].Update?
    ensures AllUnbroken(files[k].hunks)
  {
    hide Parse, Split, NormalizeNewlines, RendersFiles;
    ParseIsExact(patch, files);
    RenderedFilesAreUnbroken(LinesOf(patch), 1, files, k);
  }

  lemma {:induction false} SideIsOneLine(lines: seq<string>, sign: char)
    requires Unbroken(lines) && forall i :: 0 <= i < |lines| ==> lines[i] != ""
    ensures AllOneLine(Side(lines, sign))
  {
    if lines != [] {
      var line := lines[0][1..] + "\n";
      assert line[..|line| - 1] == lines[0][1..];
      SideIsOneLine(lines[1..], sign);
    }
  }

  lemma TrimmedIsOneLine(lines: seq<string>)
    requires AllOneLine(lines) && lines != [] && lines[|lines| - 1] != ""
    ensures AllOneLine(TrimLast(lines))
  {
    var last := lines[|lines| - 1];
    if EndsWithNewline(last) {
      var trimmed := last[..|last| - 1];
      assert trimmed != "" ==> trimmed[..|trimmed| - 1] == last[..|trimmed| - 1];
    }
  }

  lemma NewSideLines(hunk: Hunk, trim: bool)
    requires AllHunkLines(hunk.lines) && Unbroken(hunk.lines)
    ensures AllOneLine(NewSide(hunk, trim))
    ensures !trim ==> forall i :: 0 <= i < |NewSide(hunk, trim)| ==> EndsWithNewline(NewSide(hunk, trim)[i])
  {
    hide OneLine, TrimLast;
    HunkLinesNonEmpty(hunk.lines);
    SideLinesEnd(hunk.lines, '-');
    SideLinesEnd(hunk.lines, '+');
    SideIsOneLine(hunk.lines, '+');
    var added := Side(hunk.lines, '+');
    if added != [] {
      TrimmedIsOneLine(added);
    }
  }

  /** A piece of a splice is an original line or one of the new lines. */
  lemma {:induction false} FrontPieces(lines: seq<string>, edits: seq<Edit>, x: string)
    requires Fits(lines, edits) && x in Front(lines, edits)
    ensures x in lines || exists i :: 0 <= i < |edits| && x in edits[i].after
    decreases |edits|
  {
    if edits != [] {
      FitsParts(lines, edits);
      var init := Init(edits);
      if x in Front(lines, init) {
        FrontPieces(lines, init, x);
        if i :| 0 <= i < |init| && x in init[i].after {
          assert init[i] == edits[i];
        }
      } else if x in Last(edits).after {
        assert Last(edits) == edits[|edits| - 1];
      }
    }
  }

  lemma SplicePieces(lines: seq<string>, edits: seq<Edit>, x: string)
    requires Fits(lines, edits) && x in Splice(lines, edits)
    ensures x in lines || exists i :: 0 <= i < |edits| && x in edits[i].after
  {
    if x in Front(lines, edits) {
      FrontPieces(lines, edits, x);
    }
  }

  lemma ResultPieces(content: string, hunks: seq<Hunk>, edits: seq<Edit>)
    requires GoodHunks(hunks) && AllUnbroken(hunks)
    requires Select(LinesWithEnds(content), SidesOf(hunks, Trims(content)), []) == Ok(edits)
    ensures var pieces := Splice(LinesWithEnds(content), edits);
            && AllOneLine(pieces)
            && (!Trims(content) ==> forall i :: 0 <= i < |pieces| ==> EndsWithNewline(pieces[i]))
  {
    hide OneLine, Front, Fits, Side, Select, NewSide, OldSide, LinesWithEnds, Splice, Match;
    var lines, sides := LinesWithEnds(content), SidesOf(hunks, Trims(content));
    var pieces := Splice(lines, edits);
    LinesAreOneLine(content);
    SelectIsExact(lines, sides, [], edits);
    forall k | 0 <= k < |pieces|
      ensures OneLine(pieces[k]) && (!Trims(content) ==> EndsWithNewline(pieces[k]))
    {
      SplicePieces(lines, edits, pieces[k]);
      if i :| 0 <= i < |edits| && pieces[k] in edits[i].after {
        assert Chosen(lines, End(edits[..i]), sides[i], edits[i]);
        NewSideLines(hunks[i], Trims(content));
      }
    }
  }

  /** The lines of the patched text are the pieces of the splice if and only if every piece but the last
      has its newline and the last is not empty. That is always so unless the file has text and no final
      newline: only then can new text be glued to what was the last line. */
  lemma ResultLinesIff(content: string, hunks: seq<Hunk>, edits: seq<Edit>)
    requires GoodHunks(hunks) && AllUnbroken(hunks)
    requires Select(LinesWithEnds(content), SidesOf(hunks, Trims(content)), []) == Ok(edits)
    ensures var pieces := Splice(LinesWithEnds(content), edits);
            && Apply(content, hunks) == Ok(Concat(pieces))
            && (LinesWithEnds(Concat(pieces)) == pieces <==> Separated(pieces))
            && (!Trims(content) ==> LinesWithEnds(Concat(pieces)) == pieces)
  {
    hide Splice, Select, LinesWithEnds, Concat, OneLine;
    var pieces := Splice(LinesWithEnds(content), edits);
    ResultPieces(content, hunks, edits);
    PiecesAreLinesIff(pieces);
  }

  /** The witness: the patch adds the lines `b` and `c`, and the result shows `bc`. */
  lemma AddedLinesAreGlued()
    ensures Apply("a", [Hunk([" a", "+b"]), Hunk(["+c"])]) == Ok("a\nbc\n")
  {
    hide Apply, Side, Splice, Selects, Fits, Concat;
    GluedSides();
    GluedEdits();
    GluedPieces();
    ApplyIsSimultaneousSplice("a", [Hunk([" a", "+b"]), Hunk(["+c"])], Gluing());
  }

  /** The two edits of that patch. */
  function Gluing(): seq<Edit> { [Edit(0, ["a"], ["a\n", "b"]), Edit(1, [], ["c\n"])] }

  lemma ShortSides(a: string, b: string, sign: char)
    requires a != "" && b != ""
    ensures var x, y := if a[0] == ' ' || a[0] == sign then [a[1..] + "\n"] else [],
                        if b[0] == ' ' || b[0] == sign then [b[1..] + "\n"] else [];
            Side([a], sign) == x && Side([a, b], sign) == x + y
  {
    assert [a, b][1..] == [b] && [a][1..] == [] && [b][1..] == [];
    assert Side([], sign) == [];
    assert Side([b], sign) == if b[0] == ' ' || b[0] == sign then [b[1..] + "\n"] else [];
  }

  lemma GluedSides()
    ensures var hunks := [Hunk([" a", "+b"]), Hunk(["+c"])];
            GoodHunks(hunks) && SidesOf(hunks, true) == [Sides(["a"], ["a\n", "b"]), Sides([], ["c\n"])]
  {
    hide Side;
    var one, two := Hunk([" a", "+b"]), Hunk(["+c"]);
    ShortSides(" a", "+b", '-');
    ShortSides(" a", "+b", '+');
    ShortSides("+c", "+c", '-');
    ShortSides("+c", "+c", '+');
    assert " a"[1..] + "\n" == "a\n" && "+b"[1..] + "\n" == "b\n" && "+c"[1..] + "\n" == "c\n";
    assert "a\n"[..1] == "a" && "b\n"[..1] == "b";
    assert OldSide(one, true) == ["a"] && NewSide(one, true) == ["a\n", "b"];
    assert OldSide(two, true) == [] && NewSide(two, true) == ["c\n"];
    assert [one, two][1..] == [two] && [two][1..] == [];
  }

  lemma GluedEdits()
    ensures LinesWithEnds("a") == ["a"] && Trims("a")
    ensures Selects(["a"], [Sides(["a"], ["a\n", "b"]), Sides([], ["c\n"])], Gluing())
  {
    LinesStep("a");
    assert LinesWithEnds("a"[1..]) == [];
    var lines, edits := ["a"], Gluing();
    assert edits[..0] == [] && edits[..1] == [edits[0]];
    assert lines[0..1] == ["a"];
    assert OnlyMatch(lines, 0, ["a"], 0);
  }

  lemma GluedPieces()
    ensures Fits(["a"], Gluing()) && Concat(Splice(["a"], Gluing())) == "a\nbc\n"
  {
    var lines, edits := ["a"], Gluing();
    assert Init(edits) == [edits[0]] && Init([edits[0]]) == [];
    assert lines[0..1] == ["a"];
    assert Front(lines, [edits[0]]) == ["a\n", "b"];
    assert Splice(lines, edits) == ["a\n", "b", "c\n"];
    ConcatCons("c\n", []);
    ConcatCons("b", ["c\n"]);
    ConcatCons("a\n", ["b", "c\n"]);
    assert ["a\n"] + ["b", "c\n"] == ["a\n", "b", "c\n"] && ["b"] + ["c\n"] == ["b", "c\n"];
    assert ["c\n"] + [] == ["c\n"];
    assert "b" + "c\n" == "bc\n" && "a\n" + "bc\n" == "a\nbc\n" && "c\n" + "" == "c\n";
  }
}
