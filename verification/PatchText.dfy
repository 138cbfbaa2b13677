/** Strings as the patch code uses them: splitting, joining and line-break normalization. */
module PatchText {
  /** `text.split(sep)`: always at least one piece. */
  function Split(text: string, sep: char): (pieces: seq<string>)
    ensures pieces != []
    ensures forall i :: 0 <= i < |pieces| ==> sep !in pieces[i]
  {
    if text == "" then [""]
    else if text[0] == sep then [""] + Split(text[1..], sep)
    else
      var rest := Split(text[1..], sep);
      [[text[0]] + rest[0]] + rest[1..]
  }

  function Join(pieces: seq<string>, sep: char): string {
    if pieces == [] then ""
    else if |pieces| == 1 then pieces[0]
    else pieces[0] + [sep] + Join(pieces[1..], sep)
  }

  /** `\r\n` and lone `\r` become `\n`. */
  function NormalizeNewlines(text: string): (r: string)
    ensures '\r' !in r
  {
    if text == "" then ""
    else if text[0] == '\r' then
      "\n" + NormalizeNewlines(if |text| > 1 && text[1] == '\n' then text[2..] else text[1..])
    else [text[0]] + NormalizeNewlines(text[1..])
  }

  lemma {:induction false} SplitFirst(piece: string, rest: string, sep: char)
    requires sep !in piece
    ensures Split(piece, sep) == [piece]
    ensures Split(piece + [sep] + rest, sep) == [piece] + Split(rest, sep)
  {
    var text := piece + [sep] + rest;
    if piece != "" {
      SplitFirst(piece[1..], rest, sep);
      assert text[0] == piece[0] && text[1..] == piece[1..] + [sep] + rest;
      assert [piece[0]] + piece[1..] == piece;
    } else {
      assert text[0] == sep && text[1..] == rest;
    }
  }

  /** Splitting is the inverse of joining pieces that do not contain the separator. */
  lemma {:induction false} SplitJoin(pieces: seq<string>, sep: char)
    requires pieces != [] && forall i :: 0 <= i < |pieces| ==> sep !in pieces[i]
    ensures Split(Join(pieces, sep), sep) == pieces
    decreases |pieces|
  {
    if |pieces| == 1 {
      SplitFirst(pieces[0], "", sep);
    } else {
      SplitFirst(pieces[0], Join(pieces[1..], sep), sep);
      SplitJoin(pieces[1..], sep);
      assert pieces == [pieces[0]] + pieces[1..];
    }
  }

  lemma {:induction false} NormalizeWithoutCr(text: string)
    requires '\r' !in text
    ensures NormalizeNewlines(text) == text
  {
    if text != "" {
      NormalizeWithoutCr(text[1..]);
    }
  }

  lemma {:induction false} JoinHasNoCr(pieces: seq<string>)
    requires forall i :: 0 <= i < |pieces| ==> '\r' !in pieces[i]
    ensures '\r' !in Join(pieces, '\n')
    decreases |pieces|
  {
    if |pieces| > 1 {
      JoinHasNoCr(pieces[1..]);
    }
  }
}
