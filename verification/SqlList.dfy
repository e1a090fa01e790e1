/**
 `splitSqlList`: cuts the body of a table definition at the commas that are outside quotes and
 parentheses. A quote closes at the next equal quote character that does not follow a backslash.
 */
module SqlList {
  import opened Prelude
  import opened Text

  datatype Scan = Scan(depth: int, quote: Option<char>)
  const TOP := Scan(0, None)

  predicate IsQuote(c: char) {
    c == '\'' || c == '"' || c == '`'
  }

  function Next(st: Scan, previous: char, c: char): Scan {
    if st.quote.Some? then
      if c == st.quote.value && previous != '\\' then st.(quote := None) else st
    else if IsQuote(c) then st.(quote := Some(c))
    else if c == '(' then st.(depth := st.depth + 1)
    else if c == ')' then st.(depth := st.depth - 1)
    else st
  }

  /** The state of the scan of `s` before position `j`. */
  function StateAt(s: string, j: nat): Scan
    requires j <= |s|
  {
    if j == 0 then TOP else Next(StateAt(s, j - 1), if j >= 2 then s[j - 2] else ' ', s[j - 1])
  }

  predicate TopComma(s: string, j: nat)
    requires j < |s|
  {
    s[j] == ',' && StateAt(s, j) == TOP
  }

  predicate NoTopComma(s: string) {
    forall j :: 0 <= j < |s| ==> !TopComma(s, j)
  }

  /** Quotes closed and parentheses balanced at the end. */
  predicate Closed(s: string) {
    StateAt(s, |s|) == TOP
  }

  /** The first top-level comma from position `j` on, or the length. */
  function CutFrom(s: string, j: nat): (k: nat)
    requires j <= |s|
    ensures j <= k <= |s| && (k < |s| ==> TopComma(s, k))
    ensures forall i :: j <= i < k ==> !TopComma(s, i)
    decreases |s| - j
  {
    if j == |s| || TopComma(s, j) then j else CutFrom(s, j + 1)
  }

  function RawPieces(s: string): (raws: seq<string>)
    ensures raws != []
    decreases |s|
  {
    var k := CutFrom(s, 0);
    if k == |s| then [s] else [s[..k]] + RawPieces(s[k + 1..])
  }

  function TrimAll(raws: seq<string>): (pieces: seq<string>)
    ensures |pieces| == |raws|
    ensures forall i :: 0 <= i < |raws| ==> pieces[i] == Trim(raws[i])
  {
    seq(|raws|, i requires 0 <= i < |raws| => Trim(raws[i]))
  }

  /** Every piece is trimmed; a blank last piece is dropped. */
  function Finish(raws: seq<string>): seq<string>
    requires raws != []
  {
    var last := Trim(raws[|raws| - 1]);
    if last == "" then TrimAll(raws[..|raws| - 1]) else TrimAll(raws)
  }

  function Split(s: string): seq<string> {
    Finish(RawPieces(s))
  }

  function Join(pieces: seq<string>): string {
    if pieces == [] then "" else if |pieces| == 1 then pieces[0] else pieces[0] + "," + Join(pieces[1..])
  }

  /** The loop state: the current piece starts at `start` and holds no top-level comma so far. */
  ghost predicate Scanning(value: string, start: nat, index: nat, current: string, st: Scan) {
    && start <= index <= |value|
    && current == value[start..index]
    && st == StateAt(value[start..], index - start)
    && forall i :: 0 <= i < index - start ==> !TopComma(value[start..], i)
  }

  /** The pieces cut off so far, and their trimmed forms in the output. */
  ghost predicate Collected(value: string, start: nat, done: seq<string>, output: seq<string>) {
    start <= |value| && RawPieces(value) == done + RawPieces(value[start..]) && output == TrimAll(done)
  }

  /** What the loop does to depth and quote at one character, and whether it cuts there instead. */
  method ScanCharacter(depth: int, quote: Option<char>, previous: char, character: char)
    returns (newDepth: int, newQuote: Option<char>, cuts: bool)
    ensures cuts == (character == ',' && Scan(depth, quote) == TOP)
    ensures !cuts ==> Scan(newDepth, newQuote) == Next(Scan(depth, quote), previous, character)
    ensures cuts ==> Scan(newDepth, newQuote) == TOP
  {
    newDepth, newQuote, cuts := depth, quote, false;
    if quote.Some? {
      if character == quote.value && previous != '\\' {
        newQuote := None;
      }
      return;
    }
    if IsQuote(character) {
      newQuote := Some(character);
      return;
    }
    if character == '(' {
      newDepth := newDepth + 1;
    }
    if character == ')' {
      newDepth := newDepth - 1;
    }
    cuts := character == ',' && newDepth == 0;
  }

  method SplitSqlList(value: string) returns (output: seq<string>)
    ensures output == Split(value)
  {
    output := [];
    var current := "";
    var depth := 0;
    var quote: Option<char> := None;
    ghost var start := 0;
    ghost var done: seq<string> := [];
    var index := 0;
    while index < |value|
      invariant 0 <= start <= index <= |value|
      invariant Scanning(value, start, index, current, Scan(depth, quote))
      invariant Collected(value, start, done, output)
    {
      var character := value[index];
      ScanStep(value, start, index, current, Scan(depth, quote));
      var newDepth, newQuote, cuts := ScanCharacter(depth, quote, if index > 0 then value[index - 1] else ' ', character);
      if cuts {
        CutPiece(value, start, index, done, output, current);
        output := output + [Trim(current)];
        done := done + [current];
        current := "";
        start := index + 1;
      } else {
        current := current + [character];
      }
      depth, quote := newDepth, newQuote;
      index := index + 1;
    }
    LastPiece(value, start, done, output, current, Scan(depth, quote));
    if Trim(current) != "" {
      output := output + [Trim(current)];
    }
  }

  /** One character of the loop: the scan goes on unless the character is a top-level comma. */
  lemma ScanStep(value: string, start: nat, index: nat, current: string, st: Scan)
    requires Scanning(value, start, index, current, st) && index < |value|
    ensures !(value[index] == ',' && st == TOP) ==>
              Scanning(value, start, index + 1, current + [value[index]],
                       Next(st, if index > 0 then value[index - 1] else ' ', value[index]))
  {
    var rest, at := value[start..], index - start;
    assert rest[at] == value[index];
    if at > 0 {
      assert rest[at - 1] == value[index - 1];
    } else {
      PreviousOnlyMattersInQuotes(st, if index > 0 then value[index - 1] else ' ', ' ', value[index]);
    }
  }

  lemma PreviousOnlyMattersInQuotes(st: Scan, one: char, other: char, c: char)
    requires st.quote.None?
    ensures Next(st, one, c) == Next(st, other, c)
  {
  }

  /** A top-level comma ends the current piece. */
  lemma CutStep(value: string, start: nat, index: nat, current: string)
    requires Scanning(value, start, index, current, TOP) && index < |value| && value[index] == ','
    ensures RawPieces(value[start..]) == [current] + RawPieces(value[index + 1..])
  {
    var rest, k := value[start..], index - start;
    assert rest[k] == value[index];
    SliceOfSuffix(value, start, index);
    FirstCut(rest, k);
  }

  lemma CutPiece(value: string, start: nat, index: nat, done: seq<string>, output: seq<string>, current: string)
    requires Collected(value, start, done, output)
    requires Scanning(value, start, index, current, TOP) && index < |value| && value[index] == ','
    ensures Collected(value, index + 1, done + [current], output + [Trim(current)])
    ensures Scanning(value, index + 1, index + 1, "", TOP)
  {
    CutStep(value, start, index, current);
    Regroup(done, current, RawPieces(value[index + 1..]));
    TrimAllAppend(done, current);
  }

  lemma LastPiece(value: string, start: nat, done: seq<string>, output: seq<string>, current: string, st: Scan)
    requires Scanning(value, start, |value|, current, st) && Collected(value, start, done, output)
    ensures Split(value) == output + if Trim(current) == "" then [] else [Trim(current)]
  {
    FirstCut(value[start..], |value[start..]|);
    assert current == value[start..];
    FinishAppend(done, current);
  }

  lemma FinishAppend(done: seq<string>, piece: string)
    ensures Finish(done + [piece]) == TrimAll(done) + if Trim(piece) == "" then [] else [Trim(piece)]
  {
    TrimAllAppend(done, piece);
    assert (done + [piece])[..|done|] == done;
  }

  lemma Regroup(done: seq<string>, piece: string, rest: seq<string>)
    ensures done + ([piece] + rest) == (done + [piece]) + rest
  {
  }

  lemma SliceOfSuffix(value: string, start: nat, index: nat)
    requires start <= index < |value|
    ensures value[start..][..index - start] == value[start..index]
    ensures value[start..][index - start + 1..] == value[index + 1..]
  {
  }

  lemma TrimAllAppend(done: seq<string>, piece: string)
    ensures TrimAll(done + [piece]) == TrimAll(done) + [Trim(piece)]
  {
  }

  /** The first piece ends at the first top-level comma. */
  lemma FirstCut(s: string, k: nat)
    requires k <= |s| && (forall i :: 0 <= i < k ==> !TopComma(s, i)) && (k < |s| ==> TopComma(s, k))
    ensures CutFrom(s, 0) == k
    ensures RawPieces(s) == if k == |s| then [s] else [s[..k]] + RawPieces(s[k + 1..])
  {
    var c := CutFrom(s, 0);
    assert !(c < k);
    assert !(k < c);
  }

  // ----- the scan of a part of a string

  lemma {:induction false} ScanOfPrefix(s: string, b: nat, j: nat)
    requires j <= b <= |s|
    ensures StateAt(s[..b], j) == StateAt(s, j)
  {
    if j > 0 {
      ScanOfPrefix(s, b, j - 1);
    }
  }

  /** A scan that is back at the top level continues as if it started afresh. */
  lemma {:induction false} ScanOfSuffix(s: string, a: nat, j: nat)
    requires a + j <= |s| && StateAt(s, a) == TOP
    ensures StateAt(s[a..], j) == StateAt(s, a + j)
  {
    if j > 0 {
      ScanOfSuffix(s, a, j - 1);
      assert s[a..][j - 1] == s[a + j - 1];
      if j >= 2 {
        assert s[a..][j - 2] == s[a + j - 2];
      }
    }
  }

  function Count(s: string, c: char): nat {
    if s == "" then 0 else Count(s[..|s| - 1], c) + if s[|s| - 1] == c then 1 else 0
  }

  /** Without quotes the depth is the number of parentheses opened and not closed. */
  lemma {:induction false} DepthCountsParentheses(s: string, j: nat)
    requires j <= |s| && forall i :: 0 <= i < j ==> s[i] !in {'\'', '"', '`'}
    ensures StateAt(s, j) == Scan(Count(s[..j], '(') - Count(s[..j], ')'), None)
  {
    if j > 0 {
      DepthCountsParentheses(s, j - 1);
      assert s[..j][..j - 1] == s[..j - 1];
    }
  }

  /**
   A quote character outside quotes opens one, which keeps the depth and everything inside it, up to the
   first equal character that does not follow a backslash.
   */
  lemma {:induction false} QuoteLasts(s: string, open: nat, j: nat)
    requires open < j <= |s| && s[open] in {'\'', '"', '`'} && StateAt(s, open).quote.None?
    requires forall i :: open < i < j ==> s[i] != s[open] || s[i - 1] == '\\'
    ensures StateAt(s, j) == StateAt(s, open).(quote := Some(s[open]))
  {
    if j > open + 1 {
      QuoteLasts(s, open, j - 1);
    }
  }

  /** There the scan is back where the quote began. */
  lemma QuoteCloses(s: string, open: nat, close: nat)
    requires open < close < |s| && s[open] in {'\'', '"', '`'} && StateAt(s, open).quote.None?
    requires forall i :: open < i < close ==> s[i] != s[open] || s[i - 1] == '\\'
    requires s[close] == s[open] && s[close - 1] != '\\'
    ensures StateAt(s, close + 1) == StateAt(s, open)
  {
    QuoteLasts(s, open, close);
  }

  lemma {:induction false} LeadingSpaceStaysTop(s: string, a: nat)
    requires a <= |s| && AllSpace(s[..a])
    ensures StateAt(s, a) == TOP
  {
    if a > 0 {
      assert AllSpace(s[..a - 1]) by { assert forall i :: 0 <= i < a - 1 ==> s[..a - 1][i] == s[..a][i]; }
      LeadingSpaceStaysTop(s, a - 1);
      assert IsSpace(s[..a][a - 1]);
    }
  }

  /** Trimming a piece brings no comma to the top level. */
  lemma TrimKeepsNoTopComma(s: string)
    requires NoTopComma(s)
    ensures NoTopComma(Trim(s))
  {
    var a := Lead(s);
    var t := Trim(s);
    LeadingSpaceStaysTop(s, a);
    assert t == s[a..][..|t|];
    forall j | 0 <= j < |t| ensures !TopComma(t, j) {
      ScanOfPrefix(s[a..], |t|, j);
      ScanOfSuffix(s, a, j);
      assert t[j] == s[a..][j] == s[a + j];
      assert !TopComma(s, a + j);
    }
  }

  // ----- the pieces

  lemma FirstPieceIsClosed(s: string, k: nat)
    requires k < |s| && k == CutFrom(s, 0)
    ensures NoTopComma(s[..k]) && Closed(s[..k])
  {
    forall j | 0 <= j <= k ensures StateAt(s[..k], j) == StateAt(s, j) {
      ScanOfPrefix(s, k, j);
    }
    forall j | 0 <= j < k ensures !TopComma(s[..k], j) {
      assert !TopComma(s, j);
    }
  }

  /** The raw pieces put the input back together; none hides a top-level comma, and all but the last are closed. */
  lemma {:induction false} RawPiecesPartition(s: string)
    ensures Join(RawPieces(s)) == s
    ensures forall i :: 0 <= i < |RawPieces(s)| ==> NoTopComma(RawPieces(s)[i])
    ensures forall i :: 0 <= i < |RawPieces(s)| - 1 ==> Closed(RawPieces(s)[i])
    decreases |s|
  {
    var k := CutFrom(s, 0);
    if k < |s| {
      RawPiecesPartition(s[k + 1..]);
      assert s == s[..k] + "," + s[k + 1..];
      assert RawPieces(s)[1..] == RawPieces(s[k + 1..]);
      FirstPieceIsClosed(s, k);
    }
  }

  /** They are the only such decomposition. */
  lemma {:induction false} RawPiecesUnique(raws: seq<string>)
    requires raws != []
    requires forall i :: 0 <= i < |raws| ==> NoTopComma(raws[i])
    requires forall i :: 0 <= i < |raws| - 1 ==> Closed(raws[i])
    ensures RawPieces(Join(raws)) == raws
  {
    var s := Join(raws);
    if |raws| == 1 {
      FirstCut(s, |s|);
    } else {
      var r := raws[0];
      RawPiecesUnique(raws[1..]);
      assert s[..|r|] == r && s[|r|] == ',' && s[|r| + 1..] == Join(raws[1..]);
      forall j | 0 <= j <= |r| ensures StateAt(r, j) == StateAt(s, j) {
        ScanOfPrefix(s, |r|, j);
      }
      forall j | 0 <= j < |r| ensures !TopComma(s, j) {
        assert !TopComma(r, j);
        assert s[j] == r[j];
      }
      FirstCut(s, |r|);
    }
  }

  /** No piece of any input contains a top-level comma. */
  lemma NoPieceHasTopComma(s: string)
    ensures forall i :: 0 <= i < |Split(s)| ==> NoTopComma(Split(s)[i]) && Trimmed(Split(s)[i])
  {
    RawPiecesPartition(s);
    var raws := RawPieces(s);
    forall i | 0 <= i < |Split(s)| ensures NoTopComma(Split(s)[i]) && Trimmed(Split(s)[i]) {
      assert Split(s)[i] == Trim(raws[i]);
      TrimKeepsNoTopComma(raws[i]);
      TrimIsTrimmed(raws[i]);
    }
  }

  /** A list element as the schema code expects it: closed quotes, balanced parentheses, no bare comma. */
  predicate WellFormed(piece: string) {
    NoTopComma(piece) && Closed(piece)
  }

  /** Splitting what was joined from well-formed pieces, however padded, gives their trimmed forms. */
  lemma SplitOfJoin(raws: seq<string>)
    requires raws != [] && forall i :: 0 <= i < |raws| ==> WellFormed(raws[i])
    ensures Split(Join(raws)) == Finish(raws)
  {
    RawPiecesUnique(raws);
  }

  /** Round trip: non-empty trimmed well-formed pieces survive joining and splitting unchanged. */
  lemma SplitRoundTrip(pieces: seq<string>)
    requires forall i :: 0 <= i < |pieces| ==> WellFormed(pieces[i]) && Trimmed(pieces[i]) && pieces[i] != ""
    ensures Split(Join(pieces)) == pieces
  {
    if pieces == [] {
      FirstCut("", 0);
      TrimOfTrimmed("");
    } else {
      SplitOfJoin(pieces);
      TrimAllOfTrimmed(pieces);
      TrimOfTrimmed(pieces[|pieces| - 1]);
    }
  }

  lemma TrimAllOfTrimmed(pieces: seq<string>)
    requires forall i :: 0 <= i < |pieces| ==> Trimmed(pieces[i])
    ensures TrimAll(pieces) == pieces
  {
    forall i | 0 <= i < |pieces| ensures Trim(pieces[i]) == pieces[i] {
      TrimOfTrimmed(pieces[i]);
    }
  }
}
