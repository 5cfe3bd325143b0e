/**
  The routing signature's scanner: a quote-aware and escape-aware search for the
  balanced expressions headed segment, via or arc.
*/
module RouteScanner {

  // ----- text ----------------------------------------------------------------------

  /** The first `k` characters of `s` stand in `text` from `pos` on. */
  predicate Match(text: string, pos: nat, s: string, k: nat)
    requires k <= |s| && pos + k <= |text|
  {
    k == 0 || (Match(text, pos, s, k - 1) && text[pos + k - 1] == s[k - 1])
  }

  /** `s` stands in `text` at position `pos`. */
  predicate At(text: string, pos: nat, s: string) {
    pos + |s| <= |text| && Match(text, pos, s, |s|)
  }

  lemma {:induction false} MatchIsPointwise(text: string, pos: nat, s: string, k: nat)
    requires k <= |s| && pos + k <= |text|
    ensures Match(text, pos, s, k) <==> forall q :: pos <= q < pos + k ==> text[q] == s[q - pos]
  {
    if k != 0 {
      MatchIsPointwise(text, pos, s, k - 1);
    }
  }

  /** To stand somewhere is to be the slice there. */
  lemma {:induction false} AtIsSlice(text: string, pos: nat, s: string)
    ensures At(text, pos, s) <==> pos + |s| <= |text| && text[pos..pos + |s|] == s
  {
    if pos + |s| <= |text| {
      MatchIsPointwise(text, pos, s, |s|);
      var t := text[pos..pos + |s|];
      assert forall q :: pos <= q < pos + |s| ==> t[q - pos] == text[q];
      if t == s {
      } else {
        var k :| 0 <= k < |s| && t[k] != s[k];
        assert text[pos + k] != s[pos + k - pos];
      }
    }
  }

  lemma {:induction false} AtConcat(text: string, pos: nat, s: string, t: string)
    ensures At(text, pos, s + t) <==> At(text, pos, s) && At(text, pos + |s|, t)
  {
    AtIsSlice(text, pos, s + t);
    AtIsSlice(text, pos, s);
    AtIsSlice(text, pos + |s|, t);
    if pos + |s| + |t| <= |text| {
      var both := text[pos..pos + |s| + |t|];
      assert both[..|s|] == text[pos..pos + |s|] && both[|s|..] == text[pos + |s|..pos + |s| + |t|];
      assert (s + t)[..|s|] == s && (s + t)[|s|..] == t;
      assert both == both[..|s|] + both[|s|..];
    }
  }

  lemma {:induction false} SliceOfSlice(text: string, lo: nat, hi: nat, i: nat, j: nat)
    requires lo <= hi <= |text| && i <= j <= hi - lo
    ensures text[lo..hi][i..j] == text[lo + i..lo + j]
  {
    forall k | 0 <= k < j - i
      ensures text[lo..hi][i..j][k] == text[lo + i..lo + j][k]
    {
    }
  }

  /** One place inside another. */
  lemma {:induction false} AtInside(text: string, pos: nat, s: string, i: nat, t: string)
    requires At(text, pos, s) && i + |t| <= |s|
    ensures At(s, i, t) <==> At(text, pos + i, t)
  {
    AtIsSlice(text, pos, s);
    AtIsSlice(s, i, t);
    AtIsSlice(text, pos + i, t);
    SliceOfSlice(text, pos, pos + |s|, i, i + |t|);
  }

  datatype Option<T> = None | Some(value: T)

  /** The first position from `from` on at which `pat` stands. */
  function Find(text: string, pat: string, from: nat): (r: Option<nat>)
    ensures r.Some? ==> from <= r.value <= |text| - |pat|
    decreases |text| - from
  {
    if from + |pat| > |text| then None
    else if At(text, from, pat) then Some(from)
    else Find(text, pat, from + 1)
  }

  /** It stands there, and nowhere before. */
  lemma {:induction false} FindIsFirst(text: string, pat: string, from: nat)
    ensures match Find(text, pat, from)
            case Some(f) => At(text, f, pat) && forall j :: from <= j < f ==> !At(text, j, pat)
            case None => forall j :: from <= j ==> !At(text, j, pat)
    decreases |text| - from
  {
    if from + |pat| <= |text| && !At(text, from, pat) {
      FindIsFirst(text, pat, from + 1);
    }
  }

  // ----- the scanner ------------------------------------------------------------------

  datatype Scan = Scan(depth: int, quoted: bool, escaped: bool)

  const START := Scan(0, false, false)

  /** The state after one character. */
  function Advance(s: Scan, c: char): Scan {
    if s.quoted then
      if s.escaped then s.(escaped := false)
      else if c == '\\' then s.(escaped := true)
      else if c == '"' then s.(quoted := false)
      else s
    else if c == '"' then s.(quoted := true)
    else if c == '(' then s.(depth := s.depth + 1)
    else if c == ')' then s.(depth := s.depth - 1)
    else s
  }

  /** The character closes the expression: an unquoted parenthesis that brings the depth to zero. */
  predicate Closes(s: Scan, c: char) { !s.quoted && c == ')' && s.depth == 1 }

  /** Where the scan that is at `pos` in state `s` ends: behind the closing parenthesis, or at the end of the text. */
  function ScanEnd(text: string, pos: nat, s: Scan): (end: nat)
    requires pos <= |text|
    ensures pos <= end <= |text|
    ensures pos < |text| ==> pos < end
    decreases |text| - pos
  {
    if pos == |text| then pos
    else if Closes(s, text[pos]) then pos + 1
    else ScanEnd(text, pos + 1, Advance(s, text[pos]))
  }

  /** The scan's state before the character at `k`, having begun at `start`. */
  function StateAt(text: string, start: nat, k: nat): Scan
    requires start <= k <= |text|
  {
    if k == start then START else Advance(StateAt(text, start, k - 1), text[k - 1])
  }

  /** An unquoted closing parenthesis that leaves no parenthesis open. */
  predicate EndsAt(text: string, start: nat, k: nat)
    requires start <= k < |text|
  {
    var s := StateAt(text, start, k);
    text[k] == ')' && !s.quoted && s.depth - 1 == 0
  }

  lemma {:induction false} ScanFromState(text: string, start: nat, k: nat)
    requires start <= k <= |text| && forall j :: start <= j < k ==> !EndsAt(text, start, j)
    ensures var end := ScanEnd(text, k, StateAt(text, start, k));
            if end > k && EndsAt(text, start, end - 1) then forall j :: start <= j < end - 1 ==> !EndsAt(text, start, j)
            else end == |text| && forall j :: start <= j < end ==> !EndsAt(text, start, j)
    decreases |text| - k
  {
    if k < |text| && !EndsAt(text, start, k) {
      assert StateAt(text, start, k + 1) == Advance(StateAt(text, start, k), text[k]);
      ScanFromState(text, start, k + 1);
    }
  }

  /** On any text, balanced or not, the scan ends behind the first such parenthesis, or else at the end of the text. */
  lemma {:induction false} ScanEndExactly(text: string, start: nat)
    requires start <= |text|
    ensures var end := ScanEnd(text, start, START);
            if end > start && EndsAt(text, start, end - 1) then
              forall j :: start <= j < end - 1 ==> !EndsAt(text, start, j)
            else
              end == |text| && forall j :: start <= j < end ==> !EndsAt(text, start, j)
  {
    ScanFromState(text, start, start);
  }

  method ScanBlock(text: string, start: nat) returns (end: nat)
    requires start <= |text|
    ensures end == ScanEnd(text, start, START)
  {
    var depth: int := 0;
    var quoted, escaped := false, false;
    end := start;
    while end < |text|
      invariant start <= end <= |text|
      invariant ScanEnd(text, start, START) == ScanEnd(text, end, Scan(depth, quoted, escaped))
    {
      var character := text[end];
      if quoted {
        if escaped {
          escaped := false;
        } else if character == '\\' {
          escaped := true;
        } else if character == '"' {
          quoted := false;
        }
      } else {
        if character == '"' {
          quoted := true;
        } else if character == '(' {
          depth := depth + 1;
        } else if character == ')' {
          depth := depth - 1;
          if depth == 0 {
            end := end + 1;
            return;
          }
        }
      }
      end := end + 1;
    }
  }

  function Pattern(name: string): string { "\n\t(" + name + "\n" }

  datatype Span = Span(start: nat, end: nat)

  /** The spans the search loop finds for one pattern, from `cursor` on. */
  function Spans(text: string, pat: string, cursor: nat): seq<Span>
    requires |pat| > 1
    decreases |text| - cursor
  {
    match Find(text, pat, cursor)
    case None => []
    case Some(found) =>
      var end := ScanEnd(text, found + 1, START);
      [Span(found + 1, end)] + Spans(text, pat, end)
  }

  function Slice(text: string, s: Span): string {
    if s.start <= s.end <= |text| then text[s.start..s.end] else ""
  }

  function Cut(text: string, spans: seq<Span>): seq<string> {
    if |spans| == 0 then [] else [Slice(text, spans[0])] + Cut(text, spans[1..])
  }

  function BlocksOf(text: string, name: string): seq<string> {
    Cut(text, Spans(text, Pattern(name), 0))
  }

  function Blocks(text: string): seq<string> {
    BlocksOf(text, "segment") + BlocksOf(text, "via") + BlocksOf(text, "arc")
  }

  lemma {:induction false} CutOneMore(text: string, spans: seq<Span>, s: Span)
    ensures Cut(text, spans + [s]) == Cut(text, spans) + [Slice(text, s)]
  {
    if |spans| == 0 {
      assert spans + [s] == [s];
    } else {
      assert (spans + [s])[1..] == spans[1..] + [s];
      CutOneMore(text, spans[1..], s);
    }
  }

  /** The search so far has produced `blocks`, and continues at `cursor`. */
  ghost predicate Progress(text: string, pat: string, cursor: nat, done: seq<Span>, blocks: seq<string>)
    requires |pat| > 1
  {
    && Spans(text, pat, 0) == done + Spans(text, pat, cursor)
    && blocks == Cut(text, done)
  }

  lemma {:induction false} ProgressStep(text: string, pat: string, cursor: nat, done: seq<Span>, blocks: seq<string>)
    requires |pat| > 1 && Progress(text, pat, cursor, done, blocks)
    ensures match Find(text, pat, cursor)
            case None => blocks == Cut(text, Spans(text, pat, 0))
            case Some(found) =>
              var end := ScanEnd(text, found + 1, START);
              Progress(text, pat, end, done + [Span(found + 1, end)], blocks + [text[found + 1..end]])
  {
    match Find(text, pat, cursor)
    case None =>
      assert done + [] == done;
    case Some(found) =>
      var end := ScanEnd(text, found + 1, START);
      var rest := Spans(text, pat, end);
      assert done + ([Span(found + 1, end)] + rest) == (done + [Span(found + 1, end)]) + rest;
      CutOneMore(text, done, Span(found + 1, end));
  }

  /** The search loop for one expression: terminates on every text, balanced or not. */
  method FindBlocks(text: string, name: string) returns (blocks: seq<string>)
    ensures blocks == BlocksOf(text, name)
  {
    blocks := Search(text, Pattern(name));
  }

  method Search(text: string, prefix: string) returns (blocks: seq<string>)
    requires |prefix| > 1
    ensures blocks == Cut(text, Spans(text, prefix, 0))
  {
    blocks := [];
    var cursor := 0;
    ghost var done: seq<Span> := [];
    assert Spans(text, prefix, 0) == done + Spans(text, prefix, 0);
    while true
      invariant cursor <= |text|
      invariant Progress(text, prefix, cursor, done, blocks)
      decreases |text| - cursor
    {
      ProgressStep(text, prefix, cursor, done, blocks);
      var found := Find(text, prefix, cursor);
      if found.None? {
        break;
      }
      var start := found.value + 1;
      var end := ScanBlock(text, start);
      blocks := blocks + [text[start..end]];
      done := done + [Span(start, end)];
      cursor := end;
    }
  }

  method AllBlocks(text: string) returns (blocks: seq<string>)
    ensures blocks == Blocks(text)
  {
    blocks := [];
    var expressions := ["segment", "via", "arc"];
    for i := 0 to |expressions|
      invariant i == 0 ==> blocks == []
      invariant i == 1 ==> blocks == BlocksOf(text, "segment")
      invariant i == 2 ==> blocks == BlocksOf(text, "segment") + BlocksOf(text, "via")
      invariant i == 3 ==> blocks == Blocks(text)
    {
      var found := FindBlocks(text, expressions[i]);
      blocks := blocks + found;
    }
  }
}
