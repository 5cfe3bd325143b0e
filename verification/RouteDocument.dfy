/**
  Printed boards: balanced items, one after the other, and what the scanner
  makes of them.
*/
module RouteDocument {
  import opened RouteScanner

  // ----- balanced items --------------------------------------------------------------

  /** One character inside a quoted string, printed plainly or behind a backslash. */
  datatype QuotedChar = Plain(c: char) | Escaped(c: char)

  /** The inside of an expression: bare characters, quoted strings and nested expressions. */
  datatype Body =
    | End
    | Bare(c: char, rest: Body)
    | Quoted(content: seq<QuotedChar>, rest: Body)
    | Group(inner: Body, rest: Body)

  predicate WellFormed(b: Body) {
    match b
    case End => true
    case Bare(c, rest) => c != '(' && c != ')' && c != '"' && WellFormed(rest)
    case Quoted(content, rest) =>
      Quotable(content) && WellFormed(rest)
    case Group(inner, rest) => WellFormed(inner) && WellFormed(rest)
  }

  function PrintQuoted(q: seq<QuotedChar>): string {
    if |q| == 0 then ""
    else PrintChar(q[0]) + PrintQuoted(q[1..])
  }

  function Print(b: Body): string {
    match b
    case End => ""
    case Bare(c, rest) => [c] + Print(rest)
    case Quoted(content, rest) => ['"'] + (PrintQuoted(content) + (['"'] + Print(rest)))
    case Group(inner, rest) => ['('] + (Print(inner) + ([')'] + Print(rest)))
  }

  /** A top-level item: one tab, then one balanced expression. */
  function PrintItem(b: Body): string { ['\t'] + (['('] + (Print(b) + [')'])) }

  ghost predicate IsItem(s: string) { exists b :: WellFormed(b) && s == PrintItem(b) }

  lemma {:induction false} AtChar(text: string, pos: nat, c: char, rest: string)
    requires At(text, pos, [c] + rest)
    ensures pos < |text| && text[pos] == c && At(text, pos + 1, rest)
  {
    AtConcat(text, pos, [c], rest);
    AtIsSlice(text, pos, [c]);
    assert text[pos..pos + 1][0] == text[pos];
  }

  /** One step of a scan over a character that does not close the expression. */
  lemma {:induction false} StepOver(text: string, pos: nat, c: char, rest: string, s: Scan)
    requires At(text, pos, [c] + rest) && !Closes(s, c)
    ensures ScanEnd(text, pos, s) == ScanEnd(text, pos + 1, Advance(s, c)) && At(text, pos + 1, rest)
  {
    AtChar(text, pos, c, rest);
  }

  function PrintChar(q: QuotedChar): string {
    if q.Plain? then [q.c] else ['\\'] + [q.c]
  }

  predicate Quotable(q: seq<QuotedChar>) {
    forall i :: 0 <= i < |q| && q[i].Plain? ==> q[i].c != '"' && q[i].c != '\\'
  }

  /**
    Inside a quoted string, printed characters leave the scan where it found it,
    escaped quotes and parentheses included.
  */
  lemma {:induction false} ScanQuoted(text: string, pos: nat, q: seq<QuotedChar>, depth: int)
    requires At(text, pos, PrintQuoted(q)) && Quotable(q)
    ensures ScanEnd(text, pos, Scan(depth, true, false)) ==
            ScanEnd(text, pos + |PrintQuoted(q)|, Scan(depth, true, false))
    decreases |q|
  {
    if |q| != 0 {
      var rest := PrintQuoted(q[1..]);
      if q[0].Plain? {
        StepOver(text, pos, q[0].c, rest, Scan(depth, true, false));
        ScanQuoted(text, pos + 1, q[1..], depth);
      } else {
        assert PrintQuoted(q) == ['\\'] + ([q[0].c] + rest);
        StepOver(text, pos, '\\', [q[0].c] + rest, Scan(depth, true, false));
        StepOver(text, pos + 1, q[0].c, rest, Scan(depth, true, true));
        ScanQuoted(text, pos + 2, q[1..], depth);
      }
    }
  }

  /** A printed string literal, from its opening quote to behind its closing one. */
  lemma {:induction false} ScanLiteral(text: string, pos: nat, q: seq<QuotedChar>, rest: string, depth: int)
    returns (next: nat)
    requires At(text, pos, ['"'] + (PrintQuoted(q) + (['"'] + rest))) && Quotable(q)
    ensures next == pos + |PrintQuoted(q)| + 2 <= |text| && At(text, next, rest)
    ensures ScanEnd(text, pos, Scan(depth, false, false)) == ScanEnd(text, next, Scan(depth, false, false))
  {
    var mid := pos + 1 + |PrintQuoted(q)|;
    StepOver(text, pos, '"', PrintQuoted(q) + (['"'] + rest), Scan(depth, false, false));
    AtConcat(text, pos + 1, PrintQuoted(q), ['"'] + rest);
    ScanQuoted(text, pos + 1, q, depth);
    StepOver(text, mid, '"', rest, Scan(depth, true, false));
    next := mid + 1;
  }

  lemma {:induction false} OpenGroup(text: string, pos: nat, inner: string, rest: string, depth: int) returns (mid: nat)
    requires At(text, pos, ['('] + (inner + rest))
    ensures mid == pos + 1 + |inner| <= |text| && At(text, pos + 1, inner) && At(text, mid, rest)
    ensures ScanEnd(text, pos, Scan(depth, false, false)) == ScanEnd(text, pos + 1, Scan(depth + 1, false, false))
  {
    StepOver(text, pos, '(', inner + rest, Scan(depth, false, false));
    AtConcat(text, pos + 1, inner, rest);
    mid := pos + 1 + |inner|;
  }

  lemma {:induction false} CloseGroup(text: string, mid: nat, rest: string, depth: int) returns (behind: nat)
    requires depth > 0 && At(text, mid, [')'] + rest)
    ensures behind == mid + 1 <= |text| && At(text, behind, rest)
    ensures ScanEnd(text, mid, Scan(depth + 1, false, false)) == ScanEnd(text, behind, Scan(depth, false, false))
  {
    StepOver(text, mid, ')', rest, Scan(depth + 1, false, false));
    behind := mid + 1;
  }

  /** Inside an expression, a printed body leaves the scan where it found it. */
  lemma {:induction false} ScanBody(text: string, pos: nat, b: Body, depth: int) returns (next: nat)
    requires WellFormed(b) && depth > 0 && At(text, pos, Print(b))
    ensures next == pos + |Print(b)| <= |text|
    ensures ScanEnd(text, pos, Scan(depth, false, false)) == ScanEnd(text, next, Scan(depth, false, false))
    decreases b, 1
  {
    next := pos;
    if b.Bare? {
      StepOver(text, pos, b.c, Print(b.rest), Scan(depth, false, false));
      next := ScanBody(text, pos + 1, b.rest, depth);
    } else if b.Quoted? {
      next := ScanLiteral(text, pos, b.content, Print(b.rest), depth);
      next := ScanBody(text, next, b.rest, depth);
    } else if b.Group? {
      next := ScanGroup(text, pos, b, depth);
    }
  }

  lemma {:induction false} ScanGroup(text: string, pos: nat, b: Body, depth: int) returns (next: nat)
    requires b.Group? && WellFormed(b) && depth > 0 && At(text, pos, Print(b))
    ensures next == pos + |Print(b)| <= |text|
    ensures ScanEnd(text, pos, Scan(depth, false, false)) == ScanEnd(text, next, Scan(depth, false, false))
    decreases b, 0
  {
    var mid := OpenGroup(text, pos, Print(b.inner), [')'] + Print(b.rest), depth);
    var inside := ScanBody(text, pos + 1, b.inner, depth + 1);
    var behind := CloseGroup(text, mid, Print(b.rest), depth);
    next := ScanBody(text, behind, b.rest, depth);
  }

  /** Started at an item, the scan ends exactly behind it, whatever follows. */
  lemma {:induction false} ScanItem(text: string, start: nat, item: string)
    requires IsItem(item) && At(text, start, item)
    ensures ScanEnd(text, start, START) == start + |item|
  {
    var b :| WellFormed(b) && item == PrintItem(b);
    var close := start + 2 + |Print(b)|;
    StepOver(text, start, '\t', ['('] + (Print(b) + [')']), START);
    StepOver(text, start + 1, '(', Print(b) + [')'], START);
    AtConcat(text, start + 2, Print(b), [')']);
    var inside := ScanBody(text, start + 2, b, 1);
    AtChar(text, close, ')', []);
    assert ScanEnd(text, close, Scan(1, false, false)) == close + 1;
  }

  // ----- documents ------------------------------------------------------------------------

  /** Items, each on a new line, and what follows the last one. */
  function Lines(items: seq<string>, tail: string): string {
    if |items| == 0 then tail else ['\n'] + (items[0] + Lines(items[1..], tail))
  }

  function Document(head: string, items: seq<string>, tail: string): string { head + Lines(items, tail) }

  /** The item is headed `pat`: on its own new line it starts with the search pattern. */
  predicate Headed(item: string, pat: string) { At(['\n'] + item, 0, pat) }

  ghost predicate Absent(text: string, pat: string) { forall i: nat :: !At(text, i, pat) }

  /** No item headed otherwise hides the pattern, nor does the tail.  Inside items headed `pat` it may occur. */
  ghost predicate Clean(items: seq<string>, tail: string, pat: string) {
    && (forall i :: 0 <= i < |items| && !Headed(items[i], pat) ==> Absent(items[i], pat))
    && Absent(tail, pat)
  }

  /** Where the items headed `pat` stand, the first new line being at `pos`. */
  function ItemSpans(items: seq<string>, pos: nat, pat: string): (s: seq<Span>)
    ensures |s| > 0 ==> s[0].start > pos
  {
    if |items| == 0 then []
    else
      var end := pos + 1 + |items[0]|;
      (if Headed(items[0], pat) then [Span(pos + 1, end)] else []) + ItemSpans(items[1..], end, pat)
  }

  predicate Searchable(pat: string) { |pat| > 1 && ')' !in pat }

  predicate EndsClosed(item: string) { |item| > 0 && item[|item| - 1] == ')' }

  lemma {:induction false} ItemEndsClosed(item: string)
    requires IsItem(item)
    ensures EndsClosed(item)
  {
  }

  /** The pattern cannot reach across the end of an item, whose last character is a parenthesis. */
  lemma {:induction false} PatternStopsAtItemEnd(text: string, start: nat, item: string, i: nat, pat: string)
    requires Searchable(pat) && EndsClosed(item) && At(text, start, item)
    requires start <= i + 1 && i < start + |item| && At(text, i, pat)
    ensures i + |pat| <= start + |item|
  {
    var last := start + |item| - 1;
    AtIsSlice(text, start, item);
    AtIsSlice(text, i, pat);
    assert text[start..start + |item|][|item| - 1] == text[last];
    forall q | i <= q < i + |pat|
      ensures text[q] != ')'
    {
      assert text[i..i + |pat|][q - i] == text[q];
    }
    assert text[last] == ')';
  }

  /**
    Between one new line and the next item's, the pattern stands only where a
    headed item begins or where it is hidden.
  */
  lemma {:induction false} PatternInItem(text: string, pos: nat, item: string, i: nat, pat: string)
    requires Searchable(pat) && EndsClosed(item) && At(text, pos, ['\n'] + item)
    requires pos <= i <= pos + |item|
    ensures i == pos ==> (At(text, i, pat) <==> Headed(item, pat))
    ensures i > pos ==> (At(text, i, pat) <==> At(item, i - pos - 1, pat))
  {
    AtConcat(text, pos, ['\n'], item);
    if At(text, i, pat) {
      PatternStopsAtItemEnd(text, pos + 1, item, i, pat);
    }
    if i == pos && |pat| <= |['\n'] + item| {
      AtInside(text, pos, ['\n'] + item, 0, pat);
    }
    if i > pos && i - pos - 1 + |pat| <= |item| {
      AtInside(text, pos + 1, item, i - pos - 1, pat);
    }
  }

  ghost predicate NoneIn(text: string, pat: string, from: nat, to: nat) {
    forall i: nat :: from <= i < to ==> !At(text, i, pat)
  }

  /** Skipping a stretch in which the pattern does not stand. */
  lemma {:induction false} FindSkip(text: string, pat: string, from: nat, limit: nat)
    requires from <= limit && NoneIn(text, pat, from, limit)
    ensures Find(text, pat, from) == Find(text, pat, limit)
    decreases limit - from
  {
    if from < limit {
      FindSkip(text, pat, from + 1, limit);
    }
  }

  lemma {:induction false} SpansSkip(text: string, pat: string, from: nat, to: nat)
    requires |pat| > 1 && from <= to && NoneIn(text, pat, from, to)
    ensures Spans(text, pat, from) == Spans(text, pat, to)
  {
    FindSkip(text, pat, from, to);
  }

  /**
    From a new line on, the scanner reports exactly the items headed `pat`, whole
    and in order, if and only if the pattern is hidden in no other item and not in
    the tail.
  */
  lemma {:induction false} SpansExact(text: string, pos: nat, items: seq<string>, tail: string, pat: string)
    requires Searchable(pat) && (forall i :: 0 <= i < |items| ==> IsItem(items[i]))
    requires At(text, pos, Lines(items, tail)) && pos + |Lines(items, tail)| == |text|
    ensures Spans(text, pat, pos) == ItemSpans(items, pos, pat) <==> Clean(items, tail, pat)
    decreases |items|
  {
    if |items| == 0 {
      TailSpans(text, pos, tail, pat);
    } else {
      FirstLine(text, pos, items, tail);
      SpansExact(text, pos + 1 + |items[0]|, items[1..], tail, pat);
      CleanCons(items, tail, pat);
      ItemEndsClosed(items[0]);
      if Headed(items[0], pat) {
        AddHeaded(text, pos, items, pat);
      } else if Absent(items[0], pat) {
        AddUnheaded(text, pos, items, pat);
      } else {
        AddHiding(text, pos, items, pat);
      }
    }
  }

  /** The first item and what follows it, by position. */
  lemma {:induction false} FirstLine(text: string, pos: nat, items: seq<string>, tail: string)
    requires |items| > 0 && At(text, pos, Lines(items, tail))
    ensures At(text, pos, ['\n'] + items[0]) && At(text, pos + 1, items[0])
    ensures At(text, pos + 1 + |items[0]|, Lines(items[1..], tail))
    ensures |Lines(items, tail)| == 1 + |items[0]| + |Lines(items[1..], tail)|
  {
    var item, rest := items[0], Lines(items[1..], tail);
    assert ['\n'] + item + rest == Lines(items, tail);
    AtConcat(text, pos, ['\n'] + item, rest);
    AtConcat(text, pos, ['\n'], item);
  }

  lemma {:induction false} AddHeaded(text: string, pos: nat, items: seq<string>, pat: string)
    requires Searchable(pat) && |items| > 0 && IsItem(items[0]) && EndsClosed(items[0])
    requires At(text, pos, ['\n'] + items[0]) && Headed(items[0], pat)
    ensures var end := pos + 1 + |items[0]|;
            (Spans(text, pat, pos) == ItemSpans(items, pos, pat)) <==>
            (Spans(text, pat, end) == ItemSpans(items[1..], end, pat))
  {
    var end := pos + 1 + |items[0]|;
    PatternInItem(text, pos, items[0], pos, pat);
    HeadedItem(text, pos, items[0], pat);
    SamePrefix([Span(pos + 1, end)], Spans(text, pat, end), ItemSpans(items[1..], end, pat));
  }

  lemma {:induction false} AddUnheaded(text: string, pos: nat, items: seq<string>, pat: string)
    requires Searchable(pat) && |items| > 0 && EndsClosed(items[0])
    requires At(text, pos, ['\n'] + items[0]) && !Headed(items[0], pat) && Absent(items[0], pat)
    ensures var end := pos + 1 + |items[0]|;
            (Spans(text, pat, pos) == ItemSpans(items, pos, pat)) <==>
            (Spans(text, pat, end) == ItemSpans(items[1..], end, pat))
  {
    var later := ItemSpans(items[1..], pos + 1 + |items[0]|, pat);
    UnheadedItem(text, pos, items[0], pat);
    assert [] + later == later;
  }

  lemma {:induction false} AddHiding(text: string, pos: nat, items: seq<string>, pat: string)
    requires Searchable(pat) && |items| > 0 && EndsClosed(items[0])
    requires At(text, pos, ['\n'] + items[0]) && !Headed(items[0], pat) && !Absent(items[0], pat)
    ensures Spans(text, pat, pos) != ItemSpans(items, pos, pat)
  {
    var later := ItemSpans(items[1..], pos + 1 + |items[0]|, pat);
    HidingItem(text, pos, items[0], pat);
    assert [] + later == later;
  }

  lemma {:induction false} SamePrefix<T>(p: seq<T>, a: seq<T>, b: seq<T>)
    ensures p + a == p + b <==> a == b
  {
    if p + a == p + b {
      assert a == (p + a)[|p|..] && b == (p + b)[|p|..];
    }
  }

  lemma {:induction false} CleanCons(items: seq<string>, tail: string, pat: string)
    requires |items| > 0
    ensures Clean(items, tail, pat) <==>
            (Headed(items[0], pat) || Absent(items[0], pat)) && Clean(items[1..], tail, pat)
  {
    assert items == [items[0]] + items[1..];
  }

  lemma {:induction false} TailSpans(text: string, pos: nat, tail: string, pat: string)
    requires |pat| > 1 && At(text, pos, tail) && pos + |tail| == |text|
    ensures Spans(text, pat, pos) == [] <==> Absent(tail, pat)
  {
    forall i: nat | i + |pat| <= |tail|
      ensures At(tail, i, pat) <==> At(text, pos + i, pat)
    {
      AtInside(text, pos, tail, i, pat);
    }
    FindIsFirst(text, pat, pos);
    var f := Find(text, pat, pos);
    if f.Some? {
      assert At(tail, f.value - pos, pat);
    }
  }

  lemma {:induction false} HeadedItem(text: string, pos: nat, item: string, pat: string)
    requires |pat| > 1 && IsItem(item) && At(text, pos, ['\n'] + item) && At(text, pos, pat)
    ensures var end := pos + 1 + |item|;
            Spans(text, pat, pos) == [Span(pos + 1, end)] + Spans(text, pat, end)
  {
    AtConcat(text, pos, ['\n'], item);
    ScanItem(text, pos + 1, item);
    assert Find(text, pat, pos) == Some(pos);
  }

  lemma {:induction false} UnheadedItem(text: string, pos: nat, item: string, pat: string)
    requires Searchable(pat) && EndsClosed(item) && At(text, pos, ['\n'] + item)
    requires !Headed(item, pat) && Absent(item, pat)
    ensures Spans(text, pat, pos) == Spans(text, pat, pos + 1 + |item|)
  {
    UnheadedHasNone(text, pos, item, pat);
    SpansSkip(text, pat, pos, pos + 1 + |item|);
  }

  lemma {:induction false} UnheadedHasNone(text: string, pos: nat, item: string, pat: string)
    requires Searchable(pat) && EndsClosed(item) && At(text, pos, ['\n'] + item)
    requires !Headed(item, pat) && Absent(item, pat)
    ensures NoneIn(text, pat, pos, pos + 1 + |item|)
  {
    forall i: nat | pos <= i < pos + 1 + |item|
      ensures !At(text, i, pat)
    {
      PatternInItem(text, pos, item, i, pat);
    }
  }

  lemma {:induction false} HidingItem(text: string, pos: nat, item: string, pat: string)
    requires Searchable(pat) && EndsClosed(item) && At(text, pos, ['\n'] + item)
    requires !Headed(item, pat) && !Absent(item, pat)
    ensures var s := Spans(text, pat, pos);
            |s| > 0 && pos + 1 < s[0].start <= pos + 1 + |item|
  {
    var k: nat :| At(item, k, pat);
    PatternInItem(text, pos, item, pos, pat);
    PatternInItem(text, pos, item, pos + 1 + k, pat);
    FindIsFirst(text, pat, pos);
    var f := Find(text, pat, pos);
    assert f.Some? && pos < f.value <= pos + 1 + k;
  }
}
