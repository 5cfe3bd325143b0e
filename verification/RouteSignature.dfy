/**
  The routing signature: the digest of the sorted routed expressions of a board.
*/
module RouteSignature {
  import opened RouteScanner
  import opened RouteDocument

  // ----- what the scanner makes of a whole document -------------------------------------

  lemma {:induction false} PatternSearchable(name: string)
    requires ')' !in name
    ensures Searchable(Pattern(name)) && Pattern(name)[0] == '\n'
  {
    assert Pattern(name)[0] == '\n';
  }

  /** A printed board: a first line, items, and a tail. */
  ghost predicate Board(head: string, items: seq<string>) {
    '\n' !in head && forall i :: 0 <= i < |items| ==> IsItem(items[i])
  }

  /**
    On a whole board the scanner reports exactly the items headed by a keyword,
    whole and in order, if and only if the keyword's pattern is hidden in no other
    item and not in the tail.
  */
  lemma {:induction false} ScannerExact(head: string, items: seq<string>, tail: string, name: string)
    requires Board(head, items) && ')' !in name
    ensures Spans(Document(head, items, tail), Pattern(name), 0) == ItemSpans(items, |head|, Pattern(name))
       <==> Clean(items, tail, Pattern(name))
  {
    var text, pat := Document(head, items, tail), Pattern(name);
    PatternSearchable(name);
    forall i: nat | 0 <= i < |head|
      ensures !At(text, i, pat)
    {
      AtIsSlice(text, i, pat);
      assert text[i] == head[i];
      assert i + |pat| <= |text| ==> text[i..i + |pat|][0] == text[i];
    }
    SpansSkip(text, pat, 0, |head|);
    AtIsSlice(text, |head|, Lines(items, tail));
    SpansExact(text, |head|, items, tail, pat);
  }

  function PlainText(s: string): seq<QuotedChar> {
    if |s| == 0 then [] else [Plain(s[0])] + PlainText(s[1..])
  }

  lemma {:induction false} PlainTextPrints(s: string)
    requires '"' !in s && '\\' !in s
    ensures Quotable(PlainText(s)) && PrintQuoted(PlainText(s)) == s
  {
    if |s| != 0 {
      PlainTextPrints(s[1..]);
      assert PlainText(s)[1..] == PlainText(s[1..]);
      assert s == [s[0]] + s[1..];
    }
  }

  /** An item that quotes the text `pat`: a tab, a parenthesis, an x, and the quotation. */
  lemma {:induction false} QuotingItem(pat: string) returns (item: string)
    requires '"' !in pat && '\\' !in pat
    ensures IsItem(item) && |item| > 2 && item[2] == 'x' && At(item, 4, pat)
  {
    PlainTextPrints(pat);
    var quotation := Quoted(PlainText(pat), End);
    var b := Bare('x', quotation);
    item := PrintItem(b);
    assert WellFormed(End) && WellFormed(quotation) && WellFormed(b);
    var opening, closing := ['\t', '(', 'x', '"'], ['"', ')'];
    assert Print(quotation) == ['"'] + (pat + ['"']);
    assert item == opening + (pat + closing);
    SliceOfConcat(opening, pat, closing);
    AtIsSlice(item, 4, pat);
  }

  /** The condition is needed: a text item that merely quotes the via pattern is reported as routing. */
  lemma {:induction false} QuotedPatternMisleads() returns (item: string)
    ensures Board("(kicad_pcb", [item]) && !Headed(item, Pattern(VIA))
    ensures Spans(Document("(kicad_pcb", [item], ""), Pattern(VIA), 0) != ItemSpans([item], 10, Pattern(VIA))
  {
    item := QuotingItem(Pattern(VIA));
    HeadOf(item);
    assert [item][0] == item && !Absent(item, Pattern(VIA));
    ScannerExact("(kicad_pcb", [item], "", VIA);
  }

  lemma {:induction false} SliceOfConcat(a: string, b: string, c: string)
    ensures (a + (b + c))[|a|..|a| + |b|] == b
  {
  }

  lemma {:induction false} HeadOf(item: string)
    requires |item| > 2 && item[2] == 'x'
    ensures !Headed(item, Pattern(VIA))
  {
    if Headed(item, Pattern(VIA)) {
      HeadChar(item, VIA);
    }
  }

  /** The items headed by `pat`, in order. */
  function Selected(items: seq<string>, pat: string): seq<string> {
    if |items| == 0 then [] else (if Headed(items[0], pat) then [items[0]] else []) + Selected(items[1..], pat)
  }

  lemma {:induction false} CutIsSelected(text: string, pos: nat, items: seq<string>, tail: string, pat: string)
    requires At(text, pos, Lines(items, tail))
    ensures Cut(text, ItemSpans(items, pos, pat)) == Selected(items, pat)
    decreases |items|
  {
    if |items| != 0 {
      FirstLine(text, pos, items, tail);
      AtIsSlice(text, pos + 1, items[0]);
      CutIsSelected(text, pos + 1 + |items[0]|, items[1..], tail, pat);
      CutStep(text, pos, items, pat);
    }
  }

  lemma {:induction false} CutStep(text: string, pos: nat, items: seq<string>, pat: string)
    requires |items| > 0 && Slice(text, Span(pos + 1, pos + 1 + |items[0]|)) == items[0]
    requires Cut(text, ItemSpans(items[1..], pos + 1 + |items[0]|, pat)) == Selected(items[1..], pat)
    ensures Cut(text, ItemSpans(items, pos, pat)) == Selected(items, pat)
  {
    CutCons(text, Span(pos + 1, pos + 1 + |items[0]|), ItemSpans(items[1..], pos + 1 + |items[0]|, pat));
  }

  lemma {:induction false} CutCons(text: string, s: Span, rest: seq<Span>)
    ensures Cut(text, [s] + rest) == [Slice(text, s)] + Cut(text, rest)
    ensures [] + rest == rest
  {
    assert ([s] + rest)[1..] == rest;
  }

  lemma {:induction false} BlocksAreItems(head: string, items: seq<string>, tail: string, name: string)
    requires Board(head, items) && ')' !in name && Clean(items, tail, Pattern(name))
    ensures BlocksOf(Document(head, items, tail), name) == Selected(items, Pattern(name))
  {
    var text := Document(head, items, tail);
    ScannerExact(head, items, tail, name);
    AtIsSlice(text, |head|, Lines(items, tail));
    CutIsSelected(text, |head|, items, tail, Pattern(name));
  }

  // ----- each routed item, once ----------------------------------------------------------

  const SEGMENT := "segment"
  const VIA := "via"
  const ARC := "arc"

  predicate Routed(item: string) {
    Headed(item, Pattern(SEGMENT)) || Headed(item, Pattern(VIA)) || Headed(item, Pattern(ARC))
  }

  ghost predicate AllClean(items: seq<string>, tail: string) {
    Clean(items, tail, Pattern(SEGMENT)) && Clean(items, tail, Pattern(VIA)) && Clean(items, tail, Pattern(ARC))
  }

  lemma {:induction false} SelectedCount(items: seq<string>, pat: string, x: string)
    ensures multiset(Selected(items, pat))[x] == if Headed(x, pat) then multiset(items)[x] else 0
  {
    if |items| != 0 {
      SelectedCount(items[1..], pat, x);
      assert items == [items[0]] + items[1..];
    }
  }

  lemma {:induction false} HeadChar(item: string, name: string)
    requires |name| > 0 && Headed(item, Pattern(name))
    ensures |item| > 2 && item[2] == name[0]
  {
    var line, pat := ['\n'] + item, Pattern(name);
    AtIsSlice(line, 0, pat);
    assert line[0..|pat|][3] == line[3];
    assert pat[3] == name[0];
  }

  /** No item has two heads. */
  lemma {:induction false} HeadsExclude(item: string)
    ensures !(Headed(item, Pattern(SEGMENT)) && Headed(item, Pattern(VIA)))
    ensures !(Headed(item, Pattern(SEGMENT)) && Headed(item, Pattern(ARC)))
    ensures !(Headed(item, Pattern(VIA)) && Headed(item, Pattern(ARC)))
  {
    if Headed(item, Pattern(SEGMENT)) { HeadChar(item, SEGMENT); }
    if Headed(item, Pattern(VIA)) { HeadChar(item, VIA); }
    if Headed(item, Pattern(ARC)) { HeadChar(item, ARC); }
  }

  /** On a clean board the blocks found are the routed items, each as often as it occurs, and nothing else. */
  lemma {:induction false} BlocksAreRoutedItems(head: string, items: seq<string>, tail: string, x: string)
    requires Board(head, items) && AllClean(items, tail)
    ensures multiset(Blocks(Document(head, items, tail)))[x] == if Routed(x) then multiset(items)[x] else 0
  {
    BlocksAreItems(head, items, tail, SEGMENT);
    BlocksAreItems(head, items, tail, VIA);
    BlocksAreItems(head, items, tail, ARC);
    SelectedCount(items, Pattern(SEGMENT), x);
    SelectedCount(items, Pattern(VIA), x);
    SelectedCount(items, Pattern(ARC), x);
    HeadsExclude(x);
    CountOfThree(Selected(items, Pattern(SEGMENT)), Selected(items, Pattern(VIA)), Selected(items, Pattern(ARC)), x);
  }

  lemma {:induction false} CountOfThree<T>(a: seq<T>, b: seq<T>, c: seq<T>, x: T)
    ensures multiset(a + b + c)[x] == multiset(a)[x] + multiset(b)[x] + multiset(c)[x]
  {
  }

  // ----- sorting ------------------------------------------------------------------------------

  /** Lexicographic order by code point. */
  predicate Leq(a: string, b: string) {
    |a| == 0 || (|b| > 0 && (a[0] < b[0] || (a[0] == b[0] && Leq(a[1..], b[1..]))))
  }

  lemma {:induction false} LeqTotal(a: string, b: string)
    ensures Leq(a, b) || Leq(b, a)
    ensures Leq(a, b) && Leq(b, a) ==> a == b
  {
    if |a| > 0 && |b| > 0 && a[0] == b[0] {
      LeqTotal(a[1..], b[1..]);
      assert a == [a[0]] + a[1..] && b == [b[0]] + b[1..];
    }
  }

  lemma {:induction false} LeqTransitive(a: string, b: string, c: string)
    requires Leq(a, b) && Leq(b, c)
    ensures Leq(a, c)
  {
    if |a| > 0 && a[0] == b[0] && b[0] == c[0] {
      LeqTransitive(a[1..], b[1..], c[1..]);
    }
  }

  function Insert(x: string, s: seq<string>): seq<string> {
    if |s| == 0 || Leq(x, s[0]) then [x] + s else [s[0]] + Insert(x, s[1..])
  }

  function Sorted(s: seq<string>): seq<string> {
    if |s| == 0 then [] else Insert(s[0], Sorted(s[1..]))
  }

  predicate Ordered(s: seq<string>) {
    |s| == 0 || ((forall i :: 0 < i < |s| ==> Leq(s[0], s[i])) && Ordered(s[1..]))
  }

  lemma {:induction false} InsertKeeps(x: string, s: seq<string>)
    requires Ordered(s)
    ensures Ordered(Insert(x, s)) && multiset(Insert(x, s)) == multiset(s) + multiset{x}
  {
    if |s| == 0 {
    } else if Leq(x, s[0]) {
      var r := [x] + s;
      assert r[1..] == s;
      forall i | 0 < i < |r|
        ensures Leq(x, r[i])
      {
        if i > 1 { LeqTransitive(x, s[0], s[i - 1]); }
      }
    } else {
      InsertKeeps(x, s[1..]);
      LeqTotal(x, s[0]);
      var t := Insert(x, s[1..]);
      var r := [s[0]] + t;
      assert r[1..] == t && s == [s[0]] + s[1..];
      forall i | 0 < i < |r|
        ensures Leq(s[0], r[i])
      {
        assert r[i] in multiset(t);
        MemberOfInsert(s, x, r[i]);
      }
    }
  }

  lemma {:induction false} MemberOfInsert(s: seq<string>, x: string, y: string)
    requires |s| > 0 && y in multiset(s[1..]) + multiset{x}
    ensures y == x || exists i :: 0 < i < |s| && s[i] == y
  {
    if y != x {
      assert y in s[1..];
      var k :| 0 <= k < |s[1..]| && s[1..][k] == y;
      assert s[k + 1] == y;
    }
  }

  lemma {:induction false} SortedIsOrdered(s: seq<string>)
    ensures Ordered(Sorted(s)) && multiset(Sorted(s)) == multiset(s)
  {
    if |s| != 0 {
      assert s == [s[0]] + s[1..];
      SortedIsOrdered(s[1..]);
      InsertKeeps(s[0], Sorted(s[1..]));
      assert multiset(s) == multiset{s[0]} + multiset(s[1..]);
    }
  }

  lemma {:induction false} FirstIsLeast(s: seq<string>, y: string)
    requires Ordered(s) && y in multiset(s)
    ensures |s| > 0 && Leq(s[0], y)
  {
    var i :| 0 <= i < |s| && s[i] == y;
    if i == 0 {
      LeqTotal(y, y);
    }
  }

  /** There is only one ordered arrangement of the same strings. */
  lemma {:induction false} OrderedUnique(s: seq<string>, t: seq<string>)
    requires Ordered(s) && Ordered(t) && multiset(s) == multiset(t)
    ensures s == t
  {
    assert |s| == |multiset(s)| == |multiset(t)| == |t|;
    if |s| != 0 {
      assert s == [s[0]] + s[1..] && t == [t[0]] + t[1..];
      assert s[0] in multiset(s) && t[0] in multiset(t);
      FirstIsLeast(s, t[0]);
      FirstIsLeast(t, s[0]);
      LeqTotal(s[0], t[0]);
      assert multiset(s[1..]) == multiset(s) - multiset{s[0]};
      assert multiset(t[1..]) == multiset(t) - multiset{t[0]};
      OrderedUnique(s[1..], t[1..]);
    }
  }

  // ----- the signature ---------------------------------------------------------------------------

  function Join(s: seq<string>): string {
    if |s| == 0 then "" else if |s| == 1 then s[0] else s[0] + ("\n" + Join(s[1..]))
  }

  datatype Signature = NoRoutes | Digest(digest: string)

  function SignatureOf(blocks: seq<string>, sha: string -> string): Signature {
    if |blocks| == 0 then NoRoutes else Digest(sha(Join(Sorted(blocks))))
  }

  method RouteTextSignature(text: string, sha: string -> string) returns (r: Signature)
    ensures r == SignatureOf(Blocks(text), sha)
  {
    var blocks := AllBlocks(text);
    if blocks == [] {
      return NoRoutes;
    }
    r := Digest(sha(Join(Sorted(blocks))));
  }

  /** Boards with the same items in any order, in any surroundings, have the same signature. */
  lemma {:induction false} SignatureIgnoresOrder(
      head: string, items: seq<string>, tail: string,
      head': string, items': seq<string>, tail': string, sha: string -> string)
    requires Board(head, items) && AllClean(items, tail) && Board(head', items') && AllClean(items', tail')
    requires multiset(items) == multiset(items')
    ensures SignatureOf(Blocks(Document(head, items, tail)), sha) ==
            SignatureOf(Blocks(Document(head', items', tail')), sha)
  {
    var b, b' := Blocks(Document(head, items, tail)), Blocks(Document(head', items', tail'));
    forall x: string
      ensures multiset(b)[x] == multiset(b')[x]
    {
      BlocksAreRoutedItems(head, items, tail, x);
      BlocksAreRoutedItems(head', items', tail', x);
    }
    assert multiset(b) == multiset(b');
    assert |b| == |multiset(b)| && |b'| == |multiset(b')|;
    SortedIsOrdered(b);
    SortedIsOrdered(b');
    OrderedUnique(Sorted(b), Sorted(b'));
  }

  /** On a clean board the scan fails exactly when nothing is routed. */
  lemma {:induction false} NoRoutesExactly(head: string, items: seq<string>, tail: string, sha: string -> string)
    requires Board(head, items) && AllClean(items, tail)
    ensures SignatureOf(Blocks(Document(head, items, tail)), sha).NoRoutes? <==>
            forall i :: 0 <= i < |items| ==> !Routed(items[i])
  {
    var b := Blocks(Document(head, items, tail));
    forall i | 0 <= i < |items|
      ensures Routed(items[i]) ==> multiset(b)[items[i]] > 0
    {
      BlocksAreRoutedItems(head, items, tail, items[i]);
      assert items[i] in multiset(items);
    }
    if |b| > 0 {
      BlocksAreRoutedItems(head, items, tail, b[0]);
      assert b[0] in multiset(b);
      assert b[0] in multiset(items);
      var i :| 0 <= i < |items| && items[i] == b[0];
    }
  }

  // ----- the signature notices every change of routing ---------------------------------------

  lemma {:induction false} JoinCons(x: string, rest: seq<string>)
    requires |rest| > 0
    ensures Join([x] + rest) == x + (['\n'] + Join(rest))
  {
    assert ([x] + rest)[1..] == rest;
  }

  /** Joining puts one new line between neighbours, and nothing else. */
  lemma {:induction false} JoinOneMore(s: seq<string>, x: string)
    requires |s| > 0
    ensures Join([x]) == x && Join(s + [x]) == Join(s) + ("\n" + x)
  {
    if |s| == 1 {
      assert s + [x] == [s[0]] + [x];
      JoinCons(s[0], [x]);
    } else {
      assert s + [x] == [s[0]] + (s[1..] + [x]) && s == [s[0]] + s[1..];
      JoinOneMore(s[1..], x);
      JoinCons(s[0], s[1..]);
      JoinCons(s[0], s[1..] + [x]);
      assert s[0] + (['\n'] + (Join(s[1..]) + ("\n" + x))) == (s[0] + (['\n'] + Join(s[1..]))) + ("\n" + x);
    }
  }

  ghost predicate AllItems(s: seq<string>) { forall i :: 0 <= i < |s| ==> IsItem(s[i]) }

  /** The first item ends where the scan says, so it can be read back from the joined text. */
  lemma {:induction false} FirstOfJoined(s: seq<string>)
    requires |s| > 0 && AllItems(s)
    ensures |s[0]| <= |Join(s)| && ScanEnd(Join(s), 0, START) == |s[0]| && Join(s)[..|s[0]|] == s[0]
    ensures |s| == 1 <==> |Join(s)| == |s[0]|
    ensures |s| > 1 ==> Join(s)[|s[0]|..] == ['\n'] + Join(s[1..])
  {
    AtIsSlice(Join(s), 0, s[0]);
    if |s| > 1 {
      assert s == [s[0]] + s[1..];
      JoinCons(s[0], s[1..]);
      assert Join(s)[..|s[0]|] == s[0] && Join(s)[|s[0]|..] == ['\n'] + Join(s[1..]);
    }
    assert Join(s)[0..|s[0]|] == s[0];
    ScanItem(Join(s), 0, s[0]);
  }

  /** Joined items can be taken apart again in one way only. */
  lemma {:induction false} JoinInjective(s: seq<string>, t: seq<string>)
    requires AllItems(s) && AllItems(t) && |s| > 0 && |t| > 0 && Join(s) == Join(t)
    ensures s == t
  {
    FirstOfJoined(s);
    FirstOfJoined(t);
    assert s == [s[0]] + s[1..] && t == [t[0]] + t[1..];
    if |s| > 1 {
      assert (['\n'] + Join(s[1..]))[1..] == Join(s[1..]) && (['\n'] + Join(t[1..]))[1..] == Join(t[1..]);
      JoinInjective(s[1..], t[1..]);
    }
  }

  lemma {:induction false} SelectedItems(items: seq<string>, pat: string)
    requires AllItems(items)
    ensures AllItems(Selected(items, pat))
  {
    if |items| != 0 {
      SelectedItems(items[1..], pat);
    }
  }

  lemma {:induction false} BlocksAreAllItems(head: string, items: seq<string>, tail: string)
    requires Board(head, items) && AllClean(items, tail)
    ensures AllItems(Blocks(Document(head, items, tail)))
  {
    BlocksAreItems(head, items, tail, SEGMENT);
    BlocksAreItems(head, items, tail, VIA);
    BlocksAreItems(head, items, tail, ARC);
    SelectedItems(items, Pattern(SEGMENT));
    SelectedItems(items, Pattern(VIA));
    SelectedItems(items, Pattern(ARC));
  }

  lemma {:induction false} SortedItems(b: seq<string>)
    requires AllItems(b)
    ensures AllItems(Sorted(b)) && |Sorted(b)| == |b|
  {
    SortedIsOrdered(b);
    assert |multiset(Sorted(b))| == |multiset(b)|;
    forall i | 0 <= i < |Sorted(b)|
      ensures IsItem(Sorted(b)[i])
    {
      assert Sorted(b)[i] in multiset(b);
    }
  }

  /** The digested text is the same for the same blocks, in whatever order, and for no others. */
  lemma {:induction false} JoinedExactly(b: seq<string>, b': seq<string>)
    requires AllItems(b) && AllItems(b') && |b| > 0 && |b'| > 0
    ensures Join(Sorted(b)) == Join(Sorted(b')) <==> multiset(b) == multiset(b')
  {
    SortedItems(b);
    SortedItems(b');
    SortedIsOrdered(b);
    SortedIsOrdered(b');
    if Join(Sorted(b)) == Join(Sorted(b')) {
      JoinInjective(Sorted(b), Sorted(b'));
    }
    if multiset(b) == multiset(b') {
      OrderedUnique(Sorted(b), Sorted(b'));
    }
  }

  ghost predicate Injective(sha: string -> string) { forall x, y :: sha(x) == sha(y) ==> x == y }

  /** With a digest that never collides, signatures agree exactly on the same blocks. */
  lemma {:induction false} SameSignature(b: seq<string>, b': seq<string>, sha: string -> string)
    requires AllItems(b) && AllItems(b') && Injective(sha)
    ensures SignatureOf(b, sha) == SignatureOf(b', sha) <==> multiset(b) == multiset(b')
  {
    assert |multiset(b)| == |b| && |multiset(b')| == |b'|;
    if |b| > 0 && |b'| > 0 {
      JoinedExactly(b, b');
    }
  }

  /** The same routing: every routed item occurs as often on the one board as on the other. */
  ghost predicate SameRouting(items: seq<string>, items': seq<string>) {
    forall x :: Routed(x) ==> multiset(items)[x] == multiset(items')[x]
  }

  lemma {:induction false} SameBlocks(
      head: string, items: seq<string>, tail: string, head': string, items': seq<string>, tail': string)
    requires Board(head, items) && AllClean(items, tail) && Board(head', items') && AllClean(items', tail')
    ensures multiset(Blocks(Document(head, items, tail))) == multiset(Blocks(Document(head', items', tail')))
       <==> SameRouting(items, items')
  {
    var b, b' := Blocks(Document(head, items, tail)), Blocks(Document(head', items', tail'));
    forall x: string
      ensures multiset(b)[x] == multiset(b')[x] <==> (Routed(x) ==> multiset(items)[x] == multiset(items')[x])
    {
      BlocksAreRoutedItems(head, items, tail, x);
      BlocksAreRoutedItems(head', items', tail', x);
    }
    if SameRouting(items, items') {
      assert multiset(b) == multiset(b');
    }
  }

  /**
    Two clean boards have the same signature if and only if they have the same
    routing: nothing else matters, and any change of a routed item shows.
  */
  lemma {:induction false} SignatureExactly(
      head: string, items: seq<string>, tail: string,
      head': string, items': seq<string>, tail': string, sha: string -> string)
    requires Board(head, items) && AllClean(items, tail) && Board(head', items') && AllClean(items', tail')
    requires Injective(sha)
    ensures SignatureOf(Blocks(Document(head, items, tail)), sha) ==
            SignatureOf(Blocks(Document(head', items', tail')), sha)
       <==> SameRouting(items, items')
  {
    BlocksAreAllItems(head, items, tail);
    BlocksAreAllItems(head', items', tail');
    SameSignature(Blocks(Document(head, items, tail)), Blocks(Document(head', items', tail')), sha);
    SameBlocks(head, items, tail, head', items', tail');
  }

  /** The digest is taken of the blocks in order, joined, and of nothing else. */
  lemma {:induction false} DigestExactly(b: seq<string>, t: seq<string>, sha: string -> string)
    requires |b| > 0 && Ordered(t) && multiset(t) == multiset(b)
    ensures SignatureOf(b, sha) == Digest(sha(Join(t)))
  {
    SortedIsOrdered(b);
    OrderedUnique(Sorted(b), t);
  }

  // ----- heads and order, spelled out ------------------------------------------------------------

  /** An item counts as routed if its line is a tab, a parenthesis and one of the three keywords, and ends there. */
  lemma {:induction false} RoutedExactly(item: string)
    ensures Routed(item) <==>
            At(item, 0, "\t(segment\n") || At(item, 0, "\t(via\n") || At(item, 0, "\t(arc\n")
  {
    HeadedExactly(item, SEGMENT, "\t(segment\n");
    HeadedExactly(item, VIA, "\t(via\n");
    HeadedExactly(item, ARC, "\t(arc\n");
  }

  lemma {:induction false} HeadedExactly(item: string, name: string, line: string)
    requires ['\n'] + line == Pattern(name)
    ensures Headed(item, Pattern(name)) <==> At(item, 0, line)
  {
    var text := ['\n'] + item;
    AtConcat(text, 0, ['\n'], line);
    AtIsSlice(text, 0, ['\n']);
    assert text[0..1] == ['\n'];
    AtIsSlice(text, 1, line);
    AtIsSlice(item, 0, line);
    if 1 + |line| <= |text| {
      assert text[1..1 + |line|] == item[0..|line|];
    }
  }

  /** They agree on the first `k` characters, and there `a` ends or has the smaller character. */
  ghost predicate SmallerAt(a: string, b: string, k: nat) {
    && k <= |a| && k <= |b| && (forall i :: 0 <= i < k ==> a[i] == b[i])
    && (k == |a| || (k < |b| && a[k] < b[k]))
  }

  /**
    Where two strings first differ, the one with the smaller character comes
    first; a prefix comes before what it begins.
  */
  lemma {:induction false} OrderExactly(a: string, b: string)
    ensures Leq(a, b) <==> exists k: nat :: SmallerAt(a, b, k)
  {
    if |a| == 0 || (|b| > 0 && a[0] < b[0]) {
      assert SmallerAt(a, b, 0);
    } else if |b| > 0 && a[0] == b[0] {
      OrderExactly(a[1..], b[1..]);
      if k: nat :| SmallerAt(a[1..], b[1..], k) {
        assert forall i :: 0 < i <= k ==> a[i] == a[1..][i - 1] && b[i] == b[1..][i - 1];
        assert SmallerAt(a, b, k + 1);
      }
      if k: nat :| SmallerAt(a, b, k) {
        assert SmallerAt(a[1..], b[1..], k - 1);
      }
    }
  }
}
