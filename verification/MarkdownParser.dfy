/**
 The line parser that cuts a document into blocks, each tagged with the heading and the page marker in
 force. It works on the lines of the text.
 */
module MarkdownParser {
  import opened Wrappers
  import opened TextTools

  datatype Block = Block(section: Option<string>, page: Option<nat>, text: string)

  // ----- Line kinds -----

  function LowerChar(c: char): char {
    if 'A' <= c <= 'Z' then (c as int + 32) as char else c
  }

  predicate IsDigit(c: char) { '0' <= c <= '9' }

  function DigitValue(c: char): nat
    requires IsDigit(c)
  {
    c as int - '0' as int
  }

  function Number(digits: string): nat
    requires forall i :: 0 <= i < |digits| ==> IsDigit(digits[i])
  {
    if digits == "" then 0 else 10 * Number(digits[..|digits| - 1]) + DigitValue(digits[|digits| - 1])
  }

  function PageNumber(digits: string): Option<nat> {
    if digits != "" && forall i :: 0 <= i < |digits| ==> IsDigit(digits[i]) then Some(Number(digits)) else None
  }

  function PageNumberAfterColon(tail: string): Option<nat> {
    if tail != "" && tail[0] == ':' then PageNumber(StripLeft(tail[1..])) else None
  }

  /** The inside of a comment: `page`, a colon, a number. */
  function PageComment(inner: string): Option<nat> {
    if |inner| >= 4 && seq(4, i requires 0 <= i < 4 => LowerChar(inner[i])) == "page"
    then PageNumberAfterColon(StripLeft(inner[4..])) else None
  }

  /** `<!-- page : 12 -->`, in any case and spacing, alone on its line. */
  function PageMarker(line: string): Option<nat> {
    var s := Strip(line);
    if |s| >= 7 && s[..4] == "<!--" && s[|s| - 3..] == "-->" then PageComment(Strip(s[4..|s| - 3])) else None
  }

  function Hashes(line: string): (n: nat)
    ensures n <= |line|
  {
    if line != "" && line[0] == '#' then 1 + Hashes(line[1..]) else 0
  }

  /** One to six `#`, whitespace, a title. */
  function HeadingTitle(line: string): Option<string> {
    var n := Hashes(line);
    var rest := line[n..];
    if 1 <= n <= 6 && |rest| >= 2 && IsSpace(rest[0]) then Some(Strip(rest)) else None
  }

  datatype Line = PageLine(number: nat) | HeadingLine(title: string) | TextLine(text: string)

  function Classify(line: string): Line {
    var page := PageMarker(line);
    var title := HeadingTitle(line);
    if page.Some? then PageLine(page.value) else if title.Some? then HeadingLine(title.value) else TextLine(line)
  }

  function Classified(lines: seq<string>): seq<Line> {
    seq(|lines|, i requires 0 <= i < |lines| => Classify(lines[i]))
  }

  // ----- Which lines are headings and page markers -----

  /** A line of one to six `#`, then whitespace, then at least one character more. */
  predicate HeadingWith(line: string, n: nat) {
    1 <= n <= 6 && n + 2 <= |line| && (forall i :: 0 <= i < n ==> line[i] == '#') && IsSpace(line[n])
  }

  lemma {:induction false} HashesCount(line: string)
    ensures forall i :: 0 <= i < Hashes(line) ==> line[i] == '#'
  {
    if line != "" && line[0] == '#' {
      HashesCount(line[1..]);
      assert forall i :: 0 < i < Hashes(line) ==> line[i] == line[1..][i - 1];
    }
  }

  lemma {:induction false} HashesStop(line: string, n: nat)
    requires n < |line| && line[n] != '#' && forall i :: 0 <= i < n ==> line[i] == '#'
    ensures Hashes(line) == n
  {
    if n > 0 { HashesStop(line[1..], n - 1); }
  }

  /** The headings are the lines of that form, under the text after the `#`s without the whitespace around it. */
  lemma HeadingIff(line: string)
    ensures HeadingTitle(line).Some? <==> exists n: nat :: HeadingWith(line, n)
    ensures forall n: nat :: HeadingWith(line, n) ==> HeadingTitle(line) == Some(Strip(line[n..]))
  {
    hide Strip;
    var h := Hashes(line);
    forall n: nat | HeadingWith(line, n) ensures n == h { HashesStop(line, n); }
    if HeadingTitle(line).Some? {
      HashesCount(line);
      assert line[h..][0] == line[h];
      assert HeadingWith(line, h);
    }
  }

  /** A number in decimal digits. */
  function Decimal(n: nat): string {
    if n < 10 then [('0' as int + n) as char] else Decimal(n / 10) + Decimal(n % 10)
  }

  predicate AllDigits(s: string) { s != "" && forall i :: 0 <= i < |s| ==> IsDigit(s[i]) }

  lemma OneDigit(c: char)
    requires IsDigit(c)
    ensures Number([c]) == DigitValue(c)
  {
    assert [c][..|[c]| - 1] == "";
  }

  /** Numbers are read as they are written, leading zeros aside. */
  lemma {:induction false} NumberIsRead(n: nat)
    ensures AllDigits(Decimal(n)) && PageNumber(Decimal(n)) == Some(n)
  {
    if n >= 10 {
      NumberIsRead(n / 10);
      var d, last := Decimal(n), Decimal(n % 10);
      assert |last| == 1 && IsDigit(last[0]) && DigitValue(last[0]) == n % 10;
      assert d[..|d| - 1] == Decimal(n / 10) && d[|d| - 1] == last[0];
    } else {
      OneDigit(('0' as int + n) as char);
    }
  }

  lemma {:induction false} LeadingZero(digits: string)
    requires AllDigits(digits)
    ensures AllDigits("0" + digits) && PageNumber("0" + digits) == PageNumber(digits)
  {
    var s := "0" + digits;
    var n := |digits| - 1;
    assert s[..|s| - 1] == "0" + digits[..n];
    if n > 0 {
      LeadingZero(digits[..n]);
    } else {
      OneDigit('0');
      OneDigit(digits[0]);
      assert digits == [digits[0]];
    }
  }

  lemma {:induction false} StripLeftSkips(blank: string, s: string)
    requires Blank(blank) && (s == "" || !IsSpace(s[0]))
    ensures StripLeft(blank + s) == s
  {
    if blank == "" {
      assert blank + s == s;
    } else {
      assert (blank + s)[1..] == blank[1..] + s;
      StripLeftSkips(blank[1..], s);
    }
  }

  lemma {:induction false} StripRightSkips(s: string, blank: string)
    requires Blank(blank) && (s == "" || !IsSpace(s[|s| - 1]))
    ensures StripRight(s + blank) == s
  {
    if blank == "" {
      assert s + blank == s;
    } else {
      var n := |blank| - 1;
      assert (s + blank)[..|s + blank| - 1] == s + blank[..n];
      StripRightSkips(s, blank[..n]);
    }
  }

  lemma StripAround(before: string, s: string, after: string)
    requires Blank(before) && Blank(after) && s != "" && !IsSpace(s[0]) && !IsSpace(s[|s| - 1])
    ensures Strip(before + s + after) == s
  {
    hide IsSpace, Blank;
    assert before + s + after == before + (s + after);
    StripLeftSkips(before, s + after);
    StripRightSkips(s, after);
  }

  /** The word "page" in any case. */
  predicate PageWord(w: string) {
    && |w| == 4 && (w[0] == 'p' || w[0] == 'P') && (w[1] == 'a' || w[1] == 'A')
    && (w[2] == 'g' || w[2] == 'G') && (w[3] == 'e' || w[3] == 'E')
  }

  lemma PageWordIff(w: string)
    requires |w| == 4
    ensures PageWord(w) <==> seq(4, i requires 0 <= i < 4 => LowerChar(w[i])) == "page"
  {
    var l := seq(4, i requires 0 <= i < 4 => LowerChar(w[i]));
    assert l == "page" <==> l[0] == 'p' && l[1] == 'a' && l[2] == 'g' && l[3] == 'e';
  }

  /** A comment that says page and a number, with whitespace anywhere between its parts and around it, is a page
      marker of that number. */
  lemma PageMarkerReads(before: string, a: string, word: string, b: string, c: string, digits: string, d: string,
                        after: string)
    requires Blank(before) && Blank(a) && Blank(b) && Blank(c) && Blank(d) && Blank(after)
    requires PageWord(word) && AllDigits(digits)
    ensures PageMarker(before + ("<!--" + (a + (word + (b + (":" + (c + digits)))) + d) + "-->") + after)
            == PageNumber(digits)
  {
    hide Blank, Number;
    var said := word + (b + (":" + (c + digits)));
    var inner := a + said + d;
    var marker := "<!--" + inner + "-->";
    CommentReads(word, b, c, digits);
    StripAround(before, marker, after);
    assert marker[..4] == "<!--" && marker[|marker| - 3..] == "-->" && marker[4..|marker| - 3] == inner;
    assert said[|said| - 1] == digits[|digits| - 1];
    StripAround(a, said, d);
    NumberSome(digits);
  }

  lemma NumberSome(digits: string)
    requires AllDigits(digits)
    ensures PageNumber(digits).Some?
  {
  }

  lemma CommentReads(word: string, b: string, c: string, digits: string)
    requires PageWord(word) && Blank(b) && Blank(c) && AllDigits(digits)
    ensures PageComment(word + (b + (":" + (c + digits)))) == PageNumber(digits)
  {
    hide Blank, PageNumber, PageWord;
    var inner := word + (b + (":" + (c + digits)));
    var tail := ":" + (c + digits);
    PageWordHasFour(word);
    PageWordIff(word);
    assert inner[..4] == word && inner[4..] == b + tail;
    assert seq(4, i requires 0 <= i < 4 => LowerChar(inner[i])) == seq(4, i requires 0 <= i < 4 => LowerChar(word[i]));
    StripLeftSkips(b, tail);
    assert tail[1..] == c + digits;
    StripLeftSkips(c, digits);
  }

  lemma PageWordHasFour(word: string)
    requires PageWord(word)
    ensures |word| == 4
  {
  }

  lemma {:induction false} RightBlank(s: string) returns (blank: string)
    ensures Blank(blank) && s == StripRight(s) + blank
  {
    blank := "";
    if s != "" && IsSpace(s[|s| - 1]) {
      var b := RightBlank(s[..|s| - 1]);
      blank := b + [s[|s| - 1]];
    }
  }

  /** A line is what is left of it when stripped, between blanks. */
  lemma Unstrip(s: string) returns (before: string, after: string)
    ensures Blank(before) && Blank(after) && s == before + Strip(s) + after
  {
    before := LeftBlank(s);
    after := RightBlank(StripLeft(s));
    assert before + (StripRight(StripLeft(s)) + after) == before + StripRight(StripLeft(s)) + after;
  }

  /** Only such lines are page markers. */
  lemma PageMarkerIsOne(line: string)
    returns (before: string, a: string, word: string, b: string, c: string, digits: string, d: string, after: string)
    requires PageMarker(line).Some?
    ensures Blank(before) && Blank(a) && Blank(b) && Blank(c) && Blank(d) && Blank(after)
    ensures PageWord(word) && AllDigits(digits)
    ensures line == before + ("<!--" + (a + (word + (b + (":" + (c + digits)))) + d) + "-->") + after
    ensures PageMarker(line) == PageNumber(digits)
  {
    hide Blank, Strip, StripLeft, Number;
    before, after := Unstrip(line);
    var s := Strip(line);
    var inner := s[4..|s| - 3];
    assert s == "<!--" + inner + "-->";
    a, d := Unstrip(inner);
    word, b, c, digits := CommentIsOne(Strip(inner));
  }

  lemma CommentIsOne(said: string) returns (word: string, b: string, c: string, digits: string)
    requires PageComment(said).Some?
    ensures PageWord(word) && Blank(b) && Blank(c) && AllDigits(digits)
    ensures said == word + (b + (":" + (c + digits))) && PageComment(said) == PageNumber(digits)
  {
    hide Blank, StripLeft, Number, PageWord;
    word := said[..4];
    assert seq(4, i requires 0 <= i < 4 => LowerChar(said[i])) == seq(4, i requires 0 <= i < 4 => LowerChar(word[i]));
    PageWordIff(word);
    b := LeftBlank(said[4..]);
    var tail := StripLeft(said[4..]);
    c := LeftBlank(tail[1..]);
    digits := StripLeft(tail[1..]);
    assert tail == ":" + (c + digits);
    assert said == word + said[4..];
  }

  // ----- The blocks a document has -----

  /** The last heading before line i. */
  function SectionAt(doc: seq<Line>, i: nat): Option<string>
    requires i <= |doc|
  {
    if i == 0 then None
    else if doc[i - 1].HeadingLine? then Some(doc[i - 1].title)
    else SectionAt(doc, i - 1)
  }

  /** The last page marker before line i. */
  function PageAt(doc: seq<Line>, i: nat): Option<nat>
    requires i <= |doc|
  {
    if i == 0 then None
    else if doc[i - 1].PageLine? then Some(doc[i - 1].number)
    else PageAt(doc, i - 1)
  }

  predicate AllText(doc: seq<Line>, i: nat, j: nat)
    requires i <= j <= |doc|
  {
    forall k :: i <= k < j ==> doc[k].TextLine?
  }

  function Texts(doc: seq<Line>, i: nat, j: nat): (texts: seq<string>)
    requires i <= j <= |doc| && AllText(doc, i, j)
    ensures |texts| == j - i && forall k :: 0 <= k < j - i ==> texts[k] == doc[i + k].text
  {
    seq(j - i, k requires 0 <= k < j - i => doc[i + k].text)
  }

  /** The end of the run of text lines from line i on. */
  function RunEnd(doc: seq<Line>, i: nat): (j: nat)
    requires i <= |doc|
    ensures i <= j <= |doc| && AllText(doc, i, j)
    ensures j < |doc| ==> !doc[j].TextLine?
    decreases |doc| - i
  {
    if i < |doc| && doc[i].TextLine? then RunEnd(doc, i + 1) else i
  }

  /** The block of a run of text lines, unless they are all blank. */
  function BlockOf(doc: seq<Line>, i: nat, j: nat): seq<Block>
    requires i <= j <= |doc| && AllText(doc, i, j)
  {
    var content := Strip(Join(Texts(doc, i, j), "\n"));
    if content == "" then [] else [Block(SectionAt(doc, i), PageAt(doc, i), content)]
  }

  /** One block for each maximal run of text lines from line i on. */
  function BlocksFrom(doc: seq<Line>, i: nat): seq<Block>
    requires i <= |doc|
    decreases |doc| - i
  {
    if i == |doc| then []
    else if !doc[i].TextLine? then BlocksFrom(doc, i + 1)
    else BlockOf(doc, i, RunEnd(doc, i)) + BlocksFrom(doc, RunEnd(doc, i))
  }

  lemma {:induction false} RunEndsThere(doc: seq<Line>, i: nat, j: nat)
    requires i <= j <= |doc| && AllText(doc, i, j)
    requires j == |doc| || !doc[j].TextLine?
    ensures RunEnd(doc, i) == j
    decreases j - i
  {
    if i < j { RunEndsThere(doc, i + 1, j); }
  }

  /** Inside a run the heading and page in force do not change. */
  lemma {:induction false} TagsHold(doc: seq<Line>, i: nat, k: nat)
    requires i <= k <= |doc| && AllText(doc, i, k)
    ensures SectionAt(doc, k) == SectionAt(doc, i) && PageAt(doc, k) == PageAt(doc, i)
  {
    if i < k { TagsHold(doc, i, k - 1); }
  }

  /** Leading blank lines do not show in the stripped text. */
  lemma {:induction false} SkipBlankLines(texts: seq<string>, k: nat)
    requires k <= |texts| && forall i :: 0 <= i < k ==> Blank(texts[i])
    ensures Strip(Join(texts, "\n")) == Strip(Join(texts[k..], "\n"))
    decreases k
  {
    hide Strip;
    if k == 0 {
      assert texts[0..] == texts;
    } else {
      SkipBlankLines(texts[1..], k - 1);
      assert texts[1..][k - 1..] == texts[k..];
      if |texts| == 1 {
        StripSkipsBlank(texts[0], "");
        assert texts[0] + "" == texts[0];
      } else {
        StripSkipsBlank(texts[0] + "\n", Join(texts[1..], "\n"));
      }
    }
  }

  method ParseMarkdown(lines: seq<string>) returns (blocks: seq<Block>)
    ensures blocks == BlocksFrom(Classified(lines), 0)
  {
    hide Classify, BlockOf, BlocksFrom, Strip;
    blocks := [];
    var section: Option<string> := None;
    var page: Option<nat> := None;
    var buffer: seq<string> := [];
    ghost var doc := Classified(lines);
    ghost var first, kept := 0, 0;  // the current run starts at `first`; `buffer` holds it from `kept` on
    for i := 0 to |lines|
      invariant first <= kept <= i && AllText(doc, first, i)
      invariant buffer == Texts(doc, kept, i) && (buffer == [] ==> kept == i)
      invariant forall k :: first <= k < kept ==> Blank(doc[k].text)
      invariant section == SectionAt(doc, i) && page == PageAt(doc, i)
      invariant blocks + BlocksFrom(doc, first) == BlocksFrom(doc, 0)
    {
      match Classify(lines[i])
      case PageLine(number) =>
        blocks := Flush(doc, first, kept, i, blocks, buffer, section, page);
        buffer, first, kept := [], i + 1, i + 1;
        page := Some(number);
      case HeadingLine(title) =>
        blocks := Flush(doc, first, kept, i, blocks, buffer, section, page);
        buffer, first, kept := [], i + 1, i + 1;
        section := Some(title);
      case TextLine(line) =>
        if Strip(line) != "" || buffer != [] {
          buffer := buffer + [line];
        } else {
          StripKeeps(line);
          kept := i + 1;
        }
    }
    blocks := Flush(doc, first, kept, |lines|, blocks, buffer, section, page);
  }

  /** Turns the buffered lines into a block; afterwards the run is accounted for. */
  method Flush(ghost doc: seq<Line>, ghost first: nat, ghost kept: nat, ghost i: nat,
               blocks: seq<Block>, buffer: seq<string>, section: Option<string>, page: Option<nat>)
    returns (flushed: seq<Block>)
    requires first <= kept <= i <= |doc| && AllText(doc, first, i) && buffer == Texts(doc, kept, i)
    requires forall k :: first <= k < kept ==> Blank(doc[k].text)
    requires i == |doc| || !doc[i].TextLine?
    requires section == SectionAt(doc, i) && page == PageAt(doc, i)
    ensures flushed == blocks + BlockOf(doc, first, i)
    ensures flushed + (if i < |doc| then BlocksFrom(doc, i + 1) else []) == blocks + BlocksFrom(doc, first)
  {
    hide Strip, Join, BlockOf, BlocksFrom, SectionAt, PageAt;
    var content := Strip(Join(buffer, "\n"));
    ghost var block := if content == "" then [] else [Block(section, page, content)];
    flushed := if content == "" then blocks else blocks + [Block(section, page, content)];
    BufferedBlock(doc, first, kept, i);
    RunFlushes(doc, first, i);
    Regroup(blocks, block, if i < |doc| then BlocksFrom(doc, i + 1) else []);
  }

  /** The block of what is buffered is the block of the run: the blank lines left out in front do not matter. */
  lemma BufferedBlock(doc: seq<Line>, first: nat, kept: nat, i: nat)
    requires first <= kept <= i <= |doc| && AllText(doc, first, i)
    requires forall k :: first <= k < kept ==> Blank(doc[k].text)
    ensures var content := Strip(Join(Texts(doc, kept, i), "\n"));
            BlockOf(doc, first, i) == if content == "" then [] else [Block(SectionAt(doc, i), PageAt(doc, i), content)]
  {
    hide Strip, Join, Blank;
    SkipBlankLines(Texts(doc, first, i), kept - first);
    assert Texts(doc, first, i)[kept - first..] == Texts(doc, kept, i);
    hide SectionAt, PageAt;
    TagsHold(doc, first, i);
  }

  /** A run that has ended contributes its block. */
  lemma RunFlushes(doc: seq<Line>, first: nat, i: nat)
    requires first <= i <= |doc| && AllText(doc, first, i)
    requires i == |doc| || !doc[i].TextLine?
    ensures BlockOf(doc, first, i) + (if i < |doc| then BlocksFrom(doc, i + 1) else []) == BlocksFrom(doc, first)
  {
    hide BlockOf;
    RunEndsThere(doc, first, i);
    if first == i { EmptyRun(doc, i); }
  }

  lemma EmptyRun(doc: seq<Line>, i: nat)
    requires i <= |doc|
    ensures BlockOf(doc, i, i) == []
  {
    assert Texts(doc, i, i) == [];
  }

  // ----- Conservation -----

  /** A character, with the gap before it, and the heading and page it belongs to. */
  datatype Tagged = Tagged(mark: Mark, section: Option<string>, page: Option<nat>)

  function Tag(s: seq<Mark>, section: Option<string>, page: Option<nat>): seq<Tagged> {
    seq(|s|, i requires 0 <= i < |s| => Tagged(s[i], section, page))
  }

  function TaggedBlocks(blocks: seq<Block>): seq<Tagged> {
    if blocks == [] then []
    else Tag(Spelled(blocks[0].text, true), blocks[0].section, blocks[0].page) + TaggedBlocks(blocks[1..])
  }

  /** The characters of the text lines from line i on and the gaps between them, a line end being one, each with
      the last heading and the last page marker before its line. */
  function TaggedLines(doc: seq<Line>, i: nat): seq<Tagged>
    requires i <= |doc|
    decreases |doc| - i
  {
    if i == |doc| then []
    else (if doc[i].TextLine? then Tag(Spelled(doc[i].text, true), SectionAt(doc, i), PageAt(doc, i)) else [])
         + TaggedLines(doc, i + 1)
  }

  lemma TagConcat(a: seq<Mark>, b: seq<Mark>, section: Option<string>, page: Option<nat>)
    ensures Tag(a + b, section, page) == Tag(a, section, page) + Tag(b, section, page)
  {
  }

  lemma TagNothing(section: Option<string>, page: Option<nat>)
    ensures Tag([], section, page) == []
  {
  }

  /** What a run of text lines has to say. */
  function Said(doc: seq<Line>, i: nat, j: nat): seq<Mark>
    requires i <= j <= |doc| && AllText(doc, i, j)
  {
    Spelled(Join(Texts(doc, i, j), "\n"), true)
  }

  lemma SaidByLine(doc: seq<Line>, i: nat, j: nat)
    requires i <= j <= |doc| && AllText(doc, i, j)
    ensures Said(doc, i, j) == if i == j then [] else Spelled(doc[i].text, true) + Said(doc, i + 1, j)
  {
    if i == j {
      assert Texts(doc, i, j) == [];
    } else {
      hide Spelled;
      SpaceIsBlank();
      SpelledJoin(Texts(doc, i, j), "\n");
      assert Texts(doc, i, j)[1..] == Texts(doc, i + 1, j);
    }
  }

  /** A run contributes its lines, in order, under one pair of tags. */
  lemma {:induction false} RunConserves(doc: seq<Line>, i: nat, j: nat, section: Option<string>, page: Option<nat>)
    requires i <= j <= |doc| && AllText(doc, i, j)
    requires section == SectionAt(doc, i) && page == PageAt(doc, i)
    ensures Tag(Said(doc, i, j), section, page) + TaggedLines(doc, j) == TaggedLines(doc, i)
    decreases j - i
  {
    hide Said, Spelled, SectionAt, PageAt, Tag;
    SaidByLine(doc, i, j);
    if i == j {
      TagNothing(section, page);
    } else {
      TagsHold(doc, i, i + 1);
      RunConserves(doc, i + 1, j, section, page);
      TagConcat(Spelled(doc[i].text, true), Said(doc, i + 1, j), section, page);
      Regroup(Tag(Spelled(doc[i].text, true), section, page), Tag(Said(doc, i + 1, j), section, page), TaggedLines(doc, j));
    }
  }

  lemma TaggedConcat(a: seq<Block>, b: seq<Block>)
    requires |a| <= 1
    ensures TaggedBlocks(a + b) == TaggedBlocks(a) + TaggedBlocks(b)
  {
    if a == [] { assert a + b == b; } else { assert (a + b)[1..] == b; }
  }

  /** A text with nothing at its ends to strip. */
  predicate Trimmed(s: string) { s != "" && !IsSpace(s[0]) && !IsSpace(s[|s| - 1]) }

  lemma StripTrims(s: string)
    ensures Strip(s) != "" ==> Trimmed(Strip(s))
    ensures Strip(s) == "" <==> Spelled(s, true) == []
  {
    StripKeeps(s);
    NonSpaceBlank(s);
    SpelledIsNonSpace(s, true);
    var t := StripLeft(s);
    StripRightIsPrefix(t);
    if Strip(s) != "" { assert Strip(s)[0] == t[0]; }
  }

  /** A blank run has nothing to contribute; any other contributes its text. */
  lemma BlockConserves(doc: seq<Line>, i: nat, j: nat)
    requires i <= j <= |doc| && AllText(doc, i, j)
    ensures TaggedBlocks(BlockOf(doc, i, j)) == Tag(Said(doc, i, j), SectionAt(doc, i), PageAt(doc, i))
    ensures forall b :: b in BlockOf(doc, i, j) ==> Trimmed(b.text)
  {
    hide Strip, Spelled, Trimmed, Join;
    var text := Join(Texts(doc, i, j), "\n");
    StripTrims(text);
    SpelledStrip(text, true);
    assert TaggedBlocks([]) == [];
    if BlockOf(doc, i, j) != [] { assert BlockOf(doc, i, j)[1..] == []; }
  }

  /** Every character of a text line that is not whitespace is in exactly one block, in order, with the gaps
      between them, under the last preceding heading and the last preceding page marker; blocks hold nothing else
      and are trimmed. */
  lemma {:induction false} BlocksConserve(doc: seq<Line>, i: nat)
    requires i <= |doc|
    ensures TaggedBlocks(BlocksFrom(doc, i)) == TaggedLines(doc, i)
    ensures forall b :: b in BlocksFrom(doc, i) ==> Trimmed(b.text)
    decreases |doc| - i
  {
    hide Spelled, Said, Tag, Strip, Trimmed;
    if i < |doc| {
      if !doc[i].TextLine? {
        BlocksConserve(doc, i + 1);
      } else {
        var j := RunEnd(doc, i);
        assert j > i;
        BlocksConserve(doc, j);
        RunConserves(doc, i, j, SectionAt(doc, i), PageAt(doc, i));
        BlockConserves(doc, i, j);
        TaggedConcat(BlockOf(doc, i, j), BlocksFrom(doc, j));
      }
    }
  }
}
