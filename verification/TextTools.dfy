/** Whitespace handling of strings: strip, split into words, join, and what these keep. */
module TextTools {

  predicate IsSpace(c: char) {
    var n := c as int;
    || 0x09 <= n <= 0x0d || 0x1c <= n <= 0x20 || n == 0x85 || n == 0xa0 || n == 0x1680
    || 0x2000 <= n <= 0x200a || n == 0x2028 || n == 0x2029 || n == 0x202f || n == 0x205f || n == 0x3000
  }

  function StripLeft(s: string): (r: string)
    ensures |r| <= |s| && (r == "" || !IsSpace(r[0]))
  {
    if s != "" && IsSpace(s[0]) then StripLeft(s[1..]) else s
  }

  function StripRight(s: string): (r: string)
    ensures |r| <= |s| && (r == "" || !IsSpace(r[|r| - 1]))
  {
    if s != "" && IsSpace(s[|s| - 1]) then StripRight(s[..|s| - 1]) else s
  }

  function Strip(s: string): string { StripRight(StripLeft(s)) }

  predicate Blank(s: string) { forall i :: 0 <= i < |s| ==> IsSpace(s[i]) }

  function Join(parts: seq<string>, separator: string): string {
    if parts == [] then "" else if |parts| == 1 then parts[0]
    else parts[0] + separator + Join(parts[1..], separator)
  }

  /** The length of the leading word. */
  function WordLength(s: string): (n: nat)
    ensures n <= |s| && (n < |s| ==> IsSpace(s[n]))
    ensures forall i :: 0 <= i < n ==> !IsSpace(s[i])
    ensures s != "" && !IsSpace(s[0]) ==> n > 0
  {
    if s == "" || IsSpace(s[0]) then 0 else 1 + WordLength(s[1..])
  }

  function Words(s: string): seq<string>
    decreases |s|
  {
    var t := StripLeft(s);
    if t == "" then [] else [t[..WordLength(t)]] + Words(t[WordLength(t)..])
  }

  /** Every run of whitespace becomes one space, none at the ends. */
  function Normalize(s: string): string { Join(Words(s), " ") }

  /** No whitespace but single spaces, and none at the ends. */
  predicate Tidy(s: string) {
    && (s != "" ==> !IsSpace(s[0]))
    && forall i :: 0 <= i < |s| && IsSpace(s[i]) ==> s[i] == ' ' && i + 1 < |s| && !IsSpace(s[i + 1])
  }

  /** The characters that are not whitespace, in order. */
  function NonSpace(s: string): string {
    if s == "" then "" else (if IsSpace(s[0]) then "" else [s[0]]) + NonSpace(s[1..])
  }

  predicate OccursAt(text: string, part: string, i: int) {
    0 <= i <= |text| - |part| && text[i..i + |part|] == part
  }

  predicate Contains(text: string, part: string) {
    exists i :: 0 <= i <= |text| && OccursAt(text, part, i)
  }

  /** The values whose key occurs in the text, in table order. */
  function Matching(table: seq<(string, string)>, text: string): seq<string> {
    if table == [] then []
    else (if Contains(text, table[0].0) then [table[0].1] else []) + Matching(table[1..], text)
  }

  lemma {:induction false} NonSpaceConcat(a: string, b: string)
    ensures NonSpace(a + b) == NonSpace(a) + NonSpace(b)
  {
    if a == "" {
      assert a + b == b;
    } else {
      hide IsSpace;
      var s := a + b;
      assert s[0] == a[0] && s[1..] == a[1..] + b;
      NonSpaceConcat(a[1..], b);
    }
  }

  lemma {:induction false} NonSpaceBlank(s: string)
    ensures Blank(s) <==> NonSpace(s) == ""
  {
    if s != "" {
      NonSpaceBlank(s[1..]);
      assert Blank(s) <==> IsSpace(s[0]) && Blank(s[1..]) by {
        assert forall i :: 0 < i < |s| ==> s[i] == s[1..][i - 1];
        assert forall i :: 0 <= i < |s| - 1 ==> s[1..][i] == s[i + 1];
      }
    }
  }

  lemma {:induction false} StripLeftKeeps(s: string)
    ensures NonSpace(StripLeft(s)) == NonSpace(s)
  {
    if s != "" && IsSpace(s[0]) { StripLeftKeeps(s[1..]); }
  }

  lemma {:induction false} StripRightIsPrefix(s: string)
    ensures StripRight(s) <= s
  {
    if s != "" && IsSpace(s[|s| - 1]) { StripRightIsPrefix(s[..|s| - 1]); }
  }

  lemma {:induction false} StripRightKeeps(s: string)
    ensures NonSpace(StripRight(s)) == NonSpace(s)
  {
    if s != "" && IsSpace(s[|s| - 1]) {
      StripRightKeeps(s[..|s| - 1]);
      NonSpaceConcat(s[..|s| - 1], s[|s| - 1..]);
      assert s == s[..|s| - 1] + s[|s| - 1..];
      assert s[|s| - 1..][1..] == "";
    }
  }

  lemma StripKeeps(s: string)
    ensures NonSpace(Strip(s)) == NonSpace(s)
    ensures Strip(s) == "" <==> Blank(s)
  {
    StripLeftKeeps(s);
    StripRightKeeps(StripLeft(s));
    NonSpaceBlank(s);
    NonSpaceBlank(Strip(s));
    var t := Strip(s);
    if t != "" { assert !IsSpace(t[|t| - 1]); }
  }

  lemma {:induction false} StripSkipsBlank(a: string, b: string)
    requires Blank(a)
    ensures Strip(a + b) == Strip(b)
  {
    if a == "" {
      assert a + b == b;
    } else {
      assert (a + b)[1..] == a[1..] + b;
      StripSkipsBlank(a[1..], b);
    }
  }

  /** A word: not empty, no whitespace. */
  predicate Solid(w: string) { w != "" && forall i :: 0 <= i < |w| ==> !IsSpace(w[i]) }

  /** Splitting off the first word. */
  lemma FirstWord(s: string) returns (word: string, rest: string)
    requires StripLeft(s) != ""
    ensures Words(s) == [word] + Words(rest) && |rest| < |s|
    ensures NonSpace(s) == NonSpace(word) + NonSpace(rest)
    ensures Solid(word)
  {
    hide StripLeft, WordLength, NonSpace;
    var t := StripLeft(s);
    word, rest := t[..WordLength(t)], t[WordLength(t)..];
    StripLeftKeeps(s);
    NonSpaceConcat(word, rest);
    assert t == word + rest;
  }

  lemma {:induction false} WordsAreSolid(s: string)
    ensures forall k :: 0 <= k < |Words(s)| ==> Solid(Words(s)[k])
    decreases |s|
  {
    if StripLeft(s) == "" {
      assert Words(s) == [];
    } else {
      hide Words, StripLeft, NonSpace, Solid;
      var word, rest := FirstWord(s);
      WordsAreSolid(rest);
    }
  }

  lemma {:induction false} JoinedWordsAreTidy(words: seq<string>)
    requires forall k :: 0 <= k < |words| ==> Solid(words[k])
    ensures Tidy(Join(words, " ")) && (words != [] ==> Join(words, " ") != "")
  {
    if |words| > 1 {
      JoinedWordsAreTidy(words[1..]);
      var rest := Join(words[1..], " ");
      var s := Join(words, " ");
      assert s == words[0] + " " + rest;
      var n := |words[0]|;
      assert forall i :: 0 <= i < n ==> s[i] == words[0][i];
      assert forall i :: n < i < |s| ==> s[i] == rest[i - n - 1];
    }
  }

  lemma {:induction false} NonSpaceJoin(parts: seq<string>, separator: string)
    requires Blank(separator) && parts != []
    ensures NonSpace(Join(parts, separator)) == NonSpace(parts[0]) + NonSpace(Join(parts[1..], separator))
  {
    if |parts| > 1 {
      NonSpaceConcat(parts[0], separator);
      NonSpaceBlank(separator);
      NonSpaceConcat(parts[0] + separator, Join(parts[1..], separator));
    }
  }

  lemma {:induction false} WordsKeep(s: string)
    ensures NonSpace(Join(Words(s), " ")) == NonSpace(s)
    decreases |s|
  {
    if StripLeft(s) == "" {
      StripLeftKeeps(s);
    } else {
      hide Words, StripLeft, NonSpace;
      var word, rest := FirstWord(s);
      WordsKeep(rest);
      SpaceIsBlank();
      NonSpaceJoin(Words(s), " ");
      assert Words(s)[1..] == Words(rest);
    }
  }

  lemma SpaceIsBlank()
    ensures Blank(" ") && Blank("\n")
  {
  }

  lemma {:induction false} JoinedWordsAreShort(s: string)
    ensures |Join(Words(s), " ")| <= |StripLeft(s)|
    decreases |s|
  {
    var t := StripLeft(s);
    if t != "" {
      var n := WordLength(t);
      var rest := t[n..];
      JoinedWordsAreShort(rest);
      assert Words(s) == [t[..n]] + Words(rest);
      assert Words(s)[1..] == Words(rest);
      if rest != "" { assert IsSpace(rest[0]); }
    }
  }

  // ----- Characters and the gaps between them -----

  /** A character that is not whitespace, and whether whitespace comes between it and the one before. */
  datatype Mark = Mark(c: char, gap: bool)

  /** The characters of a text and the gaps between them; `gap` says whether there is one before the text. */
  function Spelled(s: string, gap: bool): seq<Mark> {
    if s == "" then []
    else if IsSpace(s[0]) then Spelled(s[1..], true)
    else [Mark(s[0], gap)] + Spelled(s[1..], false)
  }

  /** Whether there is a gap before what follows a text. */
  function GapAfter(s: string, gap: bool): bool { if s == "" then gap else IsSpace(s[|s| - 1]) }

  lemma {:induction false} SpelledConcat(a: string, b: string, gap: bool)
    ensures Spelled(a + b, gap) == Spelled(a, gap) + Spelled(b, GapAfter(a, gap))
  {
    hide IsSpace;
    if a == "" {
      assert a + b == b;
    } else {
      var s := a + b;
      assert s[0] == a[0] && s[1..] == a[1..] + b;
      SpelledConcat(a[1..], b, IsSpace(a[0]));
      assert GapAfter(a[1..], IsSpace(a[0])) == GapAfter(a, gap) by {
        if |a| > 1 { assert a[1..][|a| - 2] == a[|a| - 1]; }
      }
    }
  }

  /** Marks and plain characters go together. */
  lemma {:induction false} SpelledIsNonSpace(s: string, gap: bool)
    ensures |Spelled(s, gap)| == |NonSpace(s)|
    ensures forall i :: 0 <= i < |NonSpace(s)| ==> Spelled(s, gap)[i].c == NonSpace(s)[i]
  {
    hide IsSpace;
    if s != "" { SpelledIsNonSpace(s[1..], IsSpace(s[0])); }
  }

  lemma {:induction false} SpelledBlank(s: string, gap: bool)
    requires Blank(s)
    ensures Spelled(s, gap) == []
  {
    if s != "" {
      assert forall i :: 0 <= i < |s| - 1 ==> s[1..][i] == s[i + 1];
      SpelledBlank(s[1..], true);
    }
  }

  lemma {:induction false} SpelledStripLeft(s: string, gap: bool)
    ensures Spelled(StripLeft(s), gap || (s != "" && IsSpace(s[0]))) == Spelled(s, gap)
  {
    hide IsSpace;
    if s != "" && IsSpace(s[0]) { SpelledStripLeft(s[1..], true); }
  }

  lemma {:induction false} SpelledStripRight(s: string, gap: bool)
    ensures Spelled(StripRight(s), gap) == Spelled(s, gap)
  {
    if s != "" && IsSpace(s[|s| - 1]) {
      var n := |s| - 1;
      SpelledStripRight(s[..n], gap);
      SpelledConcat(s[..n], s[n..], gap);
      assert s == s[..n] + s[n..] && s[n..][1..] == "";
    }
  }

  /** Stripping keeps characters and gaps; whitespace in front becomes a gap in front. */
  lemma SpelledStrip(s: string, gap: bool)
    ensures Spelled(Strip(s), gap || (s != "" && IsSpace(s[0]))) == Spelled(s, gap)
  {
    hide Spelled;
    SpelledStripLeft(s, gap);
    SpelledStripRight(StripLeft(s), gap || (s != "" && IsSpace(s[0])));
  }

  /** Joined texts with whitespace between them: each begins after a gap. */
  lemma SpelledJoin(parts: seq<string>, separator: string)
    requires Blank(separator) && separator != "" && parts != []
    ensures Spelled(Join(parts, separator), true)
            == Spelled(parts[0], true) + Spelled(Join(parts[1..], separator), true)
  {
    hide Spelled, IsSpace;
    var rest := Join(parts[1..], separator);
    if |parts| > 1 {
      SpelledConcat(parts[0], separator + rest, true);
      SpelledConcat(separator, rest, GapAfter(parts[0], true));
      SpelledBlank(separator, GapAfter(parts[0], true));
      BlankEnds(separator);
      assert parts[0] + separator + rest == parts[0] + (separator + rest);
    } else {
      NothingSpelled();
    }
  }

  lemma BlankEnds(s: string)
    requires Blank(s) && s != ""
    ensures IsSpace(s[|s| - 1])
  {
  }

  lemma NothingSpelled()
    ensures forall gap: bool :: Spelled("", gap) == []
  {
  }

  lemma FirstWordIsSpelled(s: string) returns (word: string, rest: string)
    requires StripLeft(s) != ""
    ensures Words(s) == [word] + Words(rest) && |rest| < |s| && Solid(word)
    ensures Spelled(s, true) == Spelled(word, true) + Spelled(rest, true)
  {
    hide Spelled, NonSpace, StripLeft, WordLength;
    var t := StripLeft(s);
    word, rest := t[..WordLength(t)], t[WordLength(t)..];
    SpelledStripLeft(s, true);
    assert t == word + rest;
    SpelledConcat(word, rest, true);
    GapBeforeRest(rest);
  }

  lemma GapBeforeRest(rest: string)
    requires rest == "" || IsSpace(rest[0])
    ensures Spelled(rest, true) == Spelled(rest, false)
  {
  }

  lemma {:induction false} WordsSpell(s: string)
    ensures Spelled(Join(Words(s), " "), true) == Spelled(s, true)
    decreases |s|
  {
    hide Spelled, IsSpace;
    if StripLeft(s) == "" {
      SpelledStripLeft(s, true);
      NothingSpelled();
    } else {
      hide Words, StripLeft, Solid;
      var word, rest := FirstWordIsSpelled(s);
      WordsSpell(rest);
      SpaceIsBlank();
      SpelledJoin(Words(s), " ");
      assert Words(s)[1..] == Words(rest);
    }
  }

  // ----- Words of joined texts -----

  lemma {:induction false} WordEnds(w: string, b: string)
    requires forall i :: 0 <= i < |w| ==> !IsSpace(w[i])
    requires b == "" || IsSpace(b[0])
    ensures WordLength(w + b) == |w|
  {
    hide IsSpace;
    if w == "" {
      assert w + b == b;
    } else {
      assert (w + b)[1..] == w[1..] + b;
      WordEnds(w[1..], b);
    }
  }

  /** Splitting a text that starts with a word. */
  lemma WordThenRest(w: string, b: string)
    requires Solid(w) && (b == "" || IsSpace(b[0]))
    ensures Words(w + b) == [w] + Words(b)
  {
    WordEnds(w, b);
    assert StripLeft(w + b) == w + b;
    assert (w + b)[..|w|] == w && (w + b)[|w|..] == b;
  }

  lemma {:induction false} WordsSkipBlank(a: string, b: string)
    requires Blank(a)
    ensures Words(a + b) == Words(b)
  {
    if a == "" {
      assert a + b == b;
    } else {
      assert (a + b)[1..] == a[1..] + b;
      WordsSkipBlank(a[1..], b);
      assert StripLeft(a + b) == StripLeft(a[1..] + b);
    }
  }

  lemma Regroup<T>(a: seq<T>, b: seq<T>, c: seq<T>)
    ensures a + b + c == a + (b + c)
  {
  }

  lemma WordsConcatBlank(a: string, b: string)
    requires StripLeft(a) == ""
    ensures Words(a + b) == Words(a) + Words(b)
  {
    NothingButBlank(a);
    WordsSkipBlank(a, b);
    assert Words(a) == [];
  }

  /** Where whitespace follows, words do not run together. */
  lemma {:induction false} WordsConcat(a: string, b: string)
    requires b == "" || IsSpace(b[0])
    ensures Words(a + b) == Words(a) + Words(b)
    decreases |a|
  {
    hide IsSpace, Solid, Words, StripLeft, Blank;
    if StripLeft(a) == "" {
      WordsConcatBlank(a, b);
    } else {
      var blank, word, rest := CutFirstWord(a);
      WordsConcat(rest, b);
      WordsOfCut(blank, word, rest, b);
      Regroup([word], Words(rest), Words(b));
    }
  }

  lemma WordsOfCut(blank: string, word: string, rest: string, b: string)
    requires Blank(blank) && Solid(word) && (rest == "" || IsSpace(rest[0])) && (b == "" || IsSpace(b[0]))
    ensures Words(blank + (word + rest) + b) == [word] + Words(rest + b)
  {
    hide Words, Blank, Solid;
    OneMoreText(blank, word, rest, b);
    StillEnds(rest, b);
    WordsSkipBlank(blank, word + (rest + b));
    WordThenRest(word, rest + b);
  }

  lemma OneMoreText(blank: string, word: string, rest: string, b: string)
    ensures blank + (word + rest) + b == blank + (word + (rest + b))
  {
  }

  lemma StillEnds(rest: string, b: string)
    requires (rest == "" || IsSpace(rest[0])) && (b == "" || IsSpace(b[0]))
    ensures rest + b == "" || IsSpace((rest + b)[0])
  {
  }

  lemma {:induction false} NothingButBlank(s: string)
    requires StripLeft(s) == ""
    ensures Blank(s)
  {
    StripLeftKeeps(s);
    NonSpaceBlank(s);
  }

  lemma {:induction false} LeftBlank(s: string) returns (blank: string)
    ensures Blank(blank) && s == blank + StripLeft(s)
  {
    blank := "";
    if s != "" && IsSpace(s[0]) {
      var b := LeftBlank(s[1..]);
      blank := [s[0]] + b;
    }
  }

  lemma CutFirstWord(s: string) returns (blank: string, word: string, rest: string)
    requires StripLeft(s) != ""
    ensures Blank(blank) && Solid(word) && s == blank + (word + rest) && |rest| < |s|
    ensures rest == "" || IsSpace(rest[0])
    ensures Words(s) == [word] + Words(rest)
  {
    hide Blank, StripLeft, WordLength, IsSpace;
    blank := LeftBlank(s);
    var t := StripLeft(s);
    var n := WordLength(t);
    word, rest := t[..n], t[n..];
    assert t == word + rest;
    assert rest != "" ==> rest[0] == t[n];
  }

  lemma {:induction false} WordsOfJoin(words: seq<string>)
    requires forall k :: 0 <= k < |words| ==> Solid(words[k])
    ensures Words(Join(words, " ")) == words
  {
    hide Solid;
    if words == [] {
      assert Words("") == [];
    } else if |words| == 1 {
      WordThenRest(words[0], "");
      assert words[0] + "" == words[0] && Words("") == [];
    } else {
      WordsOfJoin(words[1..]);
      var rest := Join(words[1..], " ");
      SpaceIsBlank();
      WordsSkipBlank(" ", rest);
      WordThenRest(words[0], " " + rest);
      assert words[0] + " " + rest == words[0] + (" " + rest);
      assert words == [words[0]] + words[1..];
    }
  }

  /** The words of some texts, one text after the other. */
  function AllWords(parts: seq<string>): seq<string> {
    if parts == [] then [] else Words(parts[0]) + AllWords(parts[1..])
  }

  lemma {:induction false} WordsOfJoined(parts: seq<string>)
    ensures Words(Join(parts, " ")) == AllWords(parts)
  {
    hide Words, IsSpace;
    if parts == [] {
      NoWords();
    } else if |parts| == 1 {
      assert AllWords(parts[1..]) == [];
    } else {
      WordsOfJoined(parts[1..]);
      SpaceThenWords(parts[0], Join(parts[1..], " "));
    }
  }

  lemma NoWords()
    ensures Words("") == []
  {
  }

  lemma SpaceThenWords(a: string, b: string)
    ensures Words(a + " " + b) == Words(a) + Words(b)
  {
    hide Words;
    SpaceIsBlank();
    assert IsSpace((" " + b)[0]);
    WordsConcat(a, " " + b);
    WordsSkipBlank(" ", b);
    assert a + " " + b == a + (" " + b);
  }

  /** How many of the first n entries of a table have their key in a text. */
  function MatchesAmong(table: seq<(string, string)>, text: string, n: nat): nat
    requires n <= |table|
  {
    if n == 0 then 0 else (if Contains(text, table[0].0) then 1 else 0) + MatchesAmong(table[1..], text, n - 1)
  }

  /** Each entry whose key occurs gives its value, at its place among those; nothing else is given. */
  lemma {:induction false} MatchingAt(table: seq<(string, string)>, text: string, i: nat)
    requires i < |table|
    ensures |Matching(table, text)| == MatchesAmong(table, text, |table|)
    ensures Contains(text, table[i].0) ==>
              MatchesAmong(table, text, i) < |Matching(table, text)|
              && Matching(table, text)[MatchesAmong(table, text, i)] == table[i].1
  {
    hide Contains;
    if |table| > 1 { MatchingAt(table[1..], text, if i > 0 then i - 1 else 0); }
  }

  /** Normalizing keeps the words, and so every character that is not whitespace and every gap between two of
      them; it leaves no whitespace but single spaces, none at the ends. */
  lemma NormalizeKeeps(s: string)
    ensures NonSpace(Normalize(s)) == NonSpace(s) && Tidy(Normalize(s))
    ensures Spelled(Normalize(s), true) == Spelled(s, true)
    ensures Words(Normalize(s)) == Words(s)
  {
    hide Words, NonSpace, Spelled, Tidy, Solid;
    WordsKeep(s);
    WordsSpell(s);
    WordsAreSolid(s);
    JoinedWordsAreTidy(Words(s));
    WordsOfJoin(Words(s));
  }
}
