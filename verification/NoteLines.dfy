/**
  What the wrap of a note makes of its text, word by word: over-long words are cut into pieces as
  long as a line, and the lines are filled with the words and pieces in order.
 */
module NoteLines {
  import opened Text
  import opened NoteText

  // --- over-long words ---------------------------------------------------------------

  /** A word cut into pieces of the given length, the last one as long as what remains. */
  function Chunks(word: string, width: nat): seq<string>
    requires width >= 1
    decreases |word|
  {
    if |word| <= width then [word] else [word[..width]] + Chunks(word[width..], width)
  }

  /** The words of a paragraph with the over-long ones cut. */
  function AllChunks(words: seq<string>, width: nat): seq<string>
    requires width >= 1
  {
    if words == [] then [] else AllChunks(words[..|words| - 1], width) + Chunks(words[|words| - 1], width)
  }

  /** The pieces make up the word. */
  lemma {:induction false} ChunksMakeWord(word: string, width: nat)
    requires width >= 1
    ensures Flat(Chunks(word, width)) == word
    decreases |word|
  {
    if |word| <= width {
      FlatOne(word);
    } else {
      ChunksMakeWord(word[width..], width);
      FlatFirst(word[..width], Chunks(word[width..], width));
      assert word == word[..width] + word[width..];
    }
  }

  /** Only the last piece may be shorter than a line, and none is empty. */
  lemma {:induction false} ChunksAreFull(word: string, width: nat)
    requires width >= 1 && word != ""
    ensures var cs := Chunks(word, width);
            && cs != [] && 1 <= |cs[|cs| - 1]| <= width
            && forall i :: 0 <= i < |cs| - 1 ==> |cs[i]| == width
    ensures AllInk(word) ==> AreWords(Chunks(word, width))
    ensures |word| <= width ==> Chunks(word, width) == [word]
    decreases |word|
  {
    if |word| > width { ChunksAreFull(word[width..], width); }
  }

  lemma {:induction false} AllChunksAreWords(words: seq<string>, width: nat)
    requires width >= 1 && AreWords(words)
    ensures AreWords(AllChunks(words, width)) && Proper(AllChunks(words, width), width)
    ensures words == [] <==> AllChunks(words, width) == []
  {
    if words != [] {
      var n := |words| - 1;
      AllChunksAreWords(words[..n], width);
      ChunksAreFull(words[n], width);
    }
  }

  /** Nothing is cut when no word is too long. */
  lemma {:induction false} ShortWordsStay(words: seq<string>, width: nat)
    requires width >= 1 && forall i :: 0 <= i < |words| ==> |words[i]| <= width
    ensures AllChunks(words, width) == words
  {
    if words != [] {
      var n := |words| - 1;
      ShortWordsStay(words[..n], width);
      assert words == words[..n] + [words[n]];
    }
  }

  lemma {:induction false} PlaceAllConcat(l: Layout, a: seq<string>, b: seq<string>, width: nat)
    requires width >= 1
    ensures PlaceAll(l, a + b, width) == PlaceAll(PlaceAll(l, a, width), b, width)
    decreases |b|
  {
    if b == [] {
      assert a + b == a;
    } else {
      var n := |b| - 1;
      assert (a + b)[..|a + b| - 1] == a + b[..n] && (a + b)[|a + b| - 1] == b[n];
      PlaceAllConcat(l, a, b[..n], width);
    }
  }

  lemma PlaceOne(l: Layout, word: string, width: nat)
    requires width >= 1
    ensures PlaceAll(l, [word], width) == Place(l, word, width)
  {
    assert [word][..0] == [];
  }

  /** A line that is full and one that was just finished come to the same for the next word. */
  lemma FullLineIsDone(lines: seq<string>, full: string, words: seq<string>, width: nat)
    requires width >= 1 && |full| == width && words != [] && 1 <= |words[0]| <= width
    ensures PlaceAll(Layout(lines, full), words, width) == PlaceAll(Layout(lines + [full], ""), words, width)
  {
    var first, rest := words[..1], words[1..];
    assert words == first + rest && first == [words[0]];
    PlaceAllConcat(Layout(lines, full), first, rest, width);
    PlaceAllConcat(Layout(lines + [full], ""), first, rest, width);
    PlaceOne(Layout(lines, full), words[0], width);
    PlaceOne(Layout(lines + [full], ""), words[0], width);
  }

  /** Hard-splitting a word is placing its pieces. */
  lemma {:induction false} PlaceIsItsChunks(l: Layout, word: string, width: nat)
    requires width >= 1 && word != ""
    ensures Place(l, word, width) == PlaceAll(l, Chunks(word, width), width)
    decreases |word|
  {
    if |word| <= width {
      PlaceOne(l, word, width);
    } else {
      var full, rest := word[..width], word[width..];
      var cs := Chunks(rest, width);
      ChunksAreFull(rest, width);
      PlaceIsItsChunks(Layout(Flush(l).lines + [full], ""), rest, width);
      FullLineIsDone(Flush(l).lines, full, cs, width);
      PlaceAllConcat(l, [full], cs, width);
      PlaceOne(l, full, width);
    }
  }

  lemma {:induction false} PlaceAllIsItsChunks(l: Layout, words: seq<string>, width: nat)
    requires width >= 1 && AreWords(words)
    ensures PlaceAll(l, words, width) == PlaceAll(l, AllChunks(words, width), width)
  {
    if words != [] {
      var n := |words| - 1;
      PlaceAllIsItsChunks(l, words[..n], width);
      PlaceIsItsChunks(PlaceAll(l, words[..n], width), words[n], width);
      PlaceAllConcat(l, AllChunks(words[..n], width), Chunks(words[n], width), width);
    }
  }

  // --- filling lines -------------------------------------------------------------------

  lemma {:induction false} LinesBelow(before: seq<string>, words: seq<string>, width: nat)
    requires width >= 1 && Proper(words, width)
    ensures var l := PlaceAll(Layout([], ""), words, width);
            PlaceAll(Layout(before, ""), words, width) == Layout(before + l.lines, l.current)
  {
    if words != [] {
      var n := |words| - 1;
      LinesBelow(before, words[..n], width);
      var l := PlaceAll(Layout([], ""), words[..n], width);
      assert before + (l.lines + [l.current]) == before + l.lines + [l.current];
    } else {
      assert before + [] == before;
    }
  }

  /** The lines are the words in order, one space apart, each line with as many as it has room for. */
  ghost predicate Filled(lines: seq<string>, words: seq<string>, width: nat) {
    exists groups :: Joined(groups) == lines && IsSplit(groups, words, width) && Eager(groups, width)
  }

  /** A paragraph adds the lines filled with its words, over-long ones cut, or an empty line when it
      has none; and no in-order split of them has fewer lines. */
  lemma ParagraphIsFilled(before: seq<string>, words: seq<string>, width: nat) returns (lines: seq<string>)
    requires width >= 1 && AreWords(words)
    ensures AddParagraph(before, words, width) == before + lines
    ensures if words == [] then lines == [""] else Filled(lines, AllChunks(words, width), width)
    ensures words != [] ==> forall groups :: IsSplit(groups, AllChunks(words, width), width) ==> |lines| <= |groups|
  {
    var cut := AllChunks(words, width);
    AllChunksAreWords(words, width);
    PlaceAllIsItsChunks(Layout(before, ""), words, width);
    LinesBelow(before, cut, width);
    lines := AddParagraph([], cut, width);
    var l := PlaceAll(Layout([], ""), cut, width);
    assert before + l.lines + [l.current] == before + (l.lines + [l.current]);
    if words != [] {
      var groups := GreedyIsASplit(cut, width);
      forall other | IsSplit(other, cut, width) ensures |lines| <= |other| { GreedyUsesFewestLines(cut, other, width); }
    }
  }

  /** An empty line for a paragraph without words, else lines filled with its words, the over-long
      ones cut. */
  ghost predicate Sets(lines: seq<string>, paragraph: string, width: nat)
    requires width >= 1
  {
    var words := Words(paragraph);
    if words == [] then lines == [""] else Filled(lines, AllChunks(words, width), width)
  }

  /** The wrap of some paragraphs is what each of them is set in, one after the other. */
  lemma {:induction false} ParagraphsAreFilled(paragraphs: seq<string>, width: nat) returns (parts: seq<seq<string>>)
    requires width >= 1
    ensures |parts| == |paragraphs| && FlatWords(parts) == WrapParagraphs(paragraphs, width)
    ensures forall p :: 0 <= p < |paragraphs| ==> Sets(parts[p], paragraphs[p], width)
  {
    if paragraphs == [] {
      parts := [];
    } else {
      var n := |paragraphs| - 1;
      var earlier := ParagraphsAreFilled(paragraphs[..n], width);
      var lines := LastParagraph(paragraphs, width);
      parts := earlier + [lines];
      assert parts[..n] == earlier;
      forall p | 0 <= p < |paragraphs| ensures Sets(parts[p], paragraphs[p], width) {
        if p < n { assert Sets(earlier[p], paragraphs[..n][p], width); }
      }
    }
  }

  lemma LastParagraph(paragraphs: seq<string>, width: nat) returns (lines: seq<string>)
    requires width >= 1 && paragraphs != []
    ensures var n := |paragraphs| - 1;
            && WrapParagraphs(paragraphs, width) == WrapParagraphs(paragraphs[..n], width) + lines
            && Sets(lines, paragraphs[n], width)
  {
    var n := |paragraphs| - 1;
    WordsAreWords(paragraphs[n]);
    lines := ParagraphIsFilled(WrapParagraphs(paragraphs[..n], width), Words(paragraphs[n]), width);
  }

  // --- no word is broken or run into another ---------------------------------------------

  /** The words of some lines, one line after the other. */
  function WordsOfLines(lines: seq<string>): seq<string> {
    if lines == [] then [] else WordsOfLines(lines[..|lines| - 1]) + Words(lines[|lines| - 1])
  }

  lemma {:induction false} WordsOfLinesConcat(a: seq<string>, b: seq<string>)
    ensures WordsOfLines(a + b) == WordsOfLines(a) + WordsOfLines(b)
    decreases |b|
  {
    if b == [] {
      assert a + b == a;
    } else {
      var n := |b| - 1;
      assert (a + b)[..|a + b| - 1] == a + b[..n] && (a + b)[|a + b| - 1] == b[n];
      WordsOfLinesConcat(a, b[..n]);
      assert WordsOfLines(a) + WordsOfLines(b[..n]) + Words(b[n]) == WordsOfLines(a) + (WordsOfLines(b[..n]) + Words(b[n]));
    }
  }

  lemma FirstWordOf(a: string, b: string)
    requires a != "" && !IsSpace(a[0]) && b != "" && IsSpace(b[0])
    ensures var w, rest := a[..WordEnd(a)], a[WordEnd(a)..];
            |rest| < |a| && Words(a) == [w] + Words(rest) && Words(a + b) == [w] + Words(rest + b)
  {
    var n := WordEnd(a);
    var w, rest := a[..n], a[n..];
    assert a + b == w + (rest + b);
    assert (rest + b)[0] == if n < |a| then a[n] else b[0];
    WordFirst(w, rest + b);
  }

  /** White space ends a word. */
  lemma {:induction false} WordsConcat(a: string, b: string)
    requires b != "" && IsSpace(b[0])
    ensures Words(a + b) == Words(a) + Words(b)
    decreases |a|
  {
    if a == "" {
      assert a + b == b;
    } else if IsSpace(a[0]) {
      assert (a + b)[1..] == a[1..] + b;
      WordsConcat(a[1..], b);
    } else {
      var w, rest := a[..WordEnd(a)], a[WordEnd(a)..];
      FirstWordOf(a, b);
      WordsConcat(rest, b);
      assert [w] + (Words(rest) + Words(b)) == [w] + Words(rest) + Words(b);
    }
  }

  lemma WordsApart(a: string, c: char, b: string)
    requires IsSpace(c)
    ensures Words(a + [c] + b) == Words(a) + Words(b)
  {
    assert a + [c] + b == a + ([c] + b) && ([c] + b)[1..] == b;
    WordsConcat(a, [c] + b);
  }

  lemma OneWord(w: string)
    requires w != "" && AllInk(w)
    ensures Words(w) == [w]
  {
    assert w + "" == w;
    WordFirst(w, "");
  }

  /** Words written one space apart are read as the same words. */
  lemma {:induction false} JoinThenWords(words: seq<string>)
    requires AreWords(words)
    ensures Words(Join(words)) == words
  {
    if |words| == 1 {
      OneWord(words[0]);
    } else if words != [] {
      var n := |words| - 1;
      JoinThenWords(words[..n]);
      assert Join(words) == Join(words[..n]) + [' '] + words[n];
      WordsApart(Join(words[..n]), ' ', words[n]);
      OneWord(words[n]);
      assert words == words[..n] + [words[n]];
    }
  }

  lemma {:induction false} JoinedThenWords(groups: seq<seq<string>>)
    requires AreWords(FlatWords(groups))
    ensures WordsOfLines(Joined(groups)) == FlatWords(groups)
  {
    if groups != [] {
      var n := |groups| - 1;
      var all, lines := FlatWords(groups), Joined(groups);
      assert all[..|all| - |groups[n]|] == FlatWords(groups[..n]) && all[|all| - |groups[n]|..] == groups[n];
      JoinedThenWords(groups[..n]);
      JoinThenWords(groups[n]);
      assert lines[..|lines| - 1] == Joined(groups[..n]);
    }
  }

  lemma {:induction false} AllChunksConcat(a: seq<string>, b: seq<string>, width: nat)
    requires width >= 1
    ensures AllChunks(a + b, width) == AllChunks(a, width) + AllChunks(b, width)
    decreases |b|
  {
    if b == [] {
      assert a + b == a;
    } else {
      var n := |b| - 1;
      assert (a + b)[..|a + b| - 1] == a + b[..n] && (a + b)[|a + b| - 1] == b[n];
      AllChunksConcat(a, b[..n], width);
      var x, y, z := AllChunks(a, width), AllChunks(b[..n], width), Chunks(b[n], width);
      assert x + y + z == x + (y + z);
    }
  }

  lemma ParagraphKeepsWords(before: seq<string>, words: seq<string>, width: nat)
    requires width >= 1 && AreWords(words)
    ensures WordsOfLines(AddParagraph(before, words, width)) == WordsOfLines(before) + AllChunks(words, width)
  {
    var lines := ParagraphIsFilled(before, words, width);
    AllChunksAreWords(words, width);
    WordsOfLinesConcat(before, lines);
    if words == [] {
      assert [""][..0] == [];
      assert WordsOfLines([""]) == [];
    } else {
      var groups :| Joined(groups) == lines && IsSplit(groups, AllChunks(words, width), width) && Eager(groups, width);
      JoinedThenWords(groups);
    }
  }

  lemma {:induction false} WrapParagraphsKeepWords(paragraphs: seq<string>, width: nat)
    requires width >= 1
    ensures WordsOfLines(WrapParagraphs(paragraphs, width)) == AllChunks(WordsOfLines(paragraphs), width)
  {
    if paragraphs != [] {
      var n := |paragraphs| - 1;
      WrapParagraphsKeepWords(paragraphs[..n], width);
      WordsAreWords(paragraphs[n]);
      ParagraphKeepsWords(WrapParagraphs(paragraphs[..n], width), Words(paragraphs[n]), width);
      AllChunksConcat(WordsOfLines(paragraphs[..n]), Words(paragraphs[n]), width);
    }
  }

  lemma WordsOfOneLine(line: string)
    ensures WordsOfLines([line]) == Words(line)
  {
    assert [line][..0] == [] && [] + Words(line) == Words(line);
  }

  lemma WordsAroundBreak(s: string, n: nat)
    requires n < |s| && IsSpace(s[n])
    ensures Words(s) == Words(s[..n]) + Words(s[n + 1..])
  {
    assert s == s[..n] + s[n..] && s[n..][1..] == s[n + 1..];
    WordsConcat(s[..n], s[n..]);
  }

  /** A line break ends a word, so the words of the paragraphs are those of the text. */
  lemma {:induction false} ParagraphsKeepWords(s: string)
    ensures WordsOfLines(Paragraphs(s)) == Words(s)
    decreases |s|
  {
    var n := LineBreak(s);
    if n == |s| {
      WordsOfOneLine(s);
    } else {
      var line, rest := s[..n], s[n + 1..];
      ParagraphsKeepWords(rest);
      WordsOfOneLine(line);
      assert Paragraphs(s) == [line] + Paragraphs(rest);
      WordsOfLinesConcat([line], Paragraphs(rest));
      WordsAroundBreak(s, n);
    }
  }

  /** Read word by word, the lines of a wrap are the words of the text in order, with only the
      over-long ones cut; when none is, they are exactly the words of the text. */
  lemma WrapKeepsWords(text: string, maxChars: int)
    ensures WordsOfLines(Wrapped(text, maxChars)) == AllChunks(Words(text), LineWidth(maxChars))
    ensures (forall i :: 0 <= i < |Words(text)| ==> |Words(text)[i]| <= LineWidth(maxChars))
              ==> WordsOfLines(Wrapped(text, maxChars)) == Words(text)
  {
    WrapParagraphsKeepWords(Paragraphs(text), LineWidth(maxChars));
    ParagraphsKeepWords(text);
    if forall i :: 0 <= i < |Words(text)| ==> |Words(text)[i]| <= LineWidth(maxChars) {
      ShortWordsStay(Words(text), LineWidth(maxChars));
    }
  }

  /** The wrap of a text is what its paragraphs are set in, one after the other. */
  lemma WrapIsFilled(text: string, maxChars: int) returns (parts: seq<seq<string>>)
    ensures |parts| == |Paragraphs(text)| && FlatWords(parts) == Wrapped(text, maxChars)
    ensures forall p :: 0 <= p < |parts| ==> Sets(parts[p], Paragraphs(text)[p], LineWidth(maxChars))
  {
    parts := ParagraphsAreFilled(Paragraphs(text), LineWidth(maxChars));
  }

  // --- as much as there is room for ---------------------------------------------------------

  /** A line of a size holds as many characters as have room, and no more. */
  lemma CharsAtIsMost(innerW: real, size: real)
    requires innerW >= 1.0 && size > 0.0
    ensures var n := CharsAt(innerW, size);
            n >= 0 && WidthOf(n, size) <= innerW < WidthOf(n + 1, size)
  {
    Quotient(innerW, size * CHAR_ASPECT);
  }

  /** n units, as a function so that products are compared as they stand. */
  function Units(n: real, unit: real): real {
    n * unit
  }

  lemma Quotient(all: real, unit: real)
    requires all >= 0.0 && unit > 0.0
    ensures var n := (all / unit).Floor; n >= 0 && Units(n as real, unit) <= all < Units((n + 1) as real, unit)
  {
    var q := all / unit;
    assert Units(q, unit) == all && q >= 0.0;
    RoundedDown(q, unit);
  }

  lemma RoundedDown(q: real, unit: real)
    requires q >= 0.0 && unit > 0.0
    ensures Units(q.Floor as real, unit) <= Units(q, unit) < Units((q.Floor + 1) as real, unit)
  {
    UnitsRise(q.Floor as real, q, unit);
    UnitsRise(q, (q.Floor + 1) as real, unit);
  }

  lemma UnitsRise(a: real, b: real, unit: real)
    requires a <= b && unit > 0.0
    ensures Units(a, unit) <= Units(b, unit)
    ensures a < b ==> Units(a, unit) < Units(b, unit)
  {
    assert (b - a) * unit >= 0.0 && (a < b ==> (b - a) * unit > 0.0);
  }

  /** A text that does not fit at any size is drawn from its first line on, in as many lines of the
      smallest size as have room, but in one at least. */
  lemma CutOffDrawsMost(text: string, innerW: real, innerH: real)
    requires innerW >= 1.0 && innerH >= 1.0
    ensures var all, drawn := LinesAt(text, innerW, FONT_MIN), CutOff(text, innerW, innerH);
            && drawn <= all && |drawn| >= 1
            && (|drawn| > 1 ==> Height(|drawn|, FONT_MIN) <= innerH)
            && (|drawn| < |all| ==> Height(|drawn| + 1, FONT_MIN) > innerH)
  {
    var drawn := CutOff(text, innerW, innerH);
    NeverNoLines(text, CharsAt(innerW, FONT_MIN));
    Quotient(innerH, FONT_MIN * LINE_SPACING);
    HeightIsProduct(|drawn| + 1, FONT_MIN);
    if innerH >= FONT_MIN * LINE_SPACING { CutOffFits(text, innerW, innerH); }
    assert |drawn| < |LinesAt(text, innerW, FONT_MIN)| ==> |drawn| == Room(innerH);
  }
}
