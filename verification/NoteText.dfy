/**
  The text that fits a sticky note: greedy word wrap, and the font size it collapses to.

  `WrapLines` and `FitText` are the loops of the board; `Wrapped` is what they compute, and
  the lemmas say what that is worth: nothing is lost, no greedy wrap wastes a line, a wider
  line never needs more of them, and the first size that fits is the threshold.
 */
module NoteText {
  import opened Text

  /** Finished lines and the line being filled. */
  datatype Layout = Layout(lines: seq<string>, current: string)

  /** Finish the current line if there is anything on it. */
  function Flush(l: Layout): Layout {
    Layout(if l.current != "" then l.lines + [l.current] else l.lines, "")
  }

  /** One more word: hard-split if it is too long for any line, else on this line or the next. */
  function Place(l: Layout, word: string, width: nat): Layout
    requires width >= 1
    decreases |word|
  {
    if |word| > width then
      Place(Layout(Flush(l).lines + [word[..width]], ""), word[width..], width)
    else if l.current == "" then Layout(l.lines, word)
    else if |l.current| + 1 + |word| <= width then Layout(l.lines, l.current + " " + word)
    else Layout(l.lines + [l.current], word)
  }

  function PlaceAll(l: Layout, words: seq<string>, width: nat): Layout
    requires width >= 1
    decreases |words|
  {
    if words == [] then l
    else Place(PlaceAll(l, words[..|words| - 1], width), words[|words| - 1], width)
  }

  /** The lines so far and those of one more paragraph; a paragraph without words is an empty line. */
  function AddParagraph(lines: seq<string>, words: seq<string>, width: nat): seq<string>
    requires width >= 1
  {
    var l := PlaceAll(Layout(lines, ""), words, width);
    l.lines + [l.current]
  }

  function WrapParagraphs(paragraphs: seq<string>, width: nat): seq<string>
    requires width >= 1
    decreases |paragraphs|
  {
    if paragraphs == [] then []
    else
      var n := |paragraphs| - 1;
      AddParagraph(WrapParagraphs(paragraphs[..n], width), Words(paragraphs[n]), width)
  }

  function LineWidth(maxChars: int): (width: nat)
    ensures width >= 1
  {
    if maxChars < 1 then 1 else maxChars
  }

  /** The lines of a text at a given number of characters to the line. */
  function Wrapped(text: string, maxChars: int): seq<string> {
    WrapParagraphs(Paragraphs(text), LineWidth(maxChars))
  }

  /** One word of the wrap: cut off full lines while it is too long, then place what remains. */
  method PlaceWord(before: seq<string>, line: string, next: string, width: nat)
    returns (lines: seq<string>, current: string)
    requires width >= 1
    ensures Layout(lines, current) == Place(Layout(before, line), next, width)
  {
    lines, current := before, line;
    var word := next;
    while |word| > width
      invariant Place(Layout(lines, current), word, width) == Place(Layout(before, line), next, width)
      decreases |word|
    {
      if current != "" {
        lines := lines + [current];
        current := "";
      }
      lines := lines + [word[..width]];
      word := word[width..];
    }
    if current == "" {
      current := word;
    } else if |current| + 1 + |word| <= width {
      current := current + " " + word;
    } else {
      lines := lines + [current];
      current := word;
    }
  }

  lemma AddsParagraph(paragraphs: seq<string>, p: nat, width: nat)
    requires p < |paragraphs| && width >= 1
    ensures var lines, words := WrapParagraphs(paragraphs[..p], width), Words(paragraphs[p]);
            && WrapParagraphs(paragraphs[..p + 1], width) == AddParagraph(lines, words, width)
            && (words == [] ==> AddParagraph(lines, words, width) == lines + [""])
  {
    assert paragraphs[..p + 1][..p] == paragraphs[..p];
  }

  /** The words of one paragraph, on lines below those already there. */
  method WrapWords(before: seq<string>, words: seq<string>, width: nat) returns (lines: seq<string>)
    requires width >= 1
    ensures lines == AddParagraph(before, words, width)
  {
    lines := before;
    var current := "";
    for k := 0 to |words|
      invariant Layout(lines, current) == PlaceAll(Layout(before, ""), words[..k], width)
    {
      assert words[..k + 1][..k] == words[..k];
      lines, current := PlaceWord(lines, current, words[k], width);
    }
    assert words[..|words|] == words;
    lines := lines + [current];
  }

  /** Greedy word wrap, hard-splitting words too long to fit. */
  method WrapLines(text: string, maxChars: int) returns (lines: seq<string>)
    ensures lines == Wrapped(text, maxChars)
  {
    var width := maxChars;
    if width < 1 { width := 1; }
    lines := [];
    var paragraphs := Paragraphs(text);
    for p := 0 to |paragraphs|
      invariant lines == WrapParagraphs(paragraphs[..p], width)
    {
      AddsParagraph(paragraphs, p, width);
      var words := Words(paragraphs[p]);
      if words == [] {
        lines := lines + [""];
      } else {
        lines := WrapWords(lines, words, width);
      }
    }
    assert paragraphs[..|paragraphs|] == paragraphs;
  }

  // --- nothing is lost and every line fits -------------------------------------

  /** Everything laid out so far, in reading order. */
  function Laid(l: Layout): string {
    Flat(l.lines) + l.current
  }

  lemma LaidLine(lines: seq<string>, line: string, current: string)
    ensures Ink(Laid(Layout(lines + [line], current))) == Ink(Flat(lines)) + Ink(line) + Ink(current)
  {
    FlatConcat(lines, [line]);
    FlatOne(line);
    InkConcat(Flat(lines) + line, current);
    InkConcat(Flat(lines), line);
  }

  lemma FlushKeepsInk(l: Layout)
    ensures Ink(Flat(Flush(l).lines)) == Ink(Laid(l)) == Ink(Flat(l.lines)) + Ink(l.current)
  {
    InkConcat(Flat(l.lines), l.current);
    FlatConcat(l.lines, [l.current]);
    FlatOne(l.current);
  }

  lemma JoinedInk(a: string, b: string)
    ensures Ink(a + " " + b) == Ink(a) + Ink(b)
  {
    InkConcat(a + " ", b);
    InkConcat(a, " ");
    assert Ink(" ") == "" by { assert " "[1..] == ""; }
  }

  lemma SplitOffKeepsInk(l: Layout, head: string, tail: string)
    ensures Ink(Laid(Layout(Flush(l).lines + [head], ""))) + Ink(tail) == Ink(Laid(l)) + Ink(head + tail)
  {
    var a, b, c := Ink(Laid(l)), Ink(head), Ink(tail);
    assert Ink(Laid(Layout(Flush(l).lines + [head], ""))) == a + b by {
      FlushKeepsInk(l);
      LaidLine(Flush(l).lines, head, "");
      assert a + b + Ink("") == a + b;
    }
    assert Ink(head + tail) == b + c by { InkConcat(head, tail); }
    assert (a + b) + c == a + (b + c);
  }

  lemma {:induction false} PlaceKeepsInk(l: Layout, word: string, width: nat)
    requires width >= 1
    ensures Ink(Laid(Place(l, word, width))) == Ink(Laid(l)) + Ink(word)
    decreases |word|
  {
    if |word| > width {
      SplitOffKeepsInk(l, word[..width], word[width..]);
      assert word == word[..width] + word[width..];
      PlaceKeepsInk(Layout(Flush(l).lines + [word[..width]], ""), word[width..], width);
    } else {
      FlushKeepsInk(l);
      if l.current == "" {
        InkConcat(Flat(l.lines), word);
      } else if |l.current| + 1 + |word| <= width {
        JoinedInk(l.current, word);
        InkConcat(Flat(l.lines), l.current + " " + word);
        assert Ink(Flat(l.lines)) + (Ink(l.current) + Ink(word)) == Ink(Laid(l)) + Ink(word);
      } else {
        LaidLine(l.lines, l.current, word);
      }
    }
  }

  lemma {:induction false} PlaceAllKeepsInk(l: Layout, words: seq<string>, width: nat)
    requires width >= 1
    ensures Ink(Laid(PlaceAll(l, words, width))) == Ink(Laid(l)) + Ink(Flat(words))
    decreases |words|
  {
    if words != [] {
      var n := |words| - 1;
      PlaceAllKeepsInk(l, words[..n], width);
      PlaceKeepsInk(PlaceAll(l, words[..n], width), words[n], width);
      InkConcat(Flat(words[..n]), words[n]);
    }
  }

  lemma {:induction false} WrapParagraphsKeepInk(paragraphs: seq<string>, width: nat)
    requires width >= 1
    ensures Ink(Flat(WrapParagraphs(paragraphs, width))) == Ink(Flat(paragraphs))
    decreases |paragraphs|
  {
    if paragraphs != [] {
      var n := |paragraphs| - 1;
      var lines := WrapParagraphs(paragraphs[..n], width);
      var words := Words(paragraphs[n]);
      WrapParagraphsKeepInk(paragraphs[..n], width);
      PlaceAllKeepsInk(Layout(lines, ""), words, width);
      var l := PlaceAll(Layout(lines, ""), words, width);
      LaidLine(l.lines, l.current, "");
      InkConcat(Flat(l.lines), l.current);
      WordsKeepInk(paragraphs[n]);
      InkTwice(paragraphs[n]);
      InkConcat(Flat(paragraphs[..n]), paragraphs[n]);
      assert Laid(Layout(lines, "")) == Flat(lines);
      assert Laid(Layout(l.lines + [l.current], "")) == Flat(l.lines + [l.current]);
    }
  }

  lemma {:induction false} InkTwice(s: string)
    ensures Ink(Ink(s)) == Ink(s)
  {
    if s != "" {
      InkTwice(s[1..]);
      if !IsSpace(s[0]) { assert Ink(s)[1..] == Ink(s[1..]); }
    }
  }

  /** Wrapping keeps every character that is not white space, in order. */
  lemma WrapKeepsInk(text: string, maxChars: int)
    ensures Ink(Flat(Wrapped(text, maxChars))) == Ink(text)
  {
    WrapParagraphsKeepInk(Paragraphs(text), LineWidth(maxChars));
    ParagraphsKeepInk(text);
  }

  ghost predicate Narrow(l: Layout, width: nat) {
    (forall line :: line in l.lines ==> |line| <= width) && |l.current| <= width
  }

  lemma {:induction false} PlaceStaysNarrow(l: Layout, word: string, width: nat)
    requires width >= 1 && Narrow(l, width)
    ensures Narrow(Place(l, word, width), width)
    decreases |word|
  {
    if |word| > width {
      PlaceStaysNarrow(Layout(Flush(l).lines + [word[..width]], ""), word[width..], width);
    }
  }

  lemma {:induction false} PlaceAllStaysNarrow(l: Layout, words: seq<string>, width: nat)
    requires width >= 1 && Narrow(l, width)
    ensures Narrow(PlaceAll(l, words, width), width)
    decreases |words|
  {
    if words != [] {
      var n := |words| - 1;
      PlaceAllStaysNarrow(l, words[..n], width);
      PlaceStaysNarrow(PlaceAll(l, words[..n], width), words[n], width);
    }
  }

  lemma {:induction false} LinesFitWidth(paragraphs: seq<string>, width: nat)
    requires width >= 1
    ensures forall line :: line in WrapParagraphs(paragraphs, width) ==> |line| <= width
    decreases |paragraphs|
  {
    if paragraphs != [] {
      var n := |paragraphs| - 1;
      LinesFitWidth(paragraphs[..n], width);
      PlaceAllStaysNarrow(Layout(WrapParagraphs(paragraphs[..n], width), ""), Words(paragraphs[n]), width);
    }
  }

  // --- wider lines, fewer lines ------------------------------------------------

  /** Layout a is at most as far down the page as layout b. */
  predicate NoFurther(a: Layout, b: Layout) {
    |a.lines| < |b.lines| || (|a.lines| == |b.lines| && |a.current| <= |b.current|)
  }

  lemma {:induction false} PlaceAdvances(l: Layout, word: string, width: nat)
    requires width >= 1
    ensures |Place(l, word, width).lines| >= |l.lines|
    ensures |word| > width ==> |Place(l, word, width).lines| >= |Flush(l).lines| + 1
    decreases |word|
  {
    if |word| > width {
      PlaceAdvances(Layout(Flush(l).lines + [word[..width]], ""), word[width..], width);
    }
  }

  /** From the start of a line, a shorter remainder on wider lines ends no further down. */
  lemma {:induction false} RemainderNoFurther(a: Layout, u: string, wide: nat, b: Layout, v: string, narrow: nat)
    requires wide >= narrow >= 1 && |u| <= |v|
    requires a.current == b.current == "" && |a.lines| <= |b.lines|
    ensures NoFurther(Place(a, u, wide), Place(b, v, narrow))
    decreases |v|
  {
    if |v| > narrow {
      var b' := Layout(b.lines + [v[..narrow]], "");
      if |u| > wide {
        RemainderNoFurther(Layout(a.lines + [u[..wide]], ""), u[wide..], wide, b', v[narrow..], narrow);
      } else {
        PlaceAdvances(b, v, narrow);
      }
    }
  }

  /** Placing the same word keeps the wider layout no further down. */
  lemma PlaceNoFurther(a: Layout, b: Layout, word: string, wide: nat, narrow: nat)
    requires wide >= narrow >= 1 && NoFurther(a, b)
    ensures NoFurther(Place(a, word, wide), Place(b, word, narrow))
  {
    if |word| > narrow {
      PlaceAdvances(b, word, narrow);
      if |word| > wide {
        RemainderNoFurther(Flush(a), word, wide, Flush(b), word, narrow);
      }
    }
  }

  lemma {:induction false} PlaceAllNoFurther(a: Layout, b: Layout, words: seq<string>, wide: nat, narrow: nat)
    requires wide >= narrow >= 1 && NoFurther(a, b)
    ensures NoFurther(PlaceAll(a, words, wide), PlaceAll(b, words, narrow))
    decreases |words|
  {
    if words != [] {
      var n := |words| - 1;
      PlaceAllNoFurther(a, b, words[..n], wide, narrow);
      PlaceNoFurther(PlaceAll(a, words[..n], wide), PlaceAll(b, words[..n], narrow), words[n], wide, narrow);
    }
  }

  lemma {:induction false} WrapParagraphsNoMore(paragraphs: seq<string>, wide: nat, narrow: nat)
    requires wide >= narrow >= 1
    ensures |WrapParagraphs(paragraphs, wide)| <= |WrapParagraphs(paragraphs, narrow)|
    decreases |paragraphs|
  {
    if paragraphs != [] {
      var n := |paragraphs| - 1;
      WrapParagraphsNoMore(paragraphs[..n], wide, narrow);
      PlaceAllNoFurther(Layout(WrapParagraphs(paragraphs[..n], wide), ""),
                        Layout(WrapParagraphs(paragraphs[..n], narrow), ""), Words(paragraphs[n]), wide, narrow);
    }
  }

  /** More characters to the line never need more lines, words that must be split included. */
  lemma WiderNeedsNoMoreLines(text: string, maxChars: int, moreChars: int)
    requires maxChars <= moreChars
    ensures |Wrapped(text, moreChars)| <= |Wrapped(text, maxChars)|
  {
    WrapParagraphsNoMore(Paragraphs(text), LineWidth(moreChars), LineWidth(maxChars));
  }

  // --- greedy is optimal -------------------------------------------------------

  /** The words of one line, one space apart. */
  function Join(words: seq<string>): string
    decreases |words|
  {
    if words == [] then ""
    else if |words| == 1 then words[0]
    else Join(words[..|words| - 1]) + " " + words[|words| - 1]
  }

  function FlatWords(groups: seq<seq<string>>): seq<string> {
    if groups == [] then [] else FlatWords(groups[..|groups| - 1]) + groups[|groups| - 1]
  }

  /** An in-order split of words into lines of at most the given width. */
  ghost predicate IsSplit(groups: seq<seq<string>>, words: seq<string>, width: nat) {
    && FlatWords(groups) == words
    && forall i :: 0 <= i < |groups| ==> groups[i] != [] && |Join(groups[i])| <= width
  }

  ghost predicate Proper(words: seq<string>, width: nat) {
    forall i :: 0 <= i < |words| ==> 1 <= |words[i]| <= width
  }

  /** A split of all words but the last. */
  ghost function DropLast(groups: seq<seq<string>>): seq<seq<string>>
    requires groups != [] && groups[|groups| - 1] != []
  {
    var n := |groups| - 1;
    var k := |groups[n]| - 1;
    if k == 0 then groups[..n] else groups[..n] + [groups[n][..k]]
  }

  lemma DropLastIsSplit(groups: seq<seq<string>>, words: seq<string>, width: nat)
    requires IsSplit(groups, words, width) && groups != []
    ensures words != [] && IsSplit(DropLast(groups), words[..|words| - 1], width)
    ensures words[|words| - 1] == groups[|groups| - 1][|groups[|groups| - 1]| - 1]
  {
    var n := |groups| - 1;
    var k := |groups[n]| - 1;
    var rest := DropLast(groups);
    assert words == FlatWords(groups[..n]) + groups[n];
    assert words[..|words| - 1] == FlatWords(groups[..n]) + groups[n][..k];
    if k == 0 {
      assert groups[n][..k] == [];
    } else {
      assert rest[..n] == groups[..n] && rest[n] == groups[n][..k];
      assert |Join(groups[n])| == |Join(groups[n][..k])| + 1 + |groups[n][k]|;
    }
  }

  /** At most `line` finished lines and then at most `column` characters on the next. */
  predicate Within(l: Layout, line: nat, column: nat) {
    |l.lines| < line || (|l.lines| == line && |l.current| <= column)
  }

  lemma PlaceWithin(l: Layout, word: string, width: nat, line: nat, column: nat)
    requires 1 <= |word| <= width && Within(l, line, column)
    ensures Within(Place(l, word, width), line + 1, |word|)
    ensures column + 1 + |word| <= width ==> Within(Place(l, word, width), line, column + 1 + |word|)
  {
  }

  /** Greedy placement is never further down than any other split of the same words. */
  lemma {:induction false} GreedyNoFurther(l: Layout, words: seq<string>, groups: seq<seq<string>>, width: nat)
    requires width >= 1 && l.current == ""
    requires Proper(words, width) && IsSplit(groups, words, width) && groups != []
    ensures var n := |groups| - 1;
            Within(PlaceAll(l, words, width), |l.lines| + n, |Join(groups[n])|)
    decreases |words|
  {
    var n := |groups| - 1;
    var k := |groups[n]| - 1;
    DropLastIsSplit(groups, words, width);
    var m := |words| - 1;
    var rest := DropLast(groups);
    if rest == [] {
      assert FlatWords(rest) == [] && words[..m] == [];
      assert PlaceAll(l, words[..m], width) == l;
      assert Join(groups[n]) == words[m];
    } else {
      GreedyNoFurther(l, words[..m], rest, width);
      var before := PlaceAll(l, words[..m], width);
      if k != 0 {
        assert Join(groups[n]) == Join(rest[n]) + " " + words[m];
        PlaceWithin(before, words[m], width, |l.lines| + n, |Join(rest[n])|);
      } else {
        assert Join(groups[n]) == words[m];
        PlaceWithin(before, words[m], width, |l.lines| + n - 1, |Join(rest[n - 1])|);
      }
    }
  }

  /** When no word is too long for a line, no in-order split of a paragraph's words into
      lines of that width has fewer lines than the greedy wrap. */
  lemma GreedyUsesFewestLines(words: seq<string>, groups: seq<seq<string>>, width: nat)
    requires width >= 1 && words != []
    requires Proper(words, width) && IsSplit(groups, words, width)
    ensures |AddParagraph([], words, width)| <= |groups|
  {
    GreedyNoFurther(Layout([], ""), words, groups, width);
  }

  /** The lines a split of words makes. */
  function Joined(groups: seq<seq<string>>): seq<string> {
    if groups == [] then [] else Joined(groups[..|groups| - 1]) + [Join(groups[|groups| - 1])]
  }

  lemma SameEnds(a: seq<string>, x: string, b: seq<string>, y: string)
    requires a + [x] == b + [y]
    ensures a == b && x == y
  {
    assert |a| == |b| && (a + [x])[|a|] == x && (b + [y])[|b|] == y;
    assert (a + [x])[..|a|] == a && (b + [y])[..|b|] == b;
  }

  /** One more word on the last line of a split, or on a line of its own. */
  lemma SplitExtends(gs: seq<seq<string>>, words: seq<string>, word: string, width: nat)
    requires IsSplit(gs, words, width) && gs != [] && |word| <= width
    ensures IsSplit(gs + [[word]], words + [word], width)
    ensures Joined(gs + [[word]]) == Joined(gs) + [word]
    ensures var n := |gs| - 1;
            |Join(gs[n])| + 1 + |word| <= width ==>
              var wider := gs[..n] + [gs[n] + [word]];
              IsSplit(wider, words + [word], width)
              && Joined(wider) == Joined(gs[..n]) + [Join(gs[n]) + " " + word]
  {
    var n := |gs| - 1;
    assert (gs + [[word]])[..n + 1] == gs;
    var wider := gs[..n] + [gs[n] + [word]];
    assert wider[..n] == gs[..n] && (gs[n] + [word])[..|gs[n]|] == gs[n];
    assert FlatWords(wider) == FlatWords(gs[..n]) + (gs[n] + [word]) == FlatWords(gs) + [word];
  }

  /** No line has room for the first word of the next one. */
  ghost predicate Eager(groups: seq<seq<string>>, width: nat) {
    forall i :: 0 < i < |groups| ==> groups[i] != [] && |Join(groups[i - 1])| + 1 + |groups[i][0]| > width
  }

  /** The greedy wrap is itself such a split, so it attains the minimum, and it starts a new line
      only for a word that the line before has no room for. */
  lemma {:induction false} GreedyIsASplit(words: seq<string>, width: nat) returns (groups: seq<seq<string>>)
    requires width >= 1 && words != [] && Proper(words, width)
    ensures groups != [] && IsSplit(groups, words, width) && Eager(groups, width)
    ensures AddParagraph([], words, width) == Joined(groups)
    decreases |words|
  {
    var m := |words| - 1;
    var word := words[m];
    var start := Layout([], "");
    if m == 0 {
      groups := [words];
      assert groups[..0] == [] && words[..0] == [];
      assert FlatWords(groups) == [] + words == words;
      assert PlaceAll(start, words, width) == Layout([], word);
      assert Joined(groups) == [] + [word];
    } else {
      var gs := GreedyIsASplit(words[..m], width);
      var n := |gs| - 1;
      var l := PlaceAll(start, words[..m], width);
      PlacedInk(words[..m], width);
      SameEnds(l.lines, l.current, Joined(gs[..n]), Join(gs[n]));
      SplitExtends(gs, words[..m], word, width);
      EagerExtends(gs, word, width);
      assert words == words[..m] + [word];
      if |l.current| + 1 + |word| <= width {
        groups := gs[..n] + [gs[n] + [word]];
        assert PlaceAll(start, words, width) == Layout(l.lines, l.current + " " + word);
      } else {
        groups := gs + [[word]];
        assert PlaceAll(start, words, width) == Layout(l.lines + [l.current], word);
      }
    }
  }

  lemma EagerExtends(gs: seq<seq<string>>, word: string, width: nat)
    requires gs != [] && Eager(gs, width) && forall i :: 0 <= i < |gs| ==> gs[i] != []
    ensures var n := |gs| - 1;
            && Eager(gs[..n] + [gs[n] + [word]], width)
            && (|Join(gs[n])| + 1 + |word| > width ==> Eager(gs + [[word]], width))
  {
    var n := |gs| - 1;
    var wider := gs[..n] + [gs[n] + [word]];
    forall i | 0 < i < |wider|
      ensures wider[i] != [] && |Join(wider[i - 1])| + 1 + |wider[i][0]| > width
    {
      assert wider[i - 1] == gs[i - 1] && wider[i][0] == gs[i][0];
    }
  }

  /** After at least one word the current line is not empty. */
  lemma PlacedInk(words: seq<string>, width: nat)
    requires width >= 1 && words != [] && Proper(words, width)
    ensures PlaceAll(Layout([], ""), words, width).current != ""
  {
  }

  // --- fitting the font --------------------------------------------------------

  const CHAR_ASPECT := 0.5
  const LINE_SPACING := 1.15
  const FONT_MAX := 17.0
  const FONT_MIN := 7.0

  /** Room inside the padding, never less than one unit. */
  function Inner(box: real, pad: real): (inner: real)
    ensures inner >= 1.0
    ensures pad + inner + pad == box || (inner == 1.0 && pad + inner + pad > box)
  {
    if box - 2.0 * pad < 1.0 then 1.0 else box - 2.0 * pad
  }

  function CharsAt(innerW: real, size: real): int
    requires size > 0.0
  {
    (innerW / (size * CHAR_ASPECT)).Floor
  }

  /** The lines of a text set at a font size. */
  function LinesAt(text: string, innerW: real, size: real): seq<string>
    requires size > 0.0
  {
    Wrapped(text, CharsAt(innerW, size))
  }

  /** The height of n lines, one below the other. */
  function Height(n: nat, size: real): real {
    if n == 0 then 0.0 else Height(n - 1, size) + size * LINE_SPACING
  }

  lemma {:induction false} HeightIsProduct(n: nat, size: real)
    ensures Height(n, size) == n as real * size * LINE_SPACING
  {
    if n > 0 { HeightIsProduct(n - 1, size); }
  }

  lemma {:induction false} HeightMonotone(n: nat, m: nat, small: real, large: real)
    requires n <= m && 0.0 <= small <= large
    ensures Height(n, small) <= Height(m, large)
    decreases m
  {
    if n > 0 { HeightMonotone(n - 1, m - 1, small, large); }
    else if m > 0 { HeightMonotone(0, m - 1, small, large); }
  }

  predicate Fits(text: string, innerW: real, innerH: real, size: real)
    requires size > 0.0
  {
    Height(|LinesAt(text, innerW, size)|, size) <= innerH
  }

  lemma SmallerFontMoreChars(innerW: real, small: real, large: real)
    requires innerW >= 1.0 && 0.0 < small <= large
    ensures CharsAt(innerW, small) >= CharsAt(innerW, large)
  {
    var a, b := small * CHAR_ASPECT, large * CHAR_ASPECT;
    assert innerW / a >= innerW / b by { QuotientAntitone(innerW, a, b); }
  }

  lemma QuotientAntitone(w: real, a: real, b: real)
    requires w >= 0.0 && 0.0 < a <= b
    ensures w / a >= w / b
  {
    var q := w / b;
    assert q >= 0.0 && q * b == w;
    assert q * a <= q * b;
    assert w / a >= q by { assert w - q * a >= 0.0; assert (w - q * a) / a >= 0.0; assert (w - q * a) / a == w / a - q; }
  }

  /** If a text fits at one size it fits at every smaller one. */
  lemma FitsIsDownwardClosed(text: string, innerW: real, innerH: real, small: real, large: real)
    requires innerW >= 1.0 && 0.0 < small <= large
    requires Fits(text, innerW, innerH, large)
    ensures Fits(text, innerW, innerH, small)
  {
    SmallerFontMoreChars(innerW, small, large);
    WiderNeedsNoMoreLines(text, CharsAt(innerW, large), CharsAt(innerW, small));
    HeightMonotone(|LinesAt(text, innerW, small)|, |LinesAt(text, innerW, large)|, small, large);
  }

  const SIZES: nat := 11

  /** The candidate sizes, from FONT_MAX down to FONT_MIN in whole steps. */
  function SizeAt(k: nat): real
  {
    FONT_MAX - k as real
  }

  /** How many lines of the smallest size are drawn when nothing fits. */
  function Room(innerH: real): (room: nat)
    requires innerH >= 1.0
    ensures room >= 1
  {
    var r := (innerH / (FONT_MIN * LINE_SPACING)).Floor;
    if r < 1 then 1 else r
  }

  /** The candidate SizeAt(k) is the threshold: every larger size fails and no smaller one does. */
  ghost predicate Threshold(text: string, innerW: real, innerH: real, k: nat) {
    && k < SIZES
    && (forall j :: 0 <= j < k ==> !Fits(text, innerW, innerH, SizeAt(j)))
    && (k > 0 ==> forall s :: s >= SizeAt(k - 1) ==> !Fits(text, innerW, innerH, s))
    && (forall s :: 0.0 < s <= SizeAt(k) ==> Fits(text, innerW, innerH, s))
  }

  /** The largest candidate at which the text fits, with its lines; or the smallest, cut off. */
  ghost predicate BestFit(text: string, innerW: real, innerH: real, size: real, lines: seq<string>)
    requires innerH >= 1.0
  {
    || (exists k: nat :: k < SIZES && size == SizeAt(k) && Threshold(text, innerW, innerH, k) && lines == LinesAt(text, innerW, size))
    || ((forall s :: s >= FONT_MIN ==> !Fits(text, innerW, innerH, s))
        && size == FONT_MIN && lines == CutOff(text, innerW, innerH))
  }

  /** Where a scan down the candidates stops is the threshold. */
  lemma FirstHitIsThreshold(text: string, innerW: real, innerH: real, k: nat)
    requires innerW >= 1.0 && k < SIZES && Fits(text, innerW, innerH, SizeAt(k))
    requires forall j :: 0 <= j < k ==> !Fits(text, innerW, innerH, SizeAt(j))
    ensures Threshold(text, innerW, innerH, k)
  {
    forall s | 0.0 < s <= SizeAt(k) ensures Fits(text, innerW, innerH, s) {
      FitsIsDownwardClosed(text, innerW, innerH, s, SizeAt(k));
    }
    if k > 0 { NothingLargerFits(text, innerW, innerH, SizeAt(k - 1)); }
  }

  lemma NothingLargerFits(text: string, innerW: real, innerH: real, size: real)
    requires innerW >= 1.0 && size > 0.0 && !Fits(text, innerW, innerH, size)
    ensures forall s :: s >= size ==> !Fits(text, innerW, innerH, s)
  {
    forall s | s >= size && Fits(text, innerW, innerH, s) ensures false {
      FitsIsDownwardClosed(text, innerW, innerH, size, s);
    }
  }

  lemma HitIsBestFit(text: string, innerW: real, innerH: real, k: nat)
    requires innerW >= 1.0 && innerH >= 1.0 && k < SIZES && Fits(text, innerW, innerH, SizeAt(k))
    requires forall j :: 0 <= j < k ==> !Fits(text, innerW, innerH, SizeAt(j))
    ensures BestFit(text, innerW, innerH, SizeAt(k), LinesAt(text, innerW, SizeAt(k)))
  {
    FirstHitIsThreshold(text, innerW, innerH, k);
  }

  /** The lines drawn at the smallest size when nothing fits. */
  function CutOff(text: string, innerW: real, innerH: real): seq<string>
    requires innerH >= 1.0
  {
    var all := LinesAt(text, innerW, FONT_MIN);
    if Room(innerH) <= |all| then all[..Room(innerH)] else all
  }

  lemma MissIsBestFit(text: string, innerW: real, innerH: real)
    requires innerW >= 1.0 && innerH >= 1.0 && !Fits(text, innerW, innerH, FONT_MIN)
    ensures BestFit(text, innerW, innerH, FONT_MIN, CutOff(text, innerW, innerH))
  {
    NothingLargerFits(text, innerW, innerH, FONT_MIN);
  }

  /** The lines of a text at one candidate size, and whether they fit. */
  method TrySize(text: string, innerW: real, innerH: real, size: real) returns (fits: bool, lines: seq<string>)
    requires size > 0.0
    ensures lines == LinesAt(text, innerW, size) && fits == Fits(text, innerW, innerH, size)
  {
    lines := WrapLines(text, CharsAt(innerW, size));
    HeightIsProduct(|lines|, size);
    fits := |lines| as real * size * LINE_SPACING <= innerH;
  }

  /** Largest font size at which the text wraps inside the box, and its lines. */
  method FitText(text: string, boxW: real, boxH: real, pad: real) returns (size: real, lines: seq<string>)
    ensures Blank(text) ==> size == FONT_MAX && lines == []
    ensures !Blank(text) ==> BestFit(text, Inner(boxW, pad), Inner(boxH, pad), size, lines)
  {
    var innerW := Inner(boxW, pad);
    var innerH := Inner(boxH, pad);
    if Strip(text) == "" { return FONT_MAX, []; }
    size := FONT_MAX;
    ghost var k: nat := 0;
    while size >= FONT_MIN
      invariant k <= SIZES && size == SizeAt(k)
      invariant forall j :: 0 <= j < k ==> !Fits(text, innerW, innerH, SizeAt(j))
      decreases SIZES - k
    {
      var fits;
      fits, lines := TrySize(text, innerW, innerH, size);
      if fits {
        HitIsBestFit(text, innerW, innerH, k);
        return;
      }
      size := size - 1.0;
      k := k + 1;
    }
    assert SizeAt(10) == FONT_MIN;
    MissIsBestFit(text, innerW, innerH);
    size := FONT_MIN;
    lines := WrapLines(text, CharsAt(innerW, size));
    var room := Room(innerH);
    lines := if room <= |lines| then lines[..room] else lines;
  }

  lemma NeverNoLines(text: string, maxChars: int)
    ensures |Wrapped(text, maxChars)| >= 1
  {
    var ps := Paragraphs(text);
    var width, last := LineWidth(maxChars), |ps| - 1;
    assert Wrapped(text, maxChars) == AddParagraph(WrapParagraphs(ps[..last], width), Words(ps[last]), width);
  }

  lemma CutOffFits(text: string, innerW: real, innerH: real)
    requires innerH >= FONT_MIN * LINE_SPACING
    ensures Height(|CutOff(text, innerW, innerH)|, FONT_MIN) <= innerH
  {
    RoomFits(innerH);
    HeightIsProduct(Room(innerH), FONT_MIN);
    HeightMonotone(|CutOff(text, innerW, innerH)|, Room(innerH), FONT_MIN, FONT_MIN);
  }

  lemma LinesNeedHeight(n: nat, size: real)
    requires n >= 1 && size >= FONT_MIN
    ensures Height(n, size) >= FONT_MIN * LINE_SPACING
  {
    HeightIsProduct(1, FONT_MIN);
    HeightMonotone(1, n, FONT_MIN, size);
  }

  /** What is drawn stays inside the note exactly when the note has room for one smallest line;
      in a lower note the one line that is always drawn runs past the edge. */
  lemma DrawnInsideIff(text: string, innerW: real, innerH: real, size: real, lines: seq<string>)
    requires innerW >= 1.0 && innerH >= 1.0 && BestFit(text, innerW, innerH, size, lines)
    ensures Height(|lines|, size) <= innerH <==> innerH >= FONT_MIN * LINE_SPACING
  {
    NeverNoLines(text, CharsAt(innerW, size));
    LinesNeedHeight(|lines|, size);
    if innerH >= FONT_MIN * LINE_SPACING {
      CutOffFits(text, innerW, innerH);
      assert Height(|lines|, size) <= innerH by {
        if lines != CutOff(text, innerW, innerH) || size != FONT_MIN {
          assert Fits(text, innerW, innerH, size);
        }
      }
    }
  }

  lemma RoomFits(innerH: real)
    requires innerH >= FONT_MIN * LINE_SPACING
    ensures Room(innerH) as real * FONT_MIN * LINE_SPACING <= innerH
  {
    var unit := FONT_MIN * LINE_SPACING;
    var q := innerH / unit;
    assert q * unit == innerH && q >= 1.0;
    assert Room(innerH) as real <= q;
  }

  lemma ProductMonotone(n: real, m: real, unit: real)
    requires n <= m && 0.0 <= unit
    ensures n * unit <= m * unit
  {
    assert (m - n) * unit >= 0.0;
  }

  lemma {:induction false} FlatOfEmpties(lines: seq<string>)
    requires forall i :: 0 <= i < |lines| ==> lines[i] == ""
    ensures Flat(lines) == ""
  {
    if lines != [] { FlatOfEmpties(lines[..|lines| - 1]); }
  }

  /** The width of n characters at a font size. */
  function WidthOf(n: nat, size: real): real {
    n as real * (size * CHAR_ASPECT)
  }

  lemma LineInsideWidth(innerW: real, size: real, n: nat)
    requires innerW >= 1.0 && size > 0.0 && n <= LineWidth(CharsAt(innerW, size))
    ensures size * CHAR_ASPECT <= innerW ==> WidthOf(n, size) <= innerW
    ensures size * CHAR_ASPECT > innerW && n >= 1 ==> WidthOf(n, size) > innerW
  {
    var unit := size * CHAR_ASPECT;
    var q := innerW / unit;
    assert q * unit == innerW;
    if unit <= innerW {
      assert q >= 1.0;
      ProductMonotone(n as real, q, unit);
    } else if n >= 1 {
      ProductMonotone(1.0, n as real, unit);
    }
  }

  /** The lines of a text with ink stay inside the note's width exactly when one character does. */
  lemma LinesInsideWidthIff(text: string, innerW: real, size: real)
    requires innerW >= 1.0 && size > 0.0 && Ink(text) != ""
    ensures (forall i :: 0 <= i < |LinesAt(text, innerW, size)| ==> WidthOf(|LinesAt(text, innerW, size)[i]|, size) <= innerW)
              <==> size * CHAR_ASPECT <= innerW
  {
    var lines := LinesAt(text, innerW, size);
    LinesFitWidth(Paragraphs(text), LineWidth(CharsAt(innerW, size)));
    WrapKeepsInk(text, CharsAt(innerW, size));
    assert exists i :: 0 <= i < |lines| && |lines[i]| >= 1 by {
      if forall i :: 0 <= i < |lines| ==> lines[i] == "" { FlatOfEmpties(lines); }
    }
    forall i | 0 <= i < |lines|
      ensures size * CHAR_ASPECT <= innerW ==> WidthOf(|lines[i]|, size) <= innerW
      ensures size * CHAR_ASPECT > innerW && |lines[i]| >= 1 ==> WidthOf(|lines[i]|, size) > innerW
    {
      assert lines[i] in lines;
      LineInsideWidth(innerW, size, |lines[i]|);
    }
  }

  /** Every line that is drawn stays inside the note's width exactly when one character does, or when
      nothing but empty lines is drawn, as the cut can leave it. */
  lemma DrawnWithinWidthIff(text: string, innerW: real, innerH: real, size: real, lines: seq<string>)
    requires innerW >= 1.0 && innerH >= 1.0 && BestFit(text, innerW, innerH, size, lines)
    ensures (forall line :: line in lines ==> WidthOf(|line|, size) <= innerW)
              <==> size * CHAR_ASPECT <= innerW || forall line :: line in lines ==> line == ""
  {
    LinesFitWidth(Paragraphs(text), LineWidth(CharsAt(innerW, size)));
    forall line | line in lines
      ensures size * CHAR_ASPECT <= innerW ==> WidthOf(|line|, size) <= innerW
      ensures size * CHAR_ASPECT > innerW && line != "" ==> WidthOf(|line|, size) > innerW
    {
      assert line in LinesAt(text, innerW, size);
      LineInsideWidth(innerW, size, |line|);
    }
    assert WidthOf(0, size) == 0.0;
  }
}
