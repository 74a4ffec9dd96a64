/**
  Characters and strings as the nodes use them: Unicode white space, trimming, and splitting
  into paragraphs and words.
 */
module Text {

  /** White space as str.isspace, str.strip, str.split and the \s of a pattern see it. */
  predicate IsSpace(c: char) {
    var n := c as int;
    || 0x09 <= n <= 0x0D || 0x1C <= n <= 0x20 || n == 0x85 || n == 0xA0 || n == 0x1680
    || 0x2000 <= n <= 0x200A || n == 0x2028 || n == 0x2029 || n == 0x202F || n == 0x205F || n == 0x3000
  }

  /** The characters of s that are not white space, in order. */
  function Ink(s: string): string {
    if s == "" then ""
    else if IsSpace(s[0]) then Ink(s[1..])
    else [s[0]] + Ink(s[1..])
  }

  lemma {:induction false} InkConcat(a: string, b: string)
    ensures Ink(a + b) == Ink(a) + Ink(b)
    decreases |a|
  {
    if a == "" {
      assert a + b == b;
    } else {
      assert (a + b)[1..] == a[1..] + b;
      InkConcat(a[1..], b);
    }
  }

  /** s without its leading white space. */
  function StripLeft(s: string): (r: string)
    ensures r != "" ==> !IsSpace(r[0])
  {
    if s != "" && IsSpace(s[0]) then StripLeft(s[1..]) else s
  }

  /** s without its trailing white space. */
  function StripRight(s: string): (r: string)
    ensures r <= s
    ensures r != "" ==> !IsSpace(r[|r| - 1])
  {
    if s != "" && IsSpace(s[|s| - 1]) then StripRight(s[..|s| - 1]) else s
  }

  function Strip(s: string): string {
    StripRight(StripLeft(s))
  }

  /** A text is blank when it has no ink. */
  predicate Blank(s: string) {
    Strip(s) == ""
  }

  lemma {:induction false} InkStripLeft(s: string)
    ensures Ink(StripLeft(s)) == Ink(s)
  {
    if s != "" && IsSpace(s[0]) { InkStripLeft(s[1..]); }
  }

  lemma {:induction false} InkStripRight(s: string)
    ensures Ink(StripRight(s)) == Ink(s)
    decreases |s|
  {
    if s != "" && IsSpace(s[|s| - 1]) {
      var n := |s| - 1;
      InkStripRight(s[..n]);
      InkConcat(s[..n], [s[n]]);
      assert s == s[..n] + [s[n]] && [s[n]][1..] == "";
    }
  }

  /** Trimming removes white space only, and leaves text that begins and ends in ink. */
  lemma StripMeaning(s: string)
    ensures Ink(Strip(s)) == Ink(s)
    ensures Blank(s) <==> Ink(s) == ""
    ensures !Blank(s) ==> !IsSpace(Strip(s)[0]) && !IsSpace(Strip(s)[|Strip(s)| - 1])
  {
    InkStripLeft(s);
    InkStripRight(StripLeft(s));
  }

  predicate AllSpace(s: string) {
    forall i :: 0 <= i < |s| ==> IsSpace(s[i])
  }

  predicate AllInk(s: string) {
    forall i :: 0 <= i < |s| ==> !IsSpace(s[i])
  }

  lemma {:induction false} StripLeftIsEnd(s: string)
    ensures var n := |s| - |StripLeft(s)|;
            0 <= n <= |s| && s[n..] == StripLeft(s) && AllSpace(s[..n])
  {
    if s != "" && IsSpace(s[0]) {
      StripLeftIsEnd(s[1..]);
      var n := |s| - |StripLeft(s)|;
      assert forall i :: 0 < i < n ==> s[i] == s[1..][..n - 1][i - 1];
    }
  }

  lemma {:induction false} StripRightIsStart(s: string)
    ensures StripRight(s) == s[..|StripRight(s)|] && AllSpace(s[|StripRight(s)|..])
    decreases |s|
  {
    if s != "" && IsSpace(s[|s| - 1]) { StripRightIsStart(s[..|s| - 1]); }
  }

  /** Trimming takes white space off both ends and leaves what stands between untouched. */
  lemma StripIsMiddle(s: string) returns (a: string, b: string)
    ensures s == a + Strip(s) + b && AllSpace(a) && AllSpace(b)
  {
    var t := StripLeft(s);
    StripLeftIsEnd(s);
    StripRightIsStart(t);
    a, b := s[..|s| - |t|], t[|Strip(s)|..];
    assert s == a + t && t == Strip(s) + b;
  }

  /** All the strings one after another. */
  function Flat(ss: seq<string>): string {
    if ss == [] then "" else Flat(ss[..|ss| - 1]) + ss[|ss| - 1]
  }

  lemma FlatOne(s: string)
    ensures Flat([s]) == s
  {
    assert [s][..0] == [] && "" + s == s;
  }

  lemma {:induction false} FlatConcat(a: seq<string>, b: seq<string>)
    ensures Flat(a + b) == Flat(a) + Flat(b)
    decreases |b|
  {
    if b == [] {
      assert a + b == a;
    } else {
      var n := |b| - 1;
      var c := a + b;
      assert c[..|c| - 1] == a + b[..n] && c[|c| - 1] == b[n];
      FlatConcat(a, b[..n]);
      assert (Flat(a) + Flat(b[..n])) + b[n] == Flat(a) + (Flat(b[..n]) + b[n]);
    }
  }

  /** A text made of parts, with something before, between and after them. */
  function Weave(gaps: seq<string>, parts: seq<string>): string
    requires |gaps| == |parts| + 1
  {
    if parts == [] then gaps[0] else gaps[0] + parts[0] + Weave(gaps[1..], parts[1..])
  }

  /** Where the first line break stands, or the length of the text. */
  function LineBreak(s: string): (n: nat)
    ensures n <= |s| && (n < |s| ==> s[n] == '\n') && forall i :: 0 <= i < n ==> s[i] != '\n'
  {
    if s == "" || s[0] == '\n' then 0 else 1 + LineBreak(s[1..])
  }

  /** The paragraphs of a text: what stands between its line breaks. */
  function Paragraphs(s: string): (ps: seq<string>)
    ensures |ps| > 0
    decreases |s|
  {
    var n := LineBreak(s);
    if n == |s| then [s] else [s[..n]] + Paragraphs(s[n + 1..])
  }

  /** Lines with a line break between any two of them. */
  function Unlines(lines: seq<string>): string
    requires lines != []
  {
    if |lines| == 1 then lines[0] else lines[0] + "\n" + Unlines(lines[1..])
  }

  /** Paragraphs hold no line break, and line breaks between them give the text back. */
  lemma {:induction false} ParagraphsMakeText(s: string)
    ensures Unlines(Paragraphs(s)) == s
    ensures forall p :: p in Paragraphs(s) ==> '\n' !in p
    decreases |s|
  {
    var n := LineBreak(s);
    if n < |s| {
      ParagraphsMakeText(s[n + 1..]);
      assert Paragraphs(s)[1..] == Paragraphs(s[n + 1..]);
      assert s == s[..n] + "\n" + s[n + 1..];
    }
  }

  lemma LineBreakAfter(line: string, rest: string)
    requires '\n' !in line
    ensures LineBreak(line) == |line|
    ensures LineBreak(line + "\n" + rest) == |line|
  {
    var s := line + "\n" + rest;
    assert s[|line|] == '\n' && forall i :: 0 <= i < |line| ==> s[i] == line[i];
  }

  /** The paragraphs of a text are the only lines without line breaks that make it up. */
  lemma {:induction false} ParagraphsIff(s: string, lines: seq<string>)
    ensures lines == Paragraphs(s) <==>
            lines != [] && Unlines(lines) == s && forall p :: p in lines ==> '\n' !in p
    decreases |s|
  {
    ParagraphsMakeText(s);
    if lines != [] && Unlines(lines) == s && forall p :: p in lines ==> '\n' !in p {
      var line := lines[0];
      if |lines| == 1 {
        LineBreakAfter(line, "");
      } else {
        var rest := Unlines(lines[1..]);
        LineBreakAfter(line, rest);
        assert s[..|line|] == line && s[|line| + 1..] == rest;
        ParagraphsIff(rest, lines[1..]);
        assert lines == [line] + lines[1..];
      }
    }
  }

  /** The length of the word s begins with. */
  function WordEnd(s: string): (n: nat)
    ensures n <= |s| && (forall i :: 0 <= i < n ==> !IsSpace(s[i])) && (n < |s| ==> IsSpace(s[n]))
  {
    if s == "" || IsSpace(s[0]) then 0 else 1 + WordEnd(s[1..])
  }

  /** The words of a paragraph: its maximal runs of ink. */
  function Words(s: string): seq<string>
    decreases |s|
  {
    if s == "" then []
    else if IsSpace(s[0]) then Words(s[1..])
    else [s[..WordEnd(s)]] + Words(s[WordEnd(s)..])
  }

  /** s is these words with white space around them, and at least some between any two. */
  ghost predicate Spaced(gaps: seq<string>, words: seq<string>, s: string) {
    && |gaps| == |words| + 1 && Weave(gaps, words) == s
    && (forall i :: 0 <= i < |gaps| ==> AllSpace(gaps[i]))
    && AreWords(words)
    && (forall i :: 0 < i < |words| ==> gaps[i] != "")
  }

  /** With no white space before its first word a text begins with ink. */
  lemma WordStarts(gaps: seq<string>, words: seq<string>, s: string)
    requires Spaced(gaps, words, s)
    ensures words != [] && gaps[0] == "" ==> s != "" && !IsSpace(s[0])
  {
    if words != [] && gaps[0] == "" { assert s == words[0] + Weave(gaps[1..], words[1..]); }
  }

  lemma {:induction false} WordsAreSpaced(s: string) returns (gaps: seq<string>)
    ensures Spaced(gaps, Words(s), s)
    decreases |s|
  {
    if s == "" {
      gaps := [""];
    } else if IsSpace(s[0]) {
      var rest := WordsAreSpaced(s[1..]);
      gaps := [[s[0]] + rest[0]] + rest[1..];
      MoreSpace([s[0]], rest, Words(s), s[1..]);
      assert s == [s[0]] + s[1..];
    } else {
      var n := WordEnd(s);
      var rest := WordsAreSpaced(s[n..]);
      gaps := [""] + rest;
      OneMoreWord(s[..n], rest, Words(s[n..]), s[n..]);
      assert s == s[..n] + s[n..];
    }
  }

  lemma MoreSpace(a: string, gaps: seq<string>, words: seq<string>, s: string)
    requires AllSpace(a) && Spaced(gaps, words, s)
    ensures Spaced([a + gaps[0]] + gaps[1..], words, a + s)
  {
    SpaceFirst(a, gaps, words);
  }

  lemma OneMoreWord(w: string, gaps: seq<string>, words: seq<string>, s: string)
    requires w != "" && AllInk(w) && Spaced(gaps, words, s) && (s != "" ==> IsSpace(s[0]))
    ensures Spaced([""] + gaps, [w] + words, w + s)
  {
    var wider, more := [""] + gaps, [w] + words;
    assert wider[1..] == gaps && more[1..] == words;
    WordStarts(gaps, words, s);
    forall i | 0 < i < |more| ensures wider[i] != "" { assert wider[i] == gaps[i - 1]; }
  }

  /** More white space at the front goes into the first gap. */
  lemma SpaceFirst(a: string, gaps: seq<string>, parts: seq<string>)
    requires |gaps| == |parts| + 1
    ensures Weave([a + gaps[0]] + gaps[1..], parts) == a + Weave(gaps, parts)
  {
    var wider := [a + gaps[0]] + gaps[1..];
    assert wider[1..] == gaps[1..];
    if parts != [] {
      assert a + gaps[0] + parts[0] + Weave(gaps[1..], parts[1..]) == a + (gaps[0] + parts[0] + Weave(gaps[1..], parts[1..]));
    }
  }

  lemma {:induction false} WordsSkipSpace(a: string, s: string)
    requires AllSpace(a)
    ensures Words(a + s) == Words(s)
  {
    if a == "" {
      assert a + s == s;
    } else {
      assert (a + s)[1..] == a[1..] + s;
      WordsSkipSpace(a[1..], s);
    }
  }

  lemma WordFirst(w: string, s: string)
    requires w != "" && AllInk(w) && (s != "" ==> IsSpace(s[0]))
    ensures Words(w + s) == [w] + Words(s)
  {
    var t := w + s;
    assert t[0] == w[0] && (s != "" ==> t[|w|] == s[0]);
    assert forall i :: 0 <= i < |w| ==> t[i] == w[i];
    assert WordEnd(t) == |w|;
    assert t[..|w|] == w && t[|w|..] == s;
  }

  /** Behind the first word, and the space before it, begins nothing but space. */
  lemma DropFirstWord(gaps: seq<string>, words: seq<string>, s: string)
    requires Spaced(gaps, words, s) && words != []
    ensures var tail := Weave(gaps[1..], words[1..]);
            && Spaced(gaps[1..], words[1..], tail)
            && s == gaps[0] + (words[0] + tail) && (tail != "" ==> IsSpace(tail[0]))
  {
    var tail := Weave(gaps[1..], words[1..]);
    assert s == gaps[0] + words[0] + tail;
    if words[1..] == [] {
      assert tail == gaps[1];
    } else {
      assert tail == gaps[1] + words[1..][0] + Weave(gaps[1..][1..], words[1..][1..]);
    }
  }

  lemma {:induction false} SpacedAreWords(gaps: seq<string>, words: seq<string>, s: string)
    requires Spaced(gaps, words, s)
    ensures words == Words(s)
    decreases |words|
  {
    if words == [] {
      WordsSkipSpace(s, "");
      assert s + "" == s;
    } else {
      var w, tail := words[0], Weave(gaps[1..], words[1..]);
      DropFirstWord(gaps, words, s);
      SpacedAreWords(gaps[1..], words[1..], tail);
      WordsSkipSpace(gaps[0], w + tail);
      WordFirst(w, tail);
    }
  }

  /** Words are not empty and have no white space in them. */
  ghost predicate AreWords(words: seq<string>) {
    forall i :: 0 <= i < |words| ==> words[i] != "" && AllInk(words[i])
  }

  lemma WordsAreWords(s: string)
    ensures AreWords(Words(s))
  {
    var gaps := WordsAreSpaced(s);
  }

  /** The words of a text are the only ink it is made of by setting white space around, and at
      least some between, the words. */
  lemma WordsIff(s: string, words: seq<string>)
    ensures words == Words(s) <==> exists gaps :: Spaced(gaps, words, s)
  {
    var gaps := WordsAreSpaced(s);
    forall other | Spaced(other, words, s) ensures words == Words(s) { SpacedAreWords(other, words, s); }
  }

  lemma {:induction false} InkOfInk(s: string)
    requires AllInk(s)
    ensures Ink(s) == s
  {
    if s != "" { InkOfInk(s[1..]); }
  }

  /** Splitting into words drops white space and nothing else. */
  lemma {:induction false} WordsKeepInk(s: string)
    ensures Flat(Words(s)) == Ink(s)
    decreases |s|
  {
    if s != "" {
      if IsSpace(s[0]) {
        WordsKeepInk(s[1..]);
      } else {
        var n := WordEnd(s);
        WordsKeepInk(s[n..]);
        assert s == s[..n] + s[n..];
        InkConcat(s[..n], s[n..]);
        InkOfInk(s[..n]);
        FlatFirst(s[..n], Words(s[n..]));
      }
    }
  }

  /** White space in the middle of a text carries no ink. */
  lemma InkAround(s: string, n: nat)
    requires n < |s| && IsSpace(s[n])
    ensures Ink(s) == Ink(s[..n]) + Ink(s[n + 1..])
  {
    assert s == s[..n] + s[n..] && s[n..][1..] == s[n + 1..];
    InkConcat(s[..n], s[n..]);
  }

  lemma FlatFirst(s: string, rest: seq<string>)
    ensures Flat([s] + rest) == s + Flat(rest)
  {
    FlatConcat([s], rest);
    FlatOne(s);
  }

  /** Splitting into paragraphs drops line breaks and nothing else. */
  lemma {:induction false} ParagraphsKeepInk(s: string)
    ensures Ink(Flat(Paragraphs(s))) == Ink(s)
    decreases |s|
  {
    var n := LineBreak(s);
    if n == |s| {
      FlatOne(s);
    } else {
      var rest := Paragraphs(s[n + 1..]);
      assert Paragraphs(s) == [s[..n]] + rest;
      ParagraphsKeepInk(s[n + 1..]);
      FlatFirst(s[..n], rest);
      InkConcat(s[..n], Flat(rest));
      InkAround(s, n);
    }
  }
}
