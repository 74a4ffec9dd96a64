/**
  Regrouping streamed agent text into speakable units.

  `Drain` is what the feed loop of the buffer does to its text. Its central property is
  that it commutes with appending, so that how a text was cut into chunks cannot be heard.
 */
module Sentences {
  import opened Wrappers
  import opened Text

  const MIN_SENTENCE_CHARS := 32

  /** Where a sentence boundary that starts at position i ends, if one does: after a full
      stop, question or exclamation mark before white space, or after two line breaks. */
  function BoundaryAt(s: string, i: nat): Option<nat>
    requires i < |s|
  {
    if (s[i] == '.' || s[i] == '!' || s[i] == '?') && i + 1 < |s| && IsSpace(s[i + 1]) then Some(i + 1)
    else if s[i] == '\n' && i + 1 < |s| && s[i + 1] == '\n' then Some(i + 2)
    else None
  }

  /** A boundary is a full stop, question or exclamation mark with white space behind it, which is
      not part of it, or two line breaks, which are. */
  lemma BoundaryIsMatch(s: string, i: nat, e: nat)
    requires i < |s|
    ensures BoundaryAt(s, i) == Some(e) <==>
            i < e <= |s| && var mark := s[i..e];
            (mark in {".", "?", "!"} && e < |s| && IsSpace(s[e])) || mark == "\n\n"
  {
    if i < e <= |s| {
      var mark := s[i..e];
      assert forall k :: 0 <= k < |mark| ==> mark[k] == s[i + k];
      assert e == i + 1 ==> mark == [s[i]];
      assert e == i + 2 ==> mark == [s[i], s[i + 1]];
    }
  }

  /** The end of the leftmost boundary at or after a position. */
  function Search(s: string, from: nat): (cut: Option<nat>)
    requires from <= |s|
    ensures cut.Some? ==> from < cut.value <= |s|
    decreases |s| - from
  {
    if from == |s| then None
    else if BoundaryAt(s, from).Some? then BoundaryAt(s, from)
    else Search(s, from + 1)
  }

  lemma {:induction false} SearchIsLeftmost(s: string, from: nat)
    requires from <= |s|
    ensures Search(s, from).None? ==> forall i :: from <= i < |s| ==> BoundaryAt(s, i).None?
    ensures Search(s, from).Some? ==>
      exists i :: from <= i < |s| && BoundaryAt(s, i) == Search(s, from)
                  && forall j :: from <= j < i ==> BoundaryAt(s, j).None?
    decreases |s| - from
  {
    if from < |s| && BoundaryAt(s, from).None? { SearchIsLeftmost(s, from + 1); }
  }

  /** Appending text never moves a boundary that was already found. */
  lemma {:induction false} SearchStable(s: string, t: string, from: nat)
    requires from <= |s| && Search(s, from).Some?
    ensures Search(s + t, from) == Search(s, from)
    decreases |s| - from
  {
    assert BoundaryAt(s, from).Some? ==> BoundaryAt(s + t, from) == BoundaryAt(s, from);
    if BoundaryAt(s, from).None? {
      SearchStable(s, t, from + 1);
      assert from + 1 < |s|;
      assert BoundaryAt(s + t, from).None?;
    }
  }

  /** Where the buffer is cut next: at its first boundary, or at the one after it when what
      stands before the first is too short to be a sentence. */
  function Cut(s: string, minChars: int): (cut: Option<nat>)
    ensures cut.Some? ==> 0 < cut.value <= |s|
  {
    var first := Search(s, 0);
    if first.Some? && |Strip(s[..first.value])| < minChars then Search(s, first.value) else first
  }

  lemma CutStable(s: string, t: string, minChars: int)
    requires Cut(s, minChars).Some?
    ensures Cut(s + t, minChars) == Cut(s, minChars)
  {
    var first := Search(s, 0);
    SearchStable(s, t, 0);
    assert (s + t)[..first.value] == s[..first.value];
    if |Strip(s[..first.value])| < minChars { SearchStable(s, t, first.value); }
  }

  /** The piece to speak, unless it is blank. */
  function Piece(text: string): seq<string> {
    if Strip(text) != "" then [Strip(text)] else []
  }

  /** Everything that can be cut off the buffer, and what is held back. */
  function Drain(s: string, minChars: int): (seq<string>, string)
    decreases |s|
  {
    var cut := Cut(s, minChars);
    if cut.None? then ([], s)
    else
      var (pieces, rest) := Drain(s[cut.value..], minChars);
      (Piece(s[..cut.value]) + pieces, rest)
  }

  lemma Associates<T>(a: seq<T>, b: seq<T>, c: seq<T>)
    ensures a + (b + c) == (a + b) + c
  {
  }

  /** Draining now and again when more text arrives comes to draining once at the end. */
  lemma {:induction false} DrainAppend(s: string, t: string, minChars: int)
    ensures var (pieces, rest) := Drain(s, minChars);
            var (more, rest') := Drain(rest + t, minChars);
            Drain(s + t, minChars) == (pieces + more, rest')
    decreases |s|
  {
    var cut := Cut(s, minChars);
    if cut.Some? {
      var c := cut.value;
      CutStable(s, t, minChars);
      assert (s + t)[..c] == s[..c] && (s + t)[c..] == s[c..] + t;
      DrainAppend(s[c..], t, minChars);
      var d := Drain(s[c..], minChars);
      var e := Drain(d.1 + t, minChars);
      Associates(Piece(s[..c]), d.0, e.0);
    } else {
      assert [] + Drain(s + t, minChars).0 == Drain(s + t, minChars).0;
    }
  }

  /** Feeding chunk after chunk into a buffer that holds `held`. */
  function FeedAll(held: string, chunks: seq<string>, minChars: int): (seq<string>, string)
    decreases |chunks|
  {
    if chunks == [] then ([], held)
    else
      var n := |chunks| - 1;
      var (pieces, rest) := FeedAll(held, chunks[..n], minChars);
      var (more, rest') := Drain(rest + chunks[n], minChars);
      (pieces + more, rest')
  }

  lemma FeedAllStep(chunks: seq<string>, k: nat, minChars: int)
    requires k < |chunks|
    ensures var (pieces, rest) := FeedAll("", chunks[..k], minChars);
            var (more, rest') := Drain(rest + chunks[k], minChars);
            FeedAll("", chunks[..k + 1], minChars) == (pieces + more, rest')
  {
    assert chunks[..k + 1][..k] == chunks[..k];
  }

  /** How a text was cut into chunks does not matter: all the pieces, the text held back and
      so the flush are those of feeding the whole text at once. */
  lemma {:induction false} ChunkingDoesNotMatter(chunks: seq<string>, minChars: int)
    ensures FeedAll("", chunks, minChars) == Drain(Flat(chunks), minChars)
    decreases |chunks|
  {
    if chunks != [] {
      var n := |chunks| - 1;
      ChunkingDoesNotMatter(chunks[..n], minChars);
      DrainAppend(Flat(chunks[..n]), chunks[n], minChars);
    }
  }

  /** Two ways of cutting the same text give the same pieces. */
  lemma SameTextSamePieces(a: seq<string>, b: seq<string>, minChars: int)
    requires Flat(a) == Flat(b)
    ensures FeedAll("", a, minChars) == FeedAll("", b, minChars)
  {
    ChunkingDoesNotMatter(a, minChars);
    ChunkingDoesNotMatter(b, minChars);
  }

  // --- what the pieces are -----------------------------------------------------

  lemma PieceKeepsInk(t: string)
    ensures Ink(Flat(Piece(t))) == Ink(t)
  {
    StripMeaning(t);
    FlatOne(Strip(t));
  }

  /** A piece cut off the front adds its ink to that of what follows. */
  lemma OneMorePiece(head: string, tail: string, pieces: seq<string>, rest: string)
    requires Ink(Flat(pieces)) + Ink(rest) == Ink(tail)
    ensures Ink(Flat(Piece(head) + pieces)) + Ink(rest) == Ink(head + tail)
  {
    PieceKeepsInk(head);
    FlatConcat(Piece(head), pieces);
    InkConcat(Flat(Piece(head)), Flat(pieces));
    Associates(Ink(head), Ink(Flat(pieces)), Ink(rest));
    InkConcat(head, tail);
  }

  /** Every character that is not white space comes out, in order. */
  lemma {:induction false} DrainKeepsInk(s: string, minChars: int)
    ensures var (pieces, rest) := Drain(s, minChars);
            Ink(Flat(pieces)) + Ink(rest) == Ink(s)
    decreases |s|
  {
    var cut := Cut(s, minChars);
    if cut.Some? {
      var head, tail := s[..cut.value], s[cut.value..];
      DrainKeepsInk(tail, minChars);
      OneMorePiece(head, tail, Drain(tail, minChars).0, Drain(tail, minChars).1);
      assert s == head + tail;
    }
  }

  /** Text that is spoken: not blank, and with no white space at either end. */
  ghost predicate Speakable(piece: string) {
    piece != "" && !IsSpace(piece[0]) && !IsSpace(piece[|piece| - 1])
  }

  lemma {:induction false} PiecesAreSpeakable(s: string, minChars: int)
    ensures forall p :: p in Drain(s, minChars).0 ==> Speakable(p)
    decreases |s|
  {
    var cut := Cut(s, minChars);
    if cut.Some? {
      StripMeaning(s[..cut.value]);
      PiecesAreSpeakable(s[cut.value..], minChars);
    }
  }

  lemma {:induction false} AllPiecesAreSpeakable(chunks: seq<string>, minChars: int)
    ensures forall p :: p in FeedAll("", chunks, minChars).0 ==> Speakable(p)
  {
    ChunkingDoesNotMatter(chunks, minChars);
    PiecesAreSpeakable(Flat(chunks), minChars);
  }

  /** What is held back has no boundary, or a single one after too short a head. */
  lemma {:induction false} HeldBackIsShort(s: string, minChars: int)
    ensures var rest := Drain(s, minChars).1;
            Search(rest, 0).None?
            || (|Strip(rest[..Search(rest, 0).value])| < minChars && Search(rest, Search(rest, 0).value).None?)
    decreases |s|
  {
    var cut := Cut(s, minChars);
    if cut.Some? { HeldBackIsShort(s[cut.value..], minChars); }
  }

  // --- where the pieces come from --------------------------------------------------

  /** A boundary that ends at c, with none before it that starts at or after a position. */
  ghost predicate FirstBoundary(s: string, from: nat, c: nat) {
    exists i :: from <= i < |s| && BoundaryAt(s, i) == Some(c) && forall j :: from <= j < i ==> BoundaryAt(s, j).None?
  }

  ghost predicate NoBoundary(s: string, from: nat) {
    forall i :: from <= i < |s| ==> BoundaryAt(s, i).None?
  }

  lemma {:induction false} SearchFinds(s: string, from: nat, c: nat)
    requires from <= |s| && FirstBoundary(s, from, c)
    ensures Search(s, from) == Some(c)
    decreases |s| - from
  {
    var i :| from <= i < |s| && BoundaryAt(s, i) == Some(c) && forall j :: from <= j < i ==> BoundaryAt(s, j).None?;
    if i > from {
      assert FirstBoundary(s, from + 1, c);
      SearchFinds(s, from + 1, c);
    }
  }

  /** A text is cut at its first boundary when what stands before it is long enough, else at the
      next boundary, and only then. */
  lemma CutMeaning(s: string, minChars: int, c: nat)
    ensures Cut(s, minChars) == Some(c) <==>
            || (FirstBoundary(s, 0, c) && c <= |s| && |Strip(s[..c])| >= minChars)
            || (exists f: nat :: f <= |s| && FirstBoundary(s, 0, f) && |Strip(s[..f])| < minChars && FirstBoundary(s, f, c))
  {
    SearchIsLeftmost(s, 0);
    var first := Search(s, 0);
    if first.Some? {
      SearchIsLeftmost(s, first.value);
      assert FirstBoundary(s, 0, first.value);
    }
    forall f: nat | FirstBoundary(s, 0, f) ensures first == Some(f) { SearchFinds(s, 0, f); }
    if first.Some? && FirstBoundary(s, first.value, c) { SearchFinds(s, first.value, c); }
  }

  function FlatFront(heads: seq<string>): string {
    if heads == [] then "" else heads[0] + FlatFront(heads[1..])
  }

  /** What is spoken of the stretches a text was cut into: each without the white space around it,
      the blank ones not at all. */
  function Trimmed(heads: seq<string>): seq<string> {
    if heads == [] then [] else Piece(heads[0]) + Trimmed(heads[1..])
  }

  /** Every stretch is what a cut takes off the text that begins with it, and the rest is not cut. */
  ghost predicate CutUp(heads: seq<string>, rest: string, minChars: int) {
    && (forall k :: 0 <= k < |heads| ==> Cut(FlatFront(heads[k..]) + rest, minChars) == Some(|heads[k]|))
    && Cut(rest, minChars).None?
  }

  lemma CutUpFirst(head: string, heads: seq<string>, rest: string, minChars: int)
    requires CutUp(heads, rest, minChars)
    requires Cut(head + FlatFront(heads) + rest, minChars) == Some(|head|)
    ensures CutUp([head] + heads, rest, minChars)
  {
    var all := [head] + heads;
    assert all[1..] == heads;
    forall k | 0 <= k < |all| ensures Cut(FlatFront(all[k..]) + rest, minChars) == Some(|all[k]|) {
      if k == 0 {
        assert all[0..] == all;
      } else {
        assert all[k..] == heads[k - 1..];
      }
    }
  }

  /** A drain cuts the text up, stretch after stretch, and speaks the stretches. */
  lemma {:induction false} DrainCutsUp(s: string, minChars: int) returns (heads: seq<string>)
    ensures var (pieces, rest) := Drain(s, minChars);
            FlatFront(heads) + rest == s && CutUp(heads, rest, minChars) && pieces == Trimmed(heads)
    decreases |s|
  {
    var cut := Cut(s, minChars);
    if cut.None? {
      heads := [];
      assert "" + s == s;
    } else {
      var head, tail := s[..cut.value], s[cut.value..];
      var later := DrainCutsUp(tail, minChars);
      heads := [head] + later;
      var rest := Drain(tail, minChars).1;
      assert heads[1..] == later;
      assert head + FlatFront(later) + rest == head + (FlatFront(later) + rest) == s;
      CutUpFirst(head, later, rest, minChars);
    }
  }

  /** The text is the pieces with nothing but white space before, between and after them. */
  ghost predicate Contains(s: string, gaps: seq<string>, pieces: seq<string>) {
    && |gaps| == |pieces| + 1 && Weave(gaps, pieces) == s
    && forall i :: 0 <= i < |gaps| ==> AllSpace(gaps[i])
  }

  lemma ContainsMore(a: string, s: string, gaps: seq<string>, pieces: seq<string>)
    requires AllSpace(a) && Contains(s, gaps, pieces)
    ensures Contains(a + s, [a + gaps[0]] + gaps[1..], pieces)
  {
    SpaceFirst(a, gaps, pieces);
  }

  lemma ContainsPiece(a: string, piece: string, s: string, gaps: seq<string>, pieces: seq<string>)
    requires AllSpace(a) && Contains(s, gaps, pieces)
    ensures Contains(a + piece + s, [a] + gaps, [piece] + pieces)
  {
    assert ([a] + gaps)[1..] == gaps && ([piece] + pieces)[1..] == pieces;
  }

  /** A stretch in front of a text adds its piece, if it has one, and white space. */
  lemma ContainsHead(head: string, s: string, gaps: seq<string>, pieces: seq<string>) returns (wider: seq<string>)
    requires Contains(s, gaps, pieces)
    ensures Contains(head + s, wider, Piece(head) + pieces)
  {
    var a, b := StripIsMiddle(head);
    var piece := Strip(head);
    var later := [b + gaps[0]] + gaps[1..];
    ContainsMore(b, s, gaps, pieces);
    if piece != "" {
      wider := [a] + later;
      ContainsPiece(a, piece, b + s, later, pieces);
      assert a + piece + (b + s) == head + s;
    } else {
      wider := [a + later[0]] + later[1..];
      ContainsMore(a, b + s, later, pieces);
      assert a + (b + s) == head + s && [] + pieces == pieces;
    }
  }

  /** The text up to what is held back is the pieces in order, untouched inside, with nothing but
      white space around them. */
  lemma {:induction false} DrainContains(s: string, minChars: int) returns (gaps: seq<string>, spoken: string)
    ensures var (pieces, rest) := Drain(s, minChars);
            s == spoken + rest && Contains(spoken, gaps, pieces)
    decreases |s|
  {
    var cut := Cut(s, minChars);
    if cut.None? {
      gaps, spoken := [""], "";
    } else {
      var head, tail := s[..cut.value], s[cut.value..];
      var (pieces, rest) := Drain(tail, minChars);
      var later, after := DrainContains(tail, minChars);
      gaps := ContainsHead(head, after, later, pieces);
      spoken := head + after;
      assert s == head + (after + rest);
      Associates(head, after, rest);
    }
  }

  /** The same of a text that arrives in chunks. */
  lemma FedTextContains(chunks: seq<string>, minChars: int) returns (gaps: seq<string>, spoken: string)
    ensures var (pieces, rest) := FeedAll("", chunks, minChars);
            Flat(chunks) == spoken + rest && Contains(spoken, gaps, pieces)
  {
    ChunkingDoesNotMatter(chunks, minChars);
    gaps, spoken := DrainContains(Flat(chunks), minChars);
  }

  lemma {:induction false} ContainsLast(s: string, gaps: seq<string>, pieces: seq<string>, rest: string)
    returns (wider: seq<string>)
    requires Contains(s, gaps, pieces)
    ensures Contains(s + rest, wider, pieces + [Strip(rest)])
    decreases |pieces|
  {
    if pieces == [] {
      var a, b := StripIsMiddle(rest);
      assert Contains(b, [b], []);
      ContainsPiece(gaps[0] + a, Strip(rest), b, [b], []);
      wider := [gaps[0] + a] + [b];
      assert gaps[0] + a + Strip(rest) + b == s + rest && [] + [Strip(rest)] == [Strip(rest)] + [];
    } else {
      var tail := Weave(gaps[1..], pieces[1..]);
      var later := ContainsLast(tail, gaps[1..], pieces[1..], rest);
      ContainsPiece(gaps[0], pieces[0], tail + rest, later, pieces[1..] + [Strip(rest)]);
      wider := [gaps[0]] + later;
      assert gaps[0] + pieces[0] + (tail + rest) == s + rest;
      assert [pieces[0]] + (pieces[1..] + [Strip(rest)]) == pieces + [Strip(rest)];
    }
  }

  /** With the flush at the end the pieces and the flushed text make up the whole of it. */
  lemma FlushCompletes(chunks: seq<string>, minChars: int) returns (gaps: seq<string>)
    ensures var (pieces, rest) := FeedAll("", chunks, minChars);
            Contains(Flat(chunks), gaps, pieces + [Strip(rest)])
  {
    var before, spoken := FedTextContains(chunks, minChars);
    gaps := ContainsLast(spoken, before, FeedAll("", chunks, minChars).0, FeedAll("", chunks, minChars).1);
  }

  /** What the buffer holds before each cut of a drain, and in the end. */
  function Remainders(s: string, minChars: int): seq<string>
    decreases |s|
  {
    [s] + if Cut(s, minChars).Some? then Remainders(s[Cut(s, minChars).value..], minChars) else []
  }

  /** The text has two boundaries, the texts up to the first and up to the second are both too
      short, and the second is not blank. */
  predicate TwoShortHeads(s: string, minChars: int) {
    var first := Search(s, 0);
    && first.Some? && |Strip(s[..first.value])| < minChars
    && var second := Search(s, first.value);
    second.Some? && Strip(s[..second.value]) != "" && |Strip(s[..second.value])| < minChars
  }

  /** A single cut publishes something too short exactly when it extends to a second short head. */
  lemma CutIsShortIff(s: string, minChars: int)
    requires Cut(s, minChars).Some?
    ensures (exists p :: p in Piece(s[..Cut(s, minChars).value]) && |p| < minChars) <==> TwoShortHeads(s, minChars)
  {
    var piece := Strip(s[..Cut(s, minChars).value]);
    if TwoShortHeads(s, minChars) { assert piece in Piece(s[..Cut(s, minChars).value]); }
  }

  /** Every piece of a drain is at least minChars long if and only if no remainder on the way has
      two short heads: the extended cut is not checked again. */
  lemma {:induction false} AllPiecesLongIff(s: string, minChars: int)
    ensures (forall p :: p in Drain(s, minChars).0 ==> |p| >= minChars) <==>
            (forall r :: r in Remainders(s, minChars) ==> !TwoShortHeads(r, minChars))
    decreases |s|
  {
    var cut := Cut(s, minChars);
    if cut.Some? {
      var rest := s[cut.value..];
      CutIsShortIff(s, minChars);
      AllPiecesLongIff(rest, minChars);
      assert forall p :: p in Drain(s, minChars).0 <==> p in Piece(s[..cut.value]) || p in Drain(rest, minChars).0;
      assert forall r :: r in Remainders(s, minChars) <==> r == s || r in Remainders(rest, minChars);
    } else {
      assert Remainders(s, minChars) == [s];
    }
  }

  /** The same of a text that arrives in chunks. */
  lemma AllFedPiecesLongIff(chunks: seq<string>, minChars: int)
    ensures (forall p :: p in FeedAll("", chunks, minChars).0 ==> |p| >= minChars) <==>
            (forall r :: r in Remainders(Flat(chunks), minChars) ==> !TwoShortHeads(r, minChars))
  {
    ChunkingDoesNotMatter(chunks, minChars);
    AllPiecesLongIff(Flat(chunks), minChars);
  }

  /** A piece of five characters, spoken by a buffer that asks for thirty-two. */
  lemma ShortPieceExists()
    ensures Drain("a. b. ", MIN_SENTENCE_CHARS) == (["a. b."], " ")
  {
    var s := "a. b. ";
    assert BoundaryAt(s, 0).None? && BoundaryAt(s, 1) == Some(2);
    assert Search(s, 0) == Search(s, 1) == Some(2);
    assert s[..2] == "a." && StripLeft("a.") == "a." && StripRight("a.") == "a.";
    assert BoundaryAt(s, 2).None? && BoundaryAt(s, 3).None? && BoundaryAt(s, 4) == Some(5);
    assert Search(s, 2) == Search(s, 3) == Search(s, 4) == Some(5);
    assert s[..5] == "a. b." && StripLeft("a. b.") == "a. b." && StripRight("a. b.") == "a. b.";
    assert s[5..] == " " && BoundaryAt(" ", 0).None? && Search(" ", 0) == Search(" ", 1) == None;
    assert Drain(" ", MIN_SENTENCE_CHARS) == ([], " ");
    assert Cut(s, MIN_SENTENCE_CHARS) == Some(5) && Piece(s[..5]) == ["a. b."];
    assert ["a. b."] + [] == ["a. b."];
  }

  /** What a run of the feed loop comes to when its first part already gave `out`. */
  ghost function AddTo(out: seq<string>, rest: (seq<string>, string)): (seq<string>, string) {
    (out + rest.0, rest.1)
  }

  lemma DrainStep(out: seq<string>, s: string, minChars: int)
    ensures Cut(s, minChars).None? ==> AddTo(out, Drain(s, minChars)) == (out, s)
    ensures Cut(s, minChars).Some? ==>
      var c := Cut(s, minChars).value;
      AddTo(out, Drain(s, minChars)) == AddTo(out + Piece(s[..c]), Drain(s[c..], minChars))
  {
    if Cut(s, minChars).Some? {
      var c := Cut(s, minChars).value;
      var rest := Drain(s[c..], minChars).0;
      assert out + (Piece(s[..c]) + rest) == (out + Piece(s[..c])) + rest;
    } else {
      assert out + [] == out;
    }
  }

  // --- the buffer --------------------------------------------------------------

  class SentenceBuffer {
    const minChars: int
    var buffer: string

    constructor (minChars: int)
      ensures this.minChars == minChars && buffer == ""
    {
      this.minChars := minChars;
      buffer := "";
    }

    method Feed(text: string) returns (out: seq<string>)
      modifies this
      ensures (out, buffer) == Drain(old(buffer) + text, minChars)
    {
      buffer := buffer + text;
      out := [];
      ghost var goal := Drain(buffer, minChars);
      assert out + goal.0 == goal.0;
      while true
        invariant AddTo(out, Drain(buffer, minChars)) == goal
        decreases |buffer|
      {
        DrainStep(out, buffer, minChars);
        var found := Search(buffer, 0);
        if found.None? { break; }
        var cut := found.value;
        var head, tail := Strip(buffer[..cut]), buffer[cut..];
        if |head| < minChars {
          // The boundary was inside an abbreviation or similar.
          var later := Search(buffer, cut);
          if later.None? { break; }
          cut := later.value;
          head, tail := Strip(buffer[..cut]), buffer[cut..];
        }
        buffer := tail;
        assert out + [] == out;
        if head != "" {
          out := out + [head];
        }
      }
    }

    method Flush() returns (text: string)
      modifies this
      ensures text == Strip(old(buffer)) && buffer == ""
    {
      text := Strip(buffer);
      buffer := "";
    }
  }
}
