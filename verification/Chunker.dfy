/**
 Chunking the pages of a document: splitting each page into sentences, packing them, and keeping
 the page number. The loops of workflows/activities.py, tied to the folds of module Packing, and
 what they do to the text of a page as a whole.
 */
module Chunker {
  import opened Common
  import opened Text
  import opened Packing

  datatype Page = Page(text: string, number: int)
  datatype Chunk = Chunk(text: string, number: int)

  /** The stripped pieces that are not blank. */
  function NonBlank(pieces: seq<string>): seq<string> {
    if pieces == [] then []
    else
      var s := Strip(pieces[|pieces| - 1]);
      var rest := NonBlank(pieces[..|pieces| - 1]);
      if s == [] then rest else rest + [s]
  }

  function LineSentences(line: string): seq<string> {
    var stripped := Strip(line);
    if stripped == [] then [] else NonBlank(SentencePieces(stripped, 0, 0))
  }

  function SentencesOfLines(lines: seq<string>): seq<string> {
    if lines == [] then []
    else SentencesOfLines(lines[..|lines| - 1]) + LineSentences(lines[|lines| - 1])
  }

  function SentencesOfParagraphs(paragraphs: seq<string>): seq<string> {
    if paragraphs == [] then []
    else SentencesOfParagraphs(paragraphs[..|paragraphs| - 1])
         + SentencesOfLines(Split(paragraphs[|paragraphs| - 1], "\n"))
  }

  function Sentences(text: string): seq<string> {
    SentencesOfParagraphs(NonBlank(Split(text, "\n\n")))
  }

  lemma LinesStep(lines: seq<string>, j: nat, before: seq<string>)
    requires j < |lines|
    ensures (before + SentencesOfLines(lines[..j])) + LineSentences(lines[j])
            == before + SentencesOfLines(lines[..j + 1])
  {
    assert lines[..j + 1][..j] == lines[..j];
    Assoc(before, SentencesOfLines(lines[..j]), LineSentences(lines[j]));
  }

  lemma ParagraphsStep(paragraphs: seq<string>, i: nat)
    requires i < |paragraphs|
    ensures SentencesOfParagraphs(paragraphs[..i + 1])
         == SentencesOfParagraphs(paragraphs[..i]) + SentencesOfLines(Split(paragraphs[i], "\n"))
  {
    assert paragraphs[..i + 1][..i] == paragraphs[..i];
  }

  /** What the splitter lets through: one line, trimmed, with no end of a sentence inside. */
  ghost predicate IsSentence(s: string) {
    Trimmed(s) && Unbroken(s) && '\n' !in s
  }

  ghost predicate AreSentences(sentences: seq<string>) {
    forall k :: 0 <= k < |sentences| ==> IsSentence(sentences[k])
  }

  /** Pieces that strip leaves alone survive as they are. */
  lemma {:induction false} TrimmedStay(pieces: seq<string>)
    requires forall k :: 0 <= k < |pieces| ==> Trimmed(pieces[k])
    ensures NonBlank(pieces) == pieces
  {
    if pieces != [] {
      TrimmedStay(pieces[..|pieces| - 1]);
      SplitLast(pieces);
    }
  }

  /** The sentences of a line: the line itself but for whitespace between them, each a sentence, and each
      but the last ending in '.', '!' or '?'. */
  lemma LineIsCutAtSentenceEnds(line: string)
    requires '\n' !in line
    ensures AreSentences(LineSentences(line))
    ensures forall k :: 0 <= k < |LineSentences(line)| - 1 ==> EndsSentence(LineSentences(line)[k])
    ensures if Strip(line) == [] then LineSentences(line) == [] else Spaced(Strip(line), LineSentences(line))
  {
    var stripped := Strip(line);
    StripTrims(line);
    StripSolid(line);
    if stripped != [] {
      var pieces := SentencePieces(stripped, 0, 0);
      PiecesAreGood(stripped, 0, 0);
      PiecesAreSpaced(stripped, 0, 0);
      PiecesAreParts(stripped, 0, 0, '\n');
      TrimmedStay(pieces);
      assert stripped[0..] == stripped;
      forall k | 0 <= k < |pieces| ensures IsSentence(pieces[k]) { assert pieces[k] in pieces; }
    }
  }

  lemma {:induction false} LinesGiveSentences(lines: seq<string>)
    requires forall line :: line in lines ==> '\n' !in line
    ensures AreSentences(SentencesOfLines(lines))
  {
    if lines != [] {
      LinesGiveSentences(lines[..|lines| - 1]);
      LineIsCutAtSentenceEnds(lines[|lines| - 1]);
    }
  }

  lemma {:induction false} ParagraphsGiveSentences(paragraphs: seq<string>)
    ensures AreSentences(SentencesOfParagraphs(paragraphs))
  {
    if paragraphs != [] {
      ParagraphsGiveSentences(paragraphs[..|paragraphs| - 1]);
      PiecesLackSeparator(paragraphs[|paragraphs| - 1], '\n', 0);
      LinesGiveSentences(Split(paragraphs[|paragraphs| - 1], "\n"));
    }
  }

  /** Whatever the page: every sentence it is split into is one line, trimmed, and has no end of a sentence
      inside. */
  lemma SplittingEndsAtSentences(text: string)
    ensures AreSentences(Sentences(text))
  {
    ParagraphsGiveSentences(NonBlank(Split(text, "\n\n")));
  }

  method SplitIntoSentences(text: string) returns (sentences: seq<string>)
    ensures sentences == Sentences(text)
  {
    var paragraphs := NonBlank(Split(text, "\n\n"));
    if paragraphs == [] {
      paragraphs := if Strip(text) != [] then [Strip(text)] else [];
      FallbackNeverUsed(text);
    }
    sentences := [];
    for i := 0 to |paragraphs|
      invariant sentences == SentencesOfParagraphs(paragraphs[..i])
    {
      sentences := AddLines(sentences, Split(paragraphs[i], "\n"));
      ParagraphsStep(paragraphs, i);
    }
    assert paragraphs[..|paragraphs|] == paragraphs;
  }

  /** The loop over the lines of one paragraph. */
  method AddLines(before: seq<string>, lines: seq<string>) returns (sentences: seq<string>)
    ensures sentences == before + SentencesOfLines(lines)
  {
    sentences := before;
    for j := 0 to |lines|
      invariant sentences == before + SentencesOfLines(lines[..j])
    {
      LinesStep(lines, j, before);
      var line := Strip(lines[j]);
      if line == [] {
        continue;
      }
      sentences := sentences + NonBlank(SentencePieces(line, 0, 0));
    }
    assert lines[..|lines|] == lines;
  }

  /** The whole tail of the flushed chunk that fits the budget, collected from its end. */
  method BuildOverlap(current: seq<string>, budget: int) returns (overlap: seq<string>)
    ensures overlap == current[OverlapStart(current, budget)..]
    ensures exists k: nat :: k <= |current| && overlap == current[k..] && LongestTail(current, k, budget)
  {
    overlap := [];
    var overlapLen := 0;
    var i := |current|;
    while i > 0
      invariant 0 <= i <= |current|
      invariant overlap == current[i..] && overlapLen == Len(overlap)
      invariant i == |current| || Len(current[i..]) <= budget
    {
      assert current[i - 1..] == [current[i - 1]] + current[i..];
      LenConcat([current[i - 1]], current[i..]);
      LenAppend([], current[i - 1]);
      assert [] + [current[i - 1]] == [current[i - 1]];
      if overlapLen + |current[i - 1]| + 1 > budget {
        forall j | 0 <= j < i ensures Len(current[j..]) > budget {
          assert current[j..] == current[j..i - 1] + current[i - 1..];
          LenConcat(current[j..i - 1], current[i - 1..]);
        }
        break;
      }
      i := i - 1;
      overlap := [current[i]] + overlap;
      overlapLen := overlapLen + |current[i]| + 1;
    }
    OverlapIsLongestTail(current, budget);
    LongestTailUnique(current, i, OverlapStart(current, budget), budget);
  }

  function Texts(pieces: seq<Piece>): (texts: seq<string>)
    ensures |texts| == |pieces|
  {
    seq(|pieces|, i requires 0 <= i < |pieces| => TextOf(pieces[i]))
  }

  lemma TextsConcat(a: seq<Piece>, b: seq<Piece>)
    ensures Texts(a + b) == Texts(a) + Texts(b)
  {
  }

  lemma TextsAppend(a: seq<Piece>, p: Piece)
    ensures Texts(a + [p]) == Texts(a) + [TextOf(p)]
  {
  }

  lemma WrapStep(words: seq<string>, i: nat, max: int)
    requires i < |words|
    ensures WrapWords(words[..i + 1], max) == WrapWord(WrapWords(words[..i], max), words[i], max)
  {
    assert words[..i + 1][..i] == words[..i];
  }

  /** Wrapping an oversized sentence at its spaces. */
  method WrapSentence(sentence: string, max: int) returns (wrapped: seq<string>)
    ensures wrapped == Texts(Wrap(Split(sentence, " "), max))
  {
    var words := Split(sentence, " ");
    wrapped := [];
    var piece: seq<string>, pieceLen := [], 0;
    ghost var w := WrapWords(words[..0], max);
    for i := 0 to |words|
      invariant w == WrapWords(words[..i], max)
      invariant wrapped == Texts(w.out) && piece == w.piece && pieceLen == Len(piece)
    {
      WrapStep(words, i, max);
      if piece != [] && pieceLen + |words[i]| + 1 > max {
        TextsAppend(w.out, Wrapped(w.piece));
        wrapped := wrapped + [Join(" ", piece)];
        piece, pieceLen := [], 0;
      }
      LenAppend(piece, words[i]);
      piece := piece + [words[i]];
      pieceLen := pieceLen + |words[i]| + 1;
      w := WrapWord(w, words[i], max);
    }
    assert words[..|words|] == words;
    if piece != [] {
      TextsAppend(w.out, Wrapped(piece));
      wrapped := wrapped + [Join(" ", piece)];
    }
  }

  lemma PackStep(sentences: seq<string>, i: nat, max: int, overlap: int)
    requires i < |sentences|
    ensures PackAll(sentences[..i + 1], max, overlap)
         == PackSentence(PackAll(sentences[..i], max, overlap), sentences[i], max, overlap)
  {
    assert sentences[..i + 1][..i] == sentences[..i];
  }

  /** The loop of the packer holds exactly the chunks, the sentences and the length of a state of the fold. */
  ghost predicate Holds(p: Packer, chunks: seq<string>, current: seq<string>, currentLen: int) {
    chunks == Texts(p.out) && current == p.current && currentLen == Len(current)
  }

  method PackSentences(sentences: seq<string>, max: int, overlap: int) returns (chunks: seq<string>)
    ensures chunks == Texts(Pack(sentences, max, overlap))
  {
    chunks := [];
    var current: seq<string>, currentLen := [], 0;
    ghost var p := PackAll(sentences[..0], max, overlap);
    for i := 0 to |sentences|
      invariant p == PackAll(sentences[..i], max, overlap)
      invariant Holds(p, chunks, current, currentLen)
    {
      PackStep(sentences, i, max, overlap);
      chunks, current, currentLen := AddSentence(p, chunks, current, currentLen, sentences[i], max, overlap);
      p := PackSentence(p, sentences[i], max, overlap);
    }
    assert sentences[..|sentences|] == sentences;
    if current != [] {
      TextsAppend(p.out, Run(p.current, p.carried));
      chunks := chunks + [Join(" ", current)];
    }
  }

  lemma OversizedHolds(p: Packer, chunks: seq<string>, current: seq<string>, currentLen: int,
                       sentence: string, max: int, overlap: int)
    requires Holds(p, chunks, current, currentLen) && |sentence| + 1 > max
    ensures Holds(PackSentence(p, sentence, max, overlap),
                  (if current == [] then chunks else chunks + [Join(" ", current)])
                    + Texts(Wrap(Split(sentence, " "), max)),
                  [], 0)
  {
    TextsAppend(p.out, Run(p.current, p.carried));
    TextsConcat(Flushed(p), Wrap(Split(sentence, " "), max));
  }

  lemma FlushHolds(p: Packer, chunks: seq<string>, current: seq<string>, currentLen: int,
                   sentence: string, max: int, overlap: int)
    requires Holds(p, chunks, current, currentLen) && |sentence| + 1 <= max
    requires current != [] && currentLen + |sentence| + 1 > max
    ensures var tail := current[OverlapStart(current, Min(overlap, max - (|sentence| + 1)))..];
            Holds(PackSentence(p, sentence, max, overlap),
                  chunks + [Join(" ", current)], tail + [sentence], Len(tail) + |sentence| + 1)
  {
    TextsAppend(p.out, Run(p.current, p.carried));
    LenAppend(current[OverlapStart(current, Min(overlap, max - (|sentence| + 1)))..], sentence);
  }

  lemma AppendHolds(p: Packer, chunks: seq<string>, current: seq<string>, currentLen: int,
                    sentence: string, max: int, overlap: int)
    requires Holds(p, chunks, current, currentLen) && |sentence| + 1 <= max
    requires current == [] || currentLen + |sentence| + 1 <= max
    ensures Holds(PackSentence(p, sentence, max, overlap), chunks, current + [sentence], currentLen + |sentence| + 1)
  {
    LenAppend(current, sentence);
  }

  /** The body of the packer's loop. */
  method AddSentence(ghost p: Packer, chunks: seq<string>, current: seq<string>, currentLen: int,
                     sentence: string, max: int, overlap: int)
    returns (chunks': seq<string>, current': seq<string>, currentLen': int)
    requires Holds(p, chunks, current, currentLen)
    ensures Holds(PackSentence(p, sentence, max, overlap), chunks', current', currentLen')
  {
    chunks', current', currentLen' := chunks, current, currentLen;
    var sentenceLen := |sentence| + 1;
    if sentenceLen > max {
      if current' != [] {
        chunks' := chunks' + [Join(" ", current')];
        current', currentLen' := [], 0;
      }
      var wrapped := WrapSentence(sentence, max);
      OversizedHolds(p, chunks, current, currentLen, sentence, max, overlap);
      return chunks' + wrapped, current', currentLen';
    }
    if current' != [] && currentLen' + sentenceLen > max {
      FlushHolds(p, chunks, current, currentLen, sentence, max, overlap);
      chunks' := chunks' + [Join(" ", current')];
      current' := BuildOverlap(current', Min(overlap, max - sentenceLen));
      currentLen' := Len(current');
    } else {
      AppendHolds(p, chunks, current, currentLen, sentence, max, overlap);
    }
    current' := current' + [sentence];
    currentLen' := currentLen' + sentenceLen;
  }

  function Emit(texts: seq<string>, number: int): seq<Chunk> {
    if texts == [] then []
    else
      var s := Strip(texts[|texts| - 1]);
      var rest := Emit(texts[..|texts| - 1], number);
      if s == [] then rest else rest + [Chunk(s, number)]
  }

  function PageChunks(page: Page, max: int, overlap: int): seq<Chunk> {
    Emit(Texts(Pack(Sentences(page.text), max, overlap)), page.number)
  }

  function AllChunks(pages: seq<Page>, max: int, overlap: int): seq<Chunk> {
    if pages == [] then []
    else AllChunks(pages[..|pages| - 1], max, overlap) + PageChunks(pages[|pages| - 1], max, overlap)
  }

  method ChunkPages(pages: seq<Page>, max: int, overlap: int) returns (chunks: seq<Chunk>)
    ensures chunks == AllChunks(pages, max, overlap)
  {
    chunks := [];
    for i := 0 to |pages|
      invariant chunks == AllChunks(pages[..i], max, overlap)
    {
      assert pages[..i + 1][..i] == pages[..i];
      chunks := AddPage(chunks, pages[i], max, overlap);
    }
    assert pages[..|pages|] == pages;
  }

  /** The loop over the chunks of one page. */
  method AddPage(before: seq<Chunk>, page: Page, max: int, overlap: int) returns (chunks: seq<Chunk>)
    ensures chunks == before + PageChunks(page, max, overlap)
  {
    chunks := before;
    var sentences := SplitIntoSentences(page.text);
    var texts := PackSentences(sentences, max, overlap);
    for j := 0 to |texts|
      invariant chunks == before + Emit(texts[..j], page.number)
    {
      assert texts[..j + 1][..j] == texts[..j];
      var text := Strip(texts[j]);
      if text != [] {
        chunks := chunks + [Chunk(text, page.number)];
      }
    }
    assert texts[..|texts|] == texts;
  }

  // ---------------------------------------------------------------- splitting loses nothing solid

  lemma AppendSolid(texts: seq<string>, s: string)
    ensures SolidAll(texts + [s]) == SolidAll(texts) + Solid(s)
  {
    SolidAllConcat(texts, [s]);
    SolidAllOne(s);
  }

  lemma {:induction false} NonBlankSolid(pieces: seq<string>)
    ensures SolidAll(NonBlank(pieces)) == SolidAll(pieces)
    ensures forall s :: s in NonBlank(pieces) ==> Solid(s) != []
  {
    if pieces != [] {
      var init, last := pieces[..|pieces| - 1], pieces[|pieces| - 1];
      NonBlankSolid(init);
      StripSolid(last);
      StripEmpty(last);
      SplitLast(pieces);
      AppendSolid(init, last);
      AppendSolid(NonBlank(init), Strip(last));
      assert SolidAll(pieces) == SolidAll(init) + Solid(last);
    }
  }

  lemma LineSolid(line: string)
    ensures SolidAll(LineSentences(line)) == Solid(line)
  {
    StripSolid(line);
    StripEmpty(line);
    var stripped := Strip(line);
    NonBlankSolid(SentencePieces(stripped, 0, 0));
    SentencePiecesSolid(stripped, 0, 0);
    assert stripped[0..] == stripped;
  }

  lemma {:induction false} LinesSolid(lines: seq<string>)
    ensures SolidAll(SentencesOfLines(lines)) == SolidAll(lines)
  {
    if lines != [] {
      var init, last := lines[..|lines| - 1], lines[|lines| - 1];
      LinesSolid(init);
      LineSolid(last);
      SplitLast(lines);
      SolidAllConcat(init, [last]);
      SolidAllOne(last);
      SolidAllConcat(SentencesOfLines(init), LineSentences(last));
    }
  }

  lemma {:induction false} ParagraphsSolid(paragraphs: seq<string>)
    ensures SolidAll(SentencesOfParagraphs(paragraphs)) == SolidAll(paragraphs)
  {
    if paragraphs != [] {
      var init, last := paragraphs[..|paragraphs| - 1], paragraphs[|paragraphs| - 1];
      ParagraphsSolid(init);
      LinesSolid(Split(last, "\n"));
      SplitSolid(last, "\n");
      SplitLast(paragraphs);
      SolidAllConcat(init, [last]);
      SolidAllOne(last);
      SolidAllConcat(SentencesOfParagraphs(init), SentencesOfLines(Split(last, "\n")));
    }
  }

  /** Splitting a page into sentences keeps every non-whitespace character, in order. */
  lemma SplittingConservesTheText(text: string)
    ensures SolidAll(Sentences(text)) == Solid(text)
  {
    SplitSolid(text, "\n\n");
    NonBlankSolid(Split(text, "\n\n"));
    ParagraphsSolid(NonBlank(Split(text, "\n\n")));
  }

  /** When no paragraph is found the text is blank, so the whole-text fallback never adds one. */
  lemma FallbackNeverUsed(text: string)
    ensures NonBlank(Split(text, "\n\n")) == [] <==> Strip(text) == []
  {
    var paragraphs := Split(text, "\n\n");
    SplitSolid(text, "\n\n");
    NonBlankSolid(paragraphs);
    StripEmpty(text);
    if NonBlank(paragraphs) != [] {
      assert NonBlank(paragraphs)[0] in NonBlank(paragraphs);
    }
  }

  // ---------------------------------------------------------------- packing loses nothing solid

  function UnitTexts(units: seq<Unit>): (texts: seq<string>)
    ensures |texts| == |units|
  {
    seq(|units|, i requires 0 <= i < |units| =>
      match units[i] case Whole(s) => s case Word(w) => w)
  }

  function SolidUnits(units: seq<Unit>): string {
    SolidAll(UnitTexts(units))
  }

  lemma SolidUnitsConcat(a: seq<Unit>, b: seq<Unit>)
    ensures SolidUnits(a + b) == SolidUnits(a) + SolidUnits(b)
  {
    assert UnitTexts(a + b) == UnitTexts(a) + UnitTexts(b);
    SolidAllConcat(UnitTexts(a), UnitTexts(b));
  }

  lemma {:induction false} UnitsSolid(sentences: seq<string>, max: int)
    ensures SolidUnits(UnitsOfText(sentences, max)) == SolidAll(sentences)
  {
    if sentences != [] {
      var init, last := sentences[..|sentences| - 1], sentences[|sentences| - 1];
      UnitsSolid(init, max);
      SolidUnitsConcat(UnitsOfText(init, max), UnitsOfSentence(last, max));
      SplitLast(sentences);
      SolidAllConcat(init, [last]);
      SolidAllOne(last);
      SplitSolid(last, " ");
      assert UnitTexts(Words(Split(last, " "))) == Split(last, " ");
      assert UnitTexts([Whole(last)]) == [last];
    }
  }

  /** The text of a chunk without the sentences it carried over. */
  function FreshText(p: Piece): string {
    match p
    case Run(sentences, carried) => if carried <= |sentences| then Join(" ", sentences[carried..]) else []
    case Wrapped(words) => Join(" ", words)
  }

  lemma FreshTextSolid(p: Piece)
    ensures Solid(FreshText(p)) == SolidUnits(FreshUnits(p))
  {
    match p
    case Run(sentences, carried) =>
      if carried <= |sentences| {
        JoinSolid(" ", sentences[carried..]);
        assert UnitTexts(Wholes(sentences[carried..])) == sentences[carried..];
      }
    case Wrapped(words) =>
      JoinSolid(" ", words);
      assert UnitTexts(Words(words)) == words;
  }

  /** The non-whitespace characters of every chunk's own part, chunk after chunk. */
  function SolidFresh(pieces: seq<Piece>): string {
    if pieces == [] then [] else SolidFresh(pieces[..|pieces| - 1]) + Solid(FreshText(pieces[|pieces| - 1]))
  }

  lemma {:induction false} SolidFreshIsUnits(pieces: seq<Piece>)
    ensures SolidFresh(pieces) == SolidUnits(AllFresh(pieces))
  {
    if pieces != [] {
      SolidFreshIsUnits(pieces[..|pieces| - 1]);
      FreshTextSolid(pieces[|pieces| - 1]);
      SolidUnitsConcat(AllFresh(pieces[..|pieces| - 1]), FreshUnits(pieces[|pieces| - 1]));
    }
  }

  /** What a chunk repeats from the one before it. */
  function CarriedText(p: Piece): string {
    if p.Run? && p.carried <= |p.sentences| then Join(" ", p.sentences[..p.carried]) else []
  }

  lemma ChunkIsCarriedThenFresh(p: Piece)
    requires p.Run? ==> p.carried <= |p.sentences|
    ensures Solid(TextOf(p)) == Solid(CarriedText(p)) + Solid(FreshText(p))
  {
    if p.Run? {
      JoinSolid(" ", p.sentences);
      JoinSolid(" ", p.sentences[..p.carried]);
      JoinSolid(" ", p.sentences[p.carried..]);
      assert p.sentences == p.sentences[..p.carried] + p.sentences[p.carried..];
      SolidAllConcat(p.sentences[..p.carried], p.sentences[p.carried..]);
    }
  }

  // ---------------------------------------------------------------- a page as a whole

  /** The pieces whose text is not blank: the ones that become chunks. */
  function Kept(pieces: seq<Piece>): seq<Piece> {
    if pieces == [] then []
    else
      var last := pieces[|pieces| - 1];
      var rest := Kept(pieces[..|pieces| - 1]);
      if Strip(TextOf(last)) == [] then rest else rest + [last]
  }

  /** Chunk i is piece i: the same solid characters, what it carried first and its own part after. */
  ghost predicate IsChunkOf(c: Chunk, p: Piece, number: int) {
    && c.number == number
    && c.text == Strip(TextOf(p)) && c.text != []
    && Solid(c.text) == Solid(CarriedText(p)) + Solid(FreshText(p))
  }

  ghost predicate AreChunksOf(chunks: seq<Chunk>, pieces: seq<Piece>, number: int) {
    && |chunks| == |pieces|
    && forall i :: 0 <= i < |chunks| ==> IsChunkOf(chunks[i], pieces[i], number)
  }

  lemma PieceConserved(p: Piece)
    requires p.Run? ==> p.carried <= |p.sentences|
    ensures Solid(Strip(TextOf(p))) == Solid(CarriedText(p)) + Solid(FreshText(p))
    ensures Strip(TextOf(p)) == [] ==> Solid(FreshText(p)) == []
  {
    ChunkIsCarriedThenFresh(p);
    StripSolid(TextOf(p));
    StripEmpty(TextOf(p));
  }

  lemma SolidFreshAppend(pieces: seq<Piece>, p: Piece)
    ensures SolidFresh(pieces + [p]) == SolidFresh(pieces) + Solid(FreshText(p))
  {
    assert (pieces + [p])[..|pieces|] == pieces;
  }

  lemma EmitStep(pieces: seq<Piece>, number: int)
    requires pieces != []
    ensures var init, last := pieces[..|pieces| - 1], pieces[|pieces| - 1];
            Emit(Texts(pieces), number)
              == (if Strip(TextOf(last)) == [] then Emit(Texts(init), number)
                  else Emit(Texts(init), number) + [Chunk(Strip(TextOf(last)), number)])
  {
    assert Texts(pieces)[..|pieces| - 1] == Texts(pieces[..|pieces| - 1]);
  }

  lemma ChunksExtend(chunks: seq<Chunk>, pieces: seq<Piece>, number: int, c: Chunk, p: Piece)
    requires AreChunksOf(chunks, pieces, number) && IsChunkOf(c, p, number)
    ensures AreChunksOf(chunks + [c], pieces + [p], number)
  {
    var chunks', pieces' := chunks + [c], pieces + [p];
    forall i | 0 <= i < |chunks'| ensures IsChunkOf(chunks'[i], pieces'[i], number) {
      assert i < |chunks| ==> IsChunkOf(chunks[i], pieces[i], number);
    }
  }

  lemma {:induction false} EmitKeeps(pieces: seq<Piece>, number: int)
    requires forall i :: 0 <= i < |pieces| && pieces[i].Run? ==> pieces[i].carried <= |pieces[i].sentences|
    ensures AreChunksOf(Emit(Texts(pieces), number), Kept(pieces), number)
    ensures SolidFresh(Kept(pieces)) == SolidFresh(pieces)
  {
    if pieces != [] {
      var init, last := pieces[..|pieces| - 1], pieces[|pieces| - 1];
      EmitKeeps(init, number);
      PieceConserved(last);
      EmitStep(pieces, number);
      var text := Strip(TextOf(last));
      if text != [] {
        ChunksExtend(Emit(Texts(init), number), Kept(init), number, Chunk(text, number), last);
        SolidFreshAppend(Kept(init), last);
      }
    }
  }

  /** Chunking a page conserves its non-whitespace characters in order: the chunks of the page all
      carry its number, and their own parts, overlaps removed, spell the page out. */
  lemma PageIsConserved(page: Page, max: int, overlap: int)
    ensures var kept := Kept(Pack(Sentences(page.text), max, overlap));
            && AreChunksOf(PageChunks(page, max, overlap), kept, page.number)
            && SolidFresh(kept) == Solid(page.text)
  {
    var sentences := Sentences(page.text);
    var pieces := Pack(sentences, max, overlap);
    OverlapsAreLongestProperTails(sentences, max, overlap);
    forall i | 0 <= i < |pieces| && pieces[i].Run? ensures pieces[i].carried <= |pieces[i].sentences| {
      assert PieceFits(pieces[i], max);
    }
    EmitKeeps(pieces, page.number);
    SolidFreshIsUnits(pieces);
    ChunksReconstructTheText(sentences, max, overlap);
    UnitsSolid(sentences, max);
    SplittingConservesTheText(page.text);
  }

  /** A blank page, and only a blank page, yields no chunk. */
  lemma OnlyBlankPagesVanish(page: Page, max: int, overlap: int)
    ensures PageChunks(page, max, overlap) == [] <==> Strip(page.text) == []
  {
    PageIsConserved(page, max, overlap);
    StripEmpty(page.text);
    FallbackNeverUsed(page.text);
  }

  lemma {:induction false} EmitTexts(texts: seq<string>, number: int, c: Chunk)
    requires c in Emit(texts, number)
    ensures c.number == number && c.text != [] && exists i :: 0 <= i < |texts| && c.text == Strip(texts[i])
  {
    var init := texts[..|texts| - 1];
    if c in Emit(init, number) {
      EmitTexts(init, number, c);
      var i :| 0 <= i < |init| && c.text == Strip(init[i]);
      assert texts[i] == init[i];
    }
  }

  /** Every emitted chunk is shorter than the limit unless it is a single space-free word. */
  lemma EveryPageChunkFits(page: Page, max: int, overlap: int, c: Chunk)
    requires c in PageChunks(page, max, overlap)
    ensures c.number == page.number && 0 < |c.text| && (|c.text| < max || ' ' !in c.text)
  {
    var pieces := Pack(Sentences(page.text), max, overlap);
    EmitTexts(Texts(pieces), page.number, c);
    var i :| 0 <= i < |Texts(pieces)| && c.text == Strip(Texts(pieces)[i]);
    assert pieces[i] in pieces;
    EveryChunkFits(Sentences(page.text), max, overlap, pieces[i]);
    StripSolid(TextOf(pieces[i]));
  }

  lemma PageOfChunks(page: Page, max: int, overlap: int, number: int)
    ensures OfPage(PageChunks(page, max, overlap), number)
         == if page.number == number then PageChunks(page, max, overlap) else []
  {
    PageIsConserved(page, max, overlap);
    var chunks, kept := PageChunks(page, max, overlap), Kept(Pack(Sentences(page.text), max, overlap));
    forall i | 0 <= i < |chunks| ensures chunks[i].number == page.number {
      assert IsChunkOf(chunks[i], kept[i], page.number);
    }
    OfOnePage(chunks, page.number, number);
  }

  lemma AllChunksAppend(pages: seq<Page>, page: Page, max: int, overlap: int)
    ensures AllChunks(pages + [page], max, overlap) == AllChunks(pages, max, overlap) + PageChunks(page, max, overlap)
  {
    assert (pages + [page])[..|pages|] == pages;
  }

  /** Chunks come out page by page and never mix pages: those with one page number are the chunks of
      the pages with that number, in page order. */
  lemma {:induction false} PagesNeverMix(pages: seq<Page>, max: int, overlap: int, number: int)
    ensures OfPage(AllChunks(pages, max, overlap), number) == AllChunks(PagesNumbered(pages, number), max, overlap)
  {
    if pages != [] {
      var init, last := pages[..|pages| - 1], pages[|pages| - 1];
      PagesNeverMix(init, max, overlap, number);
      OfPageConcat(AllChunks(init, max, overlap), PageChunks(last, max, overlap), number);
      PageOfChunks(last, max, overlap, number);
      AllChunksAppend(PagesNumbered(init, number), last, max, overlap);
    }
  }

  function OfPage(chunks: seq<Chunk>, number: int): seq<Chunk> {
    if chunks == [] then []
    else
      var rest := OfPage(chunks[..|chunks| - 1], number);
      if chunks[|chunks| - 1].number == number then rest + [chunks[|chunks| - 1]] else rest
  }

  function PagesNumbered(pages: seq<Page>, number: int): seq<Page> {
    if pages == [] then []
    else
      var rest := PagesNumbered(pages[..|pages| - 1], number);
      if pages[|pages| - 1].number == number then rest + [pages[|pages| - 1]] else rest
  }

  lemma {:induction false} OfPageConcat(a: seq<Chunk>, b: seq<Chunk>, number: int)
    ensures OfPage(a + b, number) == OfPage(a, number) + OfPage(b, number)
  {
    if b == [] {
      assert a + b == a;
    } else {
      assert (a + b)[..|a + b| - 1] == a + b[..|b| - 1];
      OfPageConcat(a, b[..|b| - 1], number);
    }
  }

  lemma {:induction false} OfOnePage(chunks: seq<Chunk>, own: int, number: int)
    requires forall i :: 0 <= i < |chunks| ==> chunks[i].number == own
    ensures OfPage(chunks, number) == if own == number then chunks else []
  {
    if chunks != [] {
      OfOnePage(chunks[..|chunks| - 1], own, number);
      SplitLast(chunks);
    }
  }
}
