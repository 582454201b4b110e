/**
 The sentence packer: whole sentences packed greedily into chunks, each chunk starting with the
 tail of the one before it, and oversized sentences wrapped at their spaces.

 A piece remembers how a chunk came about - how many of its sentences were carried over from the
 chunk before - so that "the text without its overlaps" can be said.
 */
module Packing {
  import opened Common
  import opened Text

  datatype Piece = Run(sentences: seq<string>, carried: nat) | Wrapped(words: seq<string>)

  /** What one input sentence becomes: itself, or its words when it is too long for a chunk. */
  datatype Unit = Whole(sentence: string) | Word(word: string)

  function TextOf(p: Piece): string {
    match p
    case Run(sentences, _) => Join(" ", sentences)
    case Wrapped(words) => Join(" ", words)
  }

  /** Every sentence with the space that joins it to the next. */
  function Len(parts: seq<string>): nat {
    if parts == [] then 0 else Len(parts[..|parts| - 1]) + |parts[|parts| - 1]| + 1
  }

  /** The first sentence of the tail that fits the budget: drop from the front until it fits. */
  function OverlapStart(current: seq<string>, budget: int): (k: nat)
    ensures k <= |current|
  {
    if current == [] || Len(current) <= budget then 0 else 1 + OverlapStart(current[1..], budget)
  }

  datatype Wrapping = Wrapping(out: seq<Piece>, piece: seq<string>)

  function WrapWord(w: Wrapping, word: string, max: int): Wrapping {
    if w.piece != [] && Len(w.piece) + |word| + 1 > max
    then Wrapping(w.out + [Wrapped(w.piece)], [word])
    else Wrapping(w.out, w.piece + [word])
  }

  function WrapWords(words: seq<string>, max: int): Wrapping {
    if words == [] then Wrapping([], [])
    else WrapWord(WrapWords(words[..|words| - 1], max), words[|words| - 1], max)
  }

  function Wrap(words: seq<string>, max: int): seq<Piece> {
    var w := WrapWords(words, max);
    if w.piece == [] then w.out else w.out + [Wrapped(w.piece)]
  }

  datatype Packer = Packer(out: seq<Piece>, current: seq<string>, carried: nat)

  function Flushed(p: Packer): seq<Piece> {
    if p.current == [] then p.out else p.out + [Run(p.current, p.carried)]
  }

  function Min(a: int, b: int): int {
    if a < b then a else b
  }

  function PackSentence(p: Packer, sentence: string, max: int, overlap: int): Packer {
    if |sentence| + 1 > max then
      Packer(Flushed(p) + Wrap(Split(sentence, " "), max), [], 0)
    else if p.current != [] && Len(p.current) + |sentence| + 1 > max then
      var k := OverlapStart(p.current, Min(overlap, max - (|sentence| + 1)));
      Packer(Flushed(p), p.current[k..] + [sentence], |p.current| - k)
    else
      Packer(p.out, p.current + [sentence], p.carried)
  }

  function PackAll(sentences: seq<string>, max: int, overlap: int): Packer {
    if sentences == [] then Packer([], [], 0)
    else PackSentence(PackAll(sentences[..|sentences| - 1], max, overlap), sentences[|sentences| - 1], max, overlap)
  }

  function Pack(sentences: seq<string>, max: int, overlap: int): seq<Piece> {
    Flushed(PackAll(sentences, max, overlap))
  }

  // ---------------------------------------------------------------- lengths

  lemma {:induction false} LenConcat(a: seq<string>, b: seq<string>)
    ensures Len(a + b) == Len(a) + Len(b)
  {
    if b == [] {
      assert a + b == a;
    } else {
      assert (a + b)[..|a + b| - 1] == a + b[..|b| - 1];
      LenConcat(a, b[..|b| - 1]);
    }
  }

  lemma LenAppend(a: seq<string>, s: string)
    ensures Len(a + [s]) == Len(a) + |s| + 1
  {
    assert (a + [s])[..|a|] == a;
  }

  /** A joined chunk is one shorter than its parts with their spaces. */
  lemma {:induction false} JoinLength(parts: seq<string>)
    requires parts != []
    ensures |Join(" ", parts)| == Len(parts) - 1
  {
    if |parts| > 1 {
      assert parts == [parts[0]] + parts[1..];
      LenConcat([parts[0]], parts[1..]);
      LenAppend([], parts[0]);
      assert [] + [parts[0]] == [parts[0]];
      JoinLength(parts[1..]);
    } else {
      assert parts[..0] == [];
    }
  }

  lemma {:induction false} JoinAppend(parts: seq<string>, last: string)
    requires parts != []
    ensures Join(" ", parts + [last]) == Join(" ", parts) + " " + last
  {
    assert (parts + [last])[1..] == parts[1..] + [last];
    if |parts| > 1 {
      JoinAppend(parts[1..], last);
      assert Join(" ", parts) == parts[0] + " " + Join(" ", parts[1..]);
    } else {
      assert Join(" ", [last]) == last;
    }
  }

  /** A chunk is its sentences, or its words, with one space between each and the next. */
  lemma ChunkGrowsByASpace(parts: seq<string>, last: string, carried: nat)
    requires parts != []
    ensures TextOf(Run([last], carried)) == last == TextOf(Wrapped([last]))
    ensures TextOf(Run(parts + [last], carried)) == TextOf(Run(parts, carried)) + " " + last
    ensures TextOf(Wrapped(parts + [last])) == TextOf(Wrapped(parts)) + " " + last
  {
    JoinAppend(parts, last);
  }

  /** The tail that starts at k fits and every longer tail does not. */
  ghost predicate LongestTail(current: seq<string>, k: nat, budget: int)
    requires k <= |current|
  {
    && (k == |current| || Len(current[k..]) <= budget)
    && (forall j :: 0 <= j < k ==> Len(current[j..]) > budget)
  }

  lemma {:induction false} OverlapIsLongestTail(current: seq<string>, budget: int)
    ensures LongestTail(current, OverlapStart(current, budget), budget)
  {
    if current != [] && Len(current) > budget {
      var k := OverlapStart(current[1..], budget);
      OverlapIsLongestTail(current[1..], budget);
      assert current[1..][k..] == current[k + 1..];
      forall j | 0 <= j < k + 1 ensures Len(current[j..]) > budget {
        if j == 0 { assert current[0..] == current; } else { assert current[j..] == current[1..][j - 1..]; }
      }
    } else {
      assert current[0..] == current;
    }
  }

  lemma LongestTailUnique(current: seq<string>, k: nat, k': nat, budget: int)
    requires k <= |current| && k' <= |current|
    requires LongestTail(current, k, budget) && LongestTail(current, k', budget)
    ensures k == k'
  {
  }

  // ---------------------------------------------------------------- what is kept while packing

  ghost predicate PieceFits(p: Piece, max: int) {
    match p
    case Run(sentences, carried) => sentences != [] && carried < |sentences| && Len(sentences) <= max
    case Wrapped(words) =>
      && words != [] && (forall w :: w in words ==> ' ' !in w)
      && (Len(words) <= max || |words| == 1)
  }

  /** How a chunk overlaps the one before it: by the longest tail that fits both the overlap budget
      and the room its first new sentence leaves - never by all of it. And a chunk is closed only because the
      next sentence would not have fitted any more. */
  ghost predicate Overlaps(p: Piece, q: Piece, max: int, overlap: int) {
    p.Run? && q.Run? ==>
      && q.carried < |q.sentences| && q.carried < |p.sentences|
      && Len(p.sentences) + |q.sentences[q.carried]| + 1 > max
      && q.sentences[..q.carried] == p.sentences[|p.sentences| - q.carried..]
      && LongestTail(p.sentences, |p.sentences| - q.carried, Min(overlap, max - (|q.sentences[q.carried]| + 1)))
  }

  /** Nothing is carried into the first chunk, or across a wrapped sentence. */
  ghost predicate StartsFresh(before: seq<Piece>, q: Piece) {
    q.Run? && (before == [] || before[|before| - 1].Wrapped?) ==> q.carried == 0
  }

  ghost predicate ChainOk(pieces: seq<Piece>, max: int, overlap: int) {
    && (forall i :: 0 <= i < |pieces| ==> PieceFits(pieces[i], max))
    && (forall i :: 0 <= i < |pieces| ==> StartsFresh(pieces[..i], pieces[i]))
    && (forall i :: 0 <= i < |pieces| - 1 ==> Overlaps(pieces[i], pieces[i + 1], max, overlap))
  }

  lemma ChainExtends(pieces: seq<Piece>, q: Piece, max: int, overlap: int)
    requires ChainOk(pieces, max, overlap) && PieceFits(q, max) && StartsFresh(pieces, q)
    requires pieces != [] ==> Overlaps(pieces[|pieces| - 1], q, max, overlap)
    ensures ChainOk(pieces + [q], max, overlap)
  {
    var all := pieces + [q];
    forall i | 0 <= i < |all| ensures StartsFresh(all[..i], all[i]) {
      assert all[..i] == pieces[..i];
      assert pieces[..|pieces|] == pieces;
    }
  }

  lemma {:induction false} ChainExtendsWrapped(pieces: seq<Piece>, more: seq<Piece>, max: int, overlap: int)
    requires ChainOk(pieces, max, overlap)
    requires forall i :: 0 <= i < |more| ==> more[i].Wrapped? && PieceFits(more[i], max)
    ensures ChainOk(pieces + more, max, overlap)
  {
    if more == [] {
      assert pieces + more == pieces;
    } else {
      var init := more[..|more| - 1];
      ChainExtendsWrapped(pieces, init, max, overlap);
      ChainExtends(pieces + init, more[|more| - 1], max, overlap);
      assert pieces + more == (pieces + init) + [more[|more| - 1]];
    }
  }

  ghost predicate WrapOk(w: Wrapping, max: int) {
    && (forall i :: 0 <= i < |w.out| ==> w.out[i].Wrapped? && PieceFits(w.out[i], max))
    && (w.piece != [] ==> PieceFits(Wrapped(w.piece), max))
  }

  /** A wrapped piece is closed only because the next word would not have fitted. */
  ghost predicate FullBefore(p: Piece, q: Piece, max: int) {
    p.Wrapped? && q.Wrapped? && q.words != [] ==> Len(p.words) + |q.words[0]| + 1 > max
  }

  ghost predicate AllFull(pieces: seq<Piece>, max: int) {
    forall i :: 0 <= i < |pieces| - 1 ==> FullBefore(pieces[i], pieces[i + 1], max)
  }

  lemma {:induction false} WrapIsGreedy(words: seq<string>, max: int)
    ensures AllFull(Wrap(words, max), max)
  {
    if words != [] {
      var init, word := words[..|words| - 1], words[|words| - 1];
      var w := WrapWords(init, max);
      WrapIsGreedy(init, max);
      if w.piece != [] {
        var before, after := Wrap(init, max), Wrap(words, max);
        forall i | 0 <= i < |after| - 1 ensures FullBefore(after[i], after[i + 1], max) {
          assert i < |before| - 1 ==> FullBefore(before[i], before[i + 1], max);
        }
      }
    }
  }

  lemma WordKeeps(w: Wrapping, word: string, max: int)
    requires WrapOk(w, max) && ' ' !in word
    ensures WrapOk(WrapWord(w, word, max), max) && WrapWord(w, word, max).piece != []
  {
    LenAppend(w.piece, word);
    assert w.piece == [] ==> w.piece + [word] == [word];
  }

  lemma {:induction false} WrapKeeps(words: seq<string>, max: int)
    requires forall w :: w in words ==> ' ' !in w
    ensures WrapOk(WrapWords(words, max), max)
    ensures words != [] ==> WrapWords(words, max).piece != []
  {
    if words != [] {
      var init, word := words[..|words| - 1], words[|words| - 1];
      assert word in words;
      WrapKeeps(init, max);
      WordKeeps(WrapWords(init, max), word, max);
    }
  }

  lemma WrapFits(words: seq<string>, max: int)
    requires words != [] && forall w :: w in words ==> ' ' !in w
    ensures var pieces := Wrap(words, max);
            pieces != [] && forall i :: 0 <= i < |pieces| ==> pieces[i].Wrapped? && PieceFits(pieces[i], max)
  {
    WrapKeeps(words, max);
  }

  ghost predicate PackerOk(p: Packer, max: int, overlap: int) {
    && ChainOk(p.out, max, overlap)
    && (p.current == [] ==> p.carried == 0 && (p.out == [] || p.out[|p.out| - 1].Wrapped?))
    && (p.current != [] ==>
          && PieceFits(Run(p.current, p.carried), max)
          && StartsFresh(p.out, Run(p.current, p.carried))
          && (p.out != [] ==> Overlaps(p.out[|p.out| - 1], Run(p.current, p.carried), max, overlap)))
  }

  lemma FlushedOk(p: Packer, max: int, overlap: int)
    requires PackerOk(p, max, overlap)
    ensures ChainOk(Flushed(p), max, overlap)
  {
    if p.current != [] { ChainExtends(p.out, Run(p.current, p.carried), max, overlap); }
  }

  lemma OversizedKeeps(p: Packer, sentence: string, max: int, overlap: int)
    requires PackerOk(p, max, overlap) && |sentence| + 1 > max
    ensures PackerOk(PackSentence(p, sentence, max, overlap), max, overlap)
  {
    FlushedOk(p, max, overlap);
    PiecesLackSeparator(sentence, ' ', 0);
    WrapFits(Split(sentence, " "), max);
    ChainExtendsWrapped(Flushed(p), Wrap(Split(sentence, " "), max), max, overlap);
  }

  /** A chunk that is full and a sentence that does not fit: the tail that does is a proper one. */
  lemma ProperTail(current: seq<string>, sentence: string, max: int, overlap: int)
    requires current != [] && |sentence| + 1 <= max && Len(current) + |sentence| + 1 > max
    ensures var budget := Min(overlap, max - (|sentence| + 1));
            var k := OverlapStart(current, budget);
            0 < k <= |current| && LongestTail(current, k, budget) && Len(current[k..]) <= max - (|sentence| + 1)
  {
    var budget := Min(overlap, max - (|sentence| + 1));
    var k := OverlapStart(current, budget);
    OverlapIsLongestTail(current, budget);
    assert k == |current| ==> current[k..] == [];
  }

  /** Starting the next chunk with the longest tail of the flushed one. */
  lemma OverlapLinks(current: seq<string>, carried: nat, sentence: string, max: int, overlap: int)
    requires current != [] && |sentence| + 1 <= max && Len(current) + |sentence| + 1 > max
    ensures var k := OverlapStart(current, Min(overlap, max - (|sentence| + 1)));
            var next := Run(current[k..] + [sentence], |current| - k);
            PieceFits(next, max) && Overlaps(Run(current, carried), next, max, overlap)
  {
    ProperTail(current, sentence, max, overlap);
    var k := OverlapStart(current, Min(overlap, max - (|sentence| + 1)));
    var tail := current[k..];
    LenAppend(tail, sentence);
    var next, c := tail + [sentence], |current| - k;
    assert next[..c] == tail && next[c] == sentence;
    assert current[|current| - c..] == tail;
  }

  lemma FlushKeeps(p: Packer, sentence: string, max: int, overlap: int)
    requires PackerOk(p, max, overlap) && |sentence| + 1 <= max
    requires p.current != [] && Len(p.current) + |sentence| + 1 > max
    ensures PackerOk(PackSentence(p, sentence, max, overlap), max, overlap)
  {
    FlushedOk(p, max, overlap);
    OverlapLinks(p.current, p.carried, sentence, max, overlap);
    assert Flushed(p)[|Flushed(p)| - 1] == Run(p.current, p.carried);
  }

  lemma AppendKeeps(p: Packer, sentence: string, max: int, overlap: int)
    requires PackerOk(p, max, overlap) && |sentence| + 1 <= max
    requires p.current != [] ==> Len(p.current) + |sentence| + 1 <= max
    ensures PackerOk(PackSentence(p, sentence, max, overlap), max, overlap)
  {
    LenAppend(p.current, sentence);
    if p.current == [] {
      assert p.current + [sentence] == [sentence];
    } else {
      LongerFits(p.current, p.carried, sentence, max);
      if p.out != [] { LongerOverlaps(p.out[|p.out| - 1], p.current, p.carried, sentence, max, overlap); }
    }
  }

  lemma LongerFits(current: seq<string>, carried: nat, sentence: string, max: int)
    requires PieceFits(Run(current, carried), max) && Len(current) + |sentence| + 1 <= max
    ensures PieceFits(Run(current + [sentence], carried), max)
  {
    LenAppend(current, sentence);
  }

  lemma LongerOverlaps(p: Piece, current: seq<string>, carried: nat, sentence: string, max: int, overlap: int)
    requires Overlaps(p, Run(current, carried), max, overlap) && carried < |current|
    ensures Overlaps(p, Run(current + [sentence], carried), max, overlap)
  {
    var next := current + [sentence];
    assert next[..carried] == current[..carried] && next[carried] == current[carried];
  }

  lemma {:induction false} PackingKeeps(sentences: seq<string>, max: int, overlap: int)
    ensures PackerOk(PackAll(sentences, max, overlap), max, overlap)
  {
    if sentences != [] {
      var init, s := sentences[..|sentences| - 1], sentences[|sentences| - 1];
      var p := PackAll(init, max, overlap);
      PackingKeeps(init, max, overlap);
      if |s| + 1 > max { OversizedKeeps(p, s, max, overlap); }
      else if p.current != [] && Len(p.current) + |s| + 1 > max { FlushKeeps(p, s, max, overlap); }
      else { AppendKeeps(p, s, max, overlap); }
    }
  }

  /** Chunk boundaries: consecutive chunks overlap by the longest tail within the budget, always a
      proper tail, and every chunk adds at least one sentence. */
  lemma OverlapsAreLongestProperTails(sentences: seq<string>, max: int, overlap: int)
    ensures ChainOk(Pack(sentences, max, overlap), max, overlap)
  {
    PackingKeeps(sentences, max, overlap);
    FlushedOk(PackAll(sentences, max, overlap), max, overlap);
  }

  /** Every chunk is strictly shorter than the limit unless it is one single word without spaces. */
  lemma EveryChunkFits(sentences: seq<string>, max: int, overlap: int, p: Piece)
    requires p in Pack(sentences, max, overlap)
    ensures |TextOf(p)| < max || (p.Wrapped? && |p.words| == 1 && ' ' !in TextOf(p))
  {
    OverlapsAreLongestProperTails(sentences, max, overlap);
    var pieces := Pack(sentences, max, overlap);
    var i :| 0 <= i < |pieces| && pieces[i] == p;
    assert PieceFits(pieces[i], max);
    match p
    case Run(ss, _) => JoinLength(ss);
    case Wrapped(words) => JoinLength(words); assert words[0] in words;
  }

  // ---------------------------------------------------------------- reconstruction

  function Wholes(sentences: seq<string>): (units: seq<Unit>)
    ensures |units| == |sentences|
  {
    seq(|sentences|, i requires 0 <= i < |sentences| => Whole(sentences[i]))
  }

  function Words(words: seq<string>): (units: seq<Unit>)
    ensures |units| == |words|
  {
    seq(|words|, i requires 0 <= i < |words| => Word(words[i]))
  }

  function UnitsOfSentence(sentence: string, max: int): seq<Unit> {
    if |sentence| + 1 > max then Words(Split(sentence, " ")) else [Whole(sentence)]
  }

  function UnitsOfText(sentences: seq<string>, max: int): seq<Unit> {
    if sentences == [] then []
    else UnitsOfText(sentences[..|sentences| - 1], max) + UnitsOfSentence(sentences[|sentences| - 1], max)
  }

  /** A chunk without what it carried over. */
  function FreshUnits(p: Piece): seq<Unit> {
    match p
    case Run(sentences, carried) => if carried <= |sentences| then Wholes(sentences[carried..]) else []
    case Wrapped(words) => Words(words)
  }

  function AllFresh(pieces: seq<Piece>): seq<Unit> {
    if pieces == [] then [] else AllFresh(pieces[..|pieces| - 1]) + FreshUnits(pieces[|pieces| - 1])
  }

  lemma SplitLast<T>(s: seq<T>)
    requires s != []
    ensures s == s[..|s| - 1] + [s[|s| - 1]]
  {
  }

  lemma AllFreshAppend(pieces: seq<Piece>, p: Piece)
    ensures AllFresh(pieces + [p]) == AllFresh(pieces) + FreshUnits(p)
  {
    assert (pieces + [p])[..|pieces|] == pieces;
  }

  lemma {:induction false} AllFreshConcat(a: seq<Piece>, b: seq<Piece>)
    ensures AllFresh(a + b) == AllFresh(a) + AllFresh(b)
  {
    if b == [] {
      assert a + b == a;
    } else {
      var init, last := b[..|b| - 1], b[|b| - 1];
      calc {
        AllFresh(a + b);
        { SplitLast(b); Assoc(a, init, [last]); }
        AllFresh((a + init) + [last]);
        { AllFreshAppend(a + init, last); }
        AllFresh(a + init) + FreshUnits(last);
        { AllFreshConcat(a, init); }
        (AllFresh(a) + AllFresh(init)) + FreshUnits(last);
        { Assoc(AllFresh(a), AllFresh(init), FreshUnits(last)); }
        AllFresh(a) + (AllFresh(init) + FreshUnits(last));
        AllFresh(a) + AllFresh(b);
      }
    }
  }

  lemma WordsAppend(words: seq<string>, word: string)
    ensures Words(words + [word]) == Words(words) + [Word(word)]
  {
  }

  lemma WholesAppend(sentences: seq<string>, s: string)
    ensures Wholes(sentences + [s]) == Wholes(sentences) + [Whole(s)]
  {
  }

  lemma {:induction false} WrapKeepsWords(words: seq<string>, max: int)
    ensures var w := WrapWords(words, max); AllFresh(w.out) + Words(w.piece) == Words(words)
  {
    if words != [] {
      var init, word := words[..|words| - 1], words[|words| - 1];
      var w, next := WrapWords(init, max), WrapWords(words, max);
      calc {
        Words(words);
        { SplitLast(words); WordsAppend(init, word); }
        Words(init) + [Word(word)];
        { WrapKeepsWords(init, max); }
        (AllFresh(w.out) + Words(w.piece)) + [Word(word)];
        { WrapStepFresh(w, word, max); }
        AllFresh(next.out) + Words(next.piece);
      }
    }
  }

  lemma WrapStepFresh(w: Wrapping, word: string, max: int)
    ensures var next := WrapWord(w, word, max);
            AllFresh(next.out) + Words(next.piece) == (AllFresh(w.out) + Words(w.piece)) + [Word(word)]
  {
    if w.piece != [] && Len(w.piece) + |word| + 1 > max {
      AllFreshAppend(w.out, Wrapped(w.piece));
      assert Words([word]) == [Word(word)];
    } else {
      WordsAppend(w.piece, word);
      Assoc(AllFresh(w.out), Words(w.piece), [Word(word)]);
    }
  }

  lemma WrapFresh(words: seq<string>, max: int)
    ensures AllFresh(Wrap(words, max)) == Words(words)
  {
    WrapKeepsWords(words, max);
    var w := WrapWords(words, max);
    AllFreshAppend(w.out, Wrapped(w.piece));
  }

  function FreshOf(p: Packer): seq<Unit> {
    AllFresh(p.out) + if p.carried <= |p.current| then Wholes(p.current[p.carried..]) else []
  }

  lemma FlushedFresh(p: Packer)
    requires p.current == [] ==> p.carried == 0
    ensures AllFresh(Flushed(p)) == FreshOf(p)
  {
    if p.current != [] { AllFreshAppend(p.out, Run(p.current, p.carried)); }
  }

  /** One sentence adds its own units and nothing else. */
  lemma SentenceFresh(p: Packer, s: string, max: int, overlap: int)
    requires p.current == [] ==> p.carried == 0
    requires p.carried <= |p.current|
    ensures FreshOf(PackSentence(p, s, max, overlap)) == FreshOf(p) + UnitsOfSentence(s, max)
  {
    FlushedFresh(p);
    if |s| + 1 > max {
      AllFreshConcat(Flushed(p), Wrap(Split(s, " "), max));
      WrapFresh(Split(s, " "), max);
    } else if p.current != [] && Len(p.current) + |s| + 1 > max {
      var k := OverlapStart(p.current, Min(overlap, max - (|s| + 1)));
      assert (p.current[k..] + [s])[|p.current| - k..] == [s];
      assert Wholes([s]) == [Whole(s)];
    } else {
      assert (p.current + [s])[p.carried..] == p.current[p.carried..] + [s];
      WholesAppend(p.current[p.carried..], s);
      Assoc(AllFresh(p.out), Wholes(p.current[p.carried..]), [Whole(s)]);
    }
  }

  lemma {:induction false} PackingLosesNothing(sentences: seq<string>, max: int, overlap: int)
    ensures FreshOf(PackAll(sentences, max, overlap)) == UnitsOfText(sentences, max)
  {
    if sentences != [] {
      var init, s := sentences[..|sentences| - 1], sentences[|sentences| - 1];
      PackingLosesNothing(init, max, overlap);
      PackingKeeps(init, max, overlap);
      SentenceFresh(PackAll(init, max, overlap), s, max, overlap);
    }
  }

  /** Without their overlaps the chunks give back the input sentences, each once and in order;
      an oversized sentence comes back as its words. */
  lemma ChunksReconstructTheText(sentences: seq<string>, max: int, overlap: int)
    ensures AllFresh(Pack(sentences, max, overlap)) == UnitsOfText(sentences, max)
  {
    PackingLosesNothing(sentences, max, overlap);
    PackingKeeps(sentences, max, overlap);
    FlushedFresh(PackAll(sentences, max, overlap));
  }

  // ---------------------------------------------------------------- contiguity

  /** The input sentences a chunk is made of: from the first up to, not including, the second. */
  datatype Span = Span(from: nat, upto: nat)

  ghost predicate Spells(sentences: seq<string>, p: Piece, x: Span, max: int) {
    && x.from < x.upto <= |sentences|
    && match p
       case Run(ss, _) => ss == sentences[x.from..x.upto]
       case Wrapped(_) => x.upto == x.from + 1 && |sentences[x.from]| + 1 > max
  }

  /** The next chunk starts later, ends later and leaves no gap; pieces of one wrapped sentence share it. */
  predicate Follows(p: Piece, x: Span, q: Piece, y: Span) {
    if p.Run? && q.Run? then x.from < y.from <= x.upto < y.upto && y.from + q.carried == x.upto
    else y.from == x.upto || (p.Wrapped? && q.Wrapped? && y == x)
  }

  function EndOf(spans: seq<Span>): nat {
    if spans == [] then 0 else spans[|spans| - 1].upto
  }

  ghost predicate Tiles(sentences: seq<string>, pieces: seq<Piece>, spans: seq<Span>, max: int) {
    && |spans| == |pieces|
    && (forall i :: 0 <= i < |pieces| ==> Spells(sentences, pieces[i], spans[i], max))
    && (forall i :: 0 < i < |pieces| ==> Follows(pieces[i - 1], spans[i - 1], pieces[i], spans[i]))
    && (spans != [] ==> spans[0].from == 0)
  }

  lemma TilesMore(sentences: seq<string>, s: string, pieces: seq<Piece>, spans: seq<Span>, max: int)
    requires Tiles(sentences, pieces, spans, max)
    ensures Tiles(sentences + [s], pieces, spans, max)
  {
    forall i | 0 <= i < |pieces| ensures Spells(sentences + [s], pieces[i], spans[i], max) {
      assert Spells(sentences, pieces[i], spans[i], max);
      assert (sentences + [s])[spans[i].from..spans[i].upto] == sentences[spans[i].from..spans[i].upto];
    }
  }

  lemma TilesExtend(sentences: seq<string>, pieces: seq<Piece>, spans: seq<Span>, q: Piece, y: Span, max: int)
    requires Tiles(sentences, pieces, spans, max) && Spells(sentences, q, y, max)
    requires if pieces == [] then y.from == 0 else Follows(pieces[|pieces| - 1], spans[|pieces| - 1], q, y)
    ensures Tiles(sentences, pieces + [q], spans + [y], max)
  {
  }

  lemma TilesInit(sentences: seq<string>, pieces: seq<Piece>, spans: seq<Span>, max: int)
    requires Tiles(sentences, pieces, spans, max) && pieces != []
    ensures Tiles(sentences, pieces[..|pieces| - 1], spans[..|pieces| - 1], max)
  {
  }

  /** All pieces of one wrapped sentence span that sentence. */
  lemma {:induction false} TilesWrapped(sentences: seq<string>, pieces: seq<Piece>, spans: seq<Span>,
                                        wrapped: seq<Piece>, n: nat, max: int) returns (all: seq<Span>)
    requires Tiles(sentences, pieces, spans, max) && EndOf(spans) == n < |sentences| && |sentences[n]| + 1 > max
    requires wrapped != [] && forall i :: 0 <= i < |wrapped| ==> wrapped[i].Wrapped?
    ensures Tiles(sentences, pieces + wrapped, all, max) && EndOf(all) == n + 1
    ensures all[|all| - 1] == Span(n, n + 1)
  {
    var init, last := wrapped[..|wrapped| - 1], wrapped[|wrapped| - 1];
    assert pieces + wrapped == (pieces + init) + [last];
    if init == [] {
      assert pieces + init == pieces;
      TilesExtend(sentences, pieces, spans, last, Span(n, n + 1), max);
      all := spans + [Span(n, n + 1)];
    } else {
      var before := TilesWrapped(sentences, pieces, spans, init, n, max);
      TilesExtend(sentences, pieces + init, before, last, Span(n, n + 1), max);
      all := before + [Span(n, n + 1)];
    }
  }

  lemma TailSpells(sentences: seq<string>, from: nat, k: nat, s: string)
    requires from + k <= |sentences|
    ensures sentences[from..][k..] + [s] == (sentences + [s])[from + k..|sentences| + 1]
  {
  }

  /** The open chunk spans the end of the input. */
  lemma OpenSpan(sentences: seq<string>, out: seq<Piece>, current: seq<string>, carried: nat, spans: seq<Span>,
                 max: int)
    requires Tiles(sentences, out + [Run(current, carried)], spans, max) && EndOf(spans) == |sentences|
    ensures var from := spans[|out|].from;
            |spans| == |out| + 1 && spans[|out|] == Span(from, |sentences|) && from < |sentences|
            && current == sentences[from..]
  {
    assert Spells(sentences, (out + [Run(current, carried)])[|out|], spans[|out|], max);
  }

  /** The tail carried into the next chunk, and the sentence after it. */
  lemma TilesNext(sentences: seq<string>, out: seq<Piece>, current: seq<string>, carried: nat, spans: seq<Span>,
                  s: string, k: nat, max: int) returns (all: seq<Span>)
    requires Tiles(sentences, out + [Run(current, carried)], spans, max) && EndOf(spans) == |sentences|
    requires 0 < k <= |current|
    ensures Tiles(sentences + [s], out + [Run(current, carried)] + [Run(current[k..] + [s], |current| - k)], all, max)
    ensures EndOf(all) == |sentences| + 1
  {
    OpenSpan(sentences, out, current, carried, spans, max);
    var y := Span(spans[|out|].from + k, |sentences| + 1);
    TailSpells(sentences, spans[|out|].from, k, s);
    TilesMore(sentences, s, out + [Run(current, carried)], spans, max);
    TilesExtend(sentences + [s], out + [Run(current, carried)], spans, Run(current[k..] + [s], |current| - k), y, max);
    all := spans + [y];
  }

  /** One sentence more in the open chunk. */
  lemma TilesLonger(sentences: seq<string>, out: seq<Piece>, current: seq<string>, carried: nat, spans: seq<Span>,
                    s: string, max: int) returns (all: seq<Span>)
    requires Tiles(sentences, out + [Run(current, carried)], spans, max) && EndOf(spans) == |sentences|
    ensures Tiles(sentences + [s], out + [Run(current + [s], carried)], all, max) && EndOf(all) == |sentences| + 1
  {
    OpenSpan(sentences, out, current, carried, spans, max);
    var pieces, y := out + [Run(current, carried)], Span(spans[|out|].from, |sentences| + 1);
    TilesMore(sentences, s, pieces, spans, max);
    TilesInit(sentences + [s], pieces, spans, max);
    assert pieces[..|pieces| - 1] == out;
    TailSpells(sentences, y.from, 0, s);
    assert |out| > 0 ==> Follows(pieces[|out| - 1], spans[|out| - 1], pieces[|out|], spans[|out|]);
    TilesExtend(sentences + [s], out, spans[..|out|], Run(current + [s], carried), y, max);
    all := spans[..|out|] + [y];
  }

  /** The first sentence of a chunk that carries nothing. */
  lemma TilesFirst(sentences: seq<string>, pieces: seq<Piece>, spans: seq<Span>, s: string, max: int)
    returns (all: seq<Span>)
    requires Tiles(sentences, pieces, spans, max) && EndOf(spans) == |sentences|
    requires pieces != [] ==> pieces[|pieces| - 1].Wrapped?
    ensures Tiles(sentences + [s], pieces + [Run([s], 0)], all, max) && EndOf(all) == |sentences| + 1
  {
    var y := Span(|sentences|, |sentences| + 1);
    TilesMore(sentences, s, pieces, spans, max);
    TilesExtend(sentences + [s], pieces, spans, Run([s], 0), y, max);
    all := spans + [y];
  }

  lemma TilesSentence(sentences: seq<string>, p: Packer, spans: seq<Span>, s: string, max: int, overlap: int)
    returns (all: seq<Span>)
    requires Tiles(sentences, Flushed(p), spans, max) && EndOf(spans) == |sentences| && PackerOk(p, max, overlap)
    requires |s| + 1 <= max
    ensures Tiles(sentences + [s], Flushed(PackSentence(p, s, max, overlap)), all, max)
    ensures EndOf(all) == |sentences| + 1
  {
    if p.current == [] {
      assert [] + [s] == [s];
      all := TilesFirst(sentences, p.out, spans, s, max);
    } else if Len(p.current) + |s| + 1 > max {
      ProperTail(p.current, s, max, overlap);
      var k := OverlapStart(p.current, Min(overlap, max - (|s| + 1)));
      all := TilesNext(sentences, p.out, p.current, p.carried, spans, s, k, max);
    } else {
      all := TilesLonger(sentences, p.out, p.current, p.carried, spans, s, max);
    }
  }

  /** Every chunk is a contiguous run of the input - or part of one wrapped sentence - and the runs go
      through the input from its first sentence to its last without a gap, both ends strictly advancing
      and each run starting within the one before it or right after. */
  lemma {:induction false} ChunksAreContiguous(sentences: seq<string>, max: int, overlap: int)
    returns (spans: seq<Span>)
    ensures Tiles(sentences, Pack(sentences, max, overlap), spans, max) && EndOf(spans) == |sentences|
  {
    if sentences == [] { return []; }
    var init, s := sentences[..|sentences| - 1], sentences[|sentences| - 1];
    var p := PackAll(init, max, overlap);
    var before := ChunksAreContiguous(init, max, overlap);
    assert sentences == init + [s];
    PackingKeeps(init, max, overlap);
    if |s| + 1 > max {
      TilesMore(init, s, Flushed(p), before, max);
      PiecesLackSeparator(s, ' ', 0);
      WrapFits(Split(s, " "), max);
      spans := TilesWrapped(sentences, Flushed(p), before, Wrap(Split(s, " "), max), |init|, max);
    } else {
      spans := TilesSentence(init, p, before, s, max, overlap);
    }
  }
}
