/**
 The string operations the chunker is made of, and what they do to the solid (non-whitespace)
 characters of a text.
 */
module Text {

  /** str.isspace, which is also what the pattern \s matches. */
  predicate IsSpace(c: char) {
    c in {' ', '\t', '\n', '\r', '\U{0b}', '\U{0c}', '\U{1c}', '\U{1d}', '\U{1e}', '\U{1f}', '\U{85}', '\U{a0}',
          '\U{1680}', '\U{2028}', '\U{2029}', '\U{202f}', '\U{205f}', '\U{3000}'}
    || '\U{2000}' <= c <= '\U{200a}'
  }

  function Solid(s: string): string {
    if s == [] then [] else (if IsSpace(s[0]) then [] else [s[0]]) + Solid(s[1..])
  }

  /** The solid characters of several texts in order. */
  function SolidAll(texts: seq<string>): string {
    if texts == [] then [] else Solid(texts[0]) + SolidAll(texts[1..])
  }

  predicate AllSpace(s: string) {
    forall i :: 0 <= i < |s| ==> IsSpace(s[i])
  }

  lemma {:induction false} SolidConcat(a: string, b: string)
    ensures Solid(a + b) == Solid(a) + Solid(b)
  {
    if a == [] {
      assert a + b == b;
    } else {
      assert (a + b)[1..] == a[1..] + b;
      SolidConcat(a[1..], b);
    }
  }

  lemma {:induction false} SolidAllConcat(a: seq<string>, b: seq<string>)
    ensures SolidAll(a + b) == SolidAll(a) + SolidAll(b)
  {
    if a == [] {
      assert a + b == b;
    } else {
      assert (a + b)[1..] == a[1..] + b;
      SolidAllConcat(a[1..], b);
    }
  }

  lemma SolidAllOne(s: string)
    ensures SolidAll([s]) == Solid(s)
  {
    assert [s][1..] == [];
  }

  lemma {:induction false} SpaceIsNotSolid(s: string)
    requires AllSpace(s)
    ensures Solid(s) == []
  {
    if s != [] { SpaceIsNotSolid(s[1..]); }
  }

  // ---------------------------------------------------------------- strip

  function LStrip(s: string): string {
    if s != [] && IsSpace(s[0]) then LStrip(s[1..]) else s
  }

  function RStrip(s: string): string {
    if s != [] && IsSpace(s[|s| - 1]) then RStrip(s[..|s| - 1]) else s
  }

  function Strip(s: string): string {
    RStrip(LStrip(s))
  }

  lemma {:induction false} LStripSolid(s: string)
    ensures Solid(LStrip(s)) == Solid(s) && |LStrip(s)| <= |s| && (forall c :: c in LStrip(s) ==> c in s)
  {
    if s != [] && IsSpace(s[0]) { LStripSolid(s[1..]); }
  }

  lemma {:induction false} RStripSolid(s: string)
    ensures Solid(RStrip(s)) == Solid(s) && |RStrip(s)| <= |s| && (forall c :: c in RStrip(s) ==> c in s)
  {
    if s != [] && IsSpace(s[|s| - 1]) {
      RStripSolid(s[..|s| - 1]);
      assert s == s[..|s| - 1] + [s[|s| - 1]];
      SolidConcat(s[..|s| - 1], [s[|s| - 1]]);
      SpaceIsNotSolid([s[|s| - 1]]);
    }
  }

  lemma StripSolid(s: string)
    ensures Solid(Strip(s)) == Solid(s) && |Strip(s)| <= |s| && (forall c :: c in Strip(s) ==> c in s)
  {
    LStripSolid(s);
    RStripSolid(LStrip(s));
  }

  /** A stripped text is empty exactly when nothing in it is solid. */
  lemma StripEmpty(s: string)
    ensures Strip(s) == [] <==> Solid(s) == []
  {
    StripSolid(s);
    RStripEnds(LStrip(s));
    if Strip(s) != [] {
      var t := Strip(s);
      assert t == t[..|t| - 1] + [t[|t| - 1]];
      SolidConcat(t[..|t| - 1], [t[|t| - 1]]);
      assert Solid([t[|t| - 1]]) == [t[|t| - 1]] by { assert [t[|t| - 1]][1..] == []; }
    }
  }

  lemma {:induction false} RStripEnds(s: string)
    ensures RStrip(s) != [] ==> !IsSpace(RStrip(s)[|RStrip(s)| - 1])
  {
    if s != [] && IsSpace(s[|s| - 1]) { RStripEnds(s[..|s| - 1]); }
  }

  // ---------------------------------------------------------------- split and join

  /** str.split(sep): cut at every occurrence, left to right. */
  function Split(s: string, sep: string): (pieces: seq<string>)
    requires sep != []
    ensures pieces != []
  {
    SplitFrom(s, sep, 0)
  }

  function SplitFrom(s: string, sep: string, i: nat): (pieces: seq<string>)
    requires sep != [] && i <= |s|
    ensures pieces != []
    decreases |s| - i, |s|
  {
    if i + |sep| > |s| then [s]
    else if s[i..i + |sep|] == sep then [s[..i]] + SplitFrom(s[i + |sep|..], sep, 0)
    else SplitFrom(s, sep, i + 1)
  }

  function Join(sep: string, pieces: seq<string>): string {
    if pieces == [] then []
    else if |pieces| == 1 then pieces[0]
    else pieces[0] + sep + Join(sep, pieces[1..])
  }

  lemma {:induction false} JoinSplitFrom(s: string, sep: string, i: nat)
    requires sep != [] && i <= |s|
    ensures Join(sep, SplitFrom(s, sep, i)) == s
    decreases |s| - i, |s|
  {
    if i + |sep| > |s| {
    } else if s[i..i + |sep|] == sep {
      var rest := SplitFrom(s[i + |sep|..], sep, 0);
      JoinSplitFrom(s[i + |sep|..], sep, 0);
      assert ([s[..i]] + rest)[1..] == rest;
      assert s == s[..i] + sep + s[i + |sep|..];
    } else {
      JoinSplitFrom(s, sep, i + 1);
    }
  }

  /** Joining what split cut gives the text back. */
  lemma JoinSplit(s: string, sep: string)
    requires sep != []
    ensures Join(sep, Split(s, sep)) == s
  {
    JoinSplitFrom(s, sep, 0);
  }

  lemma {:induction false} JoinSolid(sep: string, pieces: seq<string>)
    requires AllSpace(sep)
    ensures Solid(Join(sep, pieces)) == SolidAll(pieces)
  {
    if |pieces| == 1 {
      SolidAllOne(pieces[0]);
      assert pieces == [pieces[0]];
    } else if |pieces| > 1 {
      SolidConcat(pieces[0] + sep, Join(sep, pieces[1..]));
      SolidConcat(pieces[0], sep);
      SpaceIsNotSolid(sep);
      JoinSolid(sep, pieces[1..]);
    }
  }

  lemma SplitSolid(s: string, sep: string)
    requires sep != [] && AllSpace(sep)
    ensures SolidAll(Split(s, sep)) == Solid(s)
  {
    JoinSplit(s, sep);
    JoinSolid(sep, Split(s, sep));
  }

  /** Pieces cut at a character do not contain it. */
  lemma {:induction false} PiecesLackSeparator(s: string, c: char, i: nat)
    requires i <= |s| && forall k :: 0 <= k < i ==> s[k] != c
    ensures forall w :: w in SplitFrom(s, [c], i) ==> c !in w
    decreases |s| - i, |s|
  {
    if i + 1 > |s| {
    } else if s[i..i + 1] == [c] {
      PiecesLackSeparator(s[i + 1..], c, 0);
    } else {
      assert s[i..i + 1] == [s[i]];
      PiecesLackSeparator(s, c, i + 1);
    }
  }

  // ---------------------------------------------------------------- sentence boundaries

  /** The first position at or after i that holds no space. */
  function SkipSpaces(s: string, i: nat): (j: nat)
    requires i <= |s|
    ensures i <= j <= |s| && AllSpace(s[i..j])
    ensures (j < |s| ==> !IsSpace(s[j])) && (i < j ==> IsSpace(s[j - 1]))
    decreases |s| - i
  {
    if i < |s| && IsSpace(s[i]) then
      var j := SkipSpaces(s, i + 1);
      assert s[i..j] == [s[i]] + s[i + 1..j];
      j
    else i
  }

  /** Cut at every whitespace run that directly follows '.', '!' or '?': the pieces of s[start..]
      when the search has reached i. */
  function SentencePieces(s: string, start: nat, i: nat): (pieces: seq<string>)
    requires start <= i <= |s|
    ensures pieces != []
    decreases |s| - i
  {
    if i == |s| then [s[start..]]
    else if i > 0 && s[i - 1] in {'.', '!', '?'} && IsSpace(s[i]) then
      var j := SkipSpaces(s, i + 1);
      [s[start..i]] + SentencePieces(s, j, j)
    else SentencePieces(s, start, i + 1)
  }

  lemma CutSpaces(s: string, start: nat, i: nat, j: nat)
    requires start <= i <= j <= |s| && AllSpace(s[i..j])
    ensures Solid(s[start..]) == Solid(s[start..i]) + Solid(s[j..])
  {
    var gap := s[i..j];
    SpaceIsNotSolid(gap);
    assert s[start..] == s[start..i] + (gap + s[j..]);
    SolidConcat(s[start..i], gap + s[j..]);
    SolidConcat(gap, s[j..]);
  }

  lemma SolidAllHead(head: string, rest: seq<string>)
    ensures SolidAll([head] + rest) == Solid(head) + SolidAll(rest)
  {
    assert ([head] + rest)[1..] == rest;
  }

  lemma {:induction false} SentencePiecesSolid(s: string, start: nat, i: nat)
    requires start <= i <= |s|
    ensures SolidAll(SentencePieces(s, start, i)) == Solid(s[start..])
    decreases |s| - i
  {
    if i == |s| {
      SolidAllOne(s[start..]);
    } else if i > 0 && s[i - 1] in {'.', '!', '?'} && IsSpace(s[i]) {
      var j := SkipSpaces(s, i + 1);
      SentencePiecesSolid(s, j, j);
      SolidAllHead(s[start..i], SentencePieces(s, j, j));
      assert s[i..j] == [s[i]] + s[i + 1..j];
      CutSpaces(s, start, i, j);
    } else {
      SentencePiecesSolid(s, start, i + 1);
    }
  }

  /** The text holds no '.', '!' or '?' with whitespace after it. */
  ghost predicate Unbroken(s: string) {
    forall k :: 0 <= k < |s| - 1 && s[k] in {'.', '!', '?'} ==> !IsSpace(s[k + 1])
  }

  ghost predicate EndsSentence(s: string) {
    s != [] && s[|s| - 1] in {'.', '!', '?'}
  }

  /** A text that strip would leave as it is, and that is not empty. */
  ghost predicate Trimmed(s: string) {
    s != [] && !IsSpace(s[0]) && !IsSpace(s[|s| - 1])
  }

  /** The text is the pieces with nothing but whitespace between each and the next. */
  ghost predicate Spaced(s: string, pieces: seq<string>)
    decreases |pieces|
  {
    if |pieces| <= 1 then pieces == [s]
    else exists k: nat :: GapTo(s, pieces[0], k) && Spaced(s[k..], pieces[1..])
  }

  ghost predicate GapTo(s: string, head: string, k: nat) {
    |head| < k <= |s| && s[..|head|] == head && AllSpace(s[|head|..k])
  }

  ghost predicate GoodPieces(pieces: seq<string>) {
    && (forall k :: 0 <= k < |pieces| ==> Unbroken(pieces[k]) && Trimmed(pieces[k]))
    && (forall k :: 0 <= k < |pieces| - 1 ==> EndsSentence(pieces[k]))
  }

  lemma GoodPiecesCons(head: string, rest: seq<string>)
    requires Unbroken(head) && Trimmed(head) && EndsSentence(head) && GoodPieces(rest)
    ensures GoodPieces([head] + rest)
  {
    var all := [head] + rest;
    forall k | 0 <= k < |all| ensures Unbroken(all[k]) && Trimmed(all[k]) { assert k > 0 ==> all[k] == rest[k - 1]; }
    forall k | 0 <= k < |all| - 1 ensures EndsSentence(all[k]) { assert k > 0 ==> all[k] == rest[k - 1]; }
  }

  /** A text from where a piece starts, up to where nothing has been cut yet, is unbroken and trimmed. */
  lemma UncutIsGood(s: string, start: nat, i: nat)
    requires start < i <= |s| && !IsSpace(s[start]) && !IsSpace(s[i - 1])
    requires forall k :: start <= k < i - 1 && s[k] in {'.', '!', '?'} ==> !IsSpace(s[k + 1])
    ensures Unbroken(s[start..i]) && Trimmed(s[start..i])
    ensures s[i - 1] in {'.', '!', '?'} ==> EndsSentence(s[start..i])
  {
    var head := s[start..i];
    forall k | 0 <= k < |head| - 1 && head[k] in {'.', '!', '?'} ensures !IsSpace(head[k + 1]) {
      assert head[k] == s[start + k] && head[k + 1] == s[start + k + 1];
    }
  }

  /** A trimmed text is cut exactly behind '.', '!' and '?': no piece holds one of them with whitespace after
      it, and every piece but the last ends in one. */
  lemma {:induction false} PiecesAreGood(s: string, start: nat, i: nat)
    requires start <= i <= |s| && start < |s| && !IsSpace(s[|s| - 1]) && !IsSpace(s[start])
    requires start > 0 ==> IsSpace(s[start - 1])
    requires forall k :: start <= k < i - 1 && s[k] in {'.', '!', '?'} ==> !IsSpace(s[k + 1])
    ensures GoodPieces(SentencePieces(s, start, i))
    decreases |s| - i
  {
    if i == |s| {
      UncutIsGood(s, start, i);
      assert s[start..i] == s[start..];
    } else if i > 0 && s[i - 1] in {'.', '!', '?'} && IsSpace(s[i]) {
      var j := SkipSpaces(s, i + 1);
      assert IsSpace(s[j - 1]);
      assert !IsSpace(s[i - 1]);
      UncutIsGood(s, start, i);
      PiecesAreGood(s, j, j);
      GoodPiecesCons(s[start..i], SentencePieces(s, j, j));
    } else {
      PiecesAreGood(s, start, i + 1);
    }
  }

  lemma SpacedCons(s: string, start: nat, i: nat, j: nat, rest: seq<string>)
    requires start <= i < j <= |s| && IsSpace(s[i]) && AllSpace(s[i + 1..j])
    requires rest != [] && Spaced(s[j..], rest)
    ensures Spaced(s[start..], [s[start..i]] + rest)
  {
    var text, pieces := s[start..], [s[start..i]] + rest;
    assert pieces[1..] == rest && text[j - start..] == s[j..];
    assert text[i - start..j - start] == [s[i]] + s[i + 1..j];
    assert GapTo(text, pieces[0], j - start);
  }

  lemma {:induction false} PiecesAreSpaced(s: string, start: nat, i: nat)
    requires start <= i <= |s|
    ensures Spaced(s[start..], SentencePieces(s, start, i))
    decreases |s| - i
  {
    if i < |s| {
      if i > 0 && s[i - 1] in {'.', '!', '?'} && IsSpace(s[i]) {
        var j := SkipSpaces(s, i + 1);
        PiecesAreSpaced(s, j, j);
        SpacedCons(s, start, i, j, SentencePieces(s, j, j));
      } else {
        PiecesAreSpaced(s, start, i + 1);
      }
    }
  }

  lemma {:induction false} PiecesAreParts(s: string, start: nat, i: nat, c: char)
    requires start <= i <= |s| && c !in s
    ensures forall w :: w in SentencePieces(s, start, i) ==> c !in w
    decreases |s| - i
  {
    if i < |s| {
      if i > 0 && s[i - 1] in {'.', '!', '?'} && IsSpace(s[i]) {
        PiecesAreParts(s, SkipSpaces(s, i + 1), SkipSpaces(s, i + 1), c);
      } else {
        PiecesAreParts(s, start, i + 1, c);
      }
    }
  }

  lemma {:induction false} LStripStarts(s: string)
    ensures LStrip(s) != [] ==> !IsSpace(LStrip(s)[0])
  {
    if s != [] && IsSpace(s[0]) { LStripStarts(s[1..]); }
  }

  lemma {:induction false} RStripIsPrefix(s: string)
    ensures RStrip(s) <= s
  {
    if s != [] && IsSpace(s[|s| - 1]) { RStripIsPrefix(s[..|s| - 1]); }
  }

  lemma StripTrims(s: string)
    ensures Strip(s) == [] || Trimmed(Strip(s))
  {
    LStripStarts(s);
    RStripIsPrefix(LStrip(s));
    RStripEnds(LStrip(s));
  }
}
