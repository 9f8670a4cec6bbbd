/** The chunking strategy of `DocumentProcessorManager.chunk_text`, as
    recursive specification functions over the cleaned text, and what it
    guarantees: no chunk is empty, a chunk longer than the size limit is a
    single word, and without overlap the chunks put back together with single
    spaces give the cleaned text again. */
module Chunker {
  import opened Text

  /** The characters the sentence splitter looks behind for. */
  predicate IsTerminator(c: char) {
    c == '.' || c == '!' || c == '?'
  }

  /** `re.split(r"(?<=[.!?])\s+", ...)` scanning `t`, with `cur` the piece
      gathered so far: a whitespace run right after a terminator ends the
      piece and is dropped as a whole. */
  function SentencesFrom(t: string, cur: string): (ss: seq<string>)
    ensures ss != []
    decreases |t|
  {
    if t == [] then [cur]
    else if IsSpace(t[0]) && cur != [] && IsTerminator(cur[|cur| - 1]) then
      [cur] + SentencesFrom(StripStart(t), [])
    else SentencesFrom(t[1..], cur + [t[0]])
  }

  function SplitSentences(t: string): (ss: seq<string>)
    ensures ss != []
  {
    SentencesFrom(t, [])
  }

  /** `cur` in front of `xs` when it holds anything: the pieces a packing
      loop still has to place. */
  function Lead(cur: string, xs: seq<string>): seq<string> {
    if cur == [] then xs else [cur] + xs
  }

  /** First phase of `chunk_text`: the sentences are packed greedily into
      `cur`; when the next sentence would take it past `cs` the stripped
      buffer is emitted and the next buffer starts with the last `ov`
      characters of the old one. The length test ignores the joining space. */
  function Pack(ss: seq<string>, cs: int, ov: int, cur: string): (r: seq<string>)
    decreases |ss|
  {
    if ss == [] then (if Strip(cur) != [] then [Strip(cur)] else [])
    else
      var s := ss[0];
      if |cur| + |s| > cs && cur != [] then
        var next := if ov > 0 && |cur| > ov then cur[|cur| - ov..] + " " + s else s;
        [Strip(cur)] + Pack(ss[1..], cs, ov, next)
      else
        Pack(ss[1..], cs, ov, if cur != [] then cur + " " + s else s)
  }

  /** Second phase for one over-long chunk: its words are packed greedily,
      a word joining the buffer only when the buffer, a space and the word
      fit in `cs`. A non-empty buffer is always emitted. */
  function PackWords(ws: seq<string>, cs: int, cur: string): (r: seq<string>)
    ensures cur != [] ==> r != []
    decreases |ws|
  {
    if ws == [] then (if cur != [] then [cur] else [])
    else
      var w := ws[0];
      if |cur| + |w| + 1 <= cs then
        PackWords(ws[1..], cs, if cur != [] then cur + " " + w else w)
      else
        (if cur != [] then [cur] else []) + PackWords(ws[1..], cs, w)
  }

  /** What the second phase makes of one chunk of the first. */
  function Piece(c: string, cs: int): seq<string> {
    if |c| <= cs then [c] else PackWords(Words(c), cs, "")
  }

  /** Second phase of `chunk_text` over all chunks of the first, in order. */
  function Refine(chunks: seq<string>, cs: int): seq<string>
    decreases |chunks|
  {
    if chunks == [] then [] else Piece(chunks[0], cs) + Refine(chunks[1..], cs)
  }

  /** `chunk_text(text)` with chunk size `cs` and overlap `ov`. */
  function Chunks(text: string, cs: int, ov: int): seq<string> {
    if Strip(text) == [] then []
    else
      var t := Normalize(text);
      if |t| <= cs then [t] else Refine(Pack(SplitSentences(t), cs, ov, ""), cs)
  }

  /** Every piece is non-empty and normalized. */
  predicate AllNormal(xs: seq<string>) {
    forall k :: 0 <= k < |xs| ==> xs[k] != [] && Normalized(xs[k])
  }

  /** Every piece is non-empty and either fits in `cs` or is a single word. */
  predicate AllFit(xs: seq<string>, cs: int) {
    forall k :: 0 <= k < |xs| ==> xs[k] != [] && (|xs[k]| <= cs || NoSpace(xs[k]))
  }

  lemma AllNormalCons(a: string, xs: seq<string>)
    requires a != [] && Normalized(a) && AllNormal(xs)
    ensures AllNormal([a] + xs)
  {
    forall k | 0 <= k < |[a] + xs|
      ensures ([a] + xs)[k] != [] && Normalized(([a] + xs)[k])
    {
      if k > 0 {
        assert ([a] + xs)[k] == xs[k - 1];
      }
    }
  }

  lemma JoinCons(a: string, xs: seq<string>, sep: string)
    requires xs != []
    ensures Join([a] + xs, sep) == a + sep + Join(xs, sep)
  {
    assert ([a] + xs)[1..] == xs;
  }

  // ---------------------------------------------------------------------
  // Sentences

  lemma SentenceCut(cur: string, t: string)
    requires Normalized(cur + t) && cur != [] && t != []
    requires IsSpace(t[0]) && IsTerminator(cur[|cur| - 1])
    ensures Normalized(cur) && 1 < |t| && StripStart(t) == t[1..] && Normalized(t[1..])
  {
    var x := cur + t;
    assert x[|cur|] == t[0];
    assert x[|cur| + 1] == t[1];
    NormalizedPrefix(x, |cur|);
    assert x[..|cur|] == cur;
    NormalizedSuffix(x, |cur| + 1);
    assert x[|cur| + 1..] == t[1..];
  }

  lemma SentencesCutStep(cur: string, t: string, rest: seq<string>)
    requires Normalized(cur + t) && cur != [] && t != []
    requires IsSpace(t[0]) && IsTerminator(cur[|cur| - 1])
    requires rest != [] && Join(rest, " ") == t[1..]
    ensures Join([cur] + rest, " ") == cur + t
  {
    SentenceCut(cur, t);
    JoinCons(cur, rest, " ");
    assert t[0] == ' ' by { assert (cur + t)[|cur|] == t[0]; }
    assert t == " " + t[1..];
  }

  lemma {:induction false} SentencesFromShape(t: string, cur: string)
    requires Normalized(cur + t) && cur + t != []
    ensures AllNormal(SentencesFrom(t, cur))
    ensures Join(SentencesFrom(t, cur), " ") == cur + t
    decreases |t|
  {
    if t == [] {
      assert cur + t == cur;
    } else if IsSpace(t[0]) && cur != [] && IsTerminator(cur[|cur| - 1]) {
      SentenceCut(cur, t);
      assert [] + t[1..] == t[1..];
      SentencesFromShape(t[1..], []);
      SentencesCutStep(cur, t, SentencesFrom(t[1..], []));
      AllNormalCons(cur, SentencesFrom(t[1..], []));
    } else {
      assert (cur + [t[0]]) + t[1..] == cur + t;
      SentencesFromShape(t[1..], cur + [t[0]]);
    }
  }

  /** Splitting normalized text into sentences loses nothing: every sentence
      is non-empty and normalized, and joining them with single spaces gives
      the text back. */
  lemma SplitSentencesShape(t: string)
    requires Normalized(t) && t != []
    ensures AllNormal(SplitSentences(t))
    ensures Join(SplitSentences(t), " ") == t
  {
    assert [] + t == t;
    SentencesFromShape(t, []);
  }

  // ---------------------------------------------------------------------
  // First phase

  lemma JoinedNotBlank(a: string, s: string)
    requires s != [] && !IsSpace(s[0])
    ensures Strip(a + " " + s) != []
  {
    assert (a + " " + s)[|a| + 1] == s[0];
  }

  lemma NonEmptyCons(a: string, q: seq<string>)
    requires a != [] && forall k :: 0 <= k < |q| ==> q[k] != []
    ensures forall k :: 0 <= k < |[a] + q| ==> ([a] + q)[k] != []
  {
  }

  lemma {:induction false} PackNonEmpty(ss: seq<string>, cs: int, ov: int, cur: string)
    requires forall k :: 0 <= k < |ss| ==> ss[k] != [] && !IsSpace(ss[k][0])
    requires cur == [] || Strip(cur) != []
    ensures forall k :: 0 <= k < |Pack(ss, cs, ov, cur)| ==> Pack(ss, cs, ov, cur)[k] != []
    decreases |ss|
  {
    if ss != [] {
      var s := ss[0];
      assert Strip(s) != [] by { assert !IsSpace(s[0]); }
      var rest := ss[1..];
      forall k | 0 <= k < |rest| ensures rest[k] != [] && !IsSpace(rest[k][0]) {
        assert rest[k] == ss[k + 1];
      }
      if |cur| + |s| > cs && cur != [] {
        var next := if ov > 0 && |cur| > ov then cur[|cur| - ov..] + " " + s else s;
        if ov > 0 && |cur| > ov {
          JoinedNotBlank(cur[|cur| - ov..], s);
        }
        PackNonEmpty(rest, cs, ov, next);
        PackSplits(ss, cs, ov, cur, next);
        NonEmptyCons(Strip(cur), Pack(rest, cs, ov, next));
      } else {
        var next := if cur != [] then cur + " " + s else s;
        if cur != [] {
          JoinedNotBlank(cur, s);
        }
        PackGrows(ss, cs, ov, cur);
        PackNonEmpty(rest, cs, ov, next);
      }
    }
  }

  /** A sentence of cleaned text: non-empty, with no whitespace at either
      end. */
  predicate Trimmed(s: string) {
    s != [] && !IsSpace(s[0]) && !IsSpace(s[|s| - 1])
  }

  /** Leading whitespace stops at the first other character, so whatever
      follows a string that ends in one is kept whole. */
  lemma {:induction false} StripStartConcat(a: string, b: string)
    requires a != [] && !IsSpace(a[|a| - 1])
    ensures StripStart(a + b) == StripStart(a) + b
    decreases |a|
  {
    assert (a + b)[0] == a[0];
    if IsSpace(a[0]) {
      assert (a + b)[1..] == a[1..] + b;
      StripStartConcat(a[1..], b);
    }
  }

  /** A string that ends in a non-space character only loses its leading
      whitespace to `strip()`. */
  lemma StripTrailing(s: string)
    requires s != [] && !IsSpace(s[|s| - 1])
    ensures Strip(s) == StripStart(s) && StripStart(s) != []
  {
    var r := StripStart(s);
    assert r[|r| - 1] == s[|s| - 1];
  }

  /** A buffer the next sentence does not fit in is emitted first,
      stripped. */
  lemma PackCloses(ss: seq<string>, cs: int, ov: int, cur: string)
    requires cur != [] && !IsSpace(cur[|cur| - 1])
    requires ss == [] || |cur| + |ss[0]| > cs
    ensures Pack(ss, cs, ov, cur) != [] && Pack(ss, cs, ov, cur)[0] == StripStart(cur)
    ensures StartsWith(Pack(ss, cs, ov, cur)[0], StripStart(cur))
  {
    StripTrailing(cur);
    var r := StripStart(cur);
    assert r[..|r|] == r;
  }

  /** One step of the first phase when the next sentence fits. */
  lemma PackGrows(ss: seq<string>, cs: int, ov: int, cur: string)
    requires ss != [] && (|cur| + |ss[0]| <= cs || cur == [])
    ensures Pack(ss, cs, ov, cur) == Pack(ss[1..], cs, ov, if cur != [] then cur + " " + ss[0] else ss[0])
  {
  }

  /** One step of the first phase when the next sentence does not fit. */
  lemma PackSplits(ss: seq<string>, cs: int, ov: int, cur: string, next: string)
    requires ss != [] && |cur| + |ss[0]| > cs && cur != []
    requires next == if ov > 0 && |cur| > ov then cur[|cur| - ov..] + " " + ss[0] else ss[0]
    ensures Pack(ss, cs, ov, cur) == [Strip(cur)] + Pack(ss[1..], cs, ov, next)
  {
  }

  /** The chunk a buffer ends up as starts with the buffer, less its
      leading whitespace: later sentences are only added at its end. */
  lemma {:induction false} PackHead(ss: seq<string>, cs: int, ov: int, cur: string)
    requires forall k :: 0 <= k < |ss| ==> Trimmed(ss[k])
    requires cur != [] && !IsSpace(cur[|cur| - 1])
    ensures Pack(ss, cs, ov, cur) != []
    ensures StartsWith(Pack(ss, cs, ov, cur)[0], StripStart(cur))
    decreases |ss|
  {
    if ss == [] || |cur| + |ss[0]| > cs {
      PackCloses(ss, cs, ov, cur);
    } else {
      var s := ss[0];
      var next := cur + " " + s;
      assert Trimmed(s);
      GrowHead(cur, s);
      PackGrows(ss, cs, ov, cur);
      PackHead(ss[1..], cs, ov, next);
      StartsWithGrown(Pack(ss[1..], cs, ov, next)[0], cur, s);
    }
  }

  lemma Associative(x: string, y: string, z: string)
    ensures x + y + z == x + (y + z)
  {
  }

  lemma SuffixOfSuffix(x: string, n: nat, m: nat)
    requires m <= n <= |x|
    ensures x[|x| - n..][n - m..] == x[|x| - m..]
  {
  }

  /** Adding a sentence to a buffer keeps what the buffer starts with. */
  lemma GrowHead(cur: string, s: string)
    requires cur != [] && !IsSpace(cur[|cur| - 1]) && Trimmed(s)
    ensures !IsSpace((cur + " " + s)[|cur + " " + s| - 1])
    ensures StripStart(cur + " " + s) == StripStart(cur) + (" " + s)
  {
    var next := cur + " " + s;
    assert next[|next| - 1] == s[|s| - 1];
    Associative(cur, " ", s);
    StripStartConcat(cur, " " + s);
  }

  /** `b` starts with the last `ov` characters of `a`, less the whitespace
      they may start with, when `a` is longer than `ov`. */
  predicate Follows(a: string, b: string, ov: int)
    requires ov >= 0
  {
    |a| > ov ==> StartsWith(b, StripStart(a[|a| - ov..]))
  }

  /** Each piece follows the one before it. */
  predicate Overlapping(p: seq<string>, ov: int)
    requires ov >= 0
  {
    forall k :: 0 < k < |p| ==> Follows(p[k - 1], p[k], ov)
  }

  lemma ConsOverlap(a: string, q: seq<string>, ov: int)
    requires ov >= 0 && Overlapping(q, ov)
    requires q != [] ==> Follows(a, q[0], ov)
    requires |a| > ov ==> q != []
    ensures Overlapping([a] + q, ov)
  {
    var p := [a] + q;
    forall k | 0 < k < |p|
      ensures Follows(p[k - 1], p[k], ov)
    {
      if k > 1 {
        assert p[k] == q[k - 1] && p[k - 1] == q[k - 2];
      }
    }
  }

  /** The last `ov` characters of a string that keeps more than `ov` of
      them after losing its leading whitespace. */
  lemma StrippedTail(cur: string, ov: nat)
    requires ov < |StripStart(cur)|
    ensures StripStart(cur)[|StripStart(cur)| - ov..] == cur[|cur| - ov..]
  {
    var a := StripStart(cur);
    assert a == cur[|cur| - |a|..];
    SuffixOfSuffix(cur, |a|, ov);
  }

  /** What starts with a stripped buffer grown by a sentence starts with
      the stripped buffer. */
  lemma StartsWithGrown(t: string, cur: string, s: string)
    requires cur != [] && !IsSpace(cur[|cur| - 1]) && Trimmed(s)
    requires StartsWith(t, StripStart(cur + " " + s))
    ensures StartsWith(t, StripStart(cur))
  {
    GrowHead(cur, s);
    StartsWithExtend(StripStart(cur), " " + s, t);
  }

  /** A buffer made of a carried tail and the next sentence opens the
      following chunk with the tail, stripped. */
  lemma TailHead(tail: string, s: string, rest: seq<string>, cs: int, ov: int)
    requires tail != [] && !IsSpace(tail[|tail| - 1]) && Trimmed(s)
    requires forall k :: 0 <= k < |rest| ==> Trimmed(rest[k])
    ensures var q := Pack(rest, cs, ov, tail + " " + s);
            q != [] && StartsWith(q[0], StripStart(tail))
  {
    var next := tail + " " + s;
    assert next[|next| - 1] == s[|s| - 1];
    PackHead(rest, cs, ov, next);
    StartsWithGrown(Pack(rest, cs, ov, next)[0], tail, s);
  }

  /** A suffix of a string ends where the string does. */
  lemma SuffixLast(x: string, n: nat)
    requires 0 < n <= |x|
    ensures x[|x| - n..] != [] && x[|x| - n..][n - 1] == x[|x| - 1]
  {
  }

  /** What starts with the stripped last `ov` characters of a buffer
      follows the buffer, stripped. */
  lemma CloseOverlap(cur: string, ov: int, t: string)
    requires 0 < ov < |StripStart(cur)|
    requires StartsWith(t, StripStart(cur[|cur| - ov..]))
    ensures Follows(StripStart(cur), t, ov)
  {
    StrippedTail(cur, ov);
  }

  /** The chunk after a closed one longer than the overlap starts with the
      closed chunk's last `ov` characters, stripped. */
  lemma ClosedFollowed(cur: string, s: string, rest: seq<string>, cs: int, ov: int)
    requires cur != [] && !IsSpace(cur[|cur| - 1]) && 0 < ov < |StripStart(cur)| && Trimmed(s)
    requires forall k :: 0 <= k < |rest| ==> Trimmed(rest[k])
    ensures var q := Pack(rest, cs, ov, cur[|cur| - ov..] + " " + s);
            q != [] && Follows(StripStart(cur), q[0], ov)
  {
    SuffixLast(cur, ov);
    TailHead(cur[|cur| - ov..], s, rest, cs, ov);
    CloseOverlap(cur, ov, Pack(rest, cs, ov, cur[|cur| - ov..] + " " + s)[0]);
  }

  /** The buffers the first phase builds end, like the sentences, on a
      character other than whitespace. */
  lemma NextEnds(cur: string, s: string, ov: int)
    requires Trimmed(s) && ov >= 0
    ensures var next := if |cur| > ov then cur[|cur| - ov..] + " " + s else s;
            next != [] && !IsSpace(next[|next| - 1])
    ensures var next := if cur != [] then cur + " " + s else s;
            next != [] && !IsSpace(next[|next| - 1])
  {
  }

  /** The overlap of the first phase: when a chunk is longer than the
      overlap, the chunk after it starts with its last `ov` characters
      (less a leading space, when the cut falls just before one). */
  lemma {:induction false} PackOverlap(ss: seq<string>, cs: int, ov: int, cur: string)
    requires forall k :: 0 <= k < |ss| ==> Trimmed(ss[k])
    requires cur == [] || !IsSpace(cur[|cur| - 1])
    requires ov > 0
    ensures Overlapping(Pack(ss, cs, ov, cur), ov)
    decreases |ss|
  {
    if ss != [] {
      var s := ss[0];
      assert Trimmed(s);
      NextEnds(cur, s, ov);
      if |cur| + |s| > cs && cur != [] {
        var next := if |cur| > ov then cur[|cur| - ov..] + " " + s else s;
        PackOverlap(ss[1..], cs, ov, next);
        var a := Strip(cur);
        var q := Pack(ss[1..], cs, ov, next);
        PackSplits(ss, cs, ov, cur, next);
        if |a| > ov {
          StripTrailing(cur);
          ClosedFollowed(cur, s, ss[1..], cs, ov);
        }
        ConsOverlap(a, q, ov);
      } else {
        var next := if cur != [] then cur + " " + s else s;
        PackGrows(ss, cs, ov, cur);
        PackOverlap(ss[1..], cs, ov, next);
      }
    }
  }

  /** The sentences of cleaned text neither start nor end with whitespace. */
  lemma NormalTrimmed(xs: seq<string>)
    requires AllNormal(xs)
    ensures forall k :: 0 <= k < |xs| ==> Trimmed(xs[k])
  {
    forall k | 0 <= k < |xs| ensures Trimmed(xs[k]) {
      var x := xs[k];
      assert x != [] && Normalized(x);
      assert !IsSpace(x[0]) && !IsSpace(x[|x| - 1]);
    }
  }

  /** The second phase leaves chunks that already fit alone. */
  lemma {:induction false} RefineKeeps(chunks: seq<string>, cs: int)
    requires forall k :: 0 <= k < |chunks| ==> |chunks[k]| <= cs
    ensures Refine(chunks, cs) == chunks
    decreases |chunks|
  {
    if chunks != [] {
      RefineKeeps(chunks[1..], cs);
      assert [chunks[0]] + chunks[1..] == chunks;
    }
  }

  /** With a positive overlap, each chunk of the first phase that is longer
      than the overlap is followed by one that starts with its last `ov`
      characters (less a leading space); when no chunk needs the second
      phase these are the chunks `chunk_text` returns. */
  lemma ChunksOverlap(text: string, cs: int, ov: int)
    requires ov > 0 && Strip(text) != [] && |Normalize(text)| > cs
    ensures var p := Pack(SplitSentences(Normalize(text)), cs, ov, "");
            Overlapping(p, ov)
            && ((forall k :: 0 <= k < |p| ==> |p[k]| <= cs) ==> Chunks(text, cs, ov) == p)
  {
    var t := Normalize(text);
    NormalizeShape(text);
    SplitSentencesShape(t);
    NormalTrimmed(SplitSentences(t));
    PackOverlap(SplitSentences(t), cs, ov, "");
    var p := Pack(SplitSentences(t), cs, ov, "");
    if forall k :: 0 <= k < |p| ==> |p[k]| <= cs {
      RefineKeeps(p, cs);
    }
  }

  lemma JoinTwo(cur: string, s: string, rest: seq<string>)
    ensures Join([cur + " " + s] + rest, " ") == Join([cur] + ([s] + rest), " ")
  {
    JoinCons(cur, [s] + rest, " ");
    if rest != [] {
      JoinCons(cur + " " + s, rest, " ");
      JoinCons(s, rest, " ");
    }
  }

  /** Without overlap the first phase only regroups: its chunks are the
      sentences still to place (after the buffer), joined differently. */
  lemma {:induction false} PackJoin(ss: seq<string>, cs: int, ov: int, cur: string)
    requires ov <= 0 && AllNormal(ss)
    requires cur == [] || Normalized(cur)
    ensures AllNormal(Pack(ss, cs, ov, cur))
    ensures Join(Pack(ss, cs, ov, cur), " ") == Join(Lead(cur, ss), " ")
    decreases |ss|
  {
    if cur != [] {
      StripNormalized(cur);
    }
    if ss != [] {
      var s := ss[0];
      assert ss == [s] + ss[1..];
      if |cur| + |s| > cs && cur != [] {
        PackJoin(ss[1..], cs, ov, s);
        var rest := Pack(ss[1..], cs, ov, s);
        assert Pack(ss, cs, ov, cur) == [cur] + rest;
        AllNormalCons(cur, rest);
        JoinCons(cur, ss, " ");
        JoinCons(cur, rest, " ");
      } else if cur != [] {
        NormalizedJoin2(cur, s);
        PackJoin(ss[1..], cs, ov, cur + " " + s);
        JoinTwo(cur, s, ss[1..]);
      } else {
        PackJoin(ss[1..], cs, ov, s);
      }
    }
  }

  // ---------------------------------------------------------------------
  // Second phase

  lemma {:induction false} PackWordsFit(ws: seq<string>, cs: int, cur: string)
    requires forall k :: 0 <= k < |ws| ==> ws[k] != [] && NoSpace(ws[k])
    requires cur == [] || |cur| <= cs || NoSpace(cur)
    ensures AllFit(PackWords(ws, cs, cur), cs)
    decreases |ws|
  {
    if ws != [] {
      var w := ws[0];
      if |cur| + |w| + 1 <= cs {
        PackWordsFit(ws[1..], cs, if cur != [] then cur + " " + w else w);
      } else {
        PackWordsFit(ws[1..], cs, w);
      }
    }
  }

  lemma {:induction false} PackWordsJoin(ws: seq<string>, cs: int, cur: string)
    requires forall k :: 0 <= k < |ws| ==> ws[k] != []
    ensures Join(PackWords(ws, cs, cur), " ") == Join(Lead(cur, ws), " ")
    decreases |ws|
  {
    if ws != [] {
      var w := ws[0];
      assert ws == [w] + ws[1..];
      if |cur| + |w| + 1 <= cs {
        PackWordsJoin(ws[1..], cs, if cur != [] then cur + " " + w else w);
        if cur != [] {
          JoinTwo(cur, w, ws[1..]);
        }
      } else {
        PackWordsJoin(ws[1..], cs, w);
        var rest := PackWords(ws[1..], cs, w);
        assert rest != [];
        if cur != [] {
          assert PackWords(ws, cs, cur) == [cur] + rest;
          JoinCons(cur, rest, " ");
          JoinCons(cur, ws, " ");
        } else {
          assert PackWords(ws, cs, cur) == rest;
        }
      }
    }
  }

  lemma PieceShape(c: string, cs: int)
    requires c != [] && Normalized(c)
    ensures Piece(c, cs) != [] && AllFit(Piece(c, cs), cs)
    ensures Join(Piece(c, cs), " ") == c
  {
    if |c| > cs {
      var ws := Words(c);
      assert ws != [] by {
        assert !IsSpace(c[0]);
        WordsStep(c);
      }
      PackWordsFit(ws, cs, "");
      PackWordsJoin(ws, cs, "");
      WordsJoin(c);
    }
  }

  /** The second phase keeps only chunks that fit and splits the others into
      pieces that fit or are one word; it drops nothing. */
  lemma {:induction false} RefineShape(chunks: seq<string>, cs: int)
    requires AllNormal(chunks)
    ensures AllFit(Refine(chunks, cs), cs)
    ensures chunks != [] ==> Refine(chunks, cs) != []
    ensures Join(Refine(chunks, cs), " ") == Join(chunks, " ")
    decreases |chunks|
  {
    if chunks != [] {
      var c := chunks[0];
      PieceShape(c, cs);
      RefineShape(chunks[1..], cs);
      if chunks[1..] == [] {
        assert Refine(chunks[1..], cs) == [];
        assert Refine(chunks, cs) == Piece(c, cs);
      } else {
        JoinAppend(Piece(c, cs), Refine(chunks[1..], cs), " ");
        assert chunks == [c] + chunks[1..];
        JoinCons(c, chunks[1..], " ");
      }
    }
  }

  /** Only the fit part of RefineShape, which needs no more of the first
      phase than non-empty chunks (so it holds for every overlap). */
  lemma {:induction false} RefineFit(chunks: seq<string>, cs: int)
    requires forall k :: 0 <= k < |chunks| ==> chunks[k] != []
    ensures AllFit(Refine(chunks, cs), cs)
    decreases |chunks|
  {
    if chunks != [] {
      var c := chunks[0];
      if |c| > cs {
        PackWordsFit(Words(c), cs, "");
      }
      RefineFit(chunks[1..], cs);
    }
  }

  // ---------------------------------------------------------------------
  // chunk_text

  /** Whatever the sizes and the overlap, no chunk is empty, and a chunk
      longer than the chunk size is a single word that could not be split.
      Blank text gives no chunk; text whose cleaned form fits gives that
      cleaned form as its only chunk. */
  lemma ChunksFit(text: string, cs: int, ov: int)
    ensures AllFit(Chunks(text, cs, ov), cs)
    ensures Strip(text) == [] ==> Chunks(text, cs, ov) == []
    ensures Strip(text) != [] && |Normalize(text)| <= cs ==> Chunks(text, cs, ov) == [Normalize(text)]
  {
    if Strip(text) != [] {
      var t := Normalize(text);
      NormalizeShape(text);
      if |t| > cs {
        var ss := SplitSentences(t);
        SplitSentencesShape(t);
        forall k | 0 <= k < |ss|
          ensures ss[k] != [] && !IsSpace(ss[k][0])
        {
          assert Normalized(ss[k]);
        }
        PackNonEmpty(ss, cs, ov, "");
        RefineFit(Pack(ss, cs, ov, ""), cs);
      }
    }
  }

  /** Without overlap nothing is lost or repeated: the chunks joined with
      single spaces are exactly the cleaned text, and blank text gives no
      chunk at all. */
  lemma ChunksJoin(text: string, cs: int, ov: int)
    requires ov <= 0
    ensures Join(Chunks(text, cs, ov), " ") == Normalize(text)
    ensures Chunks(text, cs, ov) == [] <==> Strip(text) == []
  {
    NormalizeShape(text);
    if Strip(text) != [] {
      var t := Normalize(text);
      if |t| > cs {
        var ss := SplitSentences(t);
        SplitSentencesShape(t);
        PackJoin(ss, cs, ov, "");
        RefineShape(Pack(ss, cs, ov, ""), cs);
        assert Pack(ss, cs, ov, "") != [] by {
          assert ss != [];
          assert Join(Pack(ss, cs, ov, ""), " ") == t;
        }
      }
    }
  }
}
