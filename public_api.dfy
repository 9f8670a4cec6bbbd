/** The public API's score correction for the pgvector provider and the
    per-chunk metadata list the query endpoint builds from the vector
    store's results. Scores are modelled over the reals. */
module PublicApi {
  import opened Text
  import opened Values

  /** A score as the vector store reports it, after `float()`: the `"N/A"`
      marker, `None`, a finite number, either infinity, or something
      `float()` rejects. */
  datatype Score =
    | NotAvailable
    | NoScore
    | Finite(x: real)
    | PlusInfinity
    | MinusInfinity
    | Unparsable(raw: string)

  /** `max(lo, min(hi, x))`. */
  function Clamp(x: real, lo: real, hi: real): real {
    if x < lo then lo else if x > hi then hi else x
  }

  /** The corrected similarity of a positive finite score: the store reports
      `1 / distance`, so the distance is `1 / s`, the cosine similarity
      `1 - distance`, clamped to [-1, 1] and moved to [0, 1]. */
  function Rescale(s: real): real
    requires s > 0.0
  {
    (Clamp(1.0 - 1.0 / s, -1.0, 1.0) + 1.0) / 2.0
  }

  /** `correct_pgvector_score`. */
  function CorrectPgvectorScore(score: Score): Score {
    match score
    case NotAvailable => score
    case NoScore => score
    case Unparsable(_) => score
    case PlusInfinity => Finite(1.0)
    case MinusInfinity => Finite(0.0)
    case Finite(s) => if s <= 0.0 then Finite(0.0) else Finite(Rescale(s))
  }

  /** Markers and values `float()` rejects come back unchanged; everything
      else becomes a number in [0, 1], and only an infinite score reaches
      1. */
  lemma CorrectedRange(score: Score)
    ensures score.NotAvailable? || score.NoScore? || score.Unparsable? ==> CorrectPgvectorScore(score) == score
    ensures score.Finite? || score.PlusInfinity? || score.MinusInfinity? ==>
              CorrectPgvectorScore(score).Finite?
              && 0.0 <= CorrectPgvectorScore(score).x <= 1.0
    ensures score.Finite? ==> CorrectPgvectorScore(score).x < 1.0
    ensures score == PlusInfinity ==> CorrectPgvectorScore(score) == Finite(1.0)
  {
    if score.Finite? && score.x > 0.0 {
      assert 1.0 / score.x > 0.0;
    }
  }

  /** Every score up to 1/2 is a distance of at least 2, the largest cosine
      distance there is, so it comes out as 0. */
  lemma SmallScoresVanish(s: real)
    requires s <= 0.5
    ensures CorrectPgvectorScore(Finite(s)) == Finite(0.0)
  {
    if s > 0.0 {
      assert 1.0 / s >= 2.0 by {
        assert s * (1.0 / s) == 1.0;
      }
    }
  }

  /** A score of 1 is a distance of 1, which is a similarity of 0 and the
      middle of the range. */
  lemma ScoreOneIsHalf()
    ensures CorrectPgvectorScore(Finite(1.0)) == Finite(0.5)
  {
  }

  /** Above 1/2 no clamping happens and the result is `1 - 1/(2s)`. */
  lemma ClosedForm(s: real)
    requires s >= 0.5
    ensures CorrectPgvectorScore(Finite(s)).x == 1.0 - 1.0 / (2.0 * s)
  {
    assert s * (1.0 / s) == 1.0;
    assert 1.0 / s <= 2.0;
    assert (2.0 * s) * (1.0 / (2.0 * s)) == 1.0;
    assert 1.0 / (2.0 * s) == (1.0 / s) / 2.0;
  }

  /** Above 1/2 the correction is undone by `1 / (2 (1 - r))`, so it loses
      nothing there. */
  lemma Recover(s: real)
    requires s > 0.5
    ensures var r := CorrectPgvectorScore(Finite(s)).x;
            r < 1.0 && 1.0 / (2.0 * (1.0 - r)) == s
  {
    ClosedForm(s);
    var r := CorrectPgvectorScore(Finite(s)).x;
    assert 1.0 - r == 1.0 / (2.0 * s);
    assert (2.0 * s) * (1.0 / (2.0 * s)) == 1.0;
    assert 2.0 * (1.0 - r) == 1.0 / s;
  }

  /** A higher raw score never gives a lower corrected one. */
  lemma Monotone(s: real, t: real)
    requires s <= t
    ensures CorrectPgvectorScore(Finite(s)).x <= CorrectPgvectorScore(Finite(t)).x
  {
    if s > 0.0 {
      assert 1.0 / t <= 1.0 / s by {
        assert s * (1.0 / s) == 1.0;
        assert t * (1.0 / t) == 1.0;
        assert t * (1.0 / s) >= s * (1.0 / s);
      }
    }
    CorrectedRange(Finite(s));
    CorrectedRange(Finite(t));
  }

  // ---------------------------------------------------------------------
  // The metadata list of a query

  /** A chunk the vector store returns. */
  datatype ResultChunk = ResultChunk(content: string, metadata: Metadata)

  /** One entry of `chunk_metadata_list`. */
  datatype ChunkInfo = ChunkInfo(chunkIndex: int, score: Score, sourceFileName: MetaValue)

  /** The score reported for chunk `i`, corrected when the provider
      (`VECTOR_DB_PROVIDER`) is pgvector in any case. */
  function ChunkScore(scores: seq<Score>, i: nat, provider: string): Score {
    var score := if i < |scores| then scores[i] else NotAvailable;
    if Lower(provider) == "pgvector" then CorrectPgvectorScore(score) else score
  }

  /** The loop in `query` that collects each chunk's metadata. */
  function ChunkMetadataList(chunks: seq<ResultChunk>, scores: seq<Score>, provider: string): seq<ChunkInfo> {
    seq(|chunks|, i requires 0 <= i < |chunks| =>
      ChunkInfo(i + 1, ChunkScore(scores, i, provider), Get(chunks[i].metadata, "file_name", MStr(""))))
  }

  /** One entry per chunk, numbered from 1; a chunk without a score gets
      "N/A"; the score is corrected only for pgvector and passed through
      otherwise; the source file is the chunk's `file_name`, or "". */
  lemma ChunkMetadataListSpec(chunks: seq<ResultChunk>, scores: seq<Score>, provider: string)
    ensures var l := ChunkMetadataList(chunks, scores, provider);
            |l| == |chunks|
            && forall i :: 0 <= i < |l| ==>
                 l[i].chunkIndex == i + 1
                 && (i >= |scores| ==> l[i].score == NotAvailable)
                 && (Lower(provider) != "pgvector" && i < |scores| ==> l[i].score == scores[i])
                 && (Lower(provider) == "pgvector" && i < |scores| ==> l[i].score == CorrectPgvectorScore(scores[i]))
                 && ("file_name" in chunks[i].metadata ==> l[i].sourceFileName == chunks[i].metadata["file_name"])
                 && ("file_name" !in chunks[i].metadata ==> l[i].sourceFileName == MStr(""))
  {
  }

  /** For pgvector every chunk's score is "N/A" or a number in [0, 1]
      whenever the store's scores are numbers, infinities included. */
  lemma PgvectorScoresInRange(chunks: seq<ResultChunk>, scores: seq<Score>)
    requires forall i :: 0 <= i < |scores| ==>
               scores[i].Finite? || scores[i].PlusInfinity? || scores[i].MinusInfinity?
    ensures var l := ChunkMetadataList(chunks, scores, "pgvector");
            forall i :: 0 <= i < |l| ==>
              l[i].score == NotAvailable || (l[i].score.Finite? && 0.0 <= l[i].score.x <= 1.0)
  {
    assert Lower("pgvector") == "pgvector";
    forall i | 0 <= i < |chunks| && i < |scores| {
      CorrectedRange(scores[i]);
    }
  }
}
