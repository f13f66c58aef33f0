/**
 What an upload stored is what a download reads (core/sds.c): the chunks of a finished
 upload, organized again from their positions and sizes, hold the bytes fed.
 */
module RoundTrip {
  import HttpPut
  import Upload
  import Download

  /** Chunks as the directory lists them: at the position of a metachunk, with its size. */
  ghost predicate Describes(chunks: seq<Download.Chunk>, done: seq<Upload.Metachunk>) {
    forall c :: c in chunks ==> c.meta < |done| && c.size == done[c.meta].size
  }

  /** The metachunks of the download have the sizes of those of the upload. */
  lemma SizesAgree(chunks: seq<Download.Chunk>, done: seq<Upload.Metachunk>, m: Download.Metachunk, i: nat)
    requires Describes(chunks, done) && i < |done| && Download.MadeOf(m, chunks, i, 1)
    ensures m.size == done[i].size
  {
    var c := Download.MadeOfHas(m, chunks, i);
    assert Download.Agree(chunks);
    Download.MadeOfSize(m, chunks, i, c);
  }

  /** A content uploaded from its start, without error, then organized: its metachunks hold the bytes fed,
      so that any range downloaded is that range of the input. */
  lemma UploadedIsDownloaded(u: Upload.Upload, chunks: seq<Download.Chunk>, ms: seq<Download.Metachunk>)
    requires u.Valid() && u.clean && u.finished && Describes(chunks, u.done)
    requires Download.LaidOut(ms) && |ms| == |u.done|
    requires forall i :: 0 <= i < |ms| ==> Download.MadeOf(ms[i], chunks, i, 1)
    ensures Download.Content(ms, u.stored) && HttpPut.Concat(u.stored) == u.input
    ensures !u.target.partial ==>
      forall i :: 0 <= i < |ms| ==> ms[i].offset == u.done[i].offset && ms[i].meta == u.done[i].meta
  {
    hide Upload.Contiguous, Download.MadeOf, Download.LaidOut, Describes, Upload.Holds, HttpPut.Concat, Download.Sum;
    Upload.Conservation(u);
    forall i | 0 <= i < |ms| ensures |u.stored[i]| == ms[i].size {
      SizesAgree(chunks, u.done, ms[i], i);
      Upload.HoldsSize(u.done[i], u.stored[i]);
    }
    if !u.target.partial {
      forall i | 0 <= i < |ms| ensures ms[i].offset == u.done[i].offset && ms[i].meta == u.done[i].meta {
        Upload.Offsets(u.target, u.done, i);
        Download.LayoutStep(ms, i);
        SameSums(u.done, ms, i, chunks);
        MetaIs(ms[i], chunks, i);
      }
    }
  }

  lemma MetaIs(m: Download.Metachunk, chunks: seq<Download.Chunk>, i: nat)
    requires Download.MadeOf(m, chunks, i, 1)
    ensures m.meta == i
  {
  }

  lemma {:induction false} SameSums(done: seq<Upload.Metachunk>, ms: seq<Download.Metachunk>, n: nat,
                                    chunks: seq<Download.Chunk>)
    requires n <= |ms| == |done| && Describes(chunks, done)
    requires forall i :: 0 <= i < |ms| ==> Download.MadeOf(ms[i], chunks, i, 1)
    ensures Download.Sum(Download.Sizes(ms)[..n]) == Upload.SizeOf(done[..n])
  {
    hide Download.MadeOf, Describes;
    if n > 0 {
      SameSums(done, ms, n - 1, chunks);
      SizesAgree(chunks, done, ms[n - 1], n - 1);
      assert Download.Sizes(ms)[..n][..n - 1] == Download.Sizes(ms)[..n - 1];
      assert done[..n][..n - 1] == done[..n - 1];
    }
  }
}
