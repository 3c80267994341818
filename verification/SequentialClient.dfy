/**
 * The one-at-a-time Cap'n Proto client, and the theorem that the pipelined client does the same job.
 */
module SequentialClient {
  import opened Bytes
  import opened Chunking
  import opened ChunkReaders
  import opened Pipeline
  import opened PipelineAccounting

  /** What a finished client reports: the same four figures for both clients. */
  datatype Report = Report(verified: nat, payload: nat, rtts: nat, errors: nat)

  /**
   * The server as seen by this client: any answer to the i-th request. Only the first wrong answer
   * matters, because the client stops there.
   */
  type Service = (nat, Bytes) -> Bytes

  function EchoService(i: nat, chunk: Bytes): Bytes {
    Reversed(chunk)
  }

  /** Chunks answered correctly before the first wrong answer, starting at chunk `i`. */
  function GoodAnswers(chunks: seq<Bytes>, serve: Service, i: nat): (n: nat)
    requires i <= |chunks|
    ensures i + n <= |chunks|
    ensures forall j :: i <= j < i + n ==> serve(j, chunks[j]) == Reversed(chunks[j])
    ensures i + n < |chunks| ==> serve(i + n, chunks[i + n]) != Reversed(chunks[i + n])
    decreases |chunks| - i
  {
    if i < |chunks| && serve(i, chunks[i]) == Reversed(chunks[i]) then 1 + GoodAnswers(chunks, serve, i + 1) else 0
  }

  lemma {:induction false} FewerPiecesAreSmaller(pieces: seq<Bytes>, i: nat)
    requires i < |pieces| && forall j :: 0 <= j < |pieces| ==> pieces[j] != []
    ensures TotalSize(pieces[..i]) < TotalSize(pieces)
    decreases |pieces| - i
  {
    TotalSizeTake(pieces, i);
    if i + 1 < |pieces| {
      FewerPiecesAreSmaller(pieces, i + 1);
    } else {
      assert pieces[..i + 1] == pieces;
    }
  }

  /** The report of a client that got `good` right answers and then, unless that was all, a wrong one. */
  function ReportFor(chunks: seq<Bytes>, good: nat): Report
    requires good <= |chunks|
  {
    if good == |chunks| then Report(TotalSize(chunks), TotalSize(chunks), good, 0)
    else Report(TotalSize(chunks[..good]), TotalSize(chunks[..good + 1]), good + 1, 2)
  }

  function Min(a: nat, b: nat): nat {
    if a <= b then a else b
  }

  /** Pieces before the last are full. */
  lemma {:induction false} FullPieces(file: Bytes, n: nat, i: nat)
    requires n > 0 && i < |Split(file, n)|
    ensures TotalSize(Split(file, n)[..i]) == i * n
  {
    if i > 0 {
      FullPieces(file, n, i - 1);
      SplitIsPartition(file, n);
      TotalSizeTake(Split(file, n), i - 1);
      assert i * n == (i - 1) * n + n;
    }
  }

  /** The report in octets of the file: a wrong answer ends it within the piece after the last good one. */
  function OctetReport(size: nat, n: nat, good: nat, pieces: nat): Report {
    if good == pieces then Report(size, size, good, 0)
    else Report(good * n, Min(good * n + n, size), good + 1, 2)
  }

  lemma ReportInOctets(file: Bytes, n: nat, good: nat)
    requires n > 0 && good <= |Split(file, n)|
    ensures good < |Split(file, n)| ==> good * n < |file|
    ensures ReportFor(Split(file, n), good) == OctetReport(|file|, n, good, |Split(file, n)|)
  {
    var chunks := Split(file, n);
    SplitIsPartition(file, n);
    if good < |chunks| {
      FullPieces(file, n, good);
      TotalSizeTake(chunks, good);
      if good + 1 < |chunks| {
        FewerPiecesAreSmaller(chunks, good + 1);
      } else {
        assert chunks[..good + 1] == chunks;
      }
      FewerPiecesAreSmaller(chunks, good);
    }
  }

  /** Sizes first, then contents, as both clients compare. */
  method Matches(original: Bytes, received: Bytes) returns (same: bool)
    ensures same <==> received == Reversed(original)
  {
    var expected := Reversed(original);
    if |received| != |expected| {
      return false;
    }
    return received == expected;
  }

  /** The state of the loop when it ends: all went well, or the answer after `good` right ones was wrong. */
  ghost predicate Ended(chunks: seq<Bytes>, good: nat, verified: nat, payload: nat, rtts: nat, errors: nat)
    requires good <= |chunks|
  {
    if good == |chunks| then verified == payload == TotalSize(chunks) && rtts == good && errors == 0
    else
      && verified == TotalSize(chunks[..good]) < TotalSize(chunks)
      && payload == TotalSize(chunks[..good + 1]) && rtts == good + 1 && errors == 1
  }

  lemma ReportAtEnd(chunks: seq<Bytes>, good: nat, verified: nat, payload: nat, rtts: nat, errors: nat)
    requires good <= |chunks| && Ended(chunks, good, verified, payload, rtts, errors)
    ensures Report(verified, payload, rtts, errors + (if verified != TotalSize(chunks) then 1 else 0))
      == ReportFor(chunks, good)
  {
  }

  /** The first `i` answers are right. */
  ghost predicate GoodSoFar(chunks: seq<Bytes>, serve: Service, i: nat)
    requires i <= |chunks|
  {
    forall j :: 0 <= j < i ==> serve(j, chunks[j]) == Reversed(chunks[j])
  }

  lemma {:induction false} CountGood(chunks: seq<Bytes>, serve: Service, i: nat, good: nat)
    requires i <= good <= |chunks| && GoodSoFar(chunks, serve, good)
    requires good < |chunks| ==> serve(good, chunks[good]) != Reversed(chunks[good])
    ensures GoodAnswers(chunks, serve, i) == good - i
    decreases good - i
  {
    if i < good {
      CountGood(chunks, serve, i + 1, good);
    }
  }

  lemma EndsWell(chunks: seq<Bytes>, serve: Service)
    requires GoodSoFar(chunks, serve, |chunks|)
    ensures
      var total := TotalSize(chunks[..|chunks|]);
      Ended(chunks, GoodAnswers(chunks, serve, 0), total, total, |chunks|, 0)
  {
    assert chunks[..|chunks|] == chunks;
    CountGood(chunks, serve, 0, |chunks|);
  }

  lemma EndsHere(file: Bytes, n: nat, serve: Service, i: nat)
    requires n > 0 && i < |Split(file, n)| && GoodSoFar(Split(file, n), serve, i)
    requires serve(i, Split(file, n)[i]) != Reversed(Split(file, n)[i])
    ensures
      var chunks := Split(file, n);
      var before := TotalSize(chunks[..i]);
      Ended(chunks, GoodAnswers(chunks, serve, 0), before, before + |chunks[i]|, i + 1, 1)
  {
    var chunks := Split(file, n);
    SplitIsPartition(file, n);
    TotalSizeTake(chunks, i);
    FewerPiecesAreSmaller(chunks, i);
    CountGood(chunks, serve, 0, i);
  }

  lemma NextIn(chunks: seq<Bytes>, i: nat)
    requires i <= |chunks|
    ensures chunks[i..] == [] <==> i == |chunks|
    ensures i < |chunks| ==> chunks[i..][0] == chunks[i] && chunks[i..][1..] == chunks[i + 1..]
  {
  }

  /** The request/verify loop. */
  method TransferChunks(file: Bytes, chunkSize: nat, serve: Service)
    returns (verified: nat, payload: nat, rtts: nat, errors: nat)
    requires chunkSize > 0
    ensures
      var chunks := Split(file, chunkSize);
      Ended(chunks, GoodAnswers(chunks, serve, 0), verified, payload, rtts, errors)
  {
    var reader := new StreamChunkReader(file, chunkSize);
    var chunksSent := 0;
    verified, payload, rtts, errors := 0, 0, 0, 0;
    ghost var chunks := Split(file, chunkSize);
    assert chunks[..0] == [] && chunks[0..] == chunks;
    while true
      invariant fresh(reader) && reader.Valid()
      invariant chunksSent <= |chunks| && reader.Pending() == chunks[chunksSent..]
      invariant GoodSoFar(chunks, serve, chunksSent)
      invariant verified == payload == TotalSize(chunks[..chunksSent])
      invariant rtts == chunksSent && errors == 0
      decreases |chunks| - chunksSent
    {
      NextIn(chunks, chunksSent);
      var chunk := reader.NextChunk();
      if chunk == [] && reader.Eof() {
        EndsWell(chunks, serve);
        return;
      }
      TotalSizeTake(chunks, chunksSent);
      payload := payload + |chunk|;
      var answer := serve(chunksSent, chunk);
      rtts := rtts + 1;
      var same := Matches(chunk, answer);
      if !same {
        errors := errors + 1;
        EndsHere(file, chunkSize, serve, chunksSent);
        return;
      }
      verified := verified + |chunk|;
      chunksSent := chunksSent + 1;
    }
  }

  /**
   * The loop and the check of the total after it. Against any service the client verifies the chunks
   * before the first wrong answer, books that one too, and complains about it and about the total; or
   * about nothing.
   */
  method Transfer(file: Bytes, chunkSize: nat, serve: Service) returns (report: Report)
    requires chunkSize > 0
    ensures report == ReportFor(Split(file, chunkSize), GoodAnswers(Split(file, chunkSize), serve, 0))
    ensures report.errors == 0 <==> report.verified == |file|
  {
    var verified, payload, rtts, errors := TransferChunks(file, chunkSize, serve);
    SplitIsPartition(file, chunkSize);
    ReportAtEnd(Split(file, chunkSize), GoodAnswers(Split(file, chunkSize), serve, 0), verified, payload, rtts, errors);
    if verified != |file| {
      errors := errors + 1;
    }
    report := Report(verified, payload, rtts, errors);
  }

  lemma {:induction false} EchoIsAlwaysGood(chunks: seq<Bytes>, i: nat)
    requires i <= |chunks|
    ensures GoodAnswers(chunks, EchoService, i) == |chunks| - i
    decreases |chunks| - i
  {
    if i < |chunks| {
      EchoIsAlwaysGood(chunks, i + 1);
    }
  }

  /** The pipelined client as `main` starts it: the chunks of the file, and its size as the expected total. */
  function FileConfig(file: Bytes, chunkSize: nat, window: nat, order: InsertOrder, world: World): (c: Config)
    requires chunkSize > 0
  {
    Config(Split(file, chunkSize), |file|, window, order, world)
  }

  lemma {:induction false} SizeOfAll(chunks: seq<Bytes>, n: nat)
    requires n <= |chunks|
    ensures SizeOf(chunks, Ids(|chunks|), n) == TotalSize(chunks[..n])
  {
    if n > 0 {
      SizeOfAll(chunks, n - 1);
      TotalSizeTake(chunks, n - 1);
    }
  }

  /** The chunk reader meets every assumption of the protocol proofs. */
  lemma FileConfigIsValid(file: Bytes, chunkSize: nat, window: nat, order: InsertOrder, world: World)
    requires chunkSize > 0 && window > 0
    ensures
      var c := FileConfig(file, chunkSize, window, order, world);
      ValidConfig(c) && c.expected == SizeOfIds(c, Ids(|c.chunks|))
  {
    SplitIsPartition(file, chunkSize);
    var chunks := Split(file, chunkSize);
    SizeOfAll(chunks, |chunks|);
    assert chunks[..|chunks|] == chunks;
  }

  function ReportOf(s: State): Report {
    Report(s.r.tally.verified, s.r.tally.payload, s.r.tally.received, s.r.tally.errors)
  }

  /**
   * Refinement: a complete unbroken pipelined run reports what `Transfer` reports with the echo
   * service on the same file if and only if nobody was orphaned, whatever the interleaving;
   * inserting before the write makes that every run.
   */
  lemma PipelinedRefinesSequential(
    file: Bytes, chunkSize: nat, window: nat, order: InsertOrder, s: State)
    requires chunkSize > 0 && window > 0
    requires Reachable(FileConfig(file, chunkSize, window, order, Honest), s) && Complete(s)
    ensures
      var chunks := Split(file, chunkSize);
      var sequential := ReportFor(chunks, GoodAnswers(chunks, EchoService, 0));
      && sequential == Report(|file|, |file|, |chunks|, 0)
      && (ReportOf(s) == sequential <==> s.r.seen.orphans == {})
      && (order.BeforeWrite? ==> ReportOf(s) == sequential)
  {
    var c := FileConfig(file, chunkSize, window, order, Honest);
    FileConfigIsValid(file, chunkSize, window, order, Honest);
    SplitIsPartition(file, chunkSize);
    EchoIsAlwaysGood(c.chunks, 0);
    ExactAccounting(c, s);
    OrphansWeigh(c, s.r.seen.orphans);
    if order.BeforeWrite? {
      InsertFirstIsClean(c, s);
    }
  }
}
