/**
 * What every step of the client keeps, whatever the server and the stream do: bookkeeping of the
 * map, the window and the counters, and the soundness of the success message.
 */
module PipelineSafety {
  import opened Bytes
  import opened Pipeline

  // ---- the invariant ----

  /** The chunk the writer holds is the one with its id. */
  ghost predicate WriterHolds(c: Config, w: WriterState) {
    && w.produced <= |c.chunks|
    && (w.pc.InsertEntry? || w.pc.WriteRequest? || w.pc.CountSent? ==>
          w.produced > 0 && w.pc.data == c.chunks[w.produced - 1])
  }

  predicate Stopped(w: WriterState) {
    w.pc.SetFinished? || w.pc.HalfClose? || w.pc.WriterDone?
  }

  /** How the writer's counters stand to each other at each program point. */
  ghost predicate WriterCounts(c: Config, w: WriterState) {
    && (w.finished <==> w.pc.HalfClose? || w.pc.WriterDone?)
    && (w.broken ==> Stopped(w))
    && (Stopped(w) && !w.broken ==> w.produced == |c.chunks|)
    && match c.order
       case AfterWrite =>
         (match w.pc
          case WriteRequest(_) => w.produced == w.sent + 1 && w.inserted == w.sent
          case CountSent(_) => w.produced == w.sent + 1 && w.inserted == w.sent
          case InsertEntry(_) => w.produced == w.sent == w.inserted + 1
          case _ => w.inserted == w.sent && w.produced == w.sent + (if w.broken then 1 else 0))
       case BeforeWrite =>
         (match w.pc
          case InsertEntry(_) => w.produced == w.sent + 1 && w.inserted == w.sent
          case WriteRequest(_) => w.produced == w.inserted == w.sent + 1
          case CountSent(_) => w.produced == w.inserted == w.sent + 1
          case _ => w.inserted == w.produced == w.sent + (if w.broken then 1 else 0))
  }

  /** The writer is past the window check and has not filed its entry yet. */
  predicate SlotReserved(c: Config, pc: Writer) {
    || pc.ReadChunk? || pc.InsertEntry?
    || (c.order.AfterWrite? && (pc.WriteRequest? || pc.CountSent?))
  }

  /** The map fits the window, with room to spare from the check to the insert and after the end of the file. */
  ghost predicate Window(c: Config, w: WriterState, size: nat) {
    && size <= c.window
    && (SlotReserved(c, w.pc) || (Stopped(w) && !w.broken) ==> size < c.window)
  }

  /** Every id ever inserted is either still in the map or was matched, never both. */
  ghost predicate IdBooks(inserted: nat, inflight: map<int, Bytes>, matched: set<int>) {
    && (forall id :: id in inflight ==> 1 <= id <= inserted && id !in matched)
    && (forall id :: id in matched ==> 1 <= id <= inserted)
    && (forall id :: 1 <= id <= inserted && id !in inflight ==> id in matched)
  }

  ghost predicate OwnChunks(c: Config, inflight: map<int, Bytes>) {
    forall id :: id in inflight ==> 1 <= id <= |c.chunks| && inflight[id] == c.chunks[id - 1]
  }

  /** Ids whose entry was found and whose response has been accounted for. */
  function Accounted(r: ReaderState): set<int> {
    if r.pc.NotifyWriter? || r.pc.Account? then r.seen.matched - {r.pc.entry.id} else r.seen.matched
  }

  /** The response in hand came from the stream, the entry in hand from the map. */
  ghost predicate ReaderHolds(c: Config, r: ReaderState) {
    && (r.pc.NotifyWriter? || r.pc.Account? ==>
          && r.pc.entry.id in r.seen.matched
          && 1 <= r.pc.entry.id <= |c.chunks|
          && r.pc.entry.data == c.chunks[r.pc.entry.id - 1]
          && r.pc.resp.id == r.pc.entry.id
          && r.pc.resp in r.seen.consumed)
    && (r.pc.FindEntry? ==> r.pc.resp in r.seen.consumed)
  }

  /** The running totals are those of the accounted and of the verified ids. */
  ghost predicate Totals(c: Config, t: Tally, accounted: set<int>, verified: set<int>) {
    && t.received == |accounted|
    && t.payload == SizeOfIds(c, accounted)
    && verified <= accounted
    && t.verified == SizeOfIds(c, verified)
  }

  ghost predicate VerifiedByBytes(c: Config, seen: Seen) {
    forall id :: id in seen.verified ==>
      1 <= id <= |c.chunks| && Message(id, Reversed(c.chunks[id - 1])) in seen.consumed
  }

  /** The success message is printed at the end only, and only on a clean finish with the right total. */
  ghost predicate Verdict(c: Config, r: ReaderState, w: WriterState) {
    && (r.success ==> r.pc.ReaderDone? && w.finished && !w.broken && r.tally.verified == c.expected)
    && (r.pc.CheckLeftovers? || r.pc.FinishCall? || r.pc.ReaderDone? ==> w.pc.WriterDone?)
  }

  ghost predicate ClientInv(c: Config, s: State) {
    && WriterHolds(c, s.w)
    && WriterCounts(c, s.w)
    && Window(c, s.w, |s.inflight|)
    && IdBooks(s.w.inserted, s.inflight, s.r.seen.matched)
    && OwnChunks(c, s.inflight)
    && ReaderHolds(c, s.r)
    && Totals(c, s.r.tally, Accounted(s.r), s.r.seen.verified)
    && VerifiedByBytes(c, s.r.seen)
    && Verdict(c, s.r, s.w)
  }

  // ---- preservation, thread by thread ----

  lemma InitInv(c: Config)
    requires ValidConfig(c)
    ensures ClientInv(c, Init())
  {
    SizeOfNone(c.chunks, |c.chunks|);
  }

  lemma {:induction false} SizeOfNone(chunks: seq<Bytes>, n: nat)
    requires n <= |chunks|
    ensures SizeOf(chunks, {}, n) == 0
  {
    if n > 0 {
      SizeOfNone(chunks, n - 1);
    }
  }

  lemma WriterKeepsCounts(c: Config, s: State, a: Action)
    requires WriterHolds(c, s.w) && WriterCounts(c, s.w)
    requires IsWriterAction(a) && Enabled(c, s, a)
    ensures var t := WriterStep(c, s, a); WriterHolds(c, t.w) && WriterCounts(c, t.w) && t.r == s.r
  {
  }

  lemma FilingKeepsMap(c: Config, inflight: map<int, Bytes>, matched: set<int>, id: nat, data: Bytes)
    requires 1 <= id <= |c.chunks| && data == c.chunks[id - 1]
    requires IdBooks(id - 1, inflight, matched) && OwnChunks(c, inflight)
    ensures id !in inflight && |inflight[id := data]| == |inflight| + 1
    ensures IdBooks(id, inflight[id := data], matched)
    ensures OwnChunks(c, inflight[id := data])
  {
  }

  /** Only the insert touches the map; its id is new. */
  lemma InsertKeepsInv(c: Config, s: State)
    requires ClientInv(c, s) && s.w.pc.InsertEntry?
    ensures ClientInv(c, WriterStep(c, s, WInsert))
  {
    FilingKeepsMap(c, s.inflight, s.r.seen.matched, s.w.produced, s.w.pc.data);
  }

  lemma WriterKeepsInv(c: Config, s: State, a: Action)
    requires ClientInv(c, s) && IsWriterAction(a) && Enabled(c, s, a)
    ensures ClientInv(c, WriterStep(c, s, a))
  {
    WriterKeepsCounts(c, s, a);
    if a.WInsert? {
      InsertKeepsInv(c, s);
    }
  }

  /** A match moves one id from the map to the matched ones. */
  lemma MatchKeepsMap(c: Config, inserted: nat, inflight: map<int, Bytes>, matched: set<int>, id: int)
    requires IdBooks(inserted, inflight, matched) && OwnChunks(c, inflight) && id in inflight
    ensures |inflight - {id}| == |inflight| - 1
    ensures IdBooks(inserted, inflight - {id}, matched + {id})
    ensures OwnChunks(c, inflight - {id})
  {
    assert (inflight - {id}).Keys == inflight.Keys - {id};
  }

  lemma FindKeepsInv(c: Config, s: State)
    requires ClientInv(c, s) && s.r.pc.FindEntry?
    ensures ClientInv(c, ReaderStep(c, s, RFind))
  {
    var id := s.r.pc.resp.id;
    if id in s.inflight {
      MatchKeepsMap(c, s.w.inserted, s.inflight, s.r.seen.matched, id);
    }
    assert Accounted(ReaderStep(c, s, RFind).r) == Accounted(s.r);
  }

  lemma AccountKeepsTotals(c: Config, r: ReaderState)
    requires r.pc.Account? && ReaderHolds(c, r)
    requires Totals(c, r.tally, Accounted(r), r.seen.verified) && VerifiedByBytes(c, r.seen)
    ensures
      var u := AccountFor(r);
      && ReaderHolds(c, u)
      && Totals(c, u.tally, Accounted(u), u.seen.verified)
      && VerifiedByBytes(c, u.seen)
  {
    var id := r.pc.entry.id;
    assert Accounted(AccountFor(r)) == Accounted(r) + {id};
    SizeOfAdd(c.chunks, Accounted(r), id, |c.chunks|);
    SizeOfAdd(c.chunks, r.seen.verified, id, |c.chunks|);
    if r.pc.resp.data == Reversed(r.pc.entry.data) {
      assert r.pc.resp == Message(id, Reversed(c.chunks[id - 1]));
    }
  }

  /** Taking one more response off the stream only adds to what was consumed. */
  lemma ReadKeepsHolds(c: Config, r: ReaderState, resp: Message)
    requires r.pc.ReadResponse? && VerifiedByBytes(c, r.seen)
    ensures
      var u := r.(pc := FindEntry(resp), seen := r.seen.(consumed := r.seen.consumed + [resp]));
      ReaderHolds(c, u) && VerifiedByBytes(c, u.seen) && Accounted(u) == Accounted(r)
  {
    assert forall m :: m in r.seen.consumed ==> m in r.seen.consumed + [resp];
  }

  lemma NotifyKeepsInv(c: Config, s: State)
    requires ClientInv(c, s) && s.r.pc.NotifyWriter?
    ensures ClientInv(c, ReaderStep(c, s, RNotify))
  {
    assert Accounted(ReaderStep(c, s, RNotify).r) == Accounted(s.r);
  }

  lemma LeaveKeepsInv(c: Config, s: State, a: Action)
    requires ClientInv(c, s) && Enabled(c, s, a)
    requires a.RJoin? || a.RLeftovers? || a.RFinish? || a == RRead(false)
    ensures ClientInv(c, ReaderStep(c, s, a))
  {
    assert Accounted(ReaderStep(c, s, a).r) == Accounted(s.r);
  }

  lemma ReaderKeepsInv(c: Config, s: State, a: Action)
    requires ClientInv(c, s) && IsReaderAction(a) && Enabled(c, s, a)
    ensures ClientInv(c, ReaderStep(c, s, a))
  {
    if a.RFind? {
      FindKeepsInv(c, s);
    } else if a.RAccount? {
      AccountKeepsTotals(c, s.r);
    } else if a.RRead? && a.ok {
      ReadKeepsHolds(c, s.r, s.net.down[0]);
    } else if a.RNotify? {
      NotifyKeepsInv(c, s);
    } else {
      LeaveKeepsInv(c, s, a);
    }
  }

  /** No step of anyone, the arbitrary environment included, breaks the client's books. */
  lemma StepKeepsInv(c: Config, s: State, a: Action)
    requires ClientInv(c, s) && Enabled(c, s, a)
    ensures ClientInv(c, Apply(c, s, a))
  {
    if IsWriterAction(a) {
      WriterKeepsInv(c, s, a);
    } else if IsReaderAction(a) {
      ReaderKeepsInv(c, s, a);
    }
  }

  lemma {:induction false} RunKeepsInv(c: Config, s: State, run: seq<Action>)
    requires ClientInv(c, s) && Feasible(c, s, run)
    ensures ClientInv(c, Exec(c, s, run))
    decreases |run|
  {
    if run != [] {
      StepKeepsInv(c, s, run[0]);
      RunKeepsInv(c, Apply(c, s, run[0]), run[1..]);
    }
  }

  lemma ReachableInv(c: Config, s: State)
    requires ValidConfig(c) && Reachable(c, s)
    ensures ClientInv(c, s)
  {
    var run :| Feasible(c, Init(), run) && Exec(c, Init(), run) == s;
    InitInv(c);
    RunKeepsInv(c, Init(), run);
  }

  // ---- what the invariant means ----

  /**
   * The window holds although the lock is dropped between the check and the insert, and the number
   * of matched responses never runs ahead of the number the writer says it sent.
   */
  lemma WindowAndCounterSafety(c: Config, s: State)
    requires ValidConfig(c) && Reachable(c, s)
    ensures |s.inflight| <= c.window
    ensures |s.inflight| + |s.r.seen.matched| == s.w.inserted
    ensures s.r.tally.received <= |s.r.seen.matched|
    ensures c.order.AfterWrite? ==> |s.r.seen.matched| <= s.w.sent
  {
    ReachableInv(c, s);
    BooksBalance(s.w.inserted, s.inflight, s.r.seen.matched);
    SubsetSize(Accounted(s.r), s.r.seen.matched);
  }

  lemma BooksBalance(inserted: nat, inflight: map<int, Bytes>, matched: set<int>)
    requires IdBooks(inserted, inflight, matched)
    ensures |inflight| + |matched| == inserted
  {
    assert inflight.Keys + matched == Ids(inserted);
    assert |inflight.Keys + matched| == |inflight.Keys| + |matched|;
  }

  lemma SubsetSize(a: set<int>, b: set<int>)
    requires a <= b
    ensures |a| <= |b|
  {
    assert b == a + (b - a);
  }

  /** If the sizes of some ids add up to the size of all chunks, no id is missing: chunks are not empty. */
  lemma {:induction false} FullSizeMeansAll(chunks: seq<Bytes>, ids: set<int>, n: nat)
    requires n <= |chunks| && forall i :: 0 <= i < |chunks| ==> chunks[i] != []
    ensures SizeOf(chunks, ids, n) <= SizeOf(chunks, Ids(|chunks|), n)
    ensures SizeOf(chunks, ids, n) == SizeOf(chunks, Ids(|chunks|), n) ==> Ids(n) <= ids
  {
    if n > 0 {
      FullSizeMeansAll(chunks, ids, n - 1);
      assert |chunks[n - 1]| > 0;
      assert n in Ids(|chunks|);
      if SizeOf(chunks, ids, n) == SizeOf(chunks, Ids(|chunks|), n) {
        assert n in ids;
        assert Ids(n) == Ids(n - 1) + {n};
      }
    }
  }

  /**
   * Soundness of the success message against an arbitrary server and stream: every chunk was
   * answered by its exact reversal, matched once, and counted once.
   */
  lemma SuccessIsSound(c: Config, s: State)
    requires ValidConfig(c) && Reachable(c, s)
    requires c.expected == SizeOfIds(c, Ids(|c.chunks|))
    requires s.r.success
    ensures s.w.produced == s.w.sent == s.w.inserted == s.r.tally.received == |c.chunks|
    ensures s.r.seen.verified == s.r.seen.matched == Ids(|c.chunks|)
    ensures s.inflight == map[]
    ensures s.r.tally.payload == s.r.tally.verified == c.expected
    ensures forall i :: 0 <= i < |c.chunks| ==> Message(i + 1, Reversed(c.chunks[i])) in s.r.seen.consumed
  {
    ReachableInv(c, s);
    var n := |c.chunks|;
    assert Ids(n) <= s.r.seen.verified by {
      FullSizeMeansAll(c.chunks, s.r.seen.verified, n);
    }
    assert s.r.seen.verified <= s.r.seen.matched;
    assert s.r.seen.matched <= Ids(n);
    assert s.r.seen.verified == s.r.seen.matched == Ids(n);
    assert forall id :: id !in s.inflight;
    forall i | 0 <= i < n
      ensures Message(i + 1, Reversed(c.chunks[i])) in s.r.seen.consumed
    {
      assert i + 1 in s.r.seen.verified;
    }
  }
}
