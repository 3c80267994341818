/**
 * The client against the real echo server: FIFO order end to end, when an id can be orphaned, and
 * the exact account of every complete run.
 */
module PipelineAccounting {
  import opened Bytes
  import opened Pipeline
  import opened PipelineSafety

  /** What the server owes for chunk `i` (counting from 0), and what the client asks with it. */
  function Answer(c: Config, i: nat): Message
    requires i < |c.chunks|
  {
    Message(i + 1, Reversed(c.chunks[i]))
  }

  function Question(c: Config, i: nat): Message
    requires i < |c.chunks|
  {
    Message(i + 1, c.chunks[i])
  }

  /** Requests successfully written. */
  function Written(w: WriterState): nat {
    w.sent + (if w.pc.CountSent? then 1 else 0)
  }

  /** One message may be in the server's hands, or lost with a server that failed to write it. */
  function Held(server: Server): nat {
    if server.WriteResponse? || server == ServerDone(false) then 1 else 0
  }

  /** Responses whose lookup is over. */
  function Looked(r: ReaderState): int {
    |r.seen.consumed| - (if r.pc.FindEntry? then 1 else 0)
  }

  /**
   * The ids written so far are split, in order and without gaps, into those consumed, those on the
   * way down, the one the server holds, and those on the way up; each carries its own chunk.
   */
  ghost predicate Fifo(c: Config, written: nat, consumed: seq<Message>, n: Net) {
    var below := |consumed| + |n.down|;
    && below + Held(n.server) + |n.up| == written <= |c.chunks|
    && (forall i :: 0 <= i < |consumed| ==> consumed[i] == Answer(c, i))
    && (forall i :: 0 <= i < |n.down| ==> n.down[i] == Answer(c, |consumed| + i))
    && (n.server.WriteResponse? ==> n.server.resp == Answer(c, below))
    && (forall i :: 0 <= i < |n.up| ==> n.up[i] == Question(c, below + Held(n.server) + i))
  }

  /** The server stops on its own only after the half-close and an empty stream. */
  ghost predicate Closing(w: WriterState, n: Net) {
    && (n.halfClosed <==> w.pc.WriterDone? && !w.broken)
    && (w.broken ==> n.broken)
    && (n.server.ServerDone? ==> n.broken || (n.server.ok && n.up == [] && n.halfClosed))
  }

  /** The ids looked up so far are the first ones, each either matched or orphaned. */
  ghost predicate Lookups(c: Config, r: ReaderState) {
    && (forall id :: id in r.seen.matched ==> 1 <= id <= Looked(r) && id !in r.seen.orphans)
    && (forall id :: id in r.seen.orphans ==> 1 <= id <= Looked(r))
    && (forall id :: 1 <= id <= Looked(r) && id !in r.seen.matched ==> id in r.seen.orphans)
    && (r.pc.FindEntry? ==> r.seen.consumed != [] && r.pc.resp == r.seen.consumed[|r.seen.consumed| - 1])
    && (r.pc.NotifyWriter? || r.pc.Account? ==> r.pc.resp.data == Reversed(r.pc.entry.data))
    && r.seen.verified == Accounted(r)
    && (c.order.BeforeWrite? ==> r.seen.orphans == {})
  }

  predicate Joined(r: ReaderState) {
    r.pc.JoinWriter? || r.pc.CheckLeftovers? || r.pc.FinishCall? || r.pc.ReaderDone?
  }

  /** The reader leaves its loop on an unbroken stream only when everything has come down. */
  ghost predicate Leaving(r: ReaderState, n: Net) {
    Joined(r) && !n.broken ==> n.down == [] && n.server.ServerDone?
  }

  /** The error list: one line per orphan, one for leftovers, one for a wrong total; and when success is reported. */
  ghost predicate Complaints(c: Config, r: ReaderState, leftovers: bool, n: Net) {
    var late := if leftovers then 1 else 0;
    !n.broken ==>
      match r.pc
      case FinishCall => r.tally.errors == |r.seen.orphans| + late
      case ReaderDone =>
        && r.tally.errors == |r.seen.orphans| + late + (if r.tally.verified == c.expected then 0 else 1)
        && (r.success <==> r.tally.verified == c.expected)
      case _ => r.tally.errors == |r.seen.orphans|
  }

  ghost predicate HonestInv(c: Config, s: State) {
    && Fifo(c, Written(s.w), s.r.seen.consumed, s.net)
    && Closing(s.w, s.net)
    && Lookups(c, s.r)
    && Leaving(s.r, s.net)
    && Complaints(c, s.r, s.inflight != map[], s.net)
  }

  // ---- preservation ----

  /** A request written goes to the end of the stream. */
  lemma WriteKeepsFifo(c: Config, written: nat, consumed: seq<Message>, n: Net)
    requires Fifo(c, written, consumed, n) && written < |c.chunks|
    ensures Fifo(c, written + 1, consumed, n.(up := n.up + [Question(c, written)]))
  {
  }

  lemma WriteKeepsHonest(c: Config, s: State, ok: bool)
    requires ClientInv(c, s) && HonestInv(c, s) && Enabled(c, s, WWrite(ok))
    ensures HonestInv(c, WriterStep(c, s, WWrite(ok)))
  {
    if ok {
      assert Message(s.w.produced, s.w.pc.data) == Question(c, s.w.produced - 1);
      WriteKeepsFifo(c, Written(s.w), s.r.seen.consumed, s.net);
    } else {
      assert Written(WriterStep(c, s, WWrite(ok)).w) == Written(s.w);
    }
  }

  lemma InsertKeepsHonest(c: Config, s: State)
    requires Verdict(c, s.r, s.w) && HonestInv(c, s) && s.w.pc.InsertEntry?
    ensures HonestInv(c, WriterStep(c, s, WInsert))
  {
  }

  lemma HalfCloseKeepsHonest(c: Config, s: State)
    requires WriterCounts(c, s.w) && HonestInv(c, s) && s.w.pc.HalfClose?
    ensures HonestInv(c, WriterStep(c, s, WHalfClose))
  {
  }

  /** The other writer steps touch neither the stream nor the map. */
  lemma ThinkingKeepsHonest(c: Config, s: State, a: Action)
    requires Verdict(c, s.r, s.w) && HonestInv(c, s) && Enabled(c, s, a)
    requires a.WCheck? || a.WSpurious? || a.WRead? || a.WCount? || a.WFinish?
    ensures HonestInv(c, WriterStep(c, s, a))
  {
    var t := WriterStep(c, s, a);
    assert t.net == s.net && t.r == s.r && t.inflight == s.inflight && t.w.broken == s.w.broken;
    assert Written(t.w) == Written(s.w);
  }

  lemma WriterKeepsHonest(c: Config, s: State, a: Action)
    requires ClientInv(c, s) && HonestInv(c, s) && IsWriterAction(a) && Enabled(c, s, a)
    ensures HonestInv(c, WriterStep(c, s, a))
  {
    if a.WWrite? {
      WriteKeepsHonest(c, s, a.ok);
    } else if a.WInsert? {
      InsertKeepsHonest(c, s);
    } else if a.WHalfClose? {
      HalfCloseKeepsHonest(c, s);
    } else {
      ThinkingKeepsHonest(c, s, a);
    }
  }

  lemma ServerReadKeepsHonest(c: Config, s: State, ok: bool)
    requires HonestInv(c, s) && Enabled(c, s, SRead(ok))
    ensures HonestInv(c, s.(net := ServerStep(s.net, SRead(ok))))
  {
    if ok {
      assert s.net.up[0] == Question(c, |s.r.seen.consumed| + |s.net.down|);
    }
  }

  lemma ServerWriteKeepsHonest(c: Config, s: State, ok: bool)
    requires HonestInv(c, s) && Enabled(c, s, SWrite(ok))
    ensures HonestInv(c, s.(net := ServerStep(s.net, SWrite(ok))))
  {
  }

  /** The response looked up is the next one in order. */
  lemma LookupInOrder(c: Config, written: nat, r: ReaderState, n: Net)
    requires Fifo(c, written, r.seen.consumed, n) && Lookups(c, r) && r.pc.FindEntry?
    ensures 0 <= Looked(r) < written && r.pc.resp == Answer(c, Looked(r))
  {
    var i := Looked(r);
    assert r.seen.consumed[i] == Answer(c, i);
  }

  /** A lookup in vain happens only between the `Write` and the insert of that very id. */
  lemma OrphanTiming(c: Config, s: State)
    requires ClientInv(c, s) && HonestInv(c, s)
    requires s.r.pc.FindEntry? && s.r.pc.resp.id !in s.inflight
    ensures c.order.AfterWrite?
    ensures s.r.pc.resp.id == s.w.produced
    ensures s.w.pc.CountSent? || s.w.pc.InsertEntry?
  {
    LookupInOrder(c, Written(s.w), s.r, s.net);
    assert s.r.pc.resp.id > s.w.inserted;
  }

  /** Reading moves one answer from the stream to the consumed ones. */
  lemma ReadKeepsHonest(c: Config, s: State)
    requires HonestInv(c, s) && Enabled(c, s, RRead(true))
    ensures HonestInv(c, ReaderStep(c, s, RRead(true)))
  {
    assert s.net.down[0] == Answer(c, |s.r.seen.consumed|);
  }

  /** A finished lookup settles the next id, one way or the other. */
  lemma LookupSettles(c: Config, r: ReaderState, u: ReaderState, id: int)
    requires Lookups(c, r) && r.pc.FindEntry? && id == Looked(r) + 1
    requires u.seen.consumed == r.seen.consumed && u.seen.verified == r.seen.verified
    requires
      || (u.pc.NotifyWriter? && u.pc.entry.id == id && u.pc.resp.data == Reversed(u.pc.entry.data)
          && u.seen.matched == r.seen.matched + {id} && u.seen.orphans == r.seen.orphans)
      || (u.pc.ReadResponse? && c.order.AfterWrite?
          && u.seen.matched == r.seen.matched && u.seen.orphans == r.seen.orphans + {id})
    ensures Lookups(c, u)
  {
    assert id !in r.seen.matched && id !in r.seen.orphans;
    assert Accounted(u) == r.seen.matched;
  }

  lemma HitKeepsHonest(c: Config, s: State)
    requires ClientInv(c, s) && HonestInv(c, s)
    requires s.r.pc.FindEntry? && s.r.pc.resp.id in s.inflight
    ensures HonestInv(c, ReaderStep(c, s, RFind))
  {
    var id := s.r.pc.resp.id;
    LookupInOrder(c, Written(s.w), s.r, s.net);
    assert s.inflight[id] == c.chunks[id - 1];
    LookupSettles(c, s.r, ReaderStep(c, s, RFind).r, id);
  }

  lemma MissAddsAComplaint(c: Config, r: ReaderState, u: ReaderState, id: int, leftovers: bool, n: Net)
    requires Complaints(c, r, leftovers, n) && r.pc.FindEntry? && u.pc.ReadResponse?
    requires id !in r.seen.orphans && u.seen.orphans == r.seen.orphans + {id}
    requires u.tally.errors == r.tally.errors + 1
    ensures Complaints(c, u, leftovers, n)
  {
  }

  lemma MissKeepsHonest(c: Config, s: State)
    requires ClientInv(c, s) && HonestInv(c, s)
    requires s.r.pc.FindEntry? && s.r.pc.resp.id !in s.inflight
    ensures HonestInv(c, ReaderStep(c, s, RFind))
  {
    var id, r, u := s.r.pc.resp.id, s.r, ReaderStep(c, s, RFind).r;
    LookupInOrder(c, Written(s.w), r, s.net);
    assert c.order.AfterWrite? by {
      OrphanTiming(c, s);
    }
    LookupSettles(c, r, u, id);
    MissAddsAComplaint(c, r, u, id, s.inflight != map[], s.net);
  }

  lemma AccountKeepsHonest(c: Config, s: State)
    requires HonestInv(c, s) && s.r.pc.Account?
    requires ReaderHolds(c, s.r)
    ensures HonestInv(c, ReaderStep(c, s, RAccount))
  {
    assert Accounted(AccountFor(s.r)) == Accounted(s.r) + {s.r.pc.entry.id};
  }

  lemma NotifyKeepsHonest(c: Config, s: State)
    requires HonestInv(c, s) && s.r.pc.NotifyWriter?
    ensures HonestInv(c, ReaderStep(c, s, RNotify))
  {
  }

  lemma LeaveKeepsHonest(c: Config, s: State, a: Action)
    requires HonestInv(c, s) && Enabled(c, s, a)
    requires a.RJoin? || a.RLeftovers? || a == RRead(false)
    ensures HonestInv(c, ReaderStep(c, s, a))
  {
  }

  lemma ConcludeKeepsHonest(c: Config, s: State, ok: bool)
    requires WriterCounts(c, s.w) && Verdict(c, s.r, s.w) && HonestInv(c, s) && Enabled(c, s, RFinish(ok))
    ensures HonestInv(c, ReaderStep(c, s, RFinish(ok)))
  {
    var u := Conclude(c, s.r, s.w, ok);
    assert !s.net.broken ==> ok && s.w.finished && !s.w.broken;
    assert Lookups(c, u) by {
      assert Accounted(u) == Accounted(s.r);
    }
  }

  lemma ReaderKeepsHonest(c: Config, s: State, a: Action)
    requires ClientInv(c, s) && HonestInv(c, s) && IsReaderAction(a) && Enabled(c, s, a)
    ensures HonestInv(c, ReaderStep(c, s, a))
  {
    if a.RFind? {
      if s.r.pc.resp.id in s.inflight {
        HitKeepsHonest(c, s);
      } else {
        MissKeepsHonest(c, s);
      }
    } else if a.RAccount? {
      AccountKeepsHonest(c, s);
    } else if a.RNotify? {
      NotifyKeepsHonest(c, s);
    } else if a.RRead? && a.ok {
      ReadKeepsHonest(c, s);
    } else if a.RFinish? {
      ConcludeKeepsHonest(c, s, a.ok);
    } else {
      LeaveKeepsHonest(c, s, a);
    }
  }

  lemma StepKeepsHonest(c: Config, s: State, a: Action)
    requires c.world.Honest? && ClientInv(c, s) && HonestInv(c, s) && Enabled(c, s, a)
    ensures HonestInv(c, Apply(c, s, a))
  {
    if IsWriterAction(a) {
      WriterKeepsHonest(c, s, a);
    } else if IsReaderAction(a) {
      ReaderKeepsHonest(c, s, a);
    } else if a.SRead? {
      ServerReadKeepsHonest(c, s, a.ok);
    } else if a.SWrite? {
      ServerWriteKeepsHonest(c, s, a.ok);
    }
  }

  lemma {:induction false} RunKeepsHonest(c: Config, s: State, run: seq<Action>)
    requires c.world.Honest? && ClientInv(c, s) && HonestInv(c, s) && Feasible(c, s, run)
    ensures ClientInv(c, Exec(c, s, run)) && HonestInv(c, Exec(c, s, run))
    decreases |run|
  {
    if run != [] {
      StepKeepsInv(c, s, run[0]);
      StepKeepsHonest(c, s, run[0]);
      RunKeepsHonest(c, Apply(c, s, run[0]), run[1..]);
    }
  }

  lemma ReachableHonest(c: Config, s: State)
    requires c.world.Honest? && ValidConfig(c) && Reachable(c, s)
    ensures ClientInv(c, s) && HonestInv(c, s)
  {
    var run :| Feasible(c, Init(), run) && Exec(c, Init(), run) == s;
    InitInv(c);
    RunKeepsHonest(c, Init(), run);
  }

  // ---- what the invariant means ----

  /** The stream never drops, duplicates or reorders an id, whatever breaks. */
  lemma StreamIsContiguous(c: Config, s: State)
    requires c.world.Honest? && ValidConfig(c) && Reachable(c, s)
    ensures Fifo(c, Written(s.w), s.r.seen.consumed, s.net)
  {
    ReachableHonest(c, s);
  }

  /** Only a client that inserts late, caught between its `Write` and its insert, orphans an id: that very one. */
  lemma OrphanedOnlyInTheGap(c: Config, s: State)
    requires c.world.Honest? && ValidConfig(c) && Reachable(c, s) && Enabled(c, s, RFind)
    ensures Apply(c, s, RFind).r.seen.orphans != s.r.seen.orphans <==> s.r.pc.resp.id !in s.inflight
    ensures s.r.pc.resp.id !in s.inflight <==>
      && c.order.AfterWrite? && (s.w.pc.CountSent? || s.w.pc.InsertEntry?) && s.r.pc.resp.id == s.w.produced
  {
    ReachableHonest(c, s);
    var id := s.r.pc.resp.id;
    LookupInOrder(c, Written(s.w), s.r, s.net);
    if id !in s.inflight {
      OrphanTiming(c, s);
      assert id !in s.r.seen.orphans;
      assert id in Apply(c, s, RFind).r.seen.orphans;
    }
  }

  /** In every reachable state the map holds exactly the inserted ids still in the stream and the inserted orphans. */
  lemma MapIsStreamPlusOrphans(c: Config, s: State)
    requires c.world.Honest? && ValidConfig(c) && Reachable(c, s)
    ensures forall id :: id in s.inflight <==>
      1 <= id <= s.w.inserted && (Looked(s.r) < id || id in s.r.seen.orphans)
    ensures forall id :: id in s.inflight ==> 1 <= id <= |c.chunks| && s.inflight[id] == c.chunks[id - 1]
  {
    ReachableHonest(c, s);
  }

  predicate Complete(s: State) {
    s.r.pc.ReaderDone? && !s.net.broken
  }

  /**
   * The exact account of every complete run on an unbroken stream, whatever the interleaving: what
   * is left in the map is the orphans, the verified octets and theirs add up to the file, and the
   * success message appears if and only if nobody was orphaned.
   */
  lemma ExactAccounting(c: Config, s: State)
    requires c.world.Honest? && ValidConfig(c) && Reachable(c, s) && Complete(s)
    requires c.expected == SizeOfIds(c, Ids(|c.chunks|))
    ensures s.w.sent == |c.chunks| && s.r.seen.matched + s.r.seen.orphans == Ids(|c.chunks|)
    ensures s.r.seen.matched !! s.r.seen.orphans
    ensures s.inflight.Keys == s.r.seen.orphans && |s.r.seen.orphans| < c.window
    ensures s.r.tally.verified == s.r.tally.payload
    ensures s.r.tally.verified + SizeOfIds(c, s.r.seen.orphans) == c.expected
    ensures s.r.tally.received + |s.r.seen.orphans| == |c.chunks|
    ensures s.r.success <==> s.r.seen.orphans == {}
    ensures s.r.tally.errors == if s.r.seen.orphans == {} then 0 else |s.r.seen.orphans| + 2
  {
    ReachableHonest(c, s);
    CompleteSets(c, s);
    var matched, orphans := s.r.seen.matched, s.r.seen.orphans;
    assert Accounted(s.r) == matched;
    SizeOfDisjoint(c.chunks, matched, orphans, |c.chunks|);
    OrphansWeigh(c, orphans);
    assert s.inflight != map[] <==> orphans != {};
  }

  lemma CompleteCounts(c: Config, s: State)
    requires WriterCounts(c, s.w) && Verdict(c, s.r, s.w) && HonestInv(c, s) && Complete(s)
    ensures Looked(s.r) == |s.r.seen.consumed| == s.w.sent == s.w.inserted == |c.chunks|
    ensures Stopped(s.w) && !s.w.broken
  {
  }

  /** At the end everything was written, answered and looked up; what was not matched is still in the map. */
  lemma CompleteSets(c: Config, s: State)
    requires ClientInv(c, s) && HonestInv(c, s) && Complete(s)
    ensures s.w.sent == s.w.inserted == |s.r.seen.consumed| == |c.chunks|
    ensures s.r.seen.matched + s.r.seen.orphans == Ids(|c.chunks|)
    ensures s.r.seen.matched !! s.r.seen.orphans
    ensures |s.r.seen.matched| + |s.r.seen.orphans| == |c.chunks|
    ensures s.inflight.Keys == s.r.seen.orphans && |s.r.seen.orphans| < c.window
  {
    CompleteCounts(c, s);
    ByMembership(s.r.seen.matched, s.r.seen.orphans, |c.chunks|);
    LeftoversAreOrphans(|c.chunks|, s.inflight, s.r);
  }

  /** When every inserted id was looked up, an entry is left exactly if its id was orphaned. */
  lemma LeftoversAreOrphans(n: nat, inflight: map<int, Bytes>, r: ReaderState)
    requires IdBooks(n, inflight, r.seen.matched)
    requires forall id :: id in r.seen.matched ==> id !in r.seen.orphans
    requires forall id :: id in r.seen.orphans ==> 1 <= id <= n
    requires forall id :: 1 <= id <= n && id !in r.seen.matched ==> id in r.seen.orphans
    ensures inflight.Keys == r.seen.orphans && |inflight| == |r.seen.orphans|
  {
    assert forall id :: id in inflight <==> id in r.seen.orphans;
    assert inflight.Keys == r.seen.orphans;
  }

  lemma ByMembership(a: set<int>, b: set<int>, n: nat)
    requires forall id :: id in a ==> 1 <= id <= n && id !in b
    requires forall id :: id in b ==> 1 <= id <= n
    requires forall id :: 1 <= id <= n && id !in a ==> id in b
    ensures a !! b && a + b == Ids(n) && |a| + |b| == n
  {
    assert a !! b;
    assert a + b == Ids(n);
    assert |a + b| == |a| + |b|;
  }

  /** Orphans have octets: chunks are never empty. */
  lemma OrphansWeigh(c: Config, ids: set<int>)
    requires ValidConfig(c) && ids <= Ids(|c.chunks|)
    ensures SizeOfIds(c, ids) == 0 <==> ids == {}
  {
    SizeOfNone(c.chunks, |c.chunks|);
    if id :| id in ids {
      SizeOfMember(c.chunks, ids, id, |c.chunks|);
    }
  }

  lemma {:induction false} SizeOfMember(chunks: seq<Bytes>, ids: set<int>, id: int, n: nat)
    requires n <= |chunks| && id in ids && 1 <= id <= n
    ensures SizeOf(chunks, ids, n) >= |chunks[id - 1]|
  {
    if id < n {
      SizeOfMember(chunks, ids, id, n - 1);
    }
  }

  /** With the insert moved before `Write` nobody is ever orphaned, so every complete run is clean. */
  lemma InsertFirstIsClean(c: Config, s: State)
    requires c.world.Honest? && ValidConfig(c) && Reachable(c, s)
    requires c.order.BeforeWrite?
    requires c.expected == SizeOfIds(c, Ids(|c.chunks|))
    ensures s.r.seen.orphans == {}
    ensures Complete(s) ==>
      s.inflight == map[] && s.r.tally == Tally(|c.chunks|, c.expected, c.expected, 0) && s.r.success
  {
    ReachableHonest(c, s);
    if Complete(s) {
      ExactAccounting(c, s);
      SizeOfNone(c.chunks, |c.chunks|);
      assert s.inflight.Keys == {};
    }
  }
}
