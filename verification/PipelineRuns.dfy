/**
 * Runs that exist: exactly which ids a late insert can orphan, and exactly when the client can hang.
 */
module PipelineRuns {
  import opened Pipeline
  import opened PipelineAccounting
  import opened PipelineProgress
  import PipelineSafety

  lemma InitReachable(c: Config)
    ensures Reachable(c, Init())
  {
    assert Feasible(c, Init(), []) && Exec(c, Init(), []) == Init();
  }

  lemma StepReachable(c: Config, s: State, a: Action)
    requires Reachable(c, s) && Enabled(c, s, a)
    ensures Reachable(c, Apply(c, s, a))
  {
    var run :| Feasible(c, Init(), run) && Exec(c, Init(), run) == s;
    var t, step := Apply(c, s, a), [a];
    assert step[1..] == [] && Feasible(c, t, []) && Exec(c, t, step[1..]) == t;
    assert Feasible(c, s, step) && Exec(c, s, step) == t;
    ExecConcat(c, Init(), run, [a]);
  }

  lemma Take(c: Config, s: State, a: Action) returns (t: State)
    requires Reachable(c, s) && Enabled(c, s, a)
    ensures t == Apply(c, s, a) && Reachable(c, t)
  {
    StepReachable(c, s, a);
    t := Apply(c, s, a);
  }

  // ---- one chunk after the other, orphaning the chosen ones ----

  predicate Quiet(n: Net) {
    n == Net([], false, [], false, ReadRequest)
  }

  /** `k` chunks are through; of those the ids in `ids` were orphaned and are all that is left in the map. */
  ghost predicate Between(c: Config, s: State, k: nat, ids: set<int>) {
    && Reachable(c, s)
    && s.w == WriterState(CheckWindow, k, k, k, false, false)
    && Quiet(s.net)
    && s.r.pc.ReadResponse?
    && s.r.seen.orphans == ids * Ids(k)
    && s.inflight.Keys == ids * Ids(k)
  }

  /** Window check, read, write: the request is on its way and its entry is not filed yet. */
  lemma SendNext(c: Config, s: State, k: nat) returns (t: State)
    requires c.order.AfterWrite? && Reachable(c, s) && Quiet(s.net)
    requires s.w == WriterState(CheckWindow, k, k, k, false, false)
    requires k < |c.chunks| && |s.inflight| < c.window
    ensures Reachable(c, t)
    ensures t == s.(w := WriterState(CountSent(c.chunks[k]), k + 1, k, k, false, false),
                    net := s.net.(up := [Message(k + 1, c.chunks[k])]))
  {
    t := Take(c, s, WCheck);
    t := Take(c, t, WRead);
    t := Take(c, t, WWrite(true));
  }

  /** The server answers and the reader takes the answer. */
  lemma EchoAndRead(c: Config, s: State, m: Message) returns (t: State)
    requires c.world.Honest? && Reachable(c, s)
    requires s.net == Net([m], false, [], false, ReadRequest) && s.r.pc.ReadResponse?
    ensures Reachable(c, t) && Quiet(t.net)
    ensures t.w == s.w && t.inflight == s.inflight
    ensures t.r.pc == FindEntry(Echo(m)) && t.r.seen.orphans == s.r.seen.orphans
  {
    t := Take(c, s, SRead(true));
    t := Take(c, t, SWrite(true));
    t := Take(c, t, RRead(true));
  }

  lemma FileNow(c: Config, s: State, k: nat) returns (t: State)
    requires c.order.AfterWrite? && Reachable(c, s) && k < |c.chunks|
    requires s.w == WriterState(CountSent(c.chunks[k]), k + 1, k, k, false, false)
    ensures Reachable(c, t)
    ensures t == s.(w := WriterState(CheckWindow, k + 1, k + 1, k + 1, false, false),
                    inflight := s.inflight[k + 1 := c.chunks[k]])
  {
    t := Take(c, s, WCount);
    t := Take(c, t, WInsert);
  }

  /** The reader wins the race: it looks id `k + 1` up before the writer files it. */
  lemma OrphanRound(c: Config, s: State, k: nat, ids: set<int>) returns (t: State)
    requires c.order.AfterWrite? && c.world.Honest? && Between(c, s, k, ids)
    requires k < |c.chunks| && |s.inflight| < c.window && k + 1 in ids
    ensures Between(c, t, k + 1, ids)
  {
    t := SendNext(c, s, k);
    t := EchoAndRead(c, t, Message(k + 1, c.chunks[k]));
    assert k + 1 !in t.inflight;
    var u := Take(c, t, RFind);
    assert u.inflight == s.inflight && u.r.seen.orphans == s.r.seen.orphans + {k + 1};
    t := FileNow(c, u, k);
    assert t.inflight.Keys == s.inflight.Keys + {k + 1};
    assert ids * Ids(k + 1) == ids * Ids(k) + {k + 1};
  }

  /** The writer wins the race: the entry is there when the answer comes. */
  lemma MatchRound(c: Config, s: State, k: nat, ids: set<int>) returns (t: State)
    requires c.order.AfterWrite? && c.world.Honest? && Between(c, s, k, ids)
    requires k < |c.chunks| && |s.inflight| < c.window && k + 1 !in ids
    ensures Between(c, t, k + 1, ids)
  {
    t := SendNext(c, s, k);
    t := FileNow(c, t, k);
    t := EchoAndRead(c, t, Message(k + 1, c.chunks[k]));
    t := Take(c, t, RFind);
    t := Take(c, t, RNotify);
    t := Take(c, t, RAccount);
    assert ids * Ids(k + 1) == ids * Ids(k);
    assert k + 1 !in s.inflight;
    assert t.inflight.Keys == s.inflight.Keys;
  }

  lemma {:induction false} Rounds(c: Config, k: nat, ids: set<int>) returns (t: State)
    requires c.order.AfterWrite? && c.world.Honest? && ValidConfig(c)
    requires k <= |c.chunks|
    requires forall j :: 0 <= j < k ==> |ids * Ids(j)| < c.window
    ensures Between(c, t, k, ids)
  {
    if k == 0 {
      InitReachable(c);
      t := Init();
    } else {
      var s := Rounds(c, k - 1, ids);
      assert |s.inflight| == |s.inflight.Keys|;
      if k in ids {
        t := OrphanRound(c, s, k - 1, ids);
      } else {
        t := MatchRound(c, s, k - 1, ids);
      }
    }
  }

  /** End of file, half-close, end of stream, verdict. */
  lemma WindDown(c: Config, s: State, ids: set<int>) returns (t: State)
    requires c.world.Honest? && Between(c, s, |c.chunks|, ids) && |s.inflight| < c.window
    ensures Reachable(c, t) && Complete(t) && t.r.seen.orphans == s.r.seen.orphans
  {
    t := Take(c, s, WCheck);
    t := Take(c, t, WRead);
    t := Take(c, t, WFinish);
    t := Take(c, t, WHalfClose);
    t := Take(c, t, SRead(false));
    t := Take(c, t, RRead(false));
    t := Take(c, t, RJoin);
    t := Take(c, t, RLeftovers);
    t := Take(c, t, RFinish(true));
  }

  /**
   * With the insert after the write, the sets of ids that complete unbroken runs can orphan are
   * exactly those smaller than the window: the count above is not only exact, every case of it occurs.
   */
  lemma OrphanSetsExactly(c: Config, ids: set<int>)
    requires c.order.AfterWrite? && c.world.Honest? && ValidConfig(c)
    requires c.expected == SizeOfIds(c, Ids(|c.chunks|))
    ensures (exists s :: Reachable(c, s) && Complete(s) && s.r.seen.orphans == ids)
      <==> ids <= Ids(|c.chunks|) && |ids| < c.window
  {
    var n := |c.chunks|;
    if ids <= Ids(n) && |ids| < c.window {
      assert ids * Ids(n) == ids;
      forall j | 0 <= j < n ensures |ids * Ids(j)| < c.window {
        PipelineSafety.SubsetSize(ids * Ids(j), ids);
      }
      var s := Rounds(c, n, ids);
      assert |s.inflight| == |s.inflight.Keys|;
      var t := WindDown(c, s, ids);
      assert Reachable(c, t) && Complete(t) && t.r.seen.orphans == ids;
    }
    forall s | Reachable(c, s) && Complete(s) && s.r.seen.orphans == ids
      ensures ids <= Ids(n) && |ids| < c.window
    {
      ExactAccounting(c, s);
      assert ids <= s.r.seen.matched + s.r.seen.orphans;
    }
  }

  /** The client can hang on an unbroken stream if and only if it inserts late and has a window of chunks to send. */
  lemma HangsExactlyWhen(c: Config)
    requires c.world.Honest? && ValidConfig(c)
    ensures (exists s :: Reachable(c, s) && Deadlocked(c, s) && !s.net.broken)
      <==> c.order.AfterWrite? && c.window <= |c.chunks|
  {
    if c.order.AfterWrite? && c.window <= |c.chunks| {
      var ids := Ids(c.window);
      forall j | 0 <= j < c.window ensures |ids * Ids(j)| < c.window {
        assert ids * Ids(j) == Ids(j);
      }
      assert ids * ids == ids;
      var s := Rounds(c, c.window, ids);
      assert |s.inflight| == |s.inflight.Keys| == c.window;
      var t := Take(c, s, WCheck);
      assert Reachable(c, t) && Deadlocked(c, t) && !t.net.broken;
    }
    forall s | Reachable(c, s) && Deadlocked(c, s) && !s.net.broken
      ensures c.order.AfterWrite? && c.window <= |c.chunks|
    {
      DeadlockMeansOrphans(c, s);
    }
  }

  // ---- a stream that breaks while the window is full ----

  /** `k` requests are out, filed, and unanswered. */
  ghost predicate Unanswered(c: Config, s: State, k: nat) {
    && Reachable(c, s)
    && s.w == WriterState(CheckWindow, k, k, k, false, false)
    && s.inflight.Keys == Ids(k)
    && !s.net.halfClosed && s.net.down == [] && !s.net.broken && s.net.server.ReadRequest?
    && s.r.pc.ReadResponse?
  }

  lemma OneMoreLate(c: Config, s: State, k: nat) returns (t: State)
    requires c.order.AfterWrite? && Unanswered(c, s, k) && k < |c.chunks| && |s.inflight| < c.window
    ensures Unanswered(c, t, k + 1)
  {
    t := Take(c, s, WCheck);
    t := Take(c, t, WRead);
    assert t == s.(w := WriterState(WriteRequest(c.chunks[k]), k + 1, k, k, false, false));
    t := Take(c, t, WWrite(true));
    t := FileNow(c, t, k);
    assert t.inflight.Keys == s.inflight.Keys + {k + 1};
  }

  lemma OneMoreEarly(c: Config, s: State, k: nat) returns (t: State)
    requires c.order.BeforeWrite? && Unanswered(c, s, k) && k < |c.chunks| && |s.inflight| < c.window
    ensures Unanswered(c, t, k + 1)
  {
    var data := c.chunks[k];
    var u := FileFirst(c, s, k);
    t := Take(c, u, WWrite(true));
    t := Take(c, t, WCount);
    assert t.inflight == s.inflight[k + 1 := data];
    assert t.inflight.Keys == s.inflight.Keys + {k + 1};
  }

  lemma FileFirst(c: Config, s: State, k: nat) returns (t: State)
    requires c.order.BeforeWrite? && Unanswered(c, s, k) && k < |c.chunks| && |s.inflight| < c.window
    ensures Reachable(c, t)
    ensures t == s.(w := WriterState(WriteRequest(c.chunks[k]), k + 1, k, k + 1, false, false),
                    inflight := s.inflight[k + 1 := c.chunks[k]])
  {
    t := Take(c, s, WCheck);
    assert t == s.(w := WriterState(ReadChunk, k, k, k, false, false));
    t := Take(c, t, WRead);
    assert t == s.(w := WriterState(InsertEntry(c.chunks[k]), k + 1, k, k, false, false));
    t := Take(c, t, WInsert);
  }

  lemma {:induction false} SendUnanswered(c: Config, k: nat) returns (t: State)
    requires ValidConfig(c) && k <= |c.chunks| && k <= c.window
    ensures Unanswered(c, t, k)
  {
    if k == 0 {
      InitReachable(c);
      t := Init();
    } else {
      var s := SendUnanswered(c, k - 1);
      assert |s.inflight| == |s.inflight.Keys| == k - 1;
      if c.order.AfterWrite? {
        t := OneMoreLate(c, s, k - 1);
      } else {
        t := OneMoreEarly(c, s, k - 1);
      }
    }
  }

  /**
   * The condition variable looks only at the map: a reader that leaves on a broken stream never
   * wakes a writer in front of a full window, in either order, whenever there are enough chunks.
   */
  lemma HangsAfterBreakExactlyWhen(c: Config)
    requires c.world.Honest? && ValidConfig(c)
    ensures (exists s :: Reachable(c, s) && Deadlocked(c, s) && s.net.broken) <==> c.window <= |c.chunks|
  {
    if c.window <= |c.chunks| {
      var s := SendUnanswered(c, c.window);
      assert |s.inflight| == |s.inflight.Keys| == c.window;
      var t := Take(c, s, WCheck);
      t := Take(c, t, Break);
      t := Take(c, t, RRead(false));
      t := Take(c, t, SRead(false));
      assert Reachable(c, t) && Deadlocked(c, t) && t.net.broken;
    }
    forall s | Reachable(c, s) && Deadlocked(c, s) && s.net.broken
      ensures c.window <= |c.chunks|
    {
      DeadlockNeedsAWindow(c, s);
    }
  }
}
