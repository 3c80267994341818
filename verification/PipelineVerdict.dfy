/**
 * The error list and the verdict of every run, whoever answers and however the stream breaks: which
 * steps of the run they follow from, exactly.
 */
module PipelineVerdict {
  import opened Bytes
  import opened Pipeline
  import opened PipelineSafety
  import opened PipelineAccounting

  /** Lookups that found no entry: all of them but one for each matched id. */
  function VainLookups(r: ReaderState): int {
    Looked(r) - |r.seen.matched|
  }

  /** Accounted ids whose response had the wrong octets. */
  function WrongAnswers(r: ReaderState): int {
    |Accounted(r)| - |r.seen.verified|
  }

  function Leftovers(s: State): nat {
    if (s.r.pc.FinishCall? || s.r.pc.ReaderDone?) && s.inflight != map[] then 1 else 0
  }

  /**
   * After the steps `past`: one line for every vain lookup, every wrong answer, leftovers, a failed
   * status, and a wrong total after a good one with an unbroken writer; success stands for a good
   * status, no failed write and the right total.
   */
  ghost predicate Ledger(c: Config, s: State, past: seq<Action>) {
    var failed, passed := RFinish(false) in past, RFinish(true) in past;
    var rightTotal := s.r.tally.verified == c.expected;
    && (s.w.broken <==> WWrite(false) in past)
    && (s.r.pc.ReaderDone? <==> failed || passed) && !(failed && passed)
    && s.r.tally.errors == VainLookups(s.r) + WrongAnswers(s.r) + Leftovers(s)
                         + (if failed then 1 else 0)
                         + (if passed && !s.w.broken && !rightTotal then 1 else 0)
    && (s.r.success <==> passed && !s.w.broken && rightTotal)
  }

  lemma OneMoreStep(past: seq<Action>, a: Action, b: Action)
    ensures b in past + [a] <==> b in past || b == a
  {
  }

  lemma WriterKeepsLedger(c: Config, s: State, past: seq<Action>, a: Action)
    requires ClientInv(c, s) && Ledger(c, s, past) && IsWriterAction(a) && Enabled(c, s, a)
    ensures Ledger(c, WriterStep(c, s, a), past + [a])
  {
    OneMoreStep(past, a, WWrite(false));
    OneMoreStep(past, a, RFinish(false));
    OneMoreStep(past, a, RFinish(true));
    var t := WriterStep(c, s, a);
    assert t.r == s.r;
    assert Leftovers(t) == Leftovers(s);
  }

  lemma FindKeepsLedger(c: Config, s: State, past: seq<Action>)
    requires ClientInv(c, s) && Ledger(c, s, past) && s.r.pc.FindEntry?
    ensures Ledger(c, ReaderStep(c, s, RFind), past + [RFind])
  {
    OneMoreStep(past, RFind, WWrite(false));
    OneMoreStep(past, RFind, RFinish(false));
    OneMoreStep(past, RFind, RFinish(true));
    var t, id := ReaderStep(c, s, RFind), s.r.pc.resp.id;
    assert Looked(t.r) == Looked(s.r) + 1;
    assert Accounted(t.r) == Accounted(s.r);
    if id in s.inflight {
      assert id !in s.r.seen.matched;
    }
  }

  lemma AccountKeepsLedger(c: Config, s: State, past: seq<Action>)
    requires ClientInv(c, s) && Ledger(c, s, past) && s.r.pc.Account?
    ensures Ledger(c, ReaderStep(c, s, RAccount), past + [RAccount])
  {
    OneMoreStep(past, RAccount, WWrite(false));
    OneMoreStep(past, RAccount, RFinish(false));
    OneMoreStep(past, RAccount, RFinish(true));
    var t, id := ReaderStep(c, s, RAccount), s.r.pc.entry.id;
    assert Accounted(t.r) == Accounted(s.r) + {id};
    OneMoreId(Accounted(s.r), id);
    assert Looked(t.r) == Looked(s.r) && Leftovers(t) == Leftovers(s) == 0;
    if s.r.pc.resp.data == Reversed(s.r.pc.entry.data) {
      OneMoreId(s.r.seen.verified, id);
      assert t.r.seen.verified == s.r.seen.verified + {id};
    }
  }

  lemma OneMoreId(ids: set<int>, id: int)
    requires id !in ids
    ensures |ids + {id}| == |ids| + 1
  {
  }

  lemma FinishKeepsLedger(c: Config, s: State, past: seq<Action>, ok: bool)
    requires ClientInv(c, s) && Ledger(c, s, past) && Enabled(c, s, RFinish(ok))
    ensures Ledger(c, ReaderStep(c, s, RFinish(ok)), past + [RFinish(ok)])
  {
    OneMoreStep(past, RFinish(ok), WWrite(false));
    OneMoreStep(past, RFinish(ok), RFinish(false));
    OneMoreStep(past, RFinish(ok), RFinish(true));
    var t := ReaderStep(c, s, RFinish(ok));
    assert Accounted(t.r) == Accounted(s.r);
    assert s.w.finished;
  }

  /** Taking a response, or the end of the stream, adds no lookup. */
  lemma ReadKeepsLedger(c: Config, s: State, past: seq<Action>, ok: bool)
    requires ClientInv(c, s) && Ledger(c, s, past) && Enabled(c, s, RRead(ok))
    ensures Ledger(c, ReaderStep(c, s, RRead(ok)), past + [RRead(ok)])
  {
    OneMoreStep(past, RRead(ok), WWrite(false));
    OneMoreStep(past, RRead(ok), RFinish(false));
    OneMoreStep(past, RRead(ok), RFinish(true));
    var t := ReaderStep(c, s, RRead(ok));
    assert Accounted(t.r) == Accounted(s.r) && Looked(t.r) == Looked(s.r);
  }

  lemma MovingOnKeepsLedger(c: Config, s: State, past: seq<Action>, a: Action)
    requires ClientInv(c, s) && Ledger(c, s, past) && Enabled(c, s, a)
    requires a.RNotify? || a.RJoin? || a.RLeftovers?
    ensures Ledger(c, ReaderStep(c, s, a), past + [a])
  {
    OneMoreStep(past, a, WWrite(false));
    OneMoreStep(past, a, RFinish(false));
    OneMoreStep(past, a, RFinish(true));
    var t := ReaderStep(c, s, a);
    assert Accounted(t.r) == Accounted(s.r) && Looked(t.r) == Looked(s.r);
  }

  lemma StepKeepsLedger(c: Config, s: State, past: seq<Action>, a: Action)
    requires ClientInv(c, s) && Ledger(c, s, past) && Enabled(c, s, a)
    ensures Ledger(c, Apply(c, s, a), past + [a])
  {
    if IsWriterAction(a) {
      WriterKeepsLedger(c, s, past, a);
    } else if a.RFind? {
      FindKeepsLedger(c, s, past);
    } else if a.RAccount? {
      AccountKeepsLedger(c, s, past);
    } else if a.RFinish? {
      FinishKeepsLedger(c, s, past, a.ok);
    } else if a.RRead? {
      ReadKeepsLedger(c, s, past, a.ok);
    } else if IsReaderAction(a) {
      MovingOnKeepsLedger(c, s, past, a);
    } else {
      OneMoreStep(past, a, WWrite(false));
      OneMoreStep(past, a, RFinish(false));
      OneMoreStep(past, a, RFinish(true));
    }
  }

  lemma {:induction false} RunKeepsLedger(c: Config, s: State, past: seq<Action>, run: seq<Action>)
    requires ClientInv(c, s) && Ledger(c, s, past) && Feasible(c, s, run)
    ensures Ledger(c, Exec(c, s, run), past + run)
    decreases |run|
  {
    if run == [] {
      assert past + run == past;
    } else {
      StepKeepsInv(c, s, run[0]);
      StepKeepsLedger(c, s, past, run[0]);
      RunKeepsLedger(c, Apply(c, s, run[0]), past + [run[0]], run[1..]);
      assert past + run == (past + [run[0]]) + run[1..];
    }
  }

  /** Every run of every world has exactly these errors and this verdict. */
  lemma ErrorsAndVerdict(c: Config, run: seq<Action>)
    requires ValidConfig(c) && Feasible(c, Init(), run)
    ensures Ledger(c, Exec(c, Init(), run), run)
  {
    InitInv(c);
    RunKeepsLedger(c, Init(), [], run);
    assert [] + run == run;
  }

  /**
   * The status of the call decides: a failed one costs one error line and excludes success; a good
   * one means success if and only if the writer, which has finished, is unbroken and the total is right.
   */
  lemma StatusDecides(c: Config, s: State, ok: bool)
    requires ValidConfig(c) && Reachable(c, s) && Enabled(c, s, RFinish(ok))
    ensures
      var t := Apply(c, s, RFinish(ok));
      var clean := s.w.finished && !s.w.broken;
      && s.w.finished && !s.r.success && t.r.tally.verified == s.r.tally.verified
      && (!ok ==> !t.r.success && t.r.tally.errors == s.r.tally.errors + 1)
      && (ok ==> (t.r.success <==> clean && s.r.tally.verified == c.expected))
      && (ok ==> t.r.tally.errors == s.r.tally.errors + (if clean && !t.r.success then 1 else 0))
  {
    ReachableInv(c, s);
  }
}
