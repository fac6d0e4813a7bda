/** Control invariants of the task: who is where, which channel is open, who holds the lock.  They give the close
    discipline (nobody ever sends on a closed channel or closes one twice), the freeze of the block map before it
    is read, and the verdict on the replies. */
module Control {
  import opened Machine
  import opened Options
  import Pages
  import opened Ranges
  import Sums

  function OneIfReplied(): Fetcher -> nat {
    (f: Fetcher) => if f.Replied? then 1 else 0
  }

  function Replies(fs: seq<Fetcher>): nat {
    Sums.Sum(OneIfReplied(), fs)
  }

  predicate AllReplied(fs: seq<Fetcher>) {
    forall k :: 0 <= k < |fs| ==> fs[k].Replied?
  }

  predicate SomeFailed(fs: seq<Fetcher>) {
    exists k :: 0 <= k < |fs| && fs[k] == Replied(false)
  }

  /** Between the making of a chunk's channels and the return of `getRangeSingular`. */
  predicate BatchesLive(m: Main) {
    !m.Page? && !m.CloseOut? && !m.WaitFin? && !m.SendError? && !m.Done?
  }

  predicate FetchPhase(m: Main) {
    m.FanOut? || m.Collect?
  }

  /** Main feeds the workers. */
  predicate FeedPhase(m: Main) {
    m.Loop? || m.SendBlock? || m.PushPage? || m.CloseToGet?
  }

  /** From the start of the converter to the return of `getRangeSingular`. */
  predicate PipePhase(m: Main) {
    FeedPhase(m) || m.WaitWorkers? || m.CloseTxIn? || m.WaitConverter? || m.Return?
  }

  // ----- fetchers -----

  ghost predicate FetchInv(s: State) {
    && (FetchPhase(s.main) || AllReplied(s.fetchers))
    && (BatchesLive(s.main) ==> !s.batches.closed)
    && (s.main.FanOut? ==> |s.batches.buf| == Replies(s.fetchers))
    && (s.main.Collect? ==> s.main.responses + |s.batches.buf| == Replies(s.fetchers)
                            && s.main.responses < |s.fetchers|)
    && (BatchesLive(s.main) && !FetchPhase(s.main) ==> s.batches.buf == [])
  }

  /** The lock has at most one holder, and that one is merging. */
  ghost predicate LockInv(s: State) {
    && (forall k :: 0 <= k < |s.fetchers| ==> (s.fetchers[k].Merging? <==> s.lock == Some(k)))
    && (s.lock.Some? ==> s.lock.value < |s.fetchers|)
  }

  /** The error count, with what is still in the buffer, tells whether any fetch failed. */
  ghost predicate VerdictInv(s: State) {
    && (s.main.FanOut? ==> (SomeFailed(s.fetchers) <==> false in s.batches.buf))
    && (s.main.Collect? ==> (SomeFailed(s.fetchers) <==> s.main.errors > 0 || false in s.batches.buf))
    && (s.main.Starting? || PipePhase(s.main) ==> !SomeFailed(s.fetchers))
    && (s.main.ReturnError? || s.main.SendError? || s.main == Done(false) ==> SomeFailed(s.fetchers))
  }

  // ----- workers and converter -----

  ghost predicate PipeInv(s: State) {
    && (forall k :: 0 <= k < |s.workers| ==> s.workers[k].Exited? ==> s.toGet == Chan([], true))
    && (s.converter.Stopped? ==> s.txIn == Chan([], true))
    && (FeedPhase(s.main) || s.main.WaitWorkers? ==>
          |s.workers| == WORKERS && !s.txIn.closed && s.toGet.closed == s.main.WaitWorkers?)
    && (s.main.CloseTxIn? ==> AllExited(s.workers) && s.toGet == Chan([], true) && !s.txIn.closed)
    && (s.main.WaitConverter? ==> AllExited(s.workers) && s.toGet == Chan([], true) && s.txIn.closed)
    && (!PipePhase(s.main) || s.main.Return? ==>
          AllExited(s.workers) && s.converter.Stopped? && s.toGet == Chan([], true) && s.txIn == Chan([], true))
  }

  // ----- sender -----

  ghost predicate OutInv(s: State) {
    && (s.out.closed <==> s.main.WaitFin? || s.main == Done(true))
    && (!s.sender.Closing? && !s.sender.Finished? ==> s.fin == Chan([], false))
    && (s.sender.Closing? ==> !s.fin.closed)
    && (s.sender.Finished? ==> s.fin.closed)
    && (!s.sender.Selecting? && !s.sender.Sending? ==>
          if s.sender.contextDone then ContextDone(s) else s.out == Chan([], true))
    && (s.main == Done(true) && !s.cancelled ==>
          (s.sender.Closing? || s.sender.Finished?) && !s.sender.contextDone)
  }

  /** No channel holds more than it was made for. */
  ghost predicate CapacityInv(s: State) {
    && |s.out.buf| <= OUT_CAP && |s.toGet.buf| <= TO_GET_CAP && |s.txIn.buf| <= TX_IN_CAP
    && |s.batches.buf| <= BATCHES_CAP && |s.fin.buf| <= FIN_CAP
  }

  ghost predicate ControlInv(s: State) {
    !s.panicked && FetchInv(s) && LockInv(s) && VerdictInv(s) && PipeInv(s) && OutInv(s) && CapacityInv(s)
  }

  lemma InitialControl(c: Config)
    ensures ControlInv(Initial(c))
  {
  }

  function ErrorCount(replies: seq<bool>): nat {
    Sums.Sum((ok: bool) => if ok then 0 else 1, replies)
  }

  lemma {:induction false} ErrorCountPositive(replies: seq<bool>)
    ensures ErrorCount(replies) > 0 <==> false in replies
  {
    if replies != [] {
      ErrorCountPositive(replies[1..]);
      assert replies == [replies[0]] + replies[1..];
    }
  }

  /** The collecting loop of `getRangeSingular`: `arriving` is what the channel yields before it is closed.  It takes
      one reply for each fetcher started and no more, and its verdict is an error exactly if one of them is. */
  method CollectReplies(arriving: seq<bool>, started: nat) returns (responses: nat, ok: bool)
    ensures responses == if 0 < started <= |arriving| then started else |arriving|
    ensures ok <==> false !in arriving[..responses]
  {
    var errors: nat := 0;
    responses := 0;
    while responses < |arriving|
      invariant responses <= |arriving| && (started > 0 ==> responses < started)
      invariant errors == ErrorCount(arriving[..responses])
    {
      assert arriving[..responses + 1] == arriving[..responses] + [arriving[responses]];
      Sums.SumAppend((ok: bool) => if ok then 0 else 1, arriving[..responses], arriving[responses]);
      if !arriving[responses] {
        errors := errors + 1;
      }
      responses := responses + 1;
      if responses == started {
        break;
      }
    }
    ErrorCountPositive(arriving[..responses]);
    ok := errors == 0;
  }

  // ----- one step -----

  /** When the last reply has been taken, every fetcher has replied. */
  lemma LastReply(s: State)
    requires s.main.Collect? && FetchInv(s) && s.main.responses + 1 == |s.fetchers| && s.batches.buf != []
    ensures AllReplied(s.fetchers) && |s.batches.buf| == 1
  {
    Sums.SumFull(OneIfReplied(), s.fetchers);
    forall k | 0 <= k < |s.fetchers|
      ensures s.fetchers[k].Replied?
    {
      assert OneIfReplied()(s.fetchers[k]) == 1;
    }
  }

  // Main, while it gathers blocks.

  lemma GatherKeepsReplies(c: Config, s: State)
    requires FetchInv(s) && Gathers(s.main) && MainEnabled(s, 0)
    ensures FetchInv(GatherEffect(c, s))
  {
    if s.main.FanOut? {
      Sums.SumAppend(OneIfReplied(), s.fetchers, Asking(PieceAt(s.piece, REQUEST_SIZE, |s.fetchers|)));
    } else if s.main.Collect? && s.main.responses + 1 == |s.fetchers| {
      LastReply(s);
    }
  }

  lemma GatherKeepsVerdict(c: Config, s: State)
    requires FetchInv(s) && VerdictInv(s) && Gathers(s.main) && MainEnabled(s, 0)
    ensures VerdictInv(GatherEffect(c, s))
  {
    if s.main.FanOut? {
      NewFetcherNotFailed(s.fetchers, PieceAt(s.piece, REQUEST_SIZE, |s.fetchers|));
    } else if s.main.Collect? {
      CollectKeepsVerdict(c, s);
    }
  }

  lemma CollectKeepsVerdict(c: Config, s: State)
    requires FetchInv(s) && VerdictInv(s) && s.main.Collect? && MainEnabled(s, 0)
    ensures VerdictInv(Received(s, s.main.responses, s.main.errors))
  {
    FalseFirst(s.batches.buf);
    if s.main.responses + 1 == |s.fetchers| {
      LastReply(s);
    }
  }

  lemma FalseFirst(replies: seq<bool>)
    requires replies != []
    ensures false in replies <==> !replies[0] || false in replies[1..]
  {
    assert replies == [replies[0]] + replies[1..];
  }

  lemma NewFetcherNotFailed(fs: seq<Fetcher>, request: Range)
    ensures SomeFailed(fs + [Asking(request)]) <==> SomeFailed(fs)
  {
    var gs := fs + [Asking(request)];
    if SomeFailed(fs) {
      var k :| 0 <= k < |fs| && fs[k] == Replied(false);
      assert gs[k] == Replied(false);
    }
  }

  lemma GatherKeepsLock(c: Config, s: State)
    requires LockInv(s) && Gathers(s.main)
    ensures LockInv(GatherEffect(c, s))
  {
  }

  lemma GatherKeepsPipe(c: Config, s: State)
    requires PipeInv(s) && Gathers(s.main)
    ensures PipeInv(GatherEffect(c, s))
  {
  }

  lemma GatherKeepsOut(c: Config, s: State)
    requires OutInv(s) && Gathers(s.main)
    ensures OutInv(GatherEffect(c, s))
  {
  }

  lemma GatherDoesNotPanic(c: Config, s: State)
    requires FetchInv(s) && CapacityInv(s) && !s.panicked && Gathers(s.main)
    ensures var t := GatherEffect(c, s); !t.panicked && CapacityInv(t)
  {
  }

  // Main, while it feeds the pipeline.

  lemma FeedKeepsFetch(c: Config, s: State, pick: u64)
    requires FetchInv(s) && LockInv(s) && VerdictInv(s) && Feeds(s.main) && MainEnabled(s, pick)
    ensures var t := FeedEffect(c, s, pick); FetchInv(t) && LockInv(t) && VerdictInv(t)
  {
    FeedFrame(c, s, pick);
  }

  lemma FeedKeepsRest(c: Config, s: State, pick: u64)
    requires PipeInv(s) && OutInv(s) && CapacityInv(s) && !s.panicked && Feeds(s.main) && MainEnabled(s, pick)
    ensures var t := FeedEffect(c, s, pick); !t.panicked && PipeInv(t) && OutInv(t) && CapacityInv(t)
  {
  }

  // Main, while it winds up.

  lemma WindUpKeepsFetch(c: Config, s: State, pick: u64)
    requires FetchInv(s) && LockInv(s) && VerdictInv(s)
    requires !Gathers(s.main) && !Feeds(s.main) && MainEnabled(s, pick)
    ensures var t := WindUpEffect(c, s); FetchInv(t) && LockInv(t) && VerdictInv(t)
  {
  }

  lemma WindUpKeepsRest(c: Config, s: State, pick: u64)
    requires FetchInv(s) && PipeInv(s) && OutInv(s) && CapacityInv(s) && !s.panicked
    requires !Gathers(s.main) && !Feeds(s.main) && MainEnabled(s, pick)
    ensures var t := WindUpEffect(c, s); !t.panicked && PipeInv(t) && OutInv(t) && CapacityInv(t)
  {
    if s.main.WaitWorkers? {
      assert s.workers[0].Exited?;
    }
  }

  lemma MainKeeps(c: Config, s: State, pick: u64)
    requires ControlInv(s) && MainEnabled(s, pick)
    ensures ControlInv(MainEffect(c, s, pick))
  {
    if Gathers(s.main) {
      GatherKeepsReplies(c, s);
      GatherKeepsVerdict(c, s);
      GatherKeepsLock(c, s);
      GatherKeepsPipe(c, s);
      GatherKeepsOut(c, s);
      GatherDoesNotPanic(c, s);
    } else if Feeds(s.main) {
      FeedKeepsFetch(c, s, pick);
      FeedKeepsRest(c, s, pick);
    } else {
      WindUpKeepsFetch(c, s, pick);
      WindUpKeepsRest(c, s, pick);
    }
  }

  // The other goroutines.

  lemma FetcherKeepsReplies(c: Config, s: State, k: nat, ok: bool)
    requires FetchInv(s) && FetcherEnabled(s, k)
    ensures FetchInv(FetcherEffect(c, s, k, ok))
  {
    var t := FetcherEffect(c, s, k, ok);
    FetcherFrame(c, s, k, ok);
    ReplySent(c, s, k, ok, t);
    Sums.SumUpdate(OneIfReplied(), s.fetchers, k, t.fetchers[k]);
  }

  /** What a fetcher's step puts on the channel of replies. */
  lemma ReplySent(c: Config, s: State, k: nat, ok: bool, t: State)
    requires FetchInv(s) && FetcherEnabled(s, k) && t == FetcherEffect(c, s, k, ok)
    ensures FetchPhase(s.main) && t.batches.closed == s.batches.closed
    ensures t.fetchers == s.fetchers[k := t.fetchers[k]] && !s.fetchers[k].Replied?
    ensures |t.batches.buf| == |s.batches.buf| + if t.fetchers[k].Replied? then 1 else 0
  {
  }

  lemma FetcherKeepsLock(c: Config, s: State, k: nat, ok: bool)
    requires LockInv(s) && FetcherEnabled(s, k)
    ensures LockInv(FetcherEffect(c, s, k, ok))
  {
  }

  lemma FetcherKeepsVerdict(c: Config, s: State, k: nat, ok: bool)
    requires FetchInv(s) && VerdictInv(s) && FetcherEnabled(s, k)
    ensures VerdictInv(FetcherEffect(c, s, k, ok))
  {
    var t := FetcherEffect(c, s, k, ok);
    UpdateVerdict(s.fetchers, k, t.fetchers[k]);
  }

  lemma UpdateVerdict(fs: seq<Fetcher>, k: nat, f: Fetcher)
    requires k < |fs| && !fs[k].Replied?
    ensures SomeFailed(fs[k := f]) <==> SomeFailed(fs) || f == Replied(false)
  {
    var gs := fs[k := f];
    assert gs[k] == f;
    if SomeFailed(fs) {
      var i :| 0 <= i < |fs| && fs[i] == Replied(false);
      assert gs[i] == Replied(false);
    }
  }

  lemma FetcherKeepsRest(c: Config, s: State, k: nat, ok: bool)
    requires FetchInv(s) && PipeInv(s) && OutInv(s) && CapacityInv(s) && !s.panicked && FetcherEnabled(s, k)
    ensures var t := FetcherEffect(c, s, k, ok); !t.panicked && PipeInv(t) && OutInv(t) && CapacityInv(t)
  {
  }

  /** Workers, converter and sender touch nothing the fetch invariants speak of. */
  lemma OthersKeepFetch(s: State, t: State)
    requires FetchInv(s) && LockInv(s) && VerdictInv(s)
    requires t.main == s.main && t.fetchers == s.fetchers && t.batches == s.batches && t.lock == s.lock
    ensures FetchInv(t) && LockInv(t) && VerdictInv(t)
  {
  }

  lemma WorkerKeepsPipe(c: Config, s: State, k: nat, ok: bool, t: State)
    requires PipeInv(s) && CapacityInv(s) && !s.panicked && WorkerEnabled(s, k) && t == WorkerEffect(c, s, k, ok)
    ensures !t.panicked && PipeInv(t)
    ensures |t.toGet.buf| <= TO_GET_CAP && |t.txIn.buf| <= TX_IN_CAP
  {
  }

  lemma WorkerKeeps(c: Config, s: State, k: nat, ok: bool)
    requires PipeInv(s) && OutInv(s) && CapacityInv(s) && !s.panicked && WorkerEnabled(s, k)
    ensures var t := WorkerEffect(c, s, k, ok); !t.panicked && PipeInv(t) && OutInv(t) && CapacityInv(t)
  {
    WorkerFrame(c, s, k, ok);
    WorkerKeepsPipe(c, s, k, ok, WorkerEffect(c, s, k, ok));
  }

  lemma ConverterKeepsPipe(s: State, t: State)
    requires PipeInv(s) && OutInv(s) && CapacityInv(s) && !s.panicked && ConverterEnabled(s) && t == ConverterEffect(s)
    ensures !t.panicked && PipeInv(t) && CapacityInv(t)
  {
  }

  lemma ConverterKeeps(s: State)
    requires PipeInv(s) && OutInv(s) && CapacityInv(s) && !s.panicked && ConverterEnabled(s)
    ensures var t := ConverterEffect(s); !t.panicked && PipeInv(t) && OutInv(t) && CapacityInv(t)
  {
    ConverterKeepsPipe(s, ConverterEffect(s));
  }

  lemma SenderKeepsOut(s: State, stop: bool, t: State)
    requires OutInv(s) && CapacityInv(s) && !s.panicked && SenderEnabled(s, stop) && t == SenderEffect(s, stop)
    ensures !t.panicked && OutInv(t) && |t.out.buf| <= OUT_CAP && |t.fin.buf| <= FIN_CAP
  {
  }

  lemma SenderKeeps(s: State, stop: bool)
    requires PipeInv(s) && OutInv(s) && CapacityInv(s) && !s.panicked && SenderEnabled(s, stop)
    ensures var t := SenderEffect(s, stop); !t.panicked && PipeInv(t) && OutInv(t) && CapacityInv(t)
  {
    SenderFrame(s, stop);
    SenderKeepsOut(s, stop, SenderEffect(s, stop));
  }

  lemma FetcherKeepsAll(c: Config, s: State, k: nat, ok: bool)
    requires ControlInv(s) && FetcherEnabled(s, k)
    ensures ControlInv(FetcherEffect(c, s, k, ok))
  {
    FetcherKeepsReplies(c, s, k, ok);
    FetcherKeepsLock(c, s, k, ok);
    FetcherKeepsVerdict(c, s, k, ok);
    FetcherKeepsRest(c, s, k, ok);
  }

  lemma WorkerKeepsAll(c: Config, s: State, k: nat, ok: bool)
    requires ControlInv(s) && WorkerEnabled(s, k)
    ensures ControlInv(WorkerEffect(c, s, k, ok))
  {
    OthersKeepFetch(s, WorkerEffect(c, s, k, ok));
    WorkerKeeps(c, s, k, ok);
  }

  lemma ConverterKeepsAll(s: State)
    requires ControlInv(s) && ConverterEnabled(s)
    ensures ControlInv(ConverterEffect(s))
  {
    OthersKeepFetch(s, ConverterEffect(s));
    ConverterKeeps(s);
  }

  lemma SenderKeepsAll(s: State, stop: bool)
    requires ControlInv(s) && SenderEnabled(s, stop)
    ensures ControlInv(SenderEffect(s, stop))
  {
    OthersKeepFetch(s, SenderEffect(s, stop));
    SenderKeeps(s, stop);
  }

  lemma CancelKeepsAll(s: State)
    requires ControlInv(s)
    ensures ControlInv(s.(cancelled := true))
  {
  }

  lemma ControlKept(c: Config, s: State, a: Action)
    requires ControlInv(s) && Enabled(s, a)
    ensures ControlInv(Step(c, s, a))
  {
    match a
    case Cancel => CancelKeepsAll(s);
    case MainStep(pick) => MainKeeps(c, s, pick);
    case FetcherStep(k, ok) => FetcherKeepsAll(c, s, k, ok);
    case WorkerStep(k, ok) => WorkerKeepsAll(c, s, k, ok);
    case ConverterStep => ConverterKeepsAll(s);
    case SenderStep(stop) => SenderKeepsAll(s, stop);
  }

  lemma {:induction false} RunControl(c: Config, s: State, run: seq<Action>)
    requires ControlInv(s) && Legal(c, s, run)
    ensures ControlInv(After(c, s, run))
    decreases run
  {
    if run != [] {
      ControlKept(c, s, run[0]);
      RunControl(c, Step(c, s, run[0]), run[1..]);
    }
  }

  lemma ReachableControl(c: Config, s: State)
    requires Reachable(c, s)
    ensures ControlInv(s)
  {
    InitialControl(c);
    var run :| Legal(c, Initial(c), run) && After(c, Initial(c), run) == s;
    RunControl(c, Initial(c), run);
  }

  // ----- the loop over the block map -----

  /** The loop over the frozen block map: what is still to do is part of the map, and the block in hand is not. */
  ghost predicate TodoInv(s: State) {
    var blocks := s.summary.blocks;
    && (s.main.Loop? ==> s.main.todo <= blocks.Keys)
    && (s.main.SendBlock? ==>
          s.main.todo <= blocks.Keys && s.main.h in blocks && s.main.h !in s.main.todo
          && s.main.block == blocks[s.main.h])
    && (s.main.PushPage? ==>
          s.main.todo <= blocks.Keys && s.main.h in blocks && s.main.h !in s.main.todo
          && 1 <= s.main.p <= s.main.n == Pages.PageCount(blocks[s.main.h].numTxs))
  }

  lemma FeedKeepsTodo(c: Config, s: State, pick: u64)
    requires TodoInv(s) && Feeds(s.main) && MainEnabled(s, pick)
    ensures TodoInv(FeedEffect(c, s, pick))
  {
    FeedFrame(c, s, pick);
  }

  lemma MainKeepsTodo(c: Config, s: State, pick: u64)
    requires TodoInv(s) && MainEnabled(s, pick)
    ensures TodoInv(MainEffect(c, s, pick))
  {
    if Feeds(s.main) {
      FeedKeepsTodo(c, s, pick);
    }
  }

  lemma TodoKept(c: Config, s: State, a: Action)
    requires ControlInv(s) && TodoInv(s) && Enabled(s, a)
    ensures TodoInv(Step(c, s, a))
  {
    if a.MainStep? {
      MainKeepsTodo(c, s, a.pick);
    } else if s.main.Loop? || s.main.SendBlock? || s.main.PushPage? {
      KeepsSummary(c, s, a);
      KeepsMain(c, s, a);
    } else {
      KeepsMain(c, s, a);
    }
  }

  lemma KeepsMain(c: Config, s: State, a: Action)
    requires Enabled(s, a) && !a.MainStep?
    ensures SameMain(s, Step(c, s, a))
  {
    match a
    case Cancel =>
    case FetcherStep(k, ok) => FetcherFrame(c, s, k, ok);
    case WorkerStep(k, ok) => WorkerFrame(c, s, k, ok);
    case ConverterStep => ConverterFrame(s);
    case SenderStep(stop) => SenderFrame(s, stop);
  }

  /** What only main changes. */
  predicate SameMain(s: State, t: State) {
    t.main == s.main && t.chunk == s.chunk && t.piece == s.piece && |t.fetchers| == |s.fetchers|
  }

  lemma {:induction false} RunTodo(c: Config, s: State, run: seq<Action>)
    requires ControlInv(s) && TodoInv(s) && Legal(c, s, run)
    ensures TodoInv(After(c, s, run))
    decreases run
  {
    if run != [] {
      ControlKept(c, s, run[0]);
      TodoKept(c, s, run[0]);
      RunTodo(c, Step(c, s, run[0]), run[1..]);
    }
  }

  // ----- the end -----

  /** Every goroutine has ended. */
  predicate AllEnded(s: State) {
    Terminal(s) && AllReplied(s.fetchers) && AllExited(s.workers) && s.converter.Stopped?
  }

  /** When main has ended, so have the fetchers, the workers and the converter. */
  lemma TerminalAllEnded(s: State)
    requires ControlInv(s) && Terminal(s)
    ensures AllEnded(s)
  {
  }

  // ----- what follows for every run -----

  /** Close discipline: whatever is done next in a reachable state, nobody sends on a closed channel and nobody
      closes a channel twice. */
  lemma CloseDiscipline(c: Config, s: State, a: Action)
    requires Reachable(c, s) && Enabled(s, a)
    ensures !s.panicked && !Step(c, s, a).panicked
  {
    ReachableControl(c, s);
    ControlKept(c, s, a);
  }

  /** Freeze before read: once the pipeline of a chunk runs, every fetcher has merged, released the lock and
      replied, and no step of any goroutine changes the block map until the next chunk. */
  lemma FrozenWhileRead(c: Config, s: State, a: Action)
    requires Reachable(c, s) && Enabled(s, a)
    requires PipePhase(s.main) || !s.converter.Stopped?
    ensures AllReplied(s.fetchers) && s.lock.None?
    ensures Step(c, s, a).summary == s.summary
  {
    ReachableControl(c, s);
    KeepsSummary(c, s, a);
  }

  lemma KeepsSummary(c: Config, s: State, a: Action)
    requires Enabled(s, a) && AllReplied(s.fetchers) && !s.main.Page?
    ensures Step(c, s, a).summary == s.summary
  {
  }

  /** Mutual exclusion: two fetchers are never merging at the same time. */
  lemma OneMergerAtATime(c: Config, s: State, i: nat, j: nat)
    requires Reachable(c, s) && i < |s.fetchers| && j < |s.fetchers|
    requires s.fetchers[i].Merging? && s.fetchers[j].Merging?
    ensures i == j
  {
    ReachableControl(c, s);
  }
}
