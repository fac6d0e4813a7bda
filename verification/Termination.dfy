/** Every run of a task's own goroutines is finite: a lexicographic rank drops on every step. */
module Termination {
  import opened Control
  import opened Machine
  import opened Progress
  import opened Ranges
  import opened Sums

  /** Which chunk main is in, and how far its fan-out is, for a range on which the paging loops leave. */
  ghost predicate ChunkInv(c: Config, s: State)
    requires AllStop(c.range, c.bigPage)
  {
    && (!Winding(s.main) ==> s.chunk < Total(c.range, c.bigPage))
    && (!Winding(s.main) && !s.main.Page? ==> s.piece == PieceAt(c.range, c.bigPage, s.chunk))
    && (s.main.FanOut? ==> Stops(s.piece, REQUEST_SIZE) && |s.fetchers| < Total(s.piece, REQUEST_SIZE))
  }

  /** No further chunk will be started. */
  predicate Winding(m: Main) {
    m.CloseOut? || m.WaitFin? || m.Done?
  }

  lemma GatherKeepsChunk(c: Config, s: State)
    requires AllStop(c.range, c.bigPage) && ChunkInv(c, s) && Gathers(s.main)
    ensures ChunkInv(c, GatherEffect(c, s))
  {
    if s.main.Page? {
      assert Stops(PieceAt(c.range, c.bigPage, s.chunk), REQUEST_SIZE);
    } else if s.main.FanOut? {
      ExitTest(s.piece, REQUEST_SIZE, |s.fetchers|);
    }
  }

  lemma RestKeepsChunk(c: Config, s: State, pick: u64)
    requires AllStop(c.range, c.bigPage) && ChunkInv(c, s) && !Gathers(s.main) && MainEnabled(s, pick)
    ensures ChunkInv(c, MainEffect(c, s, pick))
  {
    if s.main.Return? {
      ExitTest(c.range, c.bigPage, s.chunk);
    }
  }

  lemma ChunkKept(c: Config, s: State, a: Action)
    requires AllStop(c.range, c.bigPage) && ChunkInv(c, s) && Enabled(s, a)
    ensures ChunkInv(c, Step(c, s, a))
  {
    if a.MainStep? {
      if Gathers(s.main) { GatherKeepsChunk(c, s); } else { RestKeepsChunk(c, s, a.pick); }
    } else {
      KeepsMain(c, s, a);
    }
  }

  // ----- the rank -----

  function Phase(m: Main): nat {
    match m
    case Page => 16
    case FanOut => 15
    case Collect(_, _) => 14
    case Starting => 13
    case Loop(_) => 12
    case SendBlock(_, _, _) => 12
    case PushPage(_, _, _, _) => 12
    case CloseToGet => 11
    case WaitWorkers => 10
    case CloseTxIn => 9
    case WaitConverter => 8
    case Return => 7
    case ReturnError => 7
    case SendError => 6
    case CloseOut => 5
    case WaitFin => 4
    case Done(_) => 3
  }

  /** Requests to start, replies to take, or blocks to send. */
  ghost function Turns(s: State): nat
    requires s.main.FanOut? ==> Stops(s.piece, REQUEST_SIZE)
  {
    match s.main
    case FanOut =>
      var total := Total(s.piece, REQUEST_SIZE);
      if |s.fetchers| <= total then total - |s.fetchers| else 0
    case Collect(responses, _) => if responses <= |s.fetchers| then |s.fetchers| - responses else 0
    case Loop(todo) => 3 * |todo|
    case SendBlock(todo, _, _) => 3 * |todo| + 2
    case PushPage(todo, _, _, _) => 3 * |todo| + 1
    case _ => 0
  }

  function PagesLeft(m: Main): nat {
    if m.PushPage? && m.p <= m.n then m.n - m.p else 0
  }

  function FetcherRank(c: Config): Fetcher -> nat {
    (f: Fetcher) =>
      match f
      case Asking(request) => |c.answer(request)| + 4
      case Answered(blocks) => |blocks| + 3
      case Merging(rest) => |rest| + 2
      case Replying(_) => 1
      case Replied(_) => 0
  }

  ghost function JobRank(c: Config): Job -> nat {
    (j: Job) => 4 * |PageTxs(c, j)| + 3
  }

  ghost function WorkerRank(c: Config): Worker -> nat {
    (w: Worker) =>
      match w
      case Fetching(job) => 4 * |PageTxs(c, job)| + 3
      case Pushing(rest) => 4 * |rest| + 2
      case Idle => 1
      case Exited => 0
  }

  function ConverterRank(v: Converter): nat {
    match v
    case Waiting => 1
    case Holding(_) => 3
    case Stopped => 0
  }

  function SenderRank(x: Sender): nat {
    match x
    case Sending(_) => 6
    case Selecting => 5
    case Ending(_) => 4
    case Finishing(_) => 3
    case Closing(_) => 2
    case Finished(_) => 1
  }

  datatype Rank = Rank(chunks: nat, phase: nat, turns: nat, pages: nat, fetching: nat, piping: nat, sending: nat)

  ghost function RankOf(c: Config, s: State): Rank
    requires AllStop(c.range, c.bigPage) && ChunkInv(c, s)
  {
    Rank(
      if Winding(s.main) then 0 else Total(c.range, c.bigPage) - s.chunk,
      Phase(s.main), Turns(s), PagesLeft(s.main),
      Sum(FetcherRank(c), s.fetchers), Piping(c, s),
      2 * |s.out.buf| + SenderRank(s.sender))
  }

  ghost function Piping(c: Config, s: State): nat {
    Sum(JobRank(c), s.toGet.buf) + Sum(WorkerRank(c), s.workers) + 3 * |s.txIn.buf| + ConverterRank(s.converter)
  }

  /** The lexicographic order. */
  predicate Below(a: Rank, b: Rank) {
    || a.chunks < b.chunks
    || (a.chunks == b.chunks && (a.phase < b.phase
    || (a.phase == b.phase && (a.turns < b.turns
    || (a.turns == b.turns && (a.pages < b.pages
    || (a.pages == b.pages && (a.fetching < b.fetching
    || (a.fetching == b.fetching && (a.piping < b.piping
    || (a.piping == b.piping && a.sending < b.sending)))))))))))
  }

  lemma FanOutDrops(c: Config, s: State, t: State)
    requires s.main.FanOut? && t == GatherEffect(c, s)
    requires AllStop(c.range, c.bigPage) && ChunkInv(c, s) && ChunkInv(c, t)
    ensures Below(RankOf(c, t), RankOf(c, s))
  {
  }

  lemma CollectDrops(c: Config, s: State, t: State)
    requires FetchInv(s) && s.main.Collect? && MainEnabled(s, 0) && t == GatherEffect(c, s)
    requires AllStop(c.range, c.bigPage) && ChunkInv(c, s) && ChunkInv(c, t)
    ensures Below(RankOf(c, t), RankOf(c, s))
  {
    GatherFrame(c, s);
    if t.main.Collect? {
      TurnsDrop(c, s, t);
    } else {
      PhaseDrops(c, s, t);
    }
  }

  /** Main stays in its phase, with fewer turns to go. */
  lemma TurnsDrop(c: Config, s: State, t: State)
    requires AllStop(c.range, c.bigPage) && ChunkInv(c, s) && ChunkInv(c, t)
    requires t.chunk == s.chunk && Phase(t.main) == Phase(s.main) && Turns(t) < Turns(s)
    requires Winding(t.main) == Winding(s.main)
    ensures Below(RankOf(c, t), RankOf(c, s))
  {
  }

  lemma GatherDrops(c: Config, s: State, t: State)
    requires FetchInv(s) && Gathers(s.main) && MainEnabled(s, 0) && t == GatherEffect(c, s)
    requires AllStop(c.range, c.bigPage) && ChunkInv(c, s) && ChunkInv(c, t)
    ensures Below(RankOf(c, t), RankOf(c, s))
  {
    match s.main
    case FanOut => FanOutDrops(c, s, t);
    case Collect(_, _) => CollectDrops(c, s, t);
    case _ => PhaseDrops(c, s, t);
  }

  /** Main goes on to a later phase of the same chunk. */
  lemma PhaseDrops(c: Config, s: State, t: State)
    requires AllStop(c.range, c.bigPage) && ChunkInv(c, s) && ChunkInv(c, t)
    requires t.chunk == s.chunk && Phase(t.main) < Phase(s.main) && (Winding(s.main) ==> Winding(t.main))
    ensures Below(RankOf(c, t), RankOf(c, s))
  {
  }

  lemma SendDrops(c: Config, s: State, pick: u64, t: State)
    requires OutInv(s) && s.main.SendBlock? && MainEnabled(s, pick) && t == FeedEffect(c, s, pick)
    requires AllStop(c.range, c.bigPage) && ChunkInv(c, s) && ChunkInv(c, t)
    ensures Below(RankOf(c, t), RankOf(c, s))
  {
  }

  lemma PageDrops(c: Config, s: State, pick: u64, t: State)
    requires PipeInv(s) && TodoInv(s) && s.main.PushPage? && MainEnabled(s, pick) && t == FeedEffect(c, s, pick)
    requires AllStop(c.range, c.bigPage) && ChunkInv(c, s) && ChunkInv(c, t)
    ensures Below(RankOf(c, t), RankOf(c, s))
  {
  }

  lemma StartDrops(c: Config, s: State, pick: u64, t: State)
    requires s.main.Starting? && t == FeedEffect(c, s, pick)
    requires AllStop(c.range, c.bigPage) && ChunkInv(c, s) && ChunkInv(c, t)
    ensures Below(RankOf(c, t), RankOf(c, s))
  {
  }

  lemma LoopDrops(c: Config, s: State, pick: u64, t: State)
    requires s.main.Loop? && MainEnabled(s, pick) && t == FeedEffect(c, s, pick)
    requires AllStop(c.range, c.bigPage) && ChunkInv(c, s) && ChunkInv(c, t)
    ensures Below(RankOf(c, t), RankOf(c, s))
  {
    if s.main.todo != {} {
      assert |s.main.todo - {pick}| == |s.main.todo| - 1;
    }
  }

  lemma FeedDrops(c: Config, s: State, pick: u64, t: State)
    requires PipeInv(s) && OutInv(s) && TodoInv(s)
    requires Feeds(s.main) && MainEnabled(s, pick) && t == FeedEffect(c, s, pick)
    requires AllStop(c.range, c.bigPage) && ChunkInv(c, s) && ChunkInv(c, t)
    ensures Below(RankOf(c, t), RankOf(c, s))
  {
    match s.main
    case SendBlock(_, _, _) => SendDrops(c, s, pick, t);
    case PushPage(_, _, _, _) => PageDrops(c, s, pick, t);
    case Loop(_) => LoopDrops(c, s, pick, t);
    case Starting => StartDrops(c, s, pick, t);
  }

  lemma WindUpDrops(c: Config, s: State, pick: u64, t: State)
    requires !Gathers(s.main) && !Feeds(s.main) && MainEnabled(s, pick) && t == WindUpEffect(c, s)
    requires AllStop(c.range, c.bigPage) && ChunkInv(c, s) && ChunkInv(c, t)
    ensures Below(RankOf(c, t), RankOf(c, s))
  {
    if s.main.Return? {
      ReturnDrops(c, s, t);
    } else {
      PhaseDrops(c, s, t);
    }
  }

  lemma ReturnDrops(c: Config, s: State, t: State)
    requires s.main.Return? && t == WindUpEffect(c, s)
    requires AllStop(c.range, c.bigPage) && ChunkInv(c, s) && ChunkInv(c, t)
    ensures Below(RankOf(c, t), RankOf(c, s))
  {
    ExitTest(c.range, c.bigPage, s.chunk);
  }

  lemma MainDrops(c: Config, s: State, pick: u64, t: State)
    requires ControlInv(s) && TodoInv(s) && MainEnabled(s, pick) && t == MainEffect(c, s, pick)
    requires AllStop(c.range, c.bigPage) && ChunkInv(c, s) && ChunkInv(c, t)
    ensures Below(RankOf(c, t), RankOf(c, s))
  {
    if Gathers(s.main) {
      GatherDrops(c, s, t);
    } else if Feeds(s.main) {
      FeedDrops(c, s, pick, t);
    } else {
      WindUpDrops(c, s, pick, t);
    }
  }

  lemma FetcherDrops(c: Config, s: State, k: nat, ok: bool)
    requires FetchInv(s) && FetcherEnabled(s, k)
    ensures Sum(FetcherRank(c), FetcherEffect(c, s, k, ok).fetchers) < Sum(FetcherRank(c), s.fetchers)
  {
    SumUpdate(FetcherRank(c), s.fetchers, k, FetcherEffect(c, s, k, ok).fetchers[k]);
  }

  lemma WorkerDrops(c: Config, s: State, k: nat, ok: bool)
    requires PipeInv(s) && WorkerEnabled(s, k)
    ensures Piping(c, WorkerEffect(c, s, k, ok)) < Piping(c, s)
  {
    var t := WorkerEffect(c, s, k, ok);
    SumUpdate(WorkerRank(c), s.workers, k, t.workers[k]);
  }

  lemma ConverterDrops(c: Config, s: State)
    requires OutInv(s) && PipeInv(s) && ConverterEnabled(s)
    ensures Piping(c, ConverterEffect(s)) < Piping(c, s)
  {
  }

  lemma SenderDrops(s: State, stop: bool)
    requires OutInv(s) && SenderEnabled(s, stop)
    ensures var t := SenderEffect(s, stop);
            2 * |t.out.buf| + SenderRank(t.sender) < 2 * |s.out.buf| + SenderRank(s.sender)
  {
  }

  /** Steps of the workers, the converter and the sender leave main and the fetchers alone. */
  predicate SameFront(s: State, t: State) {
    t.main == s.main && t.chunk == s.chunk && t.piece == s.piece && t.fetchers == s.fetchers
  }

  lemma FrontKeepsRank(c: Config, s: State, t: State)
    requires AllStop(c.range, c.bigPage) && ChunkInv(c, s) && ChunkInv(c, t) && SameFront(s, t)
    ensures var a, b := RankOf(c, t), RankOf(c, s);
            && a.chunks == b.chunks && a.phase == b.phase && a.turns == b.turns && a.pages == b.pages
            && a.fetching == b.fetching
  {
  }

  lemma FetcherLowers(c: Config, s: State, k: nat, ok: bool, t: State)
    requires FetchInv(s) && FetcherEnabled(s, k) && t == FetcherEffect(c, s, k, ok)
    requires AllStop(c.range, c.bigPage) && ChunkInv(c, s) && ChunkInv(c, t)
    ensures Below(RankOf(c, t), RankOf(c, s))
  {
    FetcherFrame(c, s, k, ok);
    FetcherDrops(c, s, k, ok);
  }

  lemma WorkerLowers(c: Config, s: State, k: nat, ok: bool, t: State)
    requires PipeInv(s) && WorkerEnabled(s, k) && t == WorkerEffect(c, s, k, ok)
    requires AllStop(c.range, c.bigPage) && ChunkInv(c, s) && ChunkInv(c, t)
    ensures Below(RankOf(c, t), RankOf(c, s))
  {
    WorkerFrame(c, s, k, ok);
    WorkerDrops(c, s, k, ok);
    PipingLower(c, s, t);
  }

  lemma PipingLower(c: Config, s: State, t: State)
    requires AllStop(c.range, c.bigPage) && ChunkInv(c, s) && ChunkInv(c, t) && SameFront(s, t)
    requires Piping(c, t) < Piping(c, s)
    ensures Below(RankOf(c, t), RankOf(c, s))
  {
    FrontKeepsRank(c, s, t);
  }

  lemma ConverterLowers(c: Config, s: State, t: State)
    requires OutInv(s) && PipeInv(s) && ConverterEnabled(s) && t == ConverterEffect(s)
    requires AllStop(c.range, c.bigPage) && ChunkInv(c, s) && ChunkInv(c, t)
    ensures Below(RankOf(c, t), RankOf(c, s))
  {
    ConverterFrame(s);
    ConverterDrops(c, s);
    PipingLower(c, s, t);
  }

  lemma SenderLowers(c: Config, s: State, stop: bool, t: State)
    requires OutInv(s) && SenderEnabled(s, stop) && t == SenderEffect(s, stop)
    requires AllStop(c.range, c.bigPage) && ChunkInv(c, s) && ChunkInv(c, t)
    ensures Below(RankOf(c, t), RankOf(c, s))
  {
    SenderFrame(s, stop);
    SenderDrops(s, stop);
    SendingLower(c, s, t);
  }

  lemma SendingLower(c: Config, s: State, t: State)
    requires AllStop(c.range, c.bigPage) && ChunkInv(c, s) && ChunkInv(c, t) && SameFront(s, t)
    requires t.workers == s.workers && t.converter == s.converter && t.toGet == s.toGet && t.txIn == s.txIn
    requires 2 * |t.out.buf| + SenderRank(t.sender) < 2 * |s.out.buf| + SenderRank(s.sender)
    ensures Below(RankOf(c, t), RankOf(c, s))
  {
    FrontKeepsRank(c, s, t);
  }

  /** Every step of the task's own goroutines lowers the rank. */
  lemma RankDrops(c: Config, s: State, a: Action)
    requires AllStop(c.range, c.bigPage) && ChunkInv(c, s) && ControlInv(s) && TodoInv(s) && OwnStep(s, a)
    ensures ChunkInv(c, Step(c, s, a))
    ensures Below(RankOf(c, Step(c, s, a)), RankOf(c, s))
  {
    ChunkKept(c, s, a);
    var t := Step(c, s, a);
    match a
    case MainStep(pick) => MainDrops(c, s, pick, t);
    case FetcherStep(k, ok) => FetcherLowers(c, s, k, ok, t);
    case WorkerStep(k, ok) => WorkerLowers(c, s, k, ok, t);
    case ConverterStep => ConverterLowers(c, s, t);
    case SenderStep(stop) => SenderLowers(c, s, stop, t);
    case Cancel =>
  }

  // ----- every schedule ends -----

  /** A schedule picks the next step from the steps taken so far and the state reached; this one picks a step of some
      goroutine whenever there is one. */
  ghost predicate AlwaysMoves(c: Config, schedule: (seq<Action>, State) -> Action) {
    forall past, s :: Reachable(c, s) && (exists a :: OwnStep(s, a)) ==> OwnStep(s, schedule(past, s))
  }

  /** The run is legal, and from the given step on every step is the one the schedule picks there. */
  ghost predicate Follows(c: Config, schedule: (seq<Action>, State) -> Action, run: seq<Action>, from: nat) {
    && Legal(c, Initial(c), run)
    && forall i :: from <= i < |run| ==>
         Legal(c, Initial(c), run[..i]) && run[i] == schedule(run[..i], After(c, Initial(c), run[..i]))
  }

  /** No goroutine of the task can move. */
  ghost predicate Halted(s: State) {
    forall a :: !OwnStep(s, a)
  }

  /** The run has been taken and has brought the task to s. */
  ghost predicate Reached(c: Config, past: seq<Action>, s: State)
    requires AllStop(c.range, c.bigPage)
  {
    Legal(c, Initial(c), past) && After(c, Initial(c), past) == s && ChunkInv(c, s)
  }

  /** Whatever has been done so far, cancelled or not, following a schedule brings every goroutine to a halt. */
  lemma {:induction false} ScheduleHalts(
    c: Config, s: State, past: seq<Action>, schedule: (seq<Action>, State) -> Action)
    returns (run: seq<Action>)
    requires AllStop(c.range, c.bigPage) && AlwaysMoves(c, schedule) && Reached(c, past, s)
    ensures past <= run && Follows(c, schedule, run, |past|)
    ensures Halted(After(c, Initial(c), run)) && After(c, Initial(c), run).cancelled == s.cancelled
    decreases RankOf(c, s).chunks, RankOf(c, s).phase, RankOf(c, s).turns, RankOf(c, s).pages,
              RankOf(c, s).fetching, RankOf(c, s).piping, RankOf(c, s).sending
  {
    if Halted(s) {
      run := past;
    } else {
      var a := schedule(past, s);
      ScheduledStep(c, s, past, schedule);
      run := ScheduleHalts(c, Step(c, s, a), past + [a], schedule);
      FollowsEarlier(c, schedule, run, past, s);
    }
  }

  lemma ScheduledStep(c: Config, s: State, past: seq<Action>, schedule: (seq<Action>, State) -> Action)
    requires AllStop(c.range, c.bigPage) && AlwaysMoves(c, schedule) && Reached(c, past, s) && !Halted(s)
    ensures var a := schedule(past, s);
            && OwnStep(s, a) && Step(c, s, a).cancelled == s.cancelled
            && Reached(c, past + [a], Step(c, s, a)) && Below(RankOf(c, Step(c, s, a)), RankOf(c, s))
  {
    assert Reachable(c, s);
    var a := schedule(past, s);
    ReachableControl(c, s);
    ReachableTodo(c, s);
    RankDrops(c, s, a);
    OneMore(c, Initial(c), past, a);
    KeepsUncancelled(c, s, a);
  }

  lemma FollowsEarlier(
    c: Config, schedule: (seq<Action>, State) -> Action, run: seq<Action>, past: seq<Action>, s: State)
    requires Legal(c, Initial(c), past) && After(c, Initial(c), past) == s
    requires past + [schedule(past, s)] <= run && Follows(c, schedule, run, |past| + 1)
    ensures past <= run && Follows(c, schedule, run, |past|)
  {
    var more := past + [schedule(past, s)];
    assert run[..|past|] == more[..|past|] == past;
    assert run[|past|] == more[|past|];
  }

  lemma KeepsUncancelled(c: Config, s: State, a: Action)
    requires OwnStep(s, a)
    ensures Step(c, s, a).cancelled == s.cancelled
  {
  }

  lemma {:induction false} OneMore(c: Config, s: State, run: seq<Action>, a: Action)
    requires Legal(c, s, run) && Enabled(After(c, s, run), a)
    ensures Legal(c, s, run + [a]) && After(c, s, run + [a]) == Step(c, After(c, s, run), a)
    decreases run
  {
    if run == [] {
      assert [] + [a] == [a];
      assert Legal(c, Step(c, s, a), []);
      assert [a][1..] == [];
    } else {
      OneMore(c, Step(c, s, run[0]), run[1..], a);
      assert (run + [a])[1..] == run[1..] + [a];
    }
  }

  lemma NothingDone(c: Config)
    requires AllStop(c.range, c.bigPage)
    ensures Reached(c, [], Initial(c))
  {
  }

  /** Termination: on a range whose paging loops leave, the run of an uncancelled task that a schedule chooses, step by
      step, ends, whichever schedule it is, with every goroutine ended. */
  lemma TaskFinishes(c: Config, schedule: (seq<Action>, State) -> Action) returns (run: seq<Action>)
    requires AllStop(c.range, c.bigPage) && AlwaysMoves(c, schedule)
    ensures Follows(c, schedule, run, 0)
    ensures AllEnded(After(c, Initial(c), run)) && !After(c, Initial(c), run).cancelled
  {
    NothingDone(c);
    run := ScheduleHalts(c, Initial(c), [], schedule);
    var s := After(c, Initial(c), run);
    assert Reachable(c, s);
    if !Terminal(s) {
      DeadlockFree(c, s);
    }
    ReachableControl(c, s);
    TerminalAllEnded(s);
  }
}
