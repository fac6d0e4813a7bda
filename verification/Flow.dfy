/** Conservation: no item is lost or duplicated between main, the workers, the converter and `out`. */
module Flow {
  import opened Blocks
  import opened Control
  import opened Machine
  import Pages
  import opened Ranges
  import opened Sums

  // ----- what is under way -----

  ghost function JobBag(c: Config, blocks: map<u64, Block>): Job -> multiset<Item> {
    (j: Job) => JobItems(c, blocks, j)
  }

  ghost function WorkerBag(c: Config, blocks: map<u64, Block>): Worker -> multiset<Item> {
    (w: Worker) =>
      match w
      case Fetching(job) => JobItems(c, blocks, job)
      case Pushing(rest) => Bag(Converted(blocks), rest)
      case _ => multiset{}
  }

  function HeldBag(v: Converter): multiset<Item> {
    if v.Holding? then multiset{v.item} else multiset{}
  }

  /** The items that queued jobs, workers, queued transactions and the converter stand for. */
  ghost function Under(
    c: Config, blocks: map<u64, Block>, toGet: seq<Job>, workers: seq<Worker>, txIn: seq<Tx>, v: Converter)
    : multiset<Item>
  {
    Bag(JobBag(c, blocks), toGet) + Bag(WorkerBag(c, blocks), workers) + Bag(Converted(blocks), txIn) + HeldBag(v)
  }

  ghost function UnderWay(c: Config, s: State): multiset<Item> {
    Under(c, s.summary.blocks, s.toGet.buf, s.workers, s.txIn.buf, s.converter)
  }

  /** Enqueued, under way, or lost with a failed page: together exactly what was issued. */
  ghost predicate FlowInv(c: Config, s: State) {
    multiset(s.hist.pushed) + UnderWay(c, s) + s.hist.missing == s.hist.issued
  }

  lemma NothingUnderWay(c: Config, blocks: map<u64, Block>, workers: seq<Worker>)
    requires AllExited(workers)
    ensures Under(c, blocks, [], workers, [], Stopped) == multiset{}
  {
    BagEmpty(WorkerBag(c, blocks), workers);
  }

  // ----- the workers and the converter move items -----

  lemma TakeJob(
    c: Config, blocks: map<u64, Block>, toGet: seq<Job>, ws: seq<Worker>, k: nat, txIn: seq<Tx>, v: Converter)
    requires k < |ws| && ws[k] == Idle && toGet != []
    ensures Under(c, blocks, toGet[1..], ws[k := Fetching(toGet[0])], txIn, v) == Under(c, blocks, toGet, ws, txIn, v)
  {
    var f := WorkerBag(c, blocks);
    assert f(ws[k]) == multiset{} && f(Fetching(toGet[0])) == JobItems(c, blocks, toGet[0]);
    BagGrow(f, ws, k, Fetching(toGet[0]), JobItems(c, blocks, toGet[0]));
  }

  /** A worker goes from w to x, which stand for the same items apart from the lost ones. */
  lemma ChangeWorker(
    c: Config, blocks: map<u64, Block>, toGet: seq<Job>, ws: seq<Worker>, k: nat, x: Worker, txIn: seq<Tx>,
    v: Converter, lost: multiset<Item>)
    requires k < |ws| && WorkerBag(c, blocks)(x) + lost == WorkerBag(c, blocks)(ws[k])
    ensures Under(c, blocks, toGet, ws[k := x], txIn, v) + lost == Under(c, blocks, toGet, ws, txIn, v)
  {
    BagReplace(WorkerBag(c, blocks), ws, k, x, lost);
    var jobs, held := Bag(JobBag(c, blocks), toGet), Bag(WorkerBag(c, blocks), ws[k := x]);
    Second(jobs, held, Bag(Converted(blocks), txIn), HeldBag(v), lost);
  }

  lemma Second(a: multiset<Item>, b: multiset<Item>, d: multiset<Item>, e: multiset<Item>, lost: multiset<Item>)
    ensures a + b + d + e + lost == a + (b + lost) + d + e
  {
  }

  lemma SecondThird(a: multiset<Item>, b: multiset<Item>, x: multiset<Item>, d: multiset<Item>, e: multiset<Item>)
    ensures a + b + (d + x) + e == a + (b + x) + d + e
  {
  }

  lemma PushTx(
    c: Config, blocks: map<u64, Block>, toGet: seq<Job>, ws: seq<Worker>, k: nat, txIn: seq<Tx>, v: Converter)
    requires k < |ws| && ws[k].Pushing? && ws[k].rest != []
    ensures var rest := ws[k].rest;
            (Under(c, blocks, toGet, ws[k := Pushing(rest[1..])], txIn + [rest[0]], v)
             == Under(c, blocks, toGet, ws, txIn, v))
  {
    var f, g, rest := WorkerBag(c, blocks), Converted(blocks), ws[k].rest;
    var x := Pushing(rest[1..]);
    PushingBag(c, blocks, rest);
    BagReplace(f, ws, k, x, g(rest[0]));
    BagAppend(g, txIn, rest[0]);
    SecondThird(Bag(JobBag(c, blocks), toGet), Bag(f, ws[k := x]), g(rest[0]), Bag(g, txIn), HeldBag(v));
  }

  lemma PushingBag(c: Config, blocks: map<u64, Block>, rest: seq<Tx>)
    requires rest != []
    ensures var f := WorkerBag(c, blocks);
            f(Pushing(rest[1..])) + Converted(blocks)(rest[0]) == f(Pushing(rest))
  {
    var f := WorkerBag(c, blocks);
    assert f(Pushing(rest)) == Bag(Converted(blocks), rest);
    assert f(Pushing(rest[1..])) == Bag(Converted(blocks), rest[1..]);
  }

  lemma TakeTx(c: Config, blocks: map<u64, Block>, toGet: seq<Job>, ws: seq<Worker>, txIn: seq<Tx>)
    requires txIn != []
    ensures Under(c, blocks, toGet, ws, txIn[1..], Holding(Convert(blocks, txIn[0])))
         == Under(c, blocks, toGet, ws, txIn, Waiting)
  {
  }

  lemma QueueJob(
    c: Config, blocks: map<u64, Block>, toGet: seq<Job>, j: Job, ws: seq<Worker>, txIn: seq<Tx>, v: Converter)
    ensures Under(c, blocks, toGet + [j], ws, txIn, v) == Under(c, blocks, toGet, ws, txIn, v) + JobItems(c, blocks, j)
  {
    BagAppend(JobBag(c, blocks), toGet, j);
  }

  /** Only the items under way and the lost ones change, and together they do not. */
  lemma FlowMoved(c: Config, s: State, t: State, lost: multiset<Item>)
    requires FlowInv(c, s) && UnderWay(c, t) + lost == UnderWay(c, s)
    requires t.hist.pushed == s.hist.pushed && t.hist.issued == s.hist.issued && t.hist.missing == s.hist.missing + lost
    ensures FlowInv(c, t)
  {
  }

  lemma IdleKeepsFlow(c: Config, s: State, k: nat, t: State)
    requires FlowInv(c, s) && WorkerEnabled(s, k) && s.workers[k].Idle? && t == WorkerEffect(c, s, k, true)
    ensures FlowInv(c, t)
  {
    var blocks := s.summary.blocks;
    if s.toGet.buf == [] {
      ChangeWorker(c, blocks, s.toGet.buf, s.workers, k, Exited, s.txIn.buf, s.converter, multiset{});
    } else {
      TakeJob(c, blocks, s.toGet.buf, s.workers, k, s.txIn.buf, s.converter);
    }
    FlowMoved(c, s, t, multiset{});
  }

  lemma FetchingKeepsFlow(c: Config, s: State, k: nat, ok: bool, t: State)
    requires FlowInv(c, s) && WorkerEnabled(s, k) && s.workers[k].Fetching? && t == WorkerEffect(c, s, k, ok)
    ensures FlowInv(c, t)
  {
    var blocks, job := s.summary.blocks, s.workers[k].job;
    var lost := if ok then multiset{} else JobItems(c, blocks, job);
    ChangeWorker(c, blocks, s.toGet.buf, s.workers, k, t.workers[k], s.txIn.buf, s.converter, lost);
    FlowMoved(c, s, t, lost);
  }

  lemma PushingKeepsFlow(c: Config, s: State, k: nat, t: State)
    requires FlowInv(c, s) && PipeInv(s)
    requires WorkerEnabled(s, k) && s.workers[k].Pushing? && t == WorkerEffect(c, s, k, true)
    ensures FlowInv(c, t)
  {
    var blocks := s.summary.blocks;
    if s.workers[k].rest == [] {
      ChangeWorker(c, blocks, s.toGet.buf, s.workers, k, Idle, s.txIn.buf, s.converter, multiset{});
    } else {
      PushTx(c, blocks, s.toGet.buf, s.workers, k, s.txIn.buf, s.converter);
    }
    FlowMoved(c, s, t, multiset{});
  }

  lemma WorkerKeepsFlow(c: Config, s: State, k: nat, ok: bool)
    requires PipeInv(s) && FlowInv(c, s) && WorkerEnabled(s, k)
    ensures FlowInv(c, WorkerEffect(c, s, k, ok))
  {
    var t := WorkerEffect(c, s, k, ok);
    match s.workers[k]
    case Idle => IdleKeepsFlow(c, s, k, t);
    case Fetching(_) => FetchingKeepsFlow(c, s, k, ok, t);
    case Pushing(_) => PushingKeepsFlow(c, s, k, t);
  }

  lemma WaitingKeepsFlow(c: Config, s: State, t: State)
    requires FlowInv(c, s) && ConverterEnabled(s) && s.converter.Waiting? && t == ConverterEffect(s)
    ensures FlowInv(c, t)
  {
    if s.txIn.buf != [] {
      TakeTx(c, s.summary.blocks, s.toGet.buf, s.workers, s.txIn.buf);
    }
    FlowMoved(c, s, t, multiset{});
  }

  lemma HoldingKeepsFlow(c: Config, s: State, t: State)
    requires FlowInv(c, s) && OutInv(s) && PipeInv(s)
    requires ConverterEnabled(s) && s.converter.Holding? && t == ConverterEffect(s)
    ensures FlowInv(c, t)
  {
    ConverterPushes(s, t);
    PutDown(c, s.summary.blocks, s.toGet.buf, s.workers, s.txIn.buf, s.converter.item);
    ItemPushed(c, s, t, s.converter.item);
  }

  lemma ConverterPushes(s: State, t: State)
    requires OutInv(s) && PipeInv(s)
    requires ConverterEnabled(s) && s.converter.Holding? && t == ConverterEffect(s)
    ensures t.hist == s.hist.(pushed := s.hist.pushed + [s.converter.item]) && t.converter == Waiting
    ensures t.summary == s.summary && t.toGet == s.toGet && t.workers == s.workers && t.txIn == s.txIn
  {
  }

  lemma PutDown(c: Config, blocks: map<u64, Block>, toGet: seq<Job>, ws: seq<Worker>, txIn: seq<Tx>, item: Item)
    ensures Under(c, blocks, toGet, ws, txIn, Waiting) + multiset{item}
         == Under(c, blocks, toGet, ws, txIn, Holding(item))
  {
  }

  lemma ItemPushed(c: Config, s: State, t: State, item: Item)
    requires FlowInv(c, s) && UnderWay(c, t) + multiset{item} == UnderWay(c, s)
    requires t.hist == s.hist.(pushed := s.hist.pushed + [item])
    ensures FlowInv(c, t)
  {
  }

  lemma ConverterKeepsFlow(c: Config, s: State)
    requires OutInv(s) && PipeInv(s) && FlowInv(c, s) && ConverterEnabled(s)
    ensures FlowInv(c, ConverterEffect(s))
  {
    if s.converter.Waiting? {
      WaitingKeepsFlow(c, s, ConverterEffect(s));
    } else {
      HoldingKeepsFlow(c, s, ConverterEffect(s));
    }
  }

  // ----- main issues items -----

  lemma IdleUnderWay(c: Config, blocks: map<u64, Block>, ws: seq<Worker>)
    requires forall k :: 0 <= k < |ws| ==> ws[k].Idle?
    ensures Under(c, blocks, [], ws, [], Waiting) == multiset{}
  {
    BagEmpty(WorkerBag(c, blocks), ws);
  }

  lemma StartFlow(c: Config, s: State, t: State)
    requires FlowInv(c, s) && PipeInv(s) && s.main.Starting? && t == FeedEffect(c, s, 0)
    ensures FlowInv(c, t)
  {
    NothingUnderWay(c, s.summary.blocks, s.workers);
    StartedPipe(c, s, t);
    IdleUnderWay(c, s.summary.blocks, t.workers);
  }

  lemma StartedPipe(c: Config, s: State, t: State)
    requires s.main.Starting? && t == FeedEffect(c, s, 0)
    ensures t.toGet.buf == [] && t.txIn.buf == [] && t.converter == Waiting && t.summary == s.summary
    ensures forall k :: 0 <= k < |t.workers| ==> t.workers[k].Idle?
    ensures t.hist == s.hist.(frozen := t.hist.frozen)
  {
  }

  lemma PageFlow(c: Config, s: State, t: State)
    requires FlowInv(c, s) && PipeInv(s) && s.main.PushPage? && MainEnabled(s, 0) && t == FeedEffect(c, s, 0)
    ensures FlowInv(c, t)
  {
    QueueJob(c, s.summary.blocks, s.toGet.buf, Job(s.main.h, s.main.p), s.workers, s.txIn.buf, s.converter);
  }

  lemma SendFlow(c: Config, s: State, t: State)
    requires FlowInv(c, s) && OutInv(s) && s.main.SendBlock? && MainEnabled(s, 0) && t == FeedEffect(c, s, 0)
    ensures FlowInv(c, t)
  {
    assert UnderWay(c, t) == UnderWay(c, s);
  }

  /** While nothing is under way, it does not matter what the block map is. */
  lemma QuietFlow(c: Config, s: State, t: State)
    requires FlowInv(c, s) && AllExited(s.workers) && s.toGet.buf == [] && s.txIn.buf == [] && s.converter.Stopped?
    requires t.toGet == s.toGet && t.workers == s.workers && t.txIn == s.txIn && t.converter == s.converter
    requires t.hist == s.hist
    ensures FlowInv(c, t)
  {
    NothingUnderWay(c, s.summary.blocks, s.workers);
    NothingUnderWay(c, t.summary.blocks, s.workers);
  }

  /** Steps that move nothing. */
  lemma SameFlow(c: Config, s: State, t: State)
    requires FlowInv(c, s)
    requires t.summary == s.summary && t.toGet.buf == s.toGet.buf && t.workers == s.workers
    requires t.txIn.buf == s.txIn.buf && t.converter == s.converter
    requires t.hist == s.hist.(sent := t.hist.sent)
    ensures FlowInv(c, t)
  {
  }

  lemma FeedKeepsFlow(c: Config, s: State, pick: u64)
    requires PipeInv(s) && OutInv(s) && FlowInv(c, s) && Feeds(s.main) && MainEnabled(s, pick)
    ensures FlowInv(c, FeedEffect(c, s, pick))
  {
    var t := FeedEffect(c, s, pick);
    match s.main
    case Starting => StartFlow(c, s, t);
    case Loop(_) => SameFlow(c, s, t);
    case SendBlock(_, _, _) => SendFlow(c, s, t);
    case PushPage(_, _, _, _) => PageFlow(c, s, t);
  }

  lemma GatheringIsQuiet(s: State)
    requires PipeInv(s) && Gathers(s.main)
    ensures AllExited(s.workers) && s.toGet.buf == [] && s.txIn.buf == [] && s.converter.Stopped?
  {
  }

  lemma GatherLeavesPipe(c: Config, s: State, t: State)
    requires Gathers(s.main) && t == GatherEffect(c, s)
    ensures t.toGet == s.toGet && t.workers == s.workers && t.txIn == s.txIn && t.converter == s.converter
    ensures t.hist == s.hist
  {
    GatherFrame(c, s);
  }

  lemma GatherKeepsFlow(c: Config, s: State)
    requires PipeInv(s) && FlowInv(c, s) && Gathers(s.main)
    ensures FlowInv(c, GatherEffect(c, s))
  {
    var t := GatherEffect(c, s);
    GatherLeavesPipe(c, s, t);
    GatheringIsQuiet(s);
    QuietFlow(c, s, t);
  }

  lemma MainKeepsFlow(c: Config, s: State, pick: u64)
    requires ControlInv(s) && FlowInv(c, s) && MainEnabled(s, pick)
    ensures FlowInv(c, MainEffect(c, s, pick))
  {
    if Gathers(s.main) {
      GatherKeepsFlow(c, s);
    } else if Feeds(s.main) {
      FeedKeepsFlow(c, s, pick);
    } else {
      SameFlow(c, s, WindUpEffect(c, s));
    }
  }

  lemma FetcherKeepsFlow(c: Config, s: State, k: nat, ok: bool)
    requires FetchInv(s) && PipeInv(s) && FlowInv(c, s) && FetcherEnabled(s, k)
    ensures FlowInv(c, FetcherEffect(c, s, k, ok))
  {
    assert FetchPhase(s.main);
    FetcherFrame(c, s, k, ok);
    QuietFlow(c, s, FetcherEffect(c, s, k, ok));
  }

  lemma SenderKeepsFlow(c: Config, s: State, stop: bool)
    requires FlowInv(c, s) && SenderEnabled(s, stop)
    ensures FlowInv(c, SenderEffect(s, stop))
  {
    SenderFrame(s, stop);
    SameFlow(c, s, SenderEffect(s, stop));
  }

  lemma FlowKept(c: Config, s: State, a: Action)
    requires ControlInv(s) && FlowInv(c, s) && Enabled(s, a)
    ensures FlowInv(c, Step(c, s, a))
  {
    match a
    case Cancel => SameFlow(c, s, s.(cancelled := true));
    case MainStep(pick) => MainKeepsFlow(c, s, pick);
    case FetcherStep(k, ok) => FetcherKeepsFlow(c, s, k, ok);
    case WorkerStep(k, ok) => WorkerKeepsFlow(c, s, k, ok);
    case ConverterStep => ConverterKeepsFlow(c, s);
    case SenderStep(stop) => SenderKeepsFlow(c, s, stop);
  }

  // ----- what main issues for a chunk -----

  /** The jobs for the pages p, p + 1, ..., n of a height. */
  function Jobs(h: u64, p: nat, n: nat): seq<Job> {
    if p > n then [] else seq(n + 1 - p, i requires 0 <= i < n + 1 - p => Job(h, p + i))
  }

  /** Pages p..n of a height. */
  ghost function PagesOutput(c: Config, blocks: map<u64, Block>, h: u64, p: nat, n: nat): multiset<Item>
    decreases n + 1 - p
  {
    if p > n then multiset{} else JobItems(c, blocks, Job(h, p)) + PagesOutput(c, blocks, h, p + 1, n)
  }

  ghost predicate AreJobs(c: Config, blocks: map<u64, Block>, h: u64, p: nat, n: nat) {
    PagesOutput(c, blocks, h, p, n) == Bag(JobBag(c, blocks), Jobs(h, p, n))
  }

  lemma {:induction false} PagesAreJobs(c: Config, blocks: map<u64, Block>, h: u64, p: nat, n: nat)
    ensures AreJobs(c, blocks, h, p, n)
    decreases n + 1 - p
  {
    if p > n {
      NoJobs(c, blocks, h, p, n);
    } else {
      PagesAreJobs(c, blocks, h, p + 1, n);
      JobBefore(c, blocks, h, p, n);
    }
  }

  lemma NoJobs(c: Config, blocks: map<u64, Block>, h: u64, p: nat, n: nat)
    requires p > n
    ensures AreJobs(c, blocks, h, p, n)
  {
  }

  lemma JobBefore(c: Config, blocks: map<u64, Block>, h: u64, p: nat, n: nat)
    requires p <= n && AreJobs(c, blocks, h, p + 1, n)
    ensures AreJobs(c, blocks, h, p, n)
  {
    FirstJob(c, blocks, h, p, n);
  }

  lemma FirstJob(c: Config, blocks: map<u64, Block>, h: u64, p: nat, n: nat)
    requires p <= n
    ensures Bag(JobBag(c, blocks), Jobs(h, p, n))
         == JobItems(c, blocks, Job(h, p)) + Bag(JobBag(c, blocks), Jobs(h, p + 1, n))
  {
    assert Jobs(h, p, n)[0] == Job(h, p);
    assert Jobs(h, p, n)[1..] == Jobs(h, p + 1, n);
  }

  /** A block and the pages its transaction count asks for. */
  ghost function HeightOutput(c: Config, blocks: map<u64, Block>, h: u64): multiset<Item>
    requires h in blocks
  {
    multiset{BlockItem(blocks[h])} + PagesOutput(c, blocks, h, 1, Pages.PageCount(blocks[h].numTxs))
  }

  ghost function HeightsOutput(c: Config, blocks: map<u64, Block>, hs: set<u64>): multiset<Item>
    requires hs <= blocks.Keys
  {
    if hs == {} then multiset{}
    else
      var h :| h in hs;
      HeightOutput(c, blocks, h) + HeightsOutput(c, blocks, hs - {h})
  }

  /** What the pipeline delivers for a block map when no page fetch fails. */
  ghost function ChunkOutput(c: Config, blocks: map<u64, Block>): multiset<Item> {
    HeightsOutput(c, blocks, blocks.Keys)
  }

  ghost function ChunksOutput(c: Config, maps: seq<map<u64, Block>>): multiset<Item> {
    if maps == [] then multiset{}
    else ChunksOutput(c, maps[..|maps| - 1]) + ChunkOutput(c, maps[|maps| - 1])
  }

  /** Any height may be taken out of the sum first: the order of the map iteration does not matter. */
  lemma {:induction false} TakeHeight(c: Config, blocks: map<u64, Block>, hs: set<u64>, h: u64)
    requires hs <= blocks.Keys && h in hs
    ensures HeightsOutput(c, blocks, hs) == HeightOutput(c, blocks, h) + HeightsOutput(c, blocks, hs - {h})
    decreases |hs|
  {
    var g :| g in hs
      && HeightsOutput(c, blocks, hs) == HeightOutput(c, blocks, g) + HeightsOutput(c, blocks, hs - {g});
    if g != h {
      TakeHeight(c, blocks, hs - {g}, h);
      TakeHeight(c, blocks, hs - {h}, g);
      assert hs - {g} - {h} == hs - {h} - {g};
    }
  }

  /** Main has a block map loop in hand that fits the map. */
  ghost predicate Fits(blocks: map<u64, Block>, m: Main) {
    && (m.Loop? || m.SendBlock? || m.PushPage? ==> m.todo <= blocks.Keys)
    && (m.SendBlock? || m.PushPage? ==> m.h in blocks)
  }

  /** What main still has to issue for the current chunk. */
  ghost function Remaining(c: Config, blocks: map<u64, Block>, m: Main): multiset<Item>
    requires Fits(blocks, m)
  {
    match m
    case Loop(todo) => HeightsOutput(c, blocks, todo)
    case SendBlock(todo, h, _) => HeightsOutput(c, blocks, todo) + HeightOutput(c, blocks, h)
    case PushPage(todo, h, p, n) => HeightsOutput(c, blocks, todo) + PagesOutput(c, blocks, h, p, n)
    case _ => multiset{}
  }

  lemma BlockIssued(c: Config, blocks: map<u64, Block>, todo: set<u64>, h: u64)
    requires todo <= blocks.Keys && h in blocks
    ensures Remaining(c, blocks, SendBlock(todo, h, blocks[h]))
         == multiset{BlockItem(blocks[h])}
            + Remaining(c, blocks, AfterBlock(todo, h, Pages.PageCount(blocks[h].numTxs)))
  {
    var n := Pages.PageCount(blocks[h].numTxs);
    if n == 0 {
      assert PagesOutput(c, blocks, h, 1, n) == multiset{};
    }
  }

  function AfterPage(m: Main): Main
    requires m.PushPage?
  {
    if m.p >= m.n then Loop(m.todo) else PushPage(m.todo, m.h, m.p + 1, m.n)
  }

  lemma PageIssued(c: Config, blocks: map<u64, Block>, m: Main)
    requires m.PushPage? && m.todo <= blocks.Keys && m.h in blocks && m.p <= m.n
    ensures Remaining(c, blocks, m) == JobItems(c, blocks, Job(m.h, m.p)) + Remaining(c, blocks, AfterPage(m))
  {
    FirstPageIssued(c, blocks, m.h, m.p, m.n);
    BeforePushing(c, blocks, m);
    AfterPushing(c, blocks, m);
    var others, now := HeightsOutput(c, blocks, m.todo), JobItems(c, blocks, Job(m.h, m.p));
    var pages, rest := PagesOutput(c, blocks, m.h, m.p, m.n), PagesOutput(c, blocks, m.h, m.p + 1, m.n);
    Regroup(Remaining(c, blocks, m), others, pages, now, rest, Remaining(c, blocks, AfterPage(m)));
  }

  lemma BeforePushing(c: Config, blocks: map<u64, Block>, m: Main)
    requires m.PushPage? && Fits(blocks, m)
    ensures Remaining(c, blocks, m) == HeightsOutput(c, blocks, m.todo) + PagesOutput(c, blocks, m.h, m.p, m.n)
  {
  }

  lemma AfterPushing(c: Config, blocks: map<u64, Block>, m: Main)
    requires m.PushPage? && Fits(blocks, m) && m.p <= m.n
    ensures Remaining(c, blocks, AfterPage(m))
         == HeightsOutput(c, blocks, m.todo) + PagesOutput(c, blocks, m.h, m.p + 1, m.n)
  {
    var next := AfterPage(m);
    if m.p < m.n {
      NextPage(m);
      BeforePushing(c, blocks, next);
    } else {
      FirstPageIssued(c, blocks, m.h, m.p, m.n);
      BackToLoop(c, blocks, m.todo, PagesOutput(c, blocks, m.h, m.p + 1, m.n));
    }
  }

  lemma NextPage(m: Main)
    requires m.PushPage? && m.p < m.n
    ensures var next := AfterPage(m);
            next.PushPage? && next.todo == m.todo && next.h == m.h && next.p == m.p + 1 && next.n == m.n
  {
  }

  lemma BackToLoop(c: Config, blocks: map<u64, Block>, todo: set<u64>, none: multiset<Item>)
    requires todo <= blocks.Keys && none == multiset{}
    ensures Remaining(c, blocks, Loop(todo)) == HeightsOutput(c, blocks, todo) + none
  {
  }

  lemma FirstPageIssued(c: Config, blocks: map<u64, Block>, h: u64, p: nat, n: nat)
    requires p <= n
    ensures PagesOutput(c, blocks, h, p, n) == JobItems(c, blocks, Job(h, p)) + PagesOutput(c, blocks, h, p + 1, n)
    ensures p == n ==> PagesOutput(c, blocks, h, p + 1, n) == multiset{}
  {
  }

  lemma LastPageIssued(c: Config, blocks: map<u64, Block>, h: u64, n: nat)
    requires n > 0
    ensures PagesOutput(c, blocks, h, 1, n) == PagesOutput(c, blocks, h, 1, n - 1) + JobItems(c, blocks, Job(h, n))
  {
    assert Jobs(h, 1, n) == Jobs(h, 1, n - 1) + [Job(h, n)];
    BagAppend(JobBag(c, blocks), Jobs(h, 1, n - 1), Job(h, n));
    PagesAreJobs(c, blocks, h, 1, n);
    PagesAreJobs(c, blocks, h, 1, n - 1);
  }

  lemma Regroup(
    before: multiset<Item>, others: multiset<Item>, pages: multiset<Item>,
    now: multiset<Item>, rest: multiset<Item>, later: multiset<Item>)
    requires before == others + pages && pages == now + rest && later == others + rest
    ensures before == now + later
  {
  }

  /** The chunks whose pipeline has started, and what of them has been issued. */
  ghost predicate Ledger(c: Config, s: State) {
    && Fits(s.summary.blocks, s.main)
    && |s.hist.frozen| == s.chunk + (if PipePhase(s.main) then 1 else 0)
    && (PipePhase(s.main) ==> s.hist.frozen[s.chunk] == s.summary.blocks)
    && s.hist.issued + Remaining(c, s.summary.blocks, s.main) == ChunksOutput(c, s.hist.frozen)
  }

  ghost predicate IssueInv(c: Config, s: State) {
    TodoInv(s) && Ledger(c, s)
  }

  lemma StartIssues(c: Config, s: State, pick: u64, t: State)
    requires Ledger(c, s) && s.main.Starting? && t == FeedEffect(c, s, pick)
    ensures Ledger(c, t)
  {
    assert t.hist.frozen[..|s.hist.frozen|] == s.hist.frozen;
  }

  lemma LoopTurn(c: Config, blocks: map<u64, Block>, todo: set<u64>, pick: u64)
    requires todo <= blocks.Keys && (todo == {} || pick in todo)
    ensures todo == {} ==> Remaining(c, blocks, Loop(todo)) == multiset{}
    ensures todo != {} ==>
              Remaining(c, blocks, Loop(todo)) == Remaining(c, blocks, SendBlock(todo - {pick}, pick, blocks[pick]))
  {
    if todo != {} {
      TakeHeight(c, blocks, todo, pick);
    }
  }

  lemma LoopIssues(c: Config, s: State, pick: u64, t: State)
    requires Ledger(c, s) && s.main.Loop? && MainEnabled(s, pick) && t == FeedEffect(c, s, pick)
    ensures Ledger(c, t)
  {
    LoopTurn(c, s.summary.blocks, s.main.todo, pick);
  }

  /** Main issues `now`, and has that much less to issue. */
  lemma Issued(c: Config, s: State, t: State, now: multiset<Item>)
    requires Ledger(c, s) && Fits(t.summary.blocks, t.main) && PipePhase(s.main) && PipePhase(t.main)
    requires t.chunk == s.chunk && t.summary == s.summary && t.hist.frozen == s.hist.frozen
    requires t.hist.issued == s.hist.issued + now
    requires Remaining(c, s.summary.blocks, s.main) == now + Remaining(c, t.summary.blocks, t.main)
    ensures Ledger(c, t)
  {
    Balance(s.hist.issued, now, Remaining(c, t.summary.blocks, t.main));
  }

  lemma SendIssues(c: Config, s: State, pick: u64, t: State)
    requires Ledger(c, s) && !s.out.closed && s.main.SendBlock? && s.main.block == s.summary.blocks[s.main.h]
    requires MainEnabled(s, pick) && t == FeedEffect(c, s, pick)
    ensures Ledger(c, t)
  {
    BlockIssued(c, s.summary.blocks, s.main.todo, s.main.h);
    Issued(c, s, t, multiset{BlockItem(s.main.block)});
  }

  lemma PageIssues(c: Config, s: State, pick: u64, t: State)
    requires Ledger(c, s) && !s.toGet.closed && s.main.PushPage? && s.main.p <= s.main.n
    requires MainEnabled(s, pick) && t == FeedEffect(c, s, pick)
    ensures Ledger(c, t)
  {
    PageIssued(c, s.summary.blocks, s.main);
    PageEffect(c, s, pick, t);
    Issued(c, s, t, JobItems(c, s.summary.blocks, Job(s.main.h, s.main.p)));
  }

  lemma PageEffect(c: Config, s: State, pick: u64, t: State)
    requires !s.toGet.closed && s.main.PushPage? && MainEnabled(s, pick) && t == FeedEffect(c, s, pick)
    ensures t.main == AfterPage(s.main)
    ensures t.chunk == s.chunk && t.summary == s.summary && t.hist.frozen == s.hist.frozen
    ensures t.hist.issued == s.hist.issued + JobItems(c, s.summary.blocks, Job(s.main.h, s.main.p))
  {
  }

  lemma Balance(issued: multiset<Item>, now: multiset<Item>, later: multiset<Item>)
    ensures issued + (now + later) == issued + now + later
  {
  }

  lemma GatherIssues(c: Config, s: State, t: State)
    requires Ledger(c, s) && Gathers(s.main) && t == GatherEffect(c, s)
    ensures Ledger(c, t)
  {
    GatherLeavesHistory(c, s);
  }

  lemma GatherLeavesHistory(c: Config, s: State)
    requires Gathers(s.main)
    ensures var t := GatherEffect(c, s); t.hist == s.hist && t.chunk == s.chunk && !PipePhase(t.main)
  {
    GatherFrame(c, s);
  }

  lemma WindUpIssues(c: Config, s: State, pick: u64, t: State)
    requires Ledger(c, s) && !Gathers(s.main) && !Feeds(s.main) && MainEnabled(s, pick)
    requires t == WindUpEffect(c, s)
    ensures Ledger(c, t)
  {
    WindUpHistory(c, s);
  }

  lemma WindUpHistory(c: Config, s: State)
    requires !Gathers(s.main) && !Feeds(s.main) && !s.main.Done?
    ensures var t := WindUpEffect(c, s);
            && t.hist == s.hist && t.summary == s.summary && !Feeds(t.main)
            && (if s.main.Return? then t.chunk == s.chunk + 1 && !PipePhase(t.main)
                else t.chunk == s.chunk && PipePhase(t.main) == PipePhase(s.main))
  {
    WindUpFrame(c, s);
  }

  lemma MainKeepsIssue(c: Config, s: State, pick: u64, t: State)
    requires PipeInv(s) && OutInv(s) && IssueInv(c, s) && MainEnabled(s, pick) && t == MainEffect(c, s, pick)
    ensures Ledger(c, t)
  {
    if Gathers(s.main) {
      GatherIssues(c, s, t);
    } else if !Feeds(s.main) {
      WindUpIssues(c, s, pick, t);
    } else {
      match s.main
      case Starting => StartIssues(c, s, pick, t);
      case Loop(_) => LoopIssues(c, s, pick, t);
      case SendBlock(_, _, _) => SendIssues(c, s, pick, t);
      case PushPage(_, _, _, _) => PageIssues(c, s, pick, t);
    }
  }

  lemma SameIssue(c: Config, s: State, t: State)
    requires Ledger(c, s) && Fits(t.summary.blocks, t.main)
    requires t.main == s.main && t.chunk == s.chunk && (PipePhase(s.main) ==> t.summary == s.summary)
    requires t.hist.frozen == s.hist.frozen && t.hist.issued == s.hist.issued
    ensures Ledger(c, t)
  {
  }

  lemma OthersKeepHistory(c: Config, s: State, a: Action)
    requires Enabled(s, a) && !a.MainStep?
    ensures var t := Step(c, s, a); t.hist.frozen == s.hist.frozen && t.hist.issued == s.hist.issued
  {
    match a
    case Cancel =>
    case FetcherStep(k, ok) => FetcherFrame(c, s, k, ok);
    case WorkerStep(k, ok) => WorkerFrame(c, s, k, ok);
    case ConverterStep => ConverterFrame(s);
    case SenderStep(stop) => SenderFrame(s, stop);
  }

  lemma IssueKept(c: Config, s: State, a: Action)
    requires ControlInv(s) && IssueInv(c, s) && Enabled(s, a)
    ensures IssueInv(c, Step(c, s, a))
  {
    TodoKept(c, s, a);
    var t := Step(c, s, a);
    if a.MainStep? {
      MainKeepsIssue(c, s, a.pick, t);
    } else {
      KeepsMain(c, s, a);
      OthersKeepHistory(c, s, a);
      if PipePhase(s.main) {
        KeepsSummary(c, s, a);
      }
      SameIssue(c, s, t);
    }
  }

  lemma InitialFlow(c: Config)
    ensures FlowInv(c, Initial(c)) && IssueInv(c, Initial(c))
  {
    NothingUnderWay(c, map[], []);
  }

  lemma {:induction false} RunFlow(c: Config, s: State, run: seq<Action>)
    requires ControlInv(s) && FlowInv(c, s) && IssueInv(c, s) && Legal(c, s, run)
    ensures FlowInv(c, After(c, s, run)) && IssueInv(c, After(c, s, run))
    decreases run
  {
    if run != [] {
      ControlKept(c, s, run[0]);
      FlowKept(c, s, run[0]);
      IssueKept(c, s, run[0]);
      RunFlow(c, Step(c, s, run[0]), run[1..]);
    }
  }

  lemma ReachableFlow(c: Config, s: State)
    requires Reachable(c, s)
    ensures ControlInv(s) && FlowInv(c, s) && IssueInv(c, s)
  {
    ReachableControl(c, s);
    InitialControl(c);
    InitialFlow(c);
    var run :| Legal(c, Initial(c), run) && After(c, Initial(c), run) == s;
    RunFlow(c, Initial(c), run);
  }

  // ----- what follows for every run -----

  /** Conservation in every interleaving: what has been enqueued, what is still under way in the workers and the
      converter, what was lost with failed pages and what main has yet to issue are, as multisets, exactly what
      the started pipelines stand for. */
  lemma Conservation(c: Config, s: State)
    requires Reachable(c, s)
    ensures Fits(s.summary.blocks, s.main)
    ensures multiset(s.hist.pushed) + UnderWay(c, s) + s.hist.missing + Remaining(c, s.summary.blocks, s.main)
         == ChunksOutput(c, s.hist.frozen)
  {
    ReachableFlow(c, s);
  }

  /** All or nothing per chunk: whenever main is between pipelines, everything ever enqueued is exactly the output of
      the chunks completed so far, less the failed pages; in particular a chunk whose block fetch fails
      contributes nothing. */
  lemma AllOrNothing(c: Config, s: State)
    requires Reachable(c, s) && !PipePhase(s.main)
    ensures |s.hist.frozen| == s.chunk
    ensures multiset(s.hist.pushed) + s.hist.missing == ChunksOutput(c, s.hist.frozen)
  {
    ReachableFlow(c, s);
    NothingUnderWay(c, s.summary.blocks, s.workers);
  }
}
