/** One `GetTransactions` task as an interleaving transition system: the main goroutine with the pipeline it runs
    for every chunk (`getRangeSingular`), the block fetchers, the five page workers, the converter and the
    sender.  A channel is a bounded sequence with a closed flag; sending on a closed channel or closing one twice
    panics (sections "Send statements" and "Close" of the Go specification); receiving from a closed, drained
    channel yields the zero value (section "Receive operator"). */
module Machine {
  import opened Blocks
  import opened Options
  import Pages
  import opened Ranges
  import Sums

  const OUT_CAP: nat := 2 * Pages.PAGE + 1
  const TO_GET_CAP := 10
  const TX_IN_CAP := 20
  const BATCHES_CAP := 2
  const FIN_CAP := 2
  const WORKERS := 5

  datatype Chan<T> = Chan(buf: seq<T>, closed: bool)

  /** A transaction as the node returns it; `height` is its parsed height. */
  datatype Tx = Tx(hash: string, height: u64, raw: string)

  /** What travels on `out`. */
  datatype Item =
    | BlockItem(block: Block)
    | TxItem(tx: Tx, blockHash: string, time: int, chainID: string)

  datatype Job = Job(height: u64, page: nat)

  /** What the stream receives: numbered data, the numbered END, and the error answer of main. */
  datatype Message = Data(order: u64, item: Item) | End(order: u64) | Failed

  /** The task and the node it talks to: the blocks answered for a request, the transactions of a height. */
  datatype Config = Config(range: Range, bigPage: u64, answer: Range -> seq<Block>, txs: u64 -> seq<Tx>)

  datatype Main =
    | Page                                  // top of the paging loop
    | FanOut                                // about to start the next fetcher
    | Collect(responses: nat, errors: nat)  // draining batchesCtrl
    | Starting                              // no fetch failed: about to start converter and workers
    | Loop(todo: set<u64>)                  // top of the loop over the block map
    | SendBlock(todo: set<u64>, h: u64, block: Block)
    | PushPage(todo: set<u64>, h: u64, p: nat, n: nat)  // about to push page p of n
    | CloseToGet
    | WaitWorkers
    | CloseTxIn
    | WaitConverter
    | Return                                // getRangeSingular returns nil
    | CloseOut
    | WaitFin
    | ReturnError                           // getRangeSingular returns an error
    | SendError
    | Done(ok: bool)

  datatype Fetcher =
    | Asking(request: Range)
    | Answered(blocks: seq<Block>)   // decoded, waiting for the lock
    | Merging(rest: seq<Block>)      // holding the lock
    | Replying(ok: bool)
    | Replied(ok: bool)

  datatype Worker = Idle | Fetching(job: Job) | Pushing(rest: seq<Tx>) | Exited

  datatype Converter = Waiting | Holding(item: Item) | Stopped

  datatype Sender =
    | Selecting
    | Sending(item: Item)
    | Ending(contextDone: bool)
    | Finishing(contextDone: bool)
    | Closing(contextDone: bool)
    | Finished(contextDone: bool)

  /** What happened so far: everything put on `out`, everything sent, the items the started pages and blocks stand
      for, the items of pages whose fetch failed, and the block map each started pipeline runs on. */
  datatype History = History(
    pushed: seq<Item>, sent: seq<Item>, issued: multiset<Item>, missing: multiset<Item>, frozen: seq<map<u64, Block>>)

  datatype State = State(
    main: Main, chunk: nat, piece: Range,
    fetchers: seq<Fetcher>, batches: Chan<bool>, lock: Option<nat>, summary: Summary,
    workers: seq<Worker>, converter: Converter, toGet: Chan<Job>, txIn: Chan<Tx>, out: Chan<Item>,
    sender: Sender, order: u64, fin: Chan<bool>, stream: seq<Message>,
    cancelled: bool, panicked: bool, hist: History)

  ghost function Initial(c: Config): State {
    State(
      Page, 0, c.range,
      [], Chan([], true), None, EMPTY,
      [], Stopped, Chan([], true), Chan([], true), Chan([], false),
      Selecting, 0, Chan([], false), [],
      false, false, History([], [], multiset{}, multiset{}, []))
  }

  /** Main cancels its context when it returns; the caller's context may be cancelled at any time. */
  predicate ContextDone(s: State) {
    s.cancelled || s.main.Done?
  }

  // ----- the node and the conversion -----

  /** A page of a height, as the node answers it. */
  ghost function PageTxs(c: Config, j: Job): seq<Tx> {
    if j.page == 0 then [] else Pages.PageOf(c.txs(j.height), j.page)
  }

  /** `rawToTransaction`: a missing block leaves hash, time and chain empty. */
  function Convert(blocks: map<u64, Block>, tx: Tx): Item {
    if tx.height in blocks then
      var b := blocks[tx.height];
      TxItem(tx, b.hash, b.time, b.chainID)
    else TxItem(tx, "", 0, "")
  }

  ghost function Converted(blocks: map<u64, Block>): Tx -> multiset<Item> {
    (tx: Tx) => multiset{Convert(blocks, tx)}
  }

  /** The items a job stands for: its page, converted with the given block map. */
  ghost function JobItems(c: Config, blocks: map<u64, Block>, j: Job): multiset<Item> {
    Sums.Bag(Converted(blocks), PageTxs(c, j))
  }

  // ----- actions -----

  /** One atomic step.  `pick` is the key the map iteration yields, `ok` whether a request succeeds, `stop` which
      ready case the sender's select takes. */
  datatype Action =
    | Cancel
    | MainStep(pick: u64)
    | FetcherStep(k: nat, ok: bool)
    | WorkerStep(k: nat, ok: bool)
    | ConverterStep
    | SenderStep(stop: bool)

  predicate CanSend<T>(ch: Chan<T>, cap: nat) {
    ch.closed || |ch.buf| < cap
  }

  predicate CanReceive<T>(ch: Chan<T>) {
    ch.closed || ch.buf != []
  }

  predicate AllExited(ws: seq<Worker>) {
    forall k :: 0 <= k < |ws| ==> ws[k].Exited?
  }

  predicate MainEnabled(s: State, pick: u64) {
    match s.main
    case Collect(_, _) => CanReceive(s.batches)
    case Loop(todo) => todo == {} || (pick in todo && pick in s.summary.blocks)
    case SendBlock(_, _, _) => CanSend(s.out, OUT_CAP)
    case PushPage(_, _, _, _) => CanSend(s.toGet, TO_GET_CAP)
    case WaitWorkers => AllExited(s.workers)
    case WaitConverter => s.converter.Stopped?
    case WaitFin => ContextDone(s) || CanReceive(s.fin)
    case Done(_) => false
    case _ => true
  }

  predicate FetcherEnabled(s: State, k: nat) {
    k < |s.fetchers| &&
    match s.fetchers[k]
    case Asking(_) => true
    case Answered(_) => s.lock.None?
    case Merging(_) => true
    case Replying(_) => CanSend(s.batches, BATCHES_CAP)
    case Replied(_) => false
  }

  predicate WorkerEnabled(s: State, k: nat) {
    k < |s.workers| &&
    match s.workers[k]
    case Idle => CanReceive(s.toGet)
    case Fetching(_) => true
    case Pushing(rest) => rest == [] || CanSend(s.txIn, TX_IN_CAP)
    case Exited => false
  }

  predicate ConverterEnabled(s: State) {
    match s.converter
    case Waiting => CanReceive(s.txIn)
    case Holding(_) => CanSend(s.out, OUT_CAP)
    case Stopped => false
  }

  predicate SenderEnabled(s: State, stop: bool) {
    match s.sender
    case Selecting => if stop then ContextDone(s) else CanReceive(s.out)
    case Finishing(contextDone) => contextDone || CanSend(s.fin, FIN_CAP)
    case Finished(_) => false
    case _ => true
  }

  predicate Enabled(s: State, a: Action) {
    !s.panicked &&
    match a
    case Cancel => true
    case MainStep(pick) => MainEnabled(s, pick)
    case FetcherStep(k, _) => FetcherEnabled(s, k)
    case WorkerStep(k, _) => WorkerEnabled(s, k)
    case ConverterStep => ConverterEnabled(s)
    case SenderStep(stop) => SenderEnabled(s, stop)
  }

  // ----- effects -----

  /** Main decides after the last reply. */
  function AfterReplies(s: State, errors: nat): State {
    s.(main := if errors > 0 then ReturnError else Starting)
  }

  function Received(s: State, responses: nat, errors: nat): State {
    if s.batches.buf == [] then AfterReplies(s, errors)
    else
      var e := if s.batches.buf[0] then errors else errors + 1;
      var t := s.(batches := Chan(s.batches.buf[1..], s.batches.closed));
      if responses + 1 == |s.fetchers| then AfterReplies(t, e) else t.(main := Collect(responses + 1, e))
  }

  function Push(s: State, item: Item): State {
    if s.out.closed then s.(panicked := true)
    else s.(out := Chan(s.out.buf + [item], false), hist := s.hist.(pushed := s.hist.pushed + [item]))
  }

  function AfterBlock(todo: set<u64>, h: u64, n: nat): Main {
    if n == 0 then Loop(todo) else PushPage(todo, h, 1, n)
  }

  function PushedBlock(s: State, todo: set<u64>, h: u64, b: Block): State {
    var t := Push(s, BlockItem(b));
    t.(main := AfterBlock(todo, h, Pages.PageCount(b.numTxs)),
       hist := t.hist.(issued := t.hist.issued + multiset{BlockItem(b)}))
  }

  ghost function PushedPage(c: Config, s: State, todo: set<u64>, h: u64, p: nat, n: nat): State {
    var job := Job(h, p);
    if s.toGet.closed then s.(panicked := true)
    else
      s.(toGet := Chan(s.toGet.buf + [job], false),
         main := if p >= n then Loop(todo) else PushPage(todo, h, p + 1, n),
         hist := s.hist.(issued := s.hist.issued + JobItems(c, s.summary.blocks, job)))
  }

  function CloseChan<T>(ch: Chan<T>): Chan<T> {
    Chan(ch.buf, true)
  }

  /** Cutting the chunk into requests, starting the fetchers and collecting their replies. */
  predicate Gathers(m: Main) {
    m.Page? || m.FanOut? || m.Collect? || m.ReturnError? || m.SendError?
  }

  function GatherEffect(c: Config, s: State): State
    requires Gathers(s.main)
  {
    match s.main
    case Page =>
      s.(main := FanOut, piece := PieceAt(c.range, c.bigPage, s.chunk),
         fetchers := [], batches := Chan([], false), lock := None, summary := EMPTY)
    case FanOut =>
      var request := PieceAt(s.piece, REQUEST_SIZE, |s.fetchers|);
      s.(fetchers := s.fetchers + [Asking(request)],
         main := if request.hi == s.piece.hi then Collect(0, 0) else FanOut)
    case Collect(responses, errors) => Received(s, responses, errors)
    case ReturnError => s.(main := SendError, batches := CloseChan(s.batches), panicked := s.batches.closed)
    case SendError => s.(main := Done(false), stream := s.stream + [Failed])
  }

  /** Starting the converter and the workers and feeding them. */
  predicate Feeds(m: Main) {
    m.Starting? || m.Loop? || m.SendBlock? || m.PushPage?
  }

  ghost function FeedEffect(c: Config, s: State, pick: u64): State
    requires Feeds(s.main) && MainEnabled(s, pick)
  {
    match s.main
    case Starting =>
      s.(main := Loop(s.summary.blocks.Keys),
         workers := [Idle, Idle, Idle, Idle, Idle], converter := Waiting,
         toGet := Chan([], false), txIn := Chan([], false),
         hist := s.hist.(frozen := s.hist.frozen + [s.summary.blocks]))
    case Loop(todo) =>
      s.(main := if todo == {} then CloseToGet else SendBlock(todo - {pick}, pick, s.summary.blocks[pick]))
    case SendBlock(todo, h, block) => PushedBlock(s, todo, h, block)
    case PushPage(todo, h, p, n) => PushedPage(c, s, todo, h, p, n)
  }

  /** The shutdown order, and the end of the task. */
  function WindUpEffect(c: Config, s: State): State
    requires !Gathers(s.main) && !Feeds(s.main) && !s.main.Done?
  {
    match s.main
    case CloseToGet => s.(main := WaitWorkers, toGet := CloseChan(s.toGet), panicked := s.toGet.closed)
    case WaitWorkers => s.(main := CloseTxIn)
    case CloseTxIn => s.(main := WaitConverter, txIn := CloseChan(s.txIn), panicked := s.txIn.closed)
    case WaitConverter => s.(main := Return)
    case Return =>
      s.(main := if s.piece.hi == c.range.hi then CloseOut else Page, chunk := s.chunk + 1,
         batches := CloseChan(s.batches), panicked := s.batches.closed)
    case CloseOut => s.(main := WaitFin, out := CloseChan(s.out), panicked := s.out.closed)
    case WaitFin => s.(main := Done(true))
  }

  ghost function MainEffect(c: Config, s: State, pick: u64): State
    requires MainEnabled(s, pick)
  {
    if Gathers(s.main) then GatherEffect(c, s)
    else if Feeds(s.main) then FeedEffect(c, s, pick)
    else WindUpEffect(c, s)
  }

  function FetcherEffect(c: Config, s: State, k: nat, ok: bool): State
    requires FetcherEnabled(s, k)
  {
    match s.fetchers[k]
    case Asking(request) =>
      s.(fetchers := s.fetchers[k := if ok then Answered(c.answer(request)) else Replying(false)])
    case Answered(blocks) => s.(fetchers := s.fetchers[k := Merging(blocks)], lock := Some(k))
    case Merging(rest) =>
      if rest == [] then s.(fetchers := s.fetchers[k := Replying(true)], lock := None)
      else s.(fetchers := s.fetchers[k := Merging(rest[1..])], summary := Merge(s.summary, rest[0]))
    case Replying(b) =>
      if s.batches.closed then s.(panicked := true)
      else s.(fetchers := s.fetchers[k := Replied(b)], batches := Chan(s.batches.buf + [b], false))
  }

  ghost function WorkerEffect(c: Config, s: State, k: nat, ok: bool): State
    requires WorkerEnabled(s, k)
  {
    match s.workers[k]
    case Idle =>
      if s.toGet.buf == [] then s.(workers := s.workers[k := Exited])
      else s.(workers := s.workers[k := Fetching(s.toGet.buf[0])], toGet := Chan(s.toGet.buf[1..], s.toGet.closed))
    case Fetching(job) =>
      if ok then s.(workers := s.workers[k := Pushing(PageTxs(c, job))])
      else s.(workers := s.workers[k := Pushing([])],
              hist := s.hist.(missing := s.hist.missing + JobItems(c, s.summary.blocks, job)))
    case Pushing(rest) =>
      if rest == [] then s.(workers := s.workers[k := Idle])
      else if s.txIn.closed then s.(panicked := true)
      else s.(workers := s.workers[k := Pushing(rest[1..])], txIn := Chan(s.txIn.buf + [rest[0]], false))
  }

  function ConverterEffect(s: State): State
    requires ConverterEnabled(s)
  {
    match s.converter
    case Waiting =>
      if s.txIn.buf == [] then s.(converter := Stopped)
      else s.(converter := Holding(Convert(s.summary.blocks, s.txIn.buf[0])),
              txIn := Chan(s.txIn.buf[1..], s.txIn.closed))
    case Holding(item) => Push(s, item).(converter := Waiting)
  }

  function SenderEffect(s: State, stop: bool): State
    requires SenderEnabled(s, stop)
  {
    match s.sender
    case Selecting =>
      if stop then s.(sender := Ending(true))
      else if s.out.buf == [] then s.(sender := Ending(false))
      else s.(sender := Sending(s.out.buf[0]), out := Chan(s.out.buf[1..], s.out.closed))
    case Sending(item) =>
      s.(sender := Selecting, stream := s.stream + [Data(s.order, item)], order := Wrap(s.order + 1),
         hist := s.hist.(sent := s.hist.sent + [item]))
    case Ending(d) => s.(sender := Finishing(d), stream := s.stream + [End(s.order)])
    case Finishing(d) =>
      if d then s.(sender := Closing(d))
      else if s.fin.closed then s.(panicked := true)
      else s.(sender := Closing(d), fin := Chan(s.fin.buf + [true], false))
    case Closing(d) => s.(sender := Finished(d), fin := CloseChan(s.fin), panicked := s.fin.closed)
  }

  ghost function Step(c: Config, s: State, a: Action): State
    requires Enabled(s, a)
  {
    match a
    case Cancel => s.(cancelled := true)
    case MainStep(pick) => MainEffect(c, s, pick)
    case FetcherStep(k, ok) => FetcherEffect(c, s, k, ok)
    case WorkerStep(k, ok) => WorkerEffect(c, s, k, ok)
    case ConverterStep => ConverterEffect(s)
    case SenderStep(stop) => SenderEffect(s, stop)
  }

  // ----- what each goroutine leaves alone -----

  lemma GatherFrame(c: Config, s: State)
    requires Gathers(s.main)
    ensures var t := GatherEffect(c, s);
            t == s.(main := t.main, piece := t.piece, fetchers := t.fetchers, batches := t.batches, lock := t.lock,
                    summary := t.summary, stream := t.stream, panicked := t.panicked)
  {
  }

  lemma FeedFrame(c: Config, s: State, pick: u64)
    requires Feeds(s.main) && MainEnabled(s, pick)
    ensures var t := FeedEffect(c, s, pick);
            t == s.(main := t.main, workers := t.workers, converter := t.converter, toGet := t.toGet, txIn := t.txIn,
                    out := t.out, panicked := t.panicked,
                    hist := s.hist.(pushed := t.hist.pushed, issued := t.hist.issued, frozen := t.hist.frozen))
  {
  }

  lemma WindUpFrame(c: Config, s: State)
    requires !Gathers(s.main) && !Feeds(s.main) && !s.main.Done?
    ensures var t := WindUpEffect(c, s);
            t == s.(main := t.main, chunk := t.chunk, batches := t.batches, toGet := t.toGet, txIn := t.txIn,
                    out := t.out, panicked := t.panicked)
  {
  }

  lemma FetcherFrame(c: Config, s: State, k: nat, ok: bool)
    requires FetcherEnabled(s, k)
    ensures var t := FetcherEffect(c, s, k, ok);
            && t == s.(fetchers := t.fetchers, batches := t.batches, lock := t.lock, summary := t.summary,
                       panicked := t.panicked)
            && |t.fetchers| == |s.fetchers|
            && forall i :: 0 <= i < |s.fetchers| && i != k ==> t.fetchers[i] == s.fetchers[i]
  {
  }

  lemma WorkerFrame(c: Config, s: State, k: nat, ok: bool)
    requires WorkerEnabled(s, k)
    ensures var t := WorkerEffect(c, s, k, ok);
            t == s.(workers := t.workers, toGet := t.toGet, txIn := t.txIn, panicked := t.panicked,
                    hist := s.hist.(missing := t.hist.missing))
  {
  }

  lemma ConverterFrame(s: State)
    requires ConverterEnabled(s)
    ensures var t := ConverterEffect(s);
            t == s.(converter := t.converter, txIn := t.txIn, out := t.out, panicked := t.panicked,
                    hist := s.hist.(pushed := t.hist.pushed))
  {
  }

  lemma SenderFrame(s: State, stop: bool)
    requires SenderEnabled(s, stop)
    ensures var t := SenderEffect(s, stop);
            t == s.(sender := t.sender, out := t.out, stream := t.stream, order := t.order, fin := t.fin,
                    panicked := t.panicked, hist := s.hist.(sent := t.hist.sent))
  {
  }

  // ----- runs -----

  /** The actions can be taken one after the other, starting in s. */
  ghost predicate Legal(c: Config, s: State, run: seq<Action>)
    decreases run
  {
    run == [] || (Enabled(s, run[0]) && Legal(c, Step(c, s, run[0]), run[1..]))
  }

  ghost function After(c: Config, s: State, run: seq<Action>): State
    requires Legal(c, s, run)
    decreases run
  {
    if run == [] then s else After(c, Step(c, s, run[0]), run[1..])
  }

  ghost predicate Reachable(c: Config, s: State) {
    exists run :: Legal(c, Initial(c), run) && After(c, Initial(c), run) == s
  }

  /** Main and the sender have ended. */
  predicate Terminal(s: State) {
    s.main.Done? && s.sender.Finished?
  }
}
