/** What the stream receives: numbering, order and the end marker, on every run. */
module Stream {
  import Control
  import opened Machine
  import opened Ranges

  /** The items numbered from 0 in the order sent; the counter is a uint64. */
  function Numbered(items: seq<Item>): seq<Message> {
    seq(|items|, i requires 0 <= i < |items| => Data(Wrap(i), items[i]))
  }

  /** The stream of a task: what has been sent on it. */
  class StreamAccess {
    var sent: seq<Message>

    constructor ()
      ensures sent == []
    {
      sent := [];
    }

    method Send(m: Message)
      modifies this
      ensures sent == old(sent) + [m]
    {
      sent := sent + [m];
    }
  }

  /** The loop of `sendResp`: `received` is what its select took from `out` before it left the loop, because the
      context was done or because `out` was closed and drained.  Only in the latter case does it signal on `fin`. */
  method SendResp(received: seq<Item>, contextDone: bool, stream: StreamAccess) returns (fin: Chan<bool>)
    modifies stream
    ensures stream.sent == old(stream.sent) + Numbered(received) + [End(Wrap(|received|))]
    ensures fin == Chan(if contextDone then [] else [true], true)
  {
    fin := Chan([], false);
    var order: u64 := 0;
    for i := 0 to |received|
      invariant order == Wrap(i)
      invariant stream.sent == old(stream.sent) + Numbered(received[..i])
    {
      stream.Send(Data(order, received[i]));
      NumberedAppend(received[..i], received[i]);
      assert received[..i + 1] == received[..i] + [received[i]];
      AddWrap(1, i);
      order := Wrap(order + 1);
    }
    assert received[..|received|] == received;
    stream.Send(End(order));
    if !contextDone {
      fin := Chan(fin.buf + [true], false);
    }
    fin := Chan(fin.buf, true);
  }

  /** The messages of the sender: everything but main's error answer. */
  function FromSender(stream: seq<Message>): seq<Message> {
    if stream == [] then []
    else
      var front := FromSender(stream[..|stream| - 1]);
      if stream[|stream| - 1].Failed? then front else front + [stream[|stream| - 1]]
  }

  function Failures(stream: seq<Message>): nat {
    if stream == [] then 0
    else Failures(stream[..|stream| - 1]) + if stream[|stream| - 1].Failed? then 1 else 0
  }

  function InHand(x: Sender): seq<Item> {
    if x.Sending? then [x.item] else []
  }

  predicate EndSent(x: Sender) {
    x.Finishing? || x.Closing? || x.Finished?
  }

  /** Everything enqueued is, in this order, sent, in the sender's hand, or still in `out`. */
  ghost predicate FifoInv(s: State) {
    s.hist.pushed == s.hist.sent + InHand(s.sender) + s.out.buf
  }

  /** The sender's part of a stream: the items sent, numbered, and END once it is sent. */
  predicate Reads(stream: seq<Message>, sent: seq<Item>, order: u64, ended: bool) {
    && order == Wrap(|sent|)
    && FromSender(stream) == Numbered(sent) + if ended then [End(order)] else []
  }

  ghost predicate StreamInv(s: State) {
    && Reads(s.stream, s.hist.sent, s.order, EndSent(s.sender))
    && Failures(s.stream) == if s.main == Done(false) then 1 else 0
  }

  lemma MessageAppended(stream: seq<Message>, m: Message)
    ensures FromSender(stream + [m]) == if m.Failed? then FromSender(stream) else FromSender(stream) + [m]
    ensures Failures(stream + [m]) == Failures(stream) + if m.Failed? then 1 else 0
  {
    assert (stream + [m])[..|stream|] == stream;
  }

  lemma NumberedAppend(items: seq<Item>, item: Item)
    ensures Numbered(items + [item]) == Numbered(items) + [Data(Wrap(|items|), item)]
  {
  }

  lemma DataAppended(stream: seq<Message>, sent: seq<Item>, order: u64, item: Item)
    requires Reads(stream, sent, order, false)
    ensures Reads(stream + [Data(order, item)], sent + [item], Wrap(order + 1), false)
  {
    MessageAppended(stream, Data(order, item));
    NumberedAppend(sent, item);
    AddWrap(1, |sent|);
    assert FromSender(stream) == Numbered(sent);
  }

  lemma SentOne(s: State, t: State)
    requires s.sender.Sending? && t == SenderEffect(s, false)
    ensures t.stream == s.stream + [Data(s.order, s.sender.item)] && t.hist.sent == s.hist.sent + [s.sender.item]
    ensures t.order == Wrap(s.order + 1) && t.sender == Selecting && t.main == s.main
  {
  }

  lemma SendingKeepsStream(s: State, t: State)
    requires StreamInv(s) && s.sender.Sending? && t == SenderEffect(s, false)
    ensures StreamInv(t)
  {
    SentOne(s, t);
    DataAppended(s.stream, s.hist.sent, s.order, s.sender.item);
    MessageAppended(s.stream, Data(s.order, s.sender.item));
  }

  lemma EndingKeepsStream(s: State, t: State)
    requires StreamInv(s) && s.sender.Ending? && t == SenderEffect(s, false)
    ensures StreamInv(t)
  {
    MessageAppended(s.stream, End(s.order));
  }

  lemma SenderKeepsStream(s: State, stop: bool)
    requires StreamInv(s) && SenderEnabled(s, stop)
    ensures StreamInv(SenderEffect(s, stop))
  {
    match s.sender
    case Sending(item) => SendingKeepsStream(s, SenderEffect(s, stop));
    case Ending(_) => EndingKeepsStream(s, SenderEffect(s, stop));
    case _ =>
  }

  lemma SenderKeepsFifo(s: State, stop: bool)
    requires FifoInv(s) && SenderEnabled(s, stop)
    ensures FifoInv(SenderEffect(s, stop))
  {
    if s.sender.Selecting? && !stop && s.out.buf != [] {
      assert s.out.buf == [s.out.buf[0]] + s.out.buf[1..];
    }
  }

  /** Steps that leave the stream and the sender alone. */
  predicate SameStream(s: State, t: State) {
    && t.stream == s.stream && t.sender == s.sender && t.order == s.order && t.hist.sent == s.hist.sent
    && (t.main == Done(false) <==> s.main == Done(false))
  }

  /** Enqueueing is the only thing others do to `out`. */
  ghost predicate SameOrPushed(s: State, t: State) {
    && t.sender == s.sender && t.hist.sent == s.hist.sent
    && ((t.out.buf == s.out.buf && t.hist.pushed == s.hist.pushed)
        || (exists item :: t.out.buf == s.out.buf + [item] && t.hist.pushed == s.hist.pushed + [item]))
  }

  lemma PushedFifo(s: State, t: State)
    requires FifoInv(s) && SameOrPushed(s, t)
    ensures FifoInv(t)
  {
  }

  lemma GatherOnStream(c: Config, s: State, t: State)
    requires Gathers(s.main) && t == GatherEffect(c, s)
    ensures t.stream == (if s.main.SendError? then s.stream + [Failed] else s.stream)
    ensures t.main == Done(false) <==> s.main.SendError?
    ensures t.order == s.order && t.sender == s.sender && t.hist == s.hist && t.out == s.out
  {
  }

  lemma GatherStream(c: Config, s: State)
    requires StreamInv(s) && FifoInv(s) && Gathers(s.main)
    ensures StreamInv(GatherEffect(c, s)) && FifoInv(GatherEffect(c, s))
  {
    GatherOnStream(c, s, GatherEffect(c, s));
    if s.main.SendError? {
      MessageAppended(s.stream, Failed);
    }
  }

  lemma FeedStream(c: Config, s: State, pick: u64)
    requires Feeds(s.main) && MainEnabled(s, pick)
    ensures SameStream(s, FeedEffect(c, s, pick)) && SameOrPushed(s, FeedEffect(c, s, pick))
  {
    var t := FeedEffect(c, s, pick);
    if s.main.SendBlock? && !s.out.closed {
      assert t.out.buf == s.out.buf + [BlockItem(s.main.block)];
    }
  }

  lemma WindUpStream(c: Config, s: State)
    requires !Gathers(s.main) && !Feeds(s.main) && !s.main.Done?
    ensures SameStream(s, WindUpEffect(c, s)) && SameOrPushed(s, WindUpEffect(c, s))
  {
    WindUpFrame(c, s);
  }

  lemma FetcherStream(c: Config, s: State, k: nat, ok: bool)
    requires FetcherEnabled(s, k)
    ensures SameStream(s, FetcherEffect(c, s, k, ok)) && SameOrPushed(s, FetcherEffect(c, s, k, ok))
  {
    FetcherFrame(c, s, k, ok);
  }

  lemma WorkerStream(c: Config, s: State, k: nat, ok: bool)
    requires WorkerEnabled(s, k)
    ensures SameStream(s, WorkerEffect(c, s, k, ok)) && SameOrPushed(s, WorkerEffect(c, s, k, ok))
  {
    WorkerFrame(c, s, k, ok);
  }

  lemma ConverterStream(s: State)
    requires ConverterEnabled(s)
    ensures SameStream(s, ConverterEffect(s)) && SameOrPushed(s, ConverterEffect(s))
  {
    ConverterFrame(s);
    var t := ConverterEffect(s);
    if s.converter.Holding? && !s.out.closed {
      assert t.out.buf == s.out.buf + [s.converter.item];
    }
  }

  lemma MainKeepsStream(c: Config, s: State, pick: u64)
    requires StreamInv(s) && FifoInv(s) && MainEnabled(s, pick)
    ensures StreamInv(MainEffect(c, s, pick)) && FifoInv(MainEffect(c, s, pick))
  {
    if Gathers(s.main) {
      GatherStream(c, s);
    } else if Feeds(s.main) {
      FeedStream(c, s, pick);
      PushedFifo(s, FeedEffect(c, s, pick));
    } else {
      WindUpStream(c, s);
    }
  }

  lemma StreamKept(c: Config, s: State, a: Action)
    requires StreamInv(s) && FifoInv(s) && Enabled(s, a)
    ensures StreamInv(Step(c, s, a)) && FifoInv(Step(c, s, a))
  {
    match a
    case Cancel =>
    case MainStep(pick) => MainKeepsStream(c, s, pick);
    case FetcherStep(k, ok) => FetcherStream(c, s, k, ok);
    case WorkerStep(k, ok) => WorkerStream(c, s, k, ok);
    case ConverterStep =>
      ConverterStream(s);
      PushedFifo(s, ConverterEffect(s));
    case SenderStep(stop) =>
      SenderKeepsStream(s, stop);
      SenderKeepsFifo(s, stop);
  }

  lemma {:induction false} RunStream(c: Config, s: State, run: seq<Action>)
    requires StreamInv(s) && FifoInv(s) && Legal(c, s, run)
    ensures StreamInv(After(c, s, run)) && FifoInv(After(c, s, run))
    decreases run
  {
    if run != [] {
      StreamKept(c, s, run[0]);
      RunStream(c, Step(c, s, run[0]), run[1..]);
    }
  }

  lemma ReachableStream(c: Config, s: State)
    requires Reachable(c, s)
    ensures StreamInv(s) && FifoInv(s)
  {
    var run :| Legal(c, Initial(c), run) && After(c, Initial(c), run) == s;
    RunStream(c, Initial(c), run);
  }

  // ----- what follows for every run -----

  /** Sender numbering: in every reachable state, cancelled or not, the sender's messages are a prefix of what was
      ever enqueued, numbered 0, 1, 2, ... in FIFO order, and END, if sent, carries the next number. */
  lemma SenderNumbering(c: Config, s: State)
    requires Reachable(c, s)
    ensures s.hist.sent <= s.hist.pushed
    ensures var n := |s.hist.sent|;
            && n <= |FromSender(s.stream)| <= n + 1
            && (forall i :: 0 <= i < n ==> FromSender(s.stream)[i] == Data(Wrap(i), s.hist.pushed[i]))
            && (|FromSender(s.stream)| == n + 1 ==> FromSender(s.stream)[n] == End(Wrap(n)))
            && (s.sender.Finished? ==> |FromSender(s.stream)| == n + 1)
  {
    ReachableStream(c, s);
  }

  lemma {:induction false} NoFailureNothingDropped(stream: seq<Message>)
    requires Failures(stream) == 0
    ensures FromSender(stream) == stream
  {
    if stream != [] {
      NoFailureNothingDropped(stream[..|stream| - 1]);
    }
  }

  /** A task that ends well without having been cancelled has sent everything that was enqueued, in order, then
      END, and nothing else: exactly one final message. */
  lemma GoodEnd(c: Config, s: State)
    requires Reachable(c, s) && s.main == Done(true) && !s.cancelled
    ensures s.stream == Numbered(s.hist.pushed) + [End(Wrap(|s.hist.pushed|))]
  {
    Control.ReachableControl(c, s);
    ReachableStream(c, s);
    NoFailureNothingDropped(s.stream);
    assert s.out.buf == [];
    assert s.hist.sent + [] + [] == s.hist.sent;
  }

  /** A task whose block fetch failed gets main's error answer once; the sender, cancelled by main's return, still
      ends its own numbering with END, so both final messages are in the stream. */
  lemma FailedEnd(c: Config, s: State)
    requires Reachable(c, s) && s.main == Done(false) && s.sender.Finished?
    ensures Failures(s.stream) == 1
    ensures FromSender(s.stream) == Numbered(s.hist.sent) + [End(Wrap(|s.hist.sent|))]
  {
    ReachableStream(c, s);
  }

  // ----- final messages -----

  predicate IsFinal(m: Message) {
    m.End? || m.Failed?
  }

  function Finals(stream: seq<Message>): nat {
    if stream == [] then 0 else Finals(stream[..|stream| - 1]) + if IsFinal(stream[|stream| - 1]) then 1 else 0
  }

  lemma FinalsAppended(stream: seq<Message>, m: Message)
    ensures Finals(stream + [m]) == Finals(stream) + if IsFinal(m) then 1 else 0
  {
    assert (stream + [m])[..|stream|] == stream;
  }

  /** Final messages are main's error answers and the final messages of the sender. */
  lemma {:induction false} FinalsSplit(stream: seq<Message>)
    ensures Finals(stream) == Failures(stream) + Finals(FromSender(stream))
  {
    if stream != [] {
      var front, m := stream[..|stream| - 1], stream[|stream| - 1];
      FinalsSplit(front);
      FinalsAppended(FromSender(front), m);
    }
  }

  lemma {:induction false} DataNotFinal(items: seq<Item>)
    ensures Finals(Numbered(items)) == 0
  {
    if items != [] {
      var front, item := items[..|items| - 1], items[|items| - 1];
      DataNotFinal(front);
      assert items == front + [item];
      NumberedAppend(front, item);
      FinalsAppended(Numbered(front), Data(Wrap(|front|), item));
    }
  }

  /** How many final messages a task sends: when it has ended, cancelled or not, the stream holds exactly one if main
      ended well, and two if it did not. */
  lemma FinalMessages(c: Config, s: State)
    requires Reachable(c, s) && Terminal(s)
    ensures Finals(s.stream) == if s.main == Done(true) then 1 else 2
    ensures Finals(s.stream) == 1 <==> s.main == Done(true)
  {
    ReachableStream(c, s);
    FinalsSplit(s.stream);
    DataNotFinal(s.hist.sent);
    FinalsAppended(Numbered(s.hist.sent), End(s.order));
  }
}
