/** Deadlock freedom and termination of a task, with the buffer capacities of the code. */
module Progress {
  import opened Control
  import opened Machine
  import Sums

  // ----- some step is enabled -----

  /** Main or the converter is about to send on `out`. */
  predicate OutWanted(s: State) {
    s.main.SendBlock? || s.converter.Holding?
  }

  /** Nobody can send on `out` before the sender takes something from it. */
  predicate OutStuck(s: State) {
    |s.out.buf| == OUT_CAP && OutWanted(s)
  }

  /** The sender has left because the context was cancelled, and `out` is full: whoever must send on `out` now
      waits for ever, because producers do not watch the context. */
  predicate Abandoned(s: State) {
    s.sender == Finished(true) && OutStuck(s)
  }

  /** A step of one of the task's own goroutines. */
  predicate OwnStep(s: State, a: Action) {
    !a.Cancel? && Enabled(s, a)
  }

  lemma OutMoves(s: State) returns (a: Action)
    requires ControlInv(s) && !Abandoned(s) && OutStuck(s)
    ensures OwnStep(s, a)
  {
    a := SenderStep(false);
  }

  lemma ConverterMoves(s: State) returns (a: Action)
    requires ControlInv(s) && !Abandoned(s)
    requires !s.converter.Stopped? && CanReceive(s.txIn)
    ensures OwnStep(s, a) && (a.SenderStep? ==> OutStuck(s))
  {
    if s.converter.Holding? && !CanSend(s.out, OUT_CAP) {
      a := OutMoves(s);
    } else {
      a := ConverterStep;
    }
  }

  lemma WorkerMoves(s: State, k: nat) returns (a: Action)
    requires ControlInv(s) && !Abandoned(s) && k < |s.workers|
    requires !s.workers[k].Exited? && CanReceive(s.toGet) && !s.converter.Stopped? && !s.txIn.closed
    ensures OwnStep(s, a) && (a.SenderStep? ==> OutStuck(s))
  {
    if s.workers[k].Pushing? && s.workers[k].rest != [] && !CanSend(s.txIn, TX_IN_CAP) {
      a := ConverterMoves(s);
    } else {
      a := WorkerStep(k, true);
    }
  }

  lemma FetcherMoves(s: State, k: nat) returns (a: Action)
    requires ControlInv(s) && k < |s.fetchers| && !s.fetchers[k].Replied? && CanSend(s.batches, BATCHES_CAP)
    ensures OwnStep(s, a) && !a.SenderStep?
  {
    if s.fetchers[k].Answered? && s.lock.Some? {
      a := FetcherStep(s.lock.value, true);
    } else {
      a := FetcherStep(k, true);
    }
  }

  lemma CollectMoves(s: State) returns (a: Action)
    requires ControlInv(s) && s.main.Collect?
    ensures OwnStep(s, a) && !a.SenderStep?
  {
    if s.batches.buf != [] {
      a := MainStep(0);
    } else {
      Sums.SumFull(OneIfReplied(), s.fetchers);
      var k :| 0 <= k < |s.fetchers| && OneIfReplied()(s.fetchers[k]) == 0;
      a := FetcherMoves(s, k);
    }
  }

  lemma PipeMoves(s: State) returns (a: Action)
    requires ControlInv(s) && TodoInv(s) && !Abandoned(s) && PipePhase(s.main)
    ensures OwnStep(s, a) && (a.SenderStep? ==> OutStuck(s))
  {
    match s.main
    case Loop(todo) =>
      if todo == {} {
        a := MainStep(0);
      } else {
        var h :| h in todo;
        a := MainStep(h);
      }
    case SendBlock(_, _, _) =>
      if CanSend(s.out, OUT_CAP) { a := MainStep(0); } else { a := OutMoves(s); }
    case PushPage(_, _, _, _) =>
      if CanSend(s.toGet, TO_GET_CAP) { a := MainStep(0); } else { a := WorkerMoves(s, 0); }
    case WaitWorkers =>
      if AllExited(s.workers) {
        a := MainStep(0);
      } else {
        var k :| 0 <= k < |s.workers| && !s.workers[k].Exited?;
        a := WorkerMoves(s, k);
      }
    case WaitConverter =>
      if s.converter.Stopped? { a := MainStep(0); } else { a := ConverterMoves(s); }
    case CloseToGet => a := MainStep(0);
    case CloseTxIn => a := MainStep(0);
    case Return => a := MainStep(0);
  }

  lemma EndMoves(s: State) returns (a: Action)
    requires ControlInv(s) && !Terminal(s) && (s.main.WaitFin? || s.main.Done?)
    ensures OwnStep(s, a)
  {
    if s.main.WaitFin? && MainEnabled(s, 0) {
      a := MainStep(0);
    } else {
      a := SenderStep(s.main == Done(false));
    }
  }

  /** A goroutine that can move; the sender only when others wait for it. */
  lemma StateMoves(s: State) returns (a: Action)
    requires ControlInv(s) && TodoInv(s) && !Terminal(s) && !Abandoned(s)
    ensures OwnStep(s, a) && (a.SenderStep? ==> OutStuck(s) || s.main.WaitFin? || s.main.Done?)
  {
    if s.main.Collect? {
      a := CollectMoves(s);
    } else if PipePhase(s.main) {
      a := PipeMoves(s);
    } else if s.main.WaitFin? || s.main.Done? {
      a := EndMoves(s);
    } else {
      a := MainStep(0);
    }
  }

  /** Deadlock freedom: in every reachable state some goroutine can move, unless all have ended or the task was
      cancelled, its sender is gone, `out` is full and someone must send on it.  For an uncancelled task the latter
      cannot be. */
  lemma DeadlockFree(c: Config, s: State)
    requires Reachable(c, s) && !Terminal(s)
    ensures (exists a :: OwnStep(s, a)) || (Abandoned(s) && s.cancelled)
  {
    ReachableControl(c, s);
    ReachableTodo(c, s);
    if !Abandoned(s) {
      var a := StateMoves(s);
    }
  }

  lemma ReachableTodo(c: Config, s: State)
    requires Reachable(c, s)
    ensures TodoInv(s)
  {
    InitialControl(c);
    var run :| Legal(c, Initial(c), run) && After(c, Initial(c), run) == s;
    RunTodo(c, Initial(c), run);
  }
}
