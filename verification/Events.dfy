/** From messages and log records to the events of a transaction: `eventFromLogs` and `appendEvents`. */
module Events {
  import Attributes
  import opened Digits
  import opened Logs
  import opened Options
  import opened SubEvents

  datatype TransactionEvent = TransactionEvent(id: string, kind: string, sub: seq<SubEvent>)

  // ----- eventFromLogs -----

  function FromAttributes(a: Attributes.Attrs): SubEvent {
    SubEvent([a.action], a.moduleName, a.sender, a.recipient, [], None, "")
  }

  function SubsOfLog(evs: seq<LogEvent>): seq<SubEvent> {
    if evs == [] then []
    else
      var ev := evs[|evs| - 1];
      SubsOfLog(evs[..|evs| - 1]) + if ev.attributes.Some? then [FromAttributes(ev.attributes.value)] else []
  }

  method EventFromLogs(lf: LogFormat) returns (te: TransactionEvent)
    ensures te == TransactionEvent(Show(lf.msgIndex), "", SubsOfLog(lf.events))
  {
    var subs := [];
    for i := 0 to |lf.events|
      invariant subs == SubsOfLog(lf.events[..i])
    {
      assert lf.events[..i + 1][..i] == lf.events[..i];
      if lf.events[i].attributes.Some? {
        subs := subs + [FromAttributes(lf.events[i].attributes.value)];
      }
    }
    assert lf.events[..|lf.events|] == lf.events;
    return TransactionEvent(Show(lf.msgIndex), "", subs);
  }

  /** The sub-event of a log event with attributes: its action, module, senders and recipients, and no more. */
  ghost predicate ShowsAttributes(sub: SubEvent, ev: LogEvent) {
    && ev.attributes.Some?
    && var a := ev.attributes.value;
       && sub.kinds == [a.action] && sub.moduleName == a.moduleName
       && sub.senders == a.sender && sub.recipients == a.recipient
       && sub.sub == [] && sub.error == None && sub.details == ""
  }

  /** The sub-events are those of the log events at these places: the ones with attributes, in order, none missed. */
  ghost predicate SubsShow(evs: seq<LogEvent>, subs: seq<SubEvent>, places: seq<nat>) {
    && |places| == |subs|
    && (forall k :: 0 <= k < |subs| ==> places[k] < |evs| && ShowsAttributes(subs[k], evs[places[k]]))
    && (forall j, k :: 0 <= j < k < |subs| ==> places[j] < places[k])
    && (forall i :: 0 <= i < |evs| && evs[i].attributes.Some? ==> i in places)
  }

  /** The sub-events of a log, one by one. */
  lemma {:induction false} SubsInOrder(evs: seq<LogEvent>) returns (places: seq<nat>)
    ensures SubsShow(evs, SubsOfLog(evs), places)
  {
    places := [];
    if evs != [] {
      var n := |evs| - 1;
      var front := SubsInOrder(evs[..n]);
      assert evs == evs[..n] + [evs[n]];
      if evs[n].attributes.Some? {
        SubsWith(evs[..n], evs[n], SubsOfLog(evs[..n]), front);
        places := front + [n];
      } else {
        places := front;
      }
    }
  }

  lemma SubsWith(evs: seq<LogEvent>, ev: LogEvent, subs: seq<SubEvent>, places: seq<nat>)
    requires SubsShow(evs, subs, places) && ev.attributes.Some?
    ensures SubsShow(evs + [ev], subs + [FromAttributes(ev.attributes.value)], places + [|evs|])
  {
    InExtended(places, |evs|);
  }

  lemma InExtended(front: seq<nat>, last: nat)
    ensures last in front + [last] && forall i :: i in front ==> i in front + [last]
  {
    assert (front + [last])[|front|] == last;
  }

  // ----- appendEvents -----

  /** The event of the index-th message, if it decodes. */
  function MsgEvent(leaf: Mapper, msgs: seq<Msg>, log: seq<LogFormat>, index: nat): TransactionEvent
    requires index < |msgs|
  {
    var ev := SubEventOf(leaf, msgs[index], LogAt(log, index)).0;
    if ev.kinds != [] then TransactionEvent(Show(index), msgs[index].kind, [ev])
    else TransactionEvent(Show(index), "", [])
  }

  predicate IndexDecodes(leaf: Mapper, msgs: seq<Msg>, log: seq<LogFormat>, index: nat) {
    index < |msgs| && Decodes(leaf, msgs[index], LogAt(log, index))
  }

  /** The events of the first n messages, those that fail left out. */
  function DecodedEvents(leaf: Mapper, msgs: seq<Msg>, log: seq<LogFormat>, n: nat): seq<TransactionEvent>
    requires n <= |msgs|
  {
    if n == 0 then []
    else
      var front := DecodedEvents(leaf, msgs, log, n - 1);
      if IndexDecodes(leaf, msgs, log, n - 1) then front + [MsgEvent(leaf, msgs, log, n - 1)] else front
  }

  /** The error of a failed call goes to the first sub-event, or to one of its own. */
  function WithError(subs: seq<SubEvent>, message: string): seq<SubEvent> {
    if subs == [] then [NO_SUB_EVENT.(error := Some(message))]
    else if subs[0].error.None? then subs[0 := subs[0].(error := Some(message))]
    else subs
  }

  function EventOfLog(l: LogFormat): TransactionEvent {
    var subs := SubsOfLog(l.events);
    TransactionEvent(Show(l.msgIndex), "", if l.success then subs else WithError(subs, l.message))
  }

  /** The events of the logs whose index did not decode, in log order. */
  function UncoveredEvents(
    leaf: Mapper, msgs: seq<Msg>, log: seq<LogFormat>, logs: seq<LogFormat>): seq<TransactionEvent>
  {
    if logs == [] then []
    else
      var l := logs[|logs| - 1];
      var front := UncoveredEvents(leaf, msgs, log, logs[..|logs| - 1]);
      if IndexDecodes(leaf, msgs, log, l.msgIndex) then front else front + [EventOfLog(l)]
  }

  /** The error of a transaction whose log is not a list of records. */
  datatype TxError = TxError(codespace: string, message: string)

  function ErrorEvents(e: TxError): seq<TransactionEvent> {
    if e.message == "" then []
    else [TransactionEvent("", "error", [SubEvent(["error"], e.codespace, [], [], [], Some(e.message), "")])]
  }

  class Transaction {
    var events: seq<TransactionEvent>

    constructor ()
      ensures events == []
    {
      events := [];
    }
  }

  /** The body of the second loop: the event of a log, with the log's message if the call failed. */
  method LoggedEvent(logf: LogFormat) returns (tev: TransactionEvent)
    ensures tev == EventOfLog(logf)
  {
    tev := EventFromLogs(logf);
    if !logf.success {
      if |tev.sub| > 0 {
        if tev.sub[0].error.None? {
          tev := tev.(sub := tev.sub[0 := tev.sub[0].(error := Some(logf.message))]);
        }
      } else {
        tev := tev.(sub := tev.sub + [NO_SUB_EVENT.(error := Some(logf.message))]);
      }
    }
  }

  /** `appendEvents`: decoded messages first, then the logs they do not cover, then the transaction's error. */
  method AppendEvents(trans: Transaction, leaf: Mapper, msgs: seq<Msg>, txLog: seq<LogFormat>, txErr: TxError)
    modifies trans
    ensures trans.events == old(trans.events) + DecodedEvents(leaf, msgs, txLog, |msgs|)
                            + UncoveredEvents(leaf, msgs, txLog, txLog) + ErrorEvents(txErr)
  {
    var presentIndexes: set<string> := {};
    for index := 0 to |msgs|
      invariant trans.events == old(trans.events) + DecodedEvents(leaf, msgs, txLog, index)
      invariant Present(leaf, msgs, txLog, presentIndexes, index)
    {
      var lf := FindLog(txLog, index);
      var ev, verdict := GetSubEvent(leaf, msgs[index], lf);
      var tev := TransactionEvent(Show(index), "", []);
      if ev.kinds != [] {
        tev := TransactionEvent(Show(index), msgs[index].kind, [ev]);
      }
      PresentOneMore(leaf, msgs, txLog, presentIndexes, index);
      if !verdict.Good? {
        continue;
      }
      trans.events := trans.events + [tev];
      presentIndexes := presentIndexes + {tev.id};
    }
    ghost var decoded := trans.events;
    for i := 0 to |txLog|
      invariant trans.events == decoded + UncoveredEvents(leaf, msgs, txLog, txLog[..i])
    {
      var logf := txLog[i];
      assert txLog[..i + 1][..i] == txLog[..i];
      PresentSays(leaf, msgs, txLog, presentIndexes, logf.msgIndex);
      if Show(logf.msgIndex) in presentIndexes {
        continue;
      }
      var tev := LoggedEvent(logf);
      trans.events := trans.events + [tev];
    }
    assert txLog[..|txLog|] == txLog;
    if txErr.message != "" {
      var sub := SubEvent(["error"], txErr.codespace, [], [], [], Some(txErr.message), "");
      trans.events := trans.events + [TransactionEvent("", "error", [sub])];
    }
  }

  /** The set holds the printed indices of the decoded messages among the first n. */
  ghost predicate Present(leaf: Mapper, msgs: seq<Msg>, log: seq<LogFormat>, ids: set<string>, n: nat) {
    forall id :: id in ids <==> DecodedAs(leaf, msgs, log, id, n)
  }

  ghost predicate DecodedAs(leaf: Mapper, msgs: seq<Msg>, log: seq<LogFormat>, id: string, n: nat) {
    exists k: nat :: k < n && IndexDecodes(leaf, msgs, log, k) && Show(k) == id
  }

  lemma PresentOneMore(leaf: Mapper, msgs: seq<Msg>, log: seq<LogFormat>, ids: set<string>, n: nat)
    requires Present(leaf, msgs, log, ids, n)
    ensures Present(leaf, msgs, log, if IndexDecodes(leaf, msgs, log, n) then ids + {Show(n)} else ids, n + 1)
  {
    var now := if IndexDecodes(leaf, msgs, log, n) then ids + {Show(n)} else ids;
    forall id
      ensures id in now <==> DecodedAs(leaf, msgs, log, id, n + 1)
    {
      OneMoreId(leaf, msgs, log, id, n);
    }
  }

  lemma OneMoreId(leaf: Mapper, msgs: seq<Msg>, log: seq<LogFormat>, id: string, n: nat)
    ensures DecodedAs(leaf, msgs, log, id, n + 1)
            <==> DecodedAs(leaf, msgs, log, id, n) || (IndexDecodes(leaf, msgs, log, n) && Show(n) == id)
  {
  }

  /** Looking up a printed index tells whether that message decoded: printing is injective. */
  lemma PresentSays(leaf: Mapper, msgs: seq<Msg>, log: seq<LogFormat>, ids: set<string>, index: nat)
    requires Present(leaf, msgs, log, ids, |msgs|)
    ensures Show(index) in ids <==> IndexDecodes(leaf, msgs, log, index)
  {
    if Show(index) in ids {
      var k: nat :| k < |msgs| && IndexDecodes(leaf, msgs, log, k) && Show(k) == Show(index);
      ShowInjective(k, index);
    }
  }

  // ----- coverage -----

  function CountId(evs: seq<TransactionEvent>, id: string): nat {
    if evs == [] then 0 else CountId(evs[..|evs| - 1], id) + if evs[|evs| - 1].id == id then 1 else 0
  }

  function CountIndex(logs: seq<LogFormat>, index: nat): nat {
    if logs == [] then 0
    else CountIndex(logs[..|logs| - 1], index) + if logs[|logs| - 1].msgIndex == index then 1 else 0
  }

  lemma CountOneMore(evs: seq<TransactionEvent>, e: TransactionEvent, id: string)
    ensures CountId(evs + [e], id) == CountId(evs, id) + if e.id == id then 1 else 0
  {
    assert (evs + [e])[..|evs|] == evs;
  }

  lemma {:induction false} CountIdConcat(a: seq<TransactionEvent>, b: seq<TransactionEvent>, id: string)
    ensures CountId(a + b, id) == CountId(a, id) + CountId(b, id)
  {
    if b == [] {
      assert a + b == a;
    } else {
      CountIdConcat(a, b[..|b| - 1], id);
      assert (a + b)[..|a + b| - 1] == a + b[..|b| - 1];
    }
  }

  lemma {:induction false} DecodedOnce(leaf: Mapper, msgs: seq<Msg>, log: seq<LogFormat>, n: nat, index: nat)
    requires n <= |msgs|
    ensures CountId(DecodedEvents(leaf, msgs, log, n), Show(index))
         == if index < n && IndexDecodes(leaf, msgs, log, index) then 1 else 0
  {
    if n > 0 {
      DecodedOnce(leaf, msgs, log, n - 1, index);
      DecodedOneMore(leaf, msgs, log, n, index);
      SameShow(n - 1, index);
    }
  }

  /** The last of the first n messages adds one event with its own index if it decodes. */
  lemma DecodedOneMore(leaf: Mapper, msgs: seq<Msg>, log: seq<LogFormat>, n: nat, index: nat)
    requires 0 < n <= |msgs|
    ensures CountId(DecodedEvents(leaf, msgs, log, n), Show(index))
         == CountId(DecodedEvents(leaf, msgs, log, n - 1), Show(index))
            + if IndexDecodes(leaf, msgs, log, n - 1) && Show(n - 1) == Show(index) then 1 else 0
  {
    CountOneMore(DecodedEvents(leaf, msgs, log, n - 1), MsgEvent(leaf, msgs, log, n - 1), Show(index));
  }

  lemma {:induction false} UncoveredCount(
    leaf: Mapper, msgs: seq<Msg>, log: seq<LogFormat>, logs: seq<LogFormat>, index: nat)
    ensures CountId(UncoveredEvents(leaf, msgs, log, logs), Show(index))
         == if IndexDecodes(leaf, msgs, log, index) then 0 else CountIndex(logs, index)
  {
    if logs != [] {
      UncoveredCount(leaf, msgs, log, logs[..|logs| - 1], index);
      CountOneMore(UncoveredEvents(leaf, msgs, log, logs[..|logs| - 1]), EventOfLog(logs[|logs| - 1]), Show(index));
      SameShow(logs[|logs| - 1].msgIndex, index);
    }
  }

  lemma SameShow(m: nat, n: nat)
    ensures Show(m) == Show(n) <==> m == n
  {
    if Show(m) == Show(n) {
      ShowInjective(m, n);
    }
  }

  lemma {:induction false} DistinctCount(logs: seq<LogFormat>, index: nat)
    requires DistinctIndices(logs)
    ensures CountIndex(logs, index) == if HasIndex(logs, index) then 1 else 0
  {
    if logs != [] {
      var front := logs[..|logs| - 1];
      DistinctCount(front, index);
      if HasIndex(front, index) {
        var i :| 0 <= i < |front| && front[i].msgIndex == index;
        assert logs[i].msgIndex == index;
      }
      if HasIndex(logs, index) && logs[|logs| - 1].msgIndex != index {
        var i :| 0 <= i < |logs| && logs[i].msgIndex == index;
        assert front[i].msgIndex == index;
      }
    }
  }

  /** Event coverage: an index that decoded has exactly one event, the decoded one; any other index has one event
      for each of its logs.  With distinct log indices, exactly one event for every index that decoded or is logged. */
  lemma Coverage(leaf: Mapper, msgs: seq<Msg>, log: seq<LogFormat>, index: nat)
    ensures var evs := DecodedEvents(leaf, msgs, log, |msgs|) + UncoveredEvents(leaf, msgs, log, log);
            CountId(evs, Show(index)) == if IndexDecodes(leaf, msgs, log, index) then 1 else CountIndex(log, index)
    ensures DistinctIndices(log) ==>
              var evs := DecodedEvents(leaf, msgs, log, |msgs|) + UncoveredEvents(leaf, msgs, log, log);
              CountId(evs, Show(index)) == if IndexDecodes(leaf, msgs, log, index) || HasIndex(log, index) then 1 else 0
  {
    DecodedOnce(leaf, msgs, log, |msgs|, index);
    UncoveredCount(leaf, msgs, log, log, index);
    CountIdConcat(DecodedEvents(leaf, msgs, log, |msgs|), UncoveredEvents(leaf, msgs, log, log), Show(index));
    if DistinctIndices(log) {
      DistinctCount(log, index);
    }
  }

  /** The event of a log: its index, no kind, and its sub-events; the first of an unsuccessful log's, made if there is
      none, carries the log's message as its error. */
  ghost predicate ShowsLog(te: TransactionEvent, l: LogFormat, subs: seq<SubEvent>) {
    && te.id == Show(l.msgIndex) && te.kind == ""
    && (exists places :: SubsShow(l.events, subs, places))
    && if l.success then te.sub == subs
       else
         && te.sub != [] && te.sub[0].error == Some(l.message)
         && te.sub[0].(error := None) == (if subs == [] then NO_SUB_EVENT else subs[0])
         && te.sub[1..] == (if subs == [] then [] else subs[1..])
  }

  ghost predicate IsOfLog(te: TransactionEvent, l: LogFormat) {
    exists subs :: ShowsLog(te, l, subs)
  }

  lemma LogEventShows(l: LogFormat)
    ensures IsOfLog(EventOfLog(l), l)
  {
    var subs := SubsOfLog(l.events);
    var places := SubsInOrder(l.events);
    if subs != [] {
      assert subs[0].error == None;
    }
    assert ShowsLog(EventOfLog(l), l, subs);
  }

  /** The event of a message: its index; if its image has a kind, the message's type and that image alone, else
      neither.  The image is decoded with the log the lookup finds. */
  ghost predicate ShowsMessage(
    te: TransactionEvent, leaf: Mapper, m: Msg, index: nat, log: seq<LogFormat>, lf: LogFormat)
  {
    && Found(log, index, lf)
    && te.id == Show(index)
    && var image := SubEventOf(leaf, m, lf).0;
       if image.kinds != [] then te.kind == m.kind && te.sub == [image] else te.kind == "" && te.sub == []
  }

  /** The events are those of the first n messages at these places: the ones that decode, in order, none missed. */
  ghost predicate DecodedAsPlaced(
    leaf: Mapper, msgs: seq<Msg>, log: seq<LogFormat>, n: nat, evs: seq<TransactionEvent>, places: seq<nat>)
    requires n <= |msgs|
  {
    && |places| == |evs|
    && (forall k :: 0 <= k < |evs| ==> places[k] < n && IndexDecodes(leaf, msgs, log, places[k])
                                       && IsOfMessage(evs[k], leaf, msgs[places[k]], places[k], log))
    && (forall j, k :: 0 <= j < k < |evs| ==> places[j] < places[k])
    && (forall i :: 0 <= i < n && IndexDecodes(leaf, msgs, log, i) ==> i in places)
  }

  ghost predicate IsOfMessage(te: TransactionEvent, leaf: Mapper, m: Msg, index: nat, log: seq<LogFormat>) {
    exists lf :: ShowsMessage(te, leaf, m, index, log, lf)
  }

  lemma MsgEventShows(leaf: Mapper, msgs: seq<Msg>, log: seq<LogFormat>, index: nat)
    requires index < |msgs|
    ensures IsOfMessage(MsgEvent(leaf, msgs, log, index), leaf, msgs[index], index, log)
  {
    LookupFinds(log, index);
    assert ShowsMessage(MsgEvent(leaf, msgs, log, index), leaf, msgs[index], index, log, LogAt(log, index));
  }

  /** The decoded events come in message order, with ascending indices. */
  lemma {:induction false} DecodedInOrder(leaf: Mapper, msgs: seq<Msg>, log: seq<LogFormat>, n: nat)
    returns (places: seq<nat>)
    requires n <= |msgs|
    ensures DecodedAsPlaced(leaf, msgs, log, n, DecodedEvents(leaf, msgs, log, n), places)
  {
    places := [];
    if n > 0 {
      var front := DecodedEvents(leaf, msgs, log, n - 1);
      places := DecodedInOrder(leaf, msgs, log, n - 1);
      if IndexDecodes(leaf, msgs, log, n - 1) {
        DecodedWith(leaf, msgs, log, n, front, places);
        places := places + [n - 1];
      } else {
        DecodedWithout(leaf, msgs, log, n, front, places);
      }
    }
  }

  lemma DecodedWithout(
    leaf: Mapper, msgs: seq<Msg>, log: seq<LogFormat>, n: nat, evs: seq<TransactionEvent>, places: seq<nat>)
    requires 0 < n <= |msgs| && !IndexDecodes(leaf, msgs, log, n - 1)
    requires DecodedAsPlaced(leaf, msgs, log, n - 1, evs, places)
    ensures DecodedAsPlaced(leaf, msgs, log, n, evs, places)
  {
  }

  lemma DecodedWith(
    leaf: Mapper, msgs: seq<Msg>, log: seq<LogFormat>, n: nat, evs: seq<TransactionEvent>, places: seq<nat>)
    requires 0 < n <= |msgs| && IndexDecodes(leaf, msgs, log, n - 1)
    requires DecodedAsPlaced(leaf, msgs, log, n - 1, evs, places)
    ensures DecodedAsPlaced(leaf, msgs, log, n, evs + [MsgEvent(leaf, msgs, log, n - 1)], places + [n - 1])
  {
    MsgEventShows(leaf, msgs, log, n - 1);
    InExtended(places, n - 1);
  }

  /** The events are those of the logs at these places: the ones whose index does not decode, in order, none missed. */
  ghost predicate Located(
    leaf: Mapper, msgs: seq<Msg>, log: seq<LogFormat>, logs: seq<LogFormat>,
    evs: seq<TransactionEvent>, places: seq<nat>)
  {
    && |places| == |evs|
    && (forall k :: 0 <= k < |evs| ==> places[k] < |logs| && evs[k] == EventOfLog(logs[places[k]])
                                       && !IndexDecodes(leaf, msgs, log, logs[places[k]].msgIndex))
    && (forall j, k :: 0 <= j < k < |evs| ==> places[j] < places[k])
    && (forall i :: 0 <= i < |logs| && !IndexDecodes(leaf, msgs, log, logs[i].msgIndex) ==> i in places)
  }

  lemma LocatedCovered(
    leaf: Mapper, msgs: seq<Msg>, log: seq<LogFormat>, logs: seq<LogFormat>, l: LogFormat,
    evs: seq<TransactionEvent>, places: seq<nat>)
    requires Located(leaf, msgs, log, logs, evs, places) && IndexDecodes(leaf, msgs, log, l.msgIndex)
    ensures Located(leaf, msgs, log, logs + [l], evs, places)
  {
  }

  lemma LocatedUncovered(
    leaf: Mapper, msgs: seq<Msg>, log: seq<LogFormat>, logs: seq<LogFormat>, l: LogFormat,
    evs: seq<TransactionEvent>, places: seq<nat>)
    requires Located(leaf, msgs, log, logs, evs, places) && !IndexDecodes(leaf, msgs, log, l.msgIndex)
    ensures Located(leaf, msgs, log, logs + [l], evs + [EventOfLog(l)], places + [|logs|])
  {
    var all, more := logs + [l], places + [|logs|];
    InExtended(places, |logs|);
    assert all[|logs|] == l && forall i :: 0 <= i < |logs| ==> all[i] == logs[i];
    forall i | 0 <= i < |all| && !IndexDecodes(leaf, msgs, log, all[i].msgIndex)
      ensures i in more
    {
      assert i < |logs| ==> i in places;
    }
  }

  /** The other events come in log order: they are the events of the logs whose index did not decode, in their order. */
  lemma {:induction false} UncoveredInOrder(
    leaf: Mapper, msgs: seq<Msg>, log: seq<LogFormat>, logs: seq<LogFormat>) returns (places: seq<nat>)
    ensures Located(leaf, msgs, log, logs, UncoveredEvents(leaf, msgs, log, logs), places)
  {
    places := [];
    if logs != [] {
      var front, l := logs[..|logs| - 1], logs[|logs| - 1];
      places := UncoveredInOrder(leaf, msgs, log, front);
      assert logs == front + [l];
      if IndexDecodes(leaf, msgs, log, l.msgIndex) {
        LocatedCovered(leaf, msgs, log, front, l, UncoveredEvents(leaf, msgs, log, front), places);
      } else {
        LocatedUncovered(leaf, msgs, log, front, l, UncoveredEvents(leaf, msgs, log, front), places);
        places := places + [|front|];
      }
    }
  }

  /** The one event of a failed transaction, with its codespace and message. */
  predicate ShowsError(te: TransactionEvent, e: TxError) {
    && te.id == "" && te.kind == "error" && |te.sub| == 1
    && var sub := te.sub[0];
       && sub.kinds == ["error"] && sub.moduleName == e.codespace && sub.error == Some(e.message)
       && sub.senders == [] && sub.recipients == [] && sub.sub == [] && sub.details == ""
  }

  /** Everything `appendEvents` appends: the event of every message that decodes, in message order; then the event of
      every log whose index does not decode, in log order; then the error, if there is one; and nothing else. */
  lemma AppendedInOrder(leaf: Mapper, msgs: seq<Msg>, log: seq<LogFormat>, e: TxError)
    returns (decoded: seq<nat>, uncovered: seq<nat>)
    ensures var evs := DecodedEvents(leaf, msgs, log, |msgs|) + UncoveredEvents(leaf, msgs, log, log) + ErrorEvents(e);
            var m, n := |decoded|, |decoded| + |uncovered|;
            && |evs| == n + (if e.message == "" then 0 else 1)
            && DecodedAsPlaced(leaf, msgs, log, |msgs|, evs[..m], decoded)
            && Located(leaf, msgs, log, log, evs[m..n], uncovered)
            && (forall k :: 0 <= k < n - m ==> IsOfLog(evs[m..n][k], log[uncovered[k]]))
            && (e.message != "" ==> ShowsError(evs[n], e))
  {
    decoded := DecodedInOrder(leaf, msgs, log, |msgs|);
    uncovered := UncoveredInOrder(leaf, msgs, log, log);
    var a, b := DecodedEvents(leaf, msgs, log, |msgs|), UncoveredEvents(leaf, msgs, log, log);
    var evs := a + b + ErrorEvents(e);
    assert e.message != "" ==> evs[|a| + |b|] == ErrorEvents(e)[0] && ShowsError(evs[|a| + |b|], e);
    assert evs[..|a|] == a && evs[|a|..|a| + |b|] == b;
    forall k | 0 <= k < |b|
      ensures IsOfLog(b[k], log[uncovered[k]])
    {
      LogEventShows(log[uncovered[k]]);
    }
  }
}
