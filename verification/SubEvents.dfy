/** The event of one message: `findLog` and the recursive `getSubEvent`. */
module SubEvents {
  import opened Logs
  import opened Options

  /** A `structs.SubsetEvent`; `details` stands for the fields only a message mapper fills. */
  datatype SubEvent = SubEvent(
    kinds: seq<string>, moduleName: string, senders: seq<string>, recipients: seq<string>,
    sub: seq<SubEvent>, error: Option<string>, details: string)

  const NO_SUB_EVENT := SubEvent([], "", [], [], [], None, "")

  /** A message by route and type, and what it carries: an authorised execution carries messages. */
  datatype Msg = Msg(route: string, kind: string, body: Content)
  datatype Content = Plain(id: nat) | Exec(grantee: string, msgs: seq<Msg>)

  /** A mapper of one message type: its event, and whether it succeeded. */
  type Mapper = (Msg, LogFormat) -> (SubEvent, bool)

  // ----- findLog -----

  /** The log of a message: the positional guess first, then a scan; nothing when there are too few logs. */
  method FindLog(lf: seq<LogFormat>, index: nat) returns (l: LogFormat)
    ensures l == LogAt(lf, index)
  {
    if |lf| <= index {
      return NO_LOG;
    }
    if lf[index].msgIndex == index {
      return lf[index];
    }
    for i := 0 to |lf|
      invariant FirstWith(lf, index) == FirstWith(lf[i..], index)
    {
      if lf[i].msgIndex == index {
        return lf[i];
      }
      assert lf[i..][1..] == lf[i + 1..];
    }
    return NO_LOG;
  }

  function LogAt(lf: seq<LogFormat>, index: nat): LogFormat {
    if |lf| <= index then NO_LOG
    else if lf[index].msgIndex == index then lf[index]
    else FirstWith(lf, index)
  }

  /** The first log with the index, or the zero log. */
  function FirstWith(lf: seq<LogFormat>, index: nat): LogFormat {
    if lf == [] then NO_LOG else if lf[0].msgIndex == index then lf[0] else FirstWith(lf[1..], index)
  }

  predicate DistinctIndices(lf: seq<LogFormat>) {
    forall i, j :: 0 <= i < j < |lf| ==> lf[i].msgIndex != lf[j].msgIndex
  }

  predicate HasIndex(lf: seq<LogFormat>, index: nat) {
    exists i :: 0 <= i < |lf| && lf[i].msgIndex == index
  }

  lemma {:induction false} FirstWithFinds(lf: seq<LogFormat>, index: nat, i: nat)
    requires i < |lf| && lf[i].msgIndex == index && forall j :: 0 <= j < i ==> lf[j].msgIndex != index
    ensures FirstWith(lf, index) == lf[i]
    decreases i
  {
    if i > 0 {
      FirstWithFinds(lf[1..], index, i - 1);
    }
  }

  lemma {:induction false} FirstWithNothing(lf: seq<LogFormat>, index: nat)
    requires !HasIndex(lf, index)
    ensures FirstWith(lf, index) == NO_LOG
  {
    if lf != [] {
      assert lf[0].msgIndex != index;
      assert forall i :: 0 <= i < |lf[1..]| ==> lf[1..][i] == lf[i + 1];
      FirstWithNothing(lf[1..], index);
    }
  }

  /** Exactly when the lookup is the plain scan, for logs with distinct indices: when there are more logs than the
      index, or no log has it.  A log list shorter than its own indices loses logs. */
  lemma LookupIsScan(lf: seq<LogFormat>, index: nat)
    requires DistinctIndices(lf)
    ensures LogAt(lf, index) == FirstWith(lf, index) <==> index < |lf| || !HasIndex(lf, index)
  {
    if HasIndex(lf, index) {
      var i :| 0 <= i < |lf| && lf[i].msgIndex == index;
      FirstWithFinds(lf, index, i);
    } else {
      FirstWithNothing(lf, index);
    }
  }

  /** Logs listed in message order are found by position. */
  lemma InOrderIsIndexing(lf: seq<LogFormat>, index: nat)
    requires index < |lf| && forall i :: 0 <= i < |lf| ==> lf[i].msgIndex == i
    ensures LogAt(lf, index) == lf[index] == FirstWith(lf, index)
  {
    FirstWithFinds(lf, index, index);
  }

  /** The lookup said outright, whatever indices repeat: nothing when there are too few logs, else the log at that
      position if it has the index, else the first log that has it, else nothing. */
  ghost predicate Found(lf: seq<LogFormat>, index: nat, l: LogFormat) {
    if |lf| <= index then l == NO_LOG
    else if lf[index].msgIndex == index then l == lf[index]
    else if HasIndex(lf, index) then
      exists i :: 0 <= i < |lf| && l == lf[i] && lf[i].msgIndex == index
                  && forall j :: 0 <= j < i ==> lf[j].msgIndex != index
    else l == NO_LOG
  }

  lemma LookupFinds(lf: seq<LogFormat>, index: nat)
    ensures Found(lf, index, LogAt(lf, index))
  {
    if HasIndex(lf, index) {
      var i := FirstPlace(lf, index);
      FirstWithFinds(lf, index, i);
    } else {
      FirstWithNothing(lf, index);
    }
  }

  lemma {:induction false} FirstPlace(lf: seq<LogFormat>, index: nat) returns (i: nat)
    requires HasIndex(lf, index)
    ensures i < |lf| && lf[i].msgIndex == index && forall j :: 0 <= j < i ==> lf[j].msgIndex != index
  {
    if lf[0].msgIndex == index {
      i := 0;
    } else {
      var k :| 0 <= k < |lf| && lf[k].msgIndex == index;
      assert lf[1..][k - 1].msgIndex == index;
      i := FirstPlace(lf[1..], index);
      i := i + 1;
      assert forall j :: 1 <= j < i ==> lf[j] == lf[1..][j - 1];
    }
  }

  // ----- getSubEvent -----

  /** How decoding a message ends: well, for want of a handler, or with the error of a handler. */
  datatype Verdict = Good | UnknownType | Broken

  /** The dispatch table of `getSubEvent`. */
  predicate Known(route: string, kind: string) {
    match route
    case "bank" => kind in {"multisend", "send"}
    case "crisis" => kind == "verify_invariant"
    case "distribution" =>
      kind in {"withdraw_validator_commission", "set_withdraw_address", "withdraw_delegator_reward",
               "fund_community_pool"}
    case "evidence" => kind == "submit_evidence"
    case "gov" => kind in {"deposit", "vote", "submit_proposal"}
    case "market" => kind in {"swap", "swapsend"}
    case "msgauth" => kind in {"grant_authorization", "revoke_authorization", "exec_delegated"}
    case "oracle" =>
      kind in {"exchangeratevote", "exchangerateprevote", "delegatefeeder", "aggregateexchangerateprevote",
               "aggregateexchangeratevote"}
    case "slashing" => kind == "unjail"
    case "staking" => kind in {"begin_unbonding", "edit_validator", "create_validator", "delegate", "begin_redelegate"}
    case "wasm" =>
      kind in {"execute_contract", "store_code", "update_contract_owner", "instantiate_contract", "migrate_contract"}
    case _ => false
  }

  predicate IsExec(m: Msg) {
    m.route == "msgauth" && m.kind == "exec_delegated"
  }

  /** `MsgauthExecAuthorizedToSub` for a message that is an authorised execution. */
  function ExecEvent(grantee: string, sub: seq<SubEvent>): SubEvent {
    SubEvent(["exec_delegated"], "msgAuth", [], [], sub, None, grantee)
  }

  /** What the recursive decoding of a message comes to. */
  function SubEventOf(leaf: Mapper, m: Msg, lf: LogFormat): (SubEvent, Verdict)
    decreases m, 1
  {
    if !Known(m.route, m.kind) then (NO_SUB_EVENT, UnknownType)
    else if !IsExec(m) then
      var r := leaf(m, lf);
      (r.0, if r.1 then Good else Broken)
    else if m.body.Plain? then (NO_SUB_EVENT, Broken)
    else (ExecEvent(m.body.grantee, Nested(leaf, m.body.msgs, lf)), Good)
  }

  /** The events of the nested messages up to the first that fails. */
  function Nested(leaf: Mapper, msgs: seq<Msg>, lf: LogFormat): seq<SubEvent>
    decreases msgs, 0
  {
    if msgs == [] then []
    else
      var first := SubEventOf(leaf, msgs[0], lf);
      if !first.1.Good? then [] else [first.0] + Nested(leaf, msgs[1..], lf)
  }

  /** `getSubEvent`: a nested failure ends the loop and is not passed on. */
  method GetSubEvent(leaf: Mapper, m: Msg, lf: LogFormat) returns (se: SubEvent, verdict: Verdict)
    ensures (se, verdict) == SubEventOf(leaf, m, lf)
    decreases m
  {
    if !Known(m.route, m.kind) {
      return NO_SUB_EVENT, UnknownType;
    }
    if !IsExec(m) {
      var r := leaf(m, lf);
      return r.0, if r.1 then Good else Broken;
    }
    if m.body.Plain? {
      return NO_SUB_EVENT, Broken;
    }
    var msgs, subs := m.body.msgs, [];
    for i := 0 to |msgs|
      invariant Nested(leaf, msgs, lf) == subs + Nested(leaf, msgs[i..], lf)
    {
      var subEv, subVerdict := GetSubEvent(leaf, msgs[i], lf);
      assert msgs[i..][0] == msgs[i] && msgs[i..][1..] == msgs[i + 1..];
      if !subVerdict.Good? {
        assert subs + [] == subs;
        return ExecEvent(m.body.grantee, subs), Good;
      }
      subs := subs + [subEv];
    }
    assert msgs[|msgs|..] == [] && subs + [] == subs;
    return ExecEvent(m.body.grantee, subs), Good;
  }

  /** A message decodes without error. */
  predicate Decodes(leaf: Mapper, m: Msg, lf: LogFormat) {
    SubEventOf(leaf, m, lf).1.Good?
  }

  /** The first n messages decode and the next, if any, does not. */
  ghost predicate LongestDecoding(leaf: Mapper, msgs: seq<Msg>, lf: LogFormat, n: nat) {
    && n <= |msgs|
    && (forall k :: 0 <= k < n ==> Decodes(leaf, msgs[k], lf))
    && (n < |msgs| ==> !Decodes(leaf, msgs[n], lf))
  }

  /** The nested events are the images of the longest prefix that decodes, one for one. */
  lemma {:induction false} NestedIsLongestPrefix(leaf: Mapper, msgs: seq<Msg>, lf: LogFormat)
    ensures var subs := Nested(leaf, msgs, lf);
            && LongestDecoding(leaf, msgs, lf, |subs|)
            && forall k :: 0 <= k < |subs| ==> subs[k] == SubEventOf(leaf, msgs[k], lf).0
  {
    if msgs != [] && Decodes(leaf, msgs[0], lf) {
      NestedIsLongestPrefix(leaf, msgs[1..], lf);
      var subs := Nested(leaf, msgs, lf);
      forall k | 0 <= k < |subs|
        ensures Decodes(leaf, msgs[k], lf) && subs[k] == SubEventOf(leaf, msgs[k], lf).0
      {
        if k > 0 { assert msgs[1..][k - 1] == msgs[k]; }
      }
    }
  }

  /** An authorised execution never fails, at whatever depth its messages do. */
  lemma ExecNeverFails(leaf: Mapper, m: Msg, lf: LogFormat)
    requires IsExec(m) && m.body.Exec?
    ensures Decodes(leaf, m, lf)
    ensures exists n :: LongestDecoding(leaf, m.body.msgs, lf, n) && |SubEventOf(leaf, m, lf).0.sub| == n
    ensures forall k :: 0 <= k < |SubEventOf(leaf, m, lf).0.sub| ==>
              SubEventOf(leaf, m, lf).0.sub[k] == SubEventOf(leaf, m.body.msgs[k], lf).0
  {
    NestedIsLongestPrefix(leaf, m.body.msgs, lf);
  }

  // ----- the decoding, path by path -----

  /** The route and type of every message that has a handler. */
  const HANDLERS: set<(string, string)> := {
    ("bank", "multisend"), ("bank", "send"),
    ("crisis", "verify_invariant"),
    ("distribution", "withdraw_validator_commission"), ("distribution", "set_withdraw_address"),
    ("distribution", "withdraw_delegator_reward"), ("distribution", "fund_community_pool"),
    ("evidence", "submit_evidence"),
    ("gov", "deposit"), ("gov", "vote"), ("gov", "submit_proposal"),
    ("market", "swap"), ("market", "swapsend"),
    ("msgauth", "grant_authorization"), ("msgauth", "revoke_authorization"), ("msgauth", "exec_delegated"),
    ("oracle", "exchangeratevote"), ("oracle", "exchangerateprevote"), ("oracle", "delegatefeeder"),
    ("oracle", "aggregateexchangerateprevote"), ("oracle", "aggregateexchangeratevote"),
    ("slashing", "unjail"),
    ("staking", "begin_unbonding"), ("staking", "edit_validator"), ("staking", "create_validator"),
    ("staking", "delegate"), ("staking", "begin_redelegate"),
    ("wasm", "execute_contract"), ("wasm", "store_code"), ("wasm", "update_contract_owner"),
    ("wasm", "instantiate_contract"), ("wasm", "migrate_contract")
  }

  predicate HasHandler(m: Msg) {
    (m.route, m.kind) in HANDLERS
  }

  /** There is a handler, and it accepts the message; for an authorised execution, whatever the nested messages are. */
  predicate Accepted(leaf: Mapper, m: Msg, lf: LogFormat) {
    HasHandler(m) && if IsExec(m) then m.body.Exec? else leaf(m, lf).1
  }

  lemma KnownIsHandled(m: Msg)
    ensures Known(m.route, m.kind) <==> HasHandler(m)
  {
  }

  /** How decoding ends, for any message: for want of a handler exactly when its route and type are not listed, and
      well exactly when it is accepted. */
  lemma VerdictIs(leaf: Mapper, m: Msg, lf: LogFormat)
    ensures SubEventOf(leaf, m, lf).1 == UnknownType <==> !HasHandler(m)
    ensures SubEventOf(leaf, m, lf).1 == Good <==> Accepted(leaf, m, lf)
  {
    KnownIsHandled(m);
  }

  /** The message at the end of a path of positions, through authorised executions. */
  function MessageAt(m: Msg, path: seq<nat>): Option<Msg>
    decreases |path|
  {
    if path == [] then Some(m)
    else if IsExec(m) && m.body.Exec? && path[0] < |m.body.msgs| then MessageAt(m.body.msgs[path[0]], path[1..])
    else None
  }

  function EventAt(ev: SubEvent, path: seq<nat>): Option<SubEvent>
    decreases |path|
  {
    if path == [] then Some(ev) else if path[0] < |ev.sub| then EventAt(ev.sub[path[0]], path[1..]) else None
  }

  /** The first n messages are accepted. */
  predicate FirstAccepted(leaf: Mapper, msgs: seq<Msg>, lf: LogFormat, n: nat)
    requires n <= |msgs|
  {
    forall k :: 0 <= k < n ==> Accepted(leaf, msgs[k], lf)
  }

  /** At every step the path takes a message that is accepted, as are all those before it. */
  predicate Shown(leaf: Mapper, m: Msg, lf: LogFormat, path: seq<nat>)
    requires MessageAt(m, path).Some?
    decreases |path|
  {
    path != [] ==>
      && FirstAccepted(leaf, m.body.msgs, lf, path[0] + 1)
      && Shown(leaf, m.body.msgs[path[0]], lf, path[1..])
  }

  /** The event of one message, whatever is nested in it: that of its mapper, given this log; or the grantee and as
      many events as there are messages before the first that is not accepted. */
  ghost predicate Image(leaf: Mapper, m: Msg, lf: LogFormat, ev: SubEvent) {
    if !HasHandler(m) || (IsExec(m) && m.body.Plain?) then ev == NO_SUB_EVENT
    else if !IsExec(m) then ev == leaf(m, lf).0
    else
      && ev.(sub := []) == SubEvent(["exec_delegated"], "msgAuth", [], [], [], None, m.body.grantee)
      && var msgs, n := m.body.msgs, |ev.sub|;
         n <= |msgs| && FirstAccepted(leaf, msgs, lf, n) && (n < |msgs| ==> !Accepted(leaf, msgs[n], lf))
  }

  lemma RootImage(leaf: Mapper, m: Msg, lf: LogFormat)
    ensures Image(leaf, m, lf, SubEventOf(leaf, m, lf).0)
  {
    KnownIsHandled(m);
    if IsExec(m) && m.body.Exec? {
      var msgs := m.body.msgs;
      NestedIsLongestPrefix(leaf, msgs, lf);
      forall k | 0 <= k < |msgs|
        ensures Decodes(leaf, msgs[k], lf) <==> Accepted(leaf, msgs[k], lf)
      {
        VerdictIs(leaf, msgs[k], lf);
      }
    }
  }

  /** The decoding of a whole tree of messages, said without recursion: a message at any depth has an event at the
      same place exactly when it and all messages before it, on every level, are accepted; and every event there is
      is the image of its message, decoded with the log the outermost call was given. */
  lemma {:induction false} DecodedAt(leaf: Mapper, m: Msg, lf: LogFormat, path: seq<nat>)
    requires MessageAt(m, path).Some?
    ensures var at := EventAt(SubEventOf(leaf, m, lf).0, path);
            && (at.Some? <==> Shown(leaf, m, lf, path))
            && (at.Some? ==> Image(leaf, MessageAt(m, path).value, lf, at.value))
    decreases |path|
  {
    RootImage(leaf, m, lf);
    if path != [] {
      var msgs := m.body.msgs;
      KnownIsHandled(m);
      NestedIsLongestPrefix(leaf, msgs, lf);
      DecodedAt(leaf, msgs[path[0]], lf, path[1..]);
    }
  }
}
