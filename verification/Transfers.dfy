/** `produceTransfers`: reading the transfers of a log record, and the round trip through printing, bucketing, zipping
    and splitting. */
module Transfers {
  import opened Attributes
  import opened Coins
  import opened Logs
  import opened Options
  import Strings

  datatype EventTransfer = EventTransfer(account: string, amounts: seq<Amount>)

  /** What the loops have produced: transfers, the amount that could not be read, or an index or nil panic. */
  datatype Produced = Produced(evts: seq<EventTransfer>) | Unread(amt: string) | Crashed

  // ----- the specification, one prefix at a time -----

  /** The i-th recipient of an event: skipped, read, or a panic when there is no i-th amount. */
  function Recipient(a: Attrs, skipAddr: string, i: nat): Produced
    requires i < |a.recipient|
  {
    if a.recipient[i] == skipAddr || |a.amount| < i then Produced([])
    else if |a.amount| == i then Crashed
    else
      match ReadAmounts(a.amount[i])
      case Unreadable(amt) => Unread(amt)
      case Read(amounts) => Produced([EventTransfer(a.recipient[i], amounts)])
  }

  function Then(x: Produced, y: Produced): Produced {
    if !x.Produced? then x else if !y.Produced? then y else Produced(x.evts + y.evts)
  }

  /** One result after the other, up to the first that is not a list of transfers. */
  function Merged(xs: seq<Produced>): Produced {
    if xs == [] then Produced([]) else Then(Merged(xs[..|xs| - 1]), xs[|xs| - 1])
  }

  /** The recipients of an event, one by one. */
  function Recipients(a: Attrs, skipAddr: string): seq<Produced> {
    seq(|a.recipient|, i requires 0 <= i < |a.recipient| => Recipient(a, skipAddr, i))
  }

  function Event(ev: LogEvent, skipAddr: string): Produced {
    if ev.kind != "transfer" then Produced([])
    else if ev.attributes.None? then Crashed
    else Merged(Recipients(ev.attributes.value, skipAddr))
  }

  function EachEvent(evs: seq<LogEvent>, skipAddr: string): seq<Produced> {
    seq(|evs|, i requires 0 <= i < |evs| => Event(evs[i], skipAddr))
  }

  function Events(evs: seq<LogEvent>, skipAddr: string): Produced {
    Merged(EachEvent(evs, skipAddr))
  }

  lemma MergedOneMore(xs: seq<Produced>, i: nat)
    requires i < |xs|
    ensures Merged(xs[..i + 1]) == Then(Merged(xs[..i]), xs[i])
  {
    assert xs[..i + 1][..i] == xs[..i];
  }

  /** Nothing after the first failure counts. */
  lemma {:induction false} MergedStops(xs: seq<Produced>, i: nat)
    requires i < |xs| && Merged(xs[..i]).Produced? && !xs[i].Produced?
    ensures Merged(xs) == xs[i]
    decreases |xs|
  {
    if |xs| == i + 1 {
      assert xs[..|xs| - 1] == xs[..i];
    } else {
      assert xs[..|xs| - 1][..i] == xs[..i];
      MergedStops(xs[..|xs| - 1], i);
    }
  }

  type TransferMap = map<string, seq<EventTransfer>>

  // ----- the loops -----

  /** The part of a `structs.SubsetEvent` that `produceTransfers` writes: its `Transfers` field. */
  class TransferHolder {
    var transfers: TransferMap

    constructor (transfers: TransferMap)
      ensures this.transfers == transfers
    {
      this.transfers := transfers;
    }
  }

  /** The innermost loop: the amounts of one recipient. */
  method ReadList(s: string) returns (r: Read)
    ensures r == ReadAmounts(s)
  {
    var parts := Strings.Split(s, ',');
    var amts := [];
    for i := 0 to |parts|
      invariant ReadParts(parts[..i]) == Read(amts)
    {
      var amount := ReadAmount(parts[i]);
      assert parts[..i + 1][..i] == parts[..i];
      if amount.None? {
        UnreadableStays(parts, i);
        return Unreadable(parts[i]);
      }
      amts := amts + [amount.value];
    }
    assert parts[..|parts|] == parts;
    return Read(amts);
  }

  /** The loop over the recipients of one event. */
  method ReadRecipients(a: Attrs, skipAddr: string) returns (r: Produced)
    ensures r == Merged(Recipients(a, skipAddr))
  {
    ghost var xs := Recipients(a, skipAddr);
    var evts := [];
    for i := 0 to |a.recipient|
      invariant Merged(xs[..i]) == Produced(evts)
    {
      MergedOneMore(xs, i);
      var recip := a.recipient[i];
      if recip == skipAddr || |a.amount| < i {
        continue;
      }
      if |a.amount| == i {
        MergedStops(xs, i);
        return Crashed;
      }
      var amts := ReadList(a.amount[i]);
      if amts.Unreadable? {
        MergedStops(xs, i);
        return Unread(amts.amt);
      }
      evts := evts + [EventTransfer(recip, amts.amounts)];
    }
    assert xs[..|xs|] == xs;
    return Produced(evts);
  }

  /** `produceTransfers`: the event is changed only when every transfer was read and there is at least one.  Storing
      under a new type drops every other type.  From a log of printed transfers it stores exactly these, but those to
      the skipped address, when each of the others can be read. */
  method ProduceTransfers(se: TransferHolder, transferType: string, skipAddr: string, logf: LogFormat)
    returns (r: Produced)
    modifies se
    ensures r == Events(logf.events, skipAddr)
    ensures !r.Produced? || r.evts == [] ==> se.transfers == old(se.transfers)
    ensures r.Produced? && r.evts != [] ==>
              && transferType in se.transfers && se.transfers[transferType] == r.evts
              && if transferType in old(se.transfers)
                 then se.transfers - {transferType} == old(se.transfers) - {transferType}
                 else se.transfers.Keys == {transferType}
    ensures forall ls :: IsLogOf(logf.events, ls) && AllSurvive(ls, skipAddr) && AllExpected(ls, skipAddr) != [] ==>
              transferType in se.transfers && se.transfers[transferType] == AllExpected(ls, skipAddr)
  {
    var evs := logf.events;
    ghost var xs := EachEvent(evs, skipAddr);
    var evts := [];
    for i := 0 to |evs|
      invariant se.transfers == old(se.transfers)
      invariant Merged(xs[..i]) == Produced(evts)
    {
      MergedOneMore(xs, i);
      var ev := evs[i];
      if ev.kind != "transfer" {
        continue;
      }
      if ev.attributes.None? {
        MergedStops(xs, i);
        FailsNoneSurvive(evs, skipAddr);
        return Crashed;
      }
      var one := ReadRecipients(ev.attributes.value, skipAddr);
      if !one.Produced? {
        MergedStops(xs, i);
        FailsNoneSurvive(evs, skipAddr);
        return one;
      }
      evts := evts + one.evts;
    }
    assert xs[..|xs|] == xs;
    r := Produced(evts);
    forall ls | IsLogOf(logf.events, ls) && AllSurvive(ls, skipAddr)
      ensures evts == AllExpected(ls, skipAddr)
    {
      TransferRoundTrip(ls, skipAddr);
    }
    if evts == [] {
      return;
    }
    if transferType !in se.transfers {
      se.transfers := map[];
    }
    se.transfers := se.transfers[transferType := evts];
  }

  // ----- when it panics -----

  /** The k-th recipient is skipped, or there is a k-th amount that can be read. */
  predicate PassesAt(a: Attrs, skipAddr: string, k: nat)
    requires k < |a.recipient|
  {
    a.recipient[k] == skipAddr || (k < |a.amount| && ReadAmounts(a.amount[k]).Read?)
  }

  /** Every recipient passes; one beyond the first without an amount is never looked at. */
  predicate EventPasses(ev: LogEvent, skipAddr: string) {
    ev.kind == "transfer" ==>
      && ev.attributes.Some?
      && var a := ev.attributes.value;
         forall k :: 0 <= k < |a.recipient| && k <= |a.amount| ==> PassesAt(a, skipAddr, k)
  }

  /** There are no attributes, or the first recipient without an amount is not the skipped one and all before it
      pass. */
  predicate EventPanics(ev: LogEvent, skipAddr: string) {
    && ev.kind == "transfer"
    && (ev.attributes.None? ||
        var a := ev.attributes.value;
        && |a.amount| < |a.recipient|
        && a.recipient[|a.amount|] != skipAddr
        && forall k :: 0 <= k < |a.amount| ==> PassesAt(a, skipAddr, k))
  }

  lemma {:induction false} MergedProduced(xs: seq<Produced>)
    ensures Merged(xs).Produced? <==> forall i :: 0 <= i < |xs| ==> xs[i].Produced?
  {
    if xs != [] {
      MergedProduced(xs[..|xs| - 1]);
    }
  }

  /** The whole is a failure exactly if some part is that one and everything before it was produced. */
  lemma {:induction false} MergedFails(xs: seq<Produced>, x: Produced)
    requires !x.Produced?
    ensures Merged(xs) == x <==> exists i :: 0 <= i < |xs| && FirstFailure(xs, x, i)
  {
    if xs != [] {
      var n := |xs| - 1;
      var front := xs[..n];
      MergedFails(front, x);
      MergedProduced(front);
      if Merged(front) == x {
        var i :| 0 <= i < |front| && FirstFailure(front, x, i);
        assert FirstFailure(xs, x, i);
      } else if Merged(xs) == x {
        assert FirstFailure(xs, x, n);
      } else if i :| 0 <= i < |xs| && FirstFailure(xs, x, i) {
        assert i < n ==> FirstFailure(front, x, i);
      }
    }
  }

  predicate FirstFailure(xs: seq<Produced>, x: Produced, i: nat)
    requires i < |xs|
  {
    xs[i] == x && forall j :: 0 <= j < i ==> xs[j].Produced?
  }

  lemma RecipientIs(a: Attrs, skipAddr: string, k: nat)
    requires k < |a.recipient|
    ensures Recipient(a, skipAddr, k).Produced? <==> PassesAt(a, skipAddr, k) || |a.amount| < k
    ensures Recipient(a, skipAddr, k).Crashed? <==> k == |a.amount| && a.recipient[k] != skipAddr
  {
  }

  /** Exactly when the transfers of one event are all read. */
  lemma EventProduces(ev: LogEvent, skipAddr: string)
    ensures Event(ev, skipAddr).Produced? <==> EventPasses(ev, skipAddr)
  {
    if ev.kind == "transfer" && ev.attributes.Some? {
      var a := ev.attributes.value;
      MergedProduced(Recipients(a, skipAddr));
      forall k | 0 <= k < |a.recipient|
        ensures Recipients(a, skipAddr)[k].Produced? <==> (k <= |a.amount| ==> PassesAt(a, skipAddr, k))
      {
        RecipientIs(a, skipAddr, k);
      }
    }
  }

  /** Exactly when one event panics. */
  lemma EventCrashes(ev: LogEvent, skipAddr: string)
    ensures Event(ev, skipAddr).Crashed? <==> EventPanics(ev, skipAddr)
  {
    if ev.kind == "transfer" && ev.attributes.Some? {
      var a := ev.attributes.value;
      var xs := Recipients(a, skipAddr);
      MergedFails(xs, Crashed);
      forall k | 0 <= k < |a.recipient|
        ensures xs[k].Crashed? <==> k == |a.amount| && a.recipient[k] != skipAddr
        ensures k < |a.amount| ==> (xs[k].Produced? <==> PassesAt(a, skipAddr, k))
      {
        RecipientIs(a, skipAddr, k);
      }
      if EventPanics(ev, skipAddr) {
        assert FirstFailure(xs, Crashed, |a.amount|);
      }
    }
  }

  /** Exactly when a whole log panics: some event does, and every event before it passes. */
  lemma LogCrashes(evs: seq<LogEvent>, skipAddr: string)
    ensures Events(evs, skipAddr).Crashed? <==>
              exists i :: 0 <= i < |evs| && EventPanics(evs[i], skipAddr)
                          && forall j :: 0 <= j < i ==> EventPasses(evs[j], skipAddr)
  {
    var xs := EachEvent(evs, skipAddr);
    MergedFails(xs, Crashed);
    forall i | 0 <= i < |evs|
      ensures xs[i].Crashed? <==> EventPanics(evs[i], skipAddr)
      ensures xs[i].Produced? <==> EventPasses(evs[i], skipAddr)
    {
      EventCrashes(evs[i], skipAddr);
      EventProduces(evs[i], skipAddr);
    }
    if i :| 0 <= i < |evs| && EventPanics(evs[i], skipAddr)
            && forall j :: 0 <= j < i ==> EventPasses(evs[j], skipAddr)
    {
      assert FirstFailure(xs, Crashed, i);
    }
  }

  /** With an amount for every recipient and attributes on every event there is no panic. */
  lemma NoCrash(evs: seq<LogEvent>, skipAddr: string)
    requires forall i :: 0 <= i < |evs| && evs[i].kind == "transfer" ==>
               evs[i].attributes.Some? && |evs[i].attributes.value.recipient| <= |evs[i].attributes.value.amount|
    ensures !Events(evs, skipAddr).Crashed?
  {
    LogCrashes(evs, skipAddr);
  }

  // ----- what is read -----

  /** The transfers are those of the recipients at these places: the ones before the n-th that are not skipped and
      have an amount, in order, none missed, each with the amounts read from the amount at its own place. */
  ghost predicate Zips(a: Attrs, skipAddr: string, n: nat, evts: seq<EventTransfer>, places: seq<nat>)
    requires n <= |a.recipient|
  {
    && |places| == |evts|
    && (forall k :: 0 <= k < |evts| ==> places[k] < n && IsTransfer(a, skipAddr, evts[k], places[k]))
    && (forall j, k :: 0 <= j < k < |evts| ==> places[j] < places[k])
    && (forall i :: 0 <= i < n && i < |a.amount| && a.recipient[i] != skipAddr ==> i in places)
  }

  predicate IsTransfer(a: Attrs, skipAddr: string, t: EventTransfer, i: nat)
    requires i < |a.recipient|
  {
    && i < |a.amount| && a.recipient[i] != skipAddr
    && t.account == a.recipient[i] && ReadAmounts(a.amount[i]) == Read(t.amounts)
  }

  /** What one recipient adds, when it is read. */
  lemma RecipientAdds(a: Attrs, skipAddr: string, i: nat)
    requires i < |a.recipient| && Recipient(a, skipAddr, i).Produced?
    ensures var evts := Recipient(a, skipAddr, i).evts;
            if i < |a.amount| && a.recipient[i] != skipAddr
            then |evts| == 1 && IsTransfer(a, skipAddr, evts[0], i)
            else evts == []
  {
  }

  lemma {:induction false} FirstZip(a: Attrs, skipAddr: string, n: nat) returns (places: seq<nat>)
    requires n <= |a.recipient| && Merged(Recipients(a, skipAddr)[..n]).Produced?
    ensures Zips(a, skipAddr, n, Merged(Recipients(a, skipAddr)[..n]).evts, places)
  {
    places := [];
    if n > 0 {
      var i, xs := n - 1, Recipients(a, skipAddr);
      MergedOneMore(xs, i);
      places := FirstZip(a, skipAddr, i);
      RecipientAdds(a, skipAddr, i);
      if xs[i].evts == [] {
        ZipWithout(a, skipAddr, n, Merged(xs[..i]).evts, places);
      } else {
        ZipWith(a, skipAddr, n, Merged(xs[..i]).evts, xs[i].evts[0], places);
        assert xs[i].evts == [xs[i].evts[0]];
        places := places + [i];
      }
    }
  }

  lemma ZipWithout(a: Attrs, skipAddr: string, n: nat, evts: seq<EventTransfer>, places: seq<nat>)
    requires 0 < n <= |a.recipient| && Zips(a, skipAddr, n - 1, evts, places)
    requires n - 1 < |a.amount| ==> a.recipient[n - 1] == skipAddr
    ensures Zips(a, skipAddr, n, evts, places)
  {
  }

  lemma ZipWith(
    a: Attrs, skipAddr: string, n: nat, evts: seq<EventTransfer>, t: EventTransfer, places: seq<nat>)
    requires 0 < n <= |a.recipient| && Zips(a, skipAddr, n - 1, evts, places) && IsTransfer(a, skipAddr, t, n - 1)
    ensures Zips(a, skipAddr, n, evts + [t], places + [n - 1])
  {
    var more := places + [n - 1];
    assert more[|places|] == n - 1;
    assert forall i :: i in places ==> i in more;
  }

  /** The transfers of one event, when they are all read. */
  lemma EventTransfers(ev: LogEvent, skipAddr: string) returns (places: seq<nat>)
    requires Event(ev, skipAddr).Produced?
    ensures var evts := Event(ev, skipAddr).evts;
            if ev.kind != "transfer" then evts == []
            else ev.attributes.Some? && var a := ev.attributes.value; Zips(a, skipAddr, |a.recipient|, evts, places)
  {
    places := [];
    if ev.kind == "transfer" {
      var xs := Recipients(ev.attributes.value, skipAddr);
      assert xs[..|xs|] == xs;
      places := FirstZip(ev.attributes.value, skipAddr, |xs|);
    }
  }

  /** The transfers of a log, when they are all read, are those of its events one after the other. */
  lemma LogTransfers(evs: seq<LogEvent>, skipAddr: string)
    requires Events(evs, skipAddr).Produced?
    ensures forall i :: 0 <= i < |evs| ==> Event(evs[i], skipAddr).Produced?
    ensures Events(evs, skipAddr).evts == Flat(seq(|evs|, i requires 0 <= i < |evs| => Event(evs[i], skipAddr).evts))
  {
    var xs := EachEvent(evs, skipAddr);
    MergedProduced(xs);
    assert forall i :: 0 <= i < |evs| ==> xs[i] == Event(evs[i], skipAddr);
    var es := seq(|evs|, i requires 0 <= i < |evs| => Event(evs[i], skipAddr).evts);
    MergedExact(xs, es);
  }

  /** Exactly when one event fails for an amount that cannot be read: the first part that no number can be read from,
      of the first amount that has one, whose recipient is not skipped. */
  lemma EventUnread(ev: LogEvent, skipAddr: string, amt: string)
    ensures Event(ev, skipAddr) == Unread(amt) <==>
              && ev.kind == "transfer" && ev.attributes.Some?
              && exists k :: 0 <= k < |ev.attributes.value.recipient|
                             && UnreadAt(ev.attributes.value, skipAddr, amt, k)
  {
    if ev.kind == "transfer" && ev.attributes.Some? {
      var a := ev.attributes.value;
      var xs := Recipients(a, skipAddr);
      MergedFails(xs, Unread(amt));
      forall k | 0 <= k < |a.recipient|
        ensures FirstFailure(xs, Unread(amt), k) <==> UnreadAt(a, skipAddr, amt, k)
      {
        forall j | 0 <= j < k
          ensures j < |a.amount| ==> (xs[j].Produced? <==> PassesAt(a, skipAddr, j))
        {
          RecipientIs(a, skipAddr, j);
        }
      }
    }
  }

  /** The k-th recipient's amount is the first that cannot be read, and this is the part of it. */
  predicate UnreadAt(a: Attrs, skipAddr: string, amt: string, k: nat)
    requires k < |a.recipient|
  {
    && k < |a.amount| && a.recipient[k] != skipAddr
    && ReadAmounts(a.amount[k]) == Unreadable(amt)
    && forall j :: 0 <= j < k ==> PassesAt(a, skipAddr, j)
  }

  /** A whole log fails for such an amount exactly if some event does and every event before it passes. */
  lemma LogUnread(evs: seq<LogEvent>, skipAddr: string, amt: string)
    ensures Events(evs, skipAddr) == Unread(amt) <==>
              exists i :: 0 <= i < |evs| && Event(evs[i], skipAddr) == Unread(amt)
                          && forall j :: 0 <= j < i ==> EventPasses(evs[j], skipAddr)
  {
    var xs := EachEvent(evs, skipAddr);
    MergedFails(xs, Unread(amt));
    forall i | 0 <= i < |evs|
      ensures xs[i].Produced? <==> EventPasses(evs[i], skipAddr)
    {
      EventProduces(evs[i], skipAddr);
    }
    if i :| 0 <= i < |evs| && Event(evs[i], skipAddr) == Unread(amt)
            && forall j :: 0 <= j < i ==> EventPasses(evs[j], skipAddr)
    {
      assert FirstFailure(xs, Unread(amt), i);
    }
  }

  // ----- the round trip -----

  /** A transfer as the chain logs it. */
  datatype Transfer = Transfer(recipient: string, sender: string, coins: seq<Coin>)

  predicate Readable(t: Transfer) {
    t.coins != [] && forall k :: 0 <= k < |t.coins| ==> ListDenom(t.coins[k].denom)
  }

  function Field(key: string, value: string): Entry {
    Entry(Some(key), Some(value))
  }

  /** The attribute entries of a transfer event, three for each transfer. */
  function PrintTransfers(ts: seq<Transfer>): seq<Entry> {
    if ts == [] then []
    else
      var t := ts[|ts| - 1];
      PrintTransfers(ts[..|ts| - 1])
      + [Field("recipient", t.recipient), Field("sender", t.sender), Field("amount", PrintCoins(t.coins))]
  }

  /** The event that bucketing makes of the printed entries. */
  function PrintedEvent(ts: seq<Transfer>): LogEvent {
    LogEvent("transfer", Some(Bucket(NO_ATTRS, Resolve(PrintTransfers(ts)))))
  }

  /** One list after the other. */
  function Flat(es: seq<seq<EventTransfer>>): seq<EventTransfer> {
    if es == [] then [] else Flat(es[..|es| - 1]) + es[|es| - 1]
  }

  /** What should be read back of a transfer: nothing if it goes to the skipped address. */
  function ExpectedOf(t: Transfer, skipAddr: string): seq<EventTransfer> {
    if t.recipient == skipAddr then [] else [EventTransfer(t.recipient, CoinAmounts(t.coins))]
  }

  function EachExpected(ts: seq<Transfer>, skipAddr: string): seq<seq<EventTransfer>> {
    seq(|ts|, i requires 0 <= i < |ts| => ExpectedOf(ts[i], skipAddr))
  }

  /** The transfers in order, but those to the skipped address. */
  function Expected(ts: seq<Transfer>, skipAddr: string): seq<EventTransfer> {
    Flat(EachExpected(ts, skipAddr))
  }

  function PairsOf(ts: seq<Transfer>): seq<Pair> {
    if ts == [] then []
    else
      var t := ts[|ts| - 1];
      PairsOf(ts[..|ts| - 1])
      + [Pair("recipient", t.recipient), Pair("sender", t.sender), Pair("amount", PrintCoins(t.coins))]
  }

  /** Complete entries resolve to themselves. */
  lemma ResolveAppend(es: seq<Entry>, key: string, value: string)
    requires !HasMalformed(es)
    ensures !HasMalformed(es + [Field(key, value)])
    ensures Resolve(es + [Field(key, value)]) == Resolve(es) + [Pair(key, value)]
  {
    var fs := es + [Field(key, value)];
    assert fs[..|es|] == es;
    ResolveOneMore(fs, |es|);
    assert fs[..|es| + 1] == fs;
  }

  lemma {:induction false} ResolvePrinted(ts: seq<Transfer>)
    ensures !HasMalformed(PrintTransfers(ts)) && Resolve(PrintTransfers(ts)) == PairsOf(ts)
  {
    if ts != [] {
      var t, es := ts[|ts| - 1], PrintTransfers(ts[..|ts| - 1]);
      var r, s, a := Field("recipient", t.recipient), Field("sender", t.sender), Field("amount", PrintCoins(t.coins));
      ResolvePrinted(ts[..|ts| - 1]);
      ResolveAppend(es, "recipient", t.recipient);
      ResolveAppend(es + [r], "sender", t.sender);
      ResolveAppend(es + [r] + [s], "amount", PrintCoins(t.coins));
      assert es + [r, s, a] == es + [r] + [s] + [a];
      assert PairsOf(ts) == PairsOf(ts[..|ts| - 1]) + [Pair("recipient", t.recipient)] + [Pair("sender", t.sender)]
        + [Pair("amount", PrintCoins(t.coins))];
    }
  }

  /** Bucketing puts the i-th recipient beside the i-th amount. */
  ghost predicate Zipped(a: Attrs, ts: seq<Transfer>) {
    && |a.recipient| == |a.amount| == |ts|
    && forall i :: 0 <= i < |ts| ==> a.recipient[i] == ts[i].recipient && a.amount[i] == PrintCoins(ts[i].coins)
  }

  lemma {:induction false} BucketZips(ts: seq<Transfer>)
    ensures Zipped(Bucket(NO_ATTRS, PairsOf(ts)), ts)
  {
    if ts != [] {
      var t, ps := ts[|ts| - 1], PairsOf(ts[..|ts| - 1]);
      var r, s, a := Pair("recipient", t.recipient), Pair("sender", t.sender), Pair("amount", PrintCoins(t.coins));
      BucketZips(ts[..|ts| - 1]);
      BucketOneMore(NO_ATTRS, ps, r);
      BucketOneMore(NO_ATTRS, ps + [r], s);
      BucketOneMore(NO_ATTRS, ps + [r] + [s], a);
      assert ps + [r, s, a] == ps + [r] + [s] + [a];
      PutTransfer(Bucket(NO_ATTRS, ps), t);
      ZipOneMore(Bucket(NO_ATTRS, ps), ts, Put(Put(Put(Bucket(NO_ATTRS, ps), r), s), a));
    }
  }

  lemma PutTransfer(b: Attrs, t: Transfer)
    ensures var after := Put(Put(Put(b, Pair("recipient", t.recipient)), Pair("sender", t.sender)),
                             Pair("amount", PrintCoins(t.coins)));
            after.recipient == b.recipient + [t.recipient] && after.amount == b.amount + [PrintCoins(t.coins)]
  {
  }

  lemma ZipOneMore(b: Attrs, ts: seq<Transfer>, after: Attrs)
    requires ts != [] && Zipped(b, ts[..|ts| - 1])
    requires after.recipient == b.recipient + [ts[|ts| - 1].recipient]
    requires after.amount == b.amount + [PrintCoins(ts[|ts| - 1].coins)]
    ensures Zipped(after, ts)
  {
  }

  /** A transfer that is skipped or can be read. */
  predicate Passes(t: Transfer, skipAddr: string) {
    t.recipient == skipAddr || Readable(t)
  }

  lemma ZippedRecipient(a: Attrs, ts: seq<Transfer>, skipAddr: string, i: nat)
    requires Zipped(a, ts) && i < |ts|
    ensures Recipient(a, skipAddr, i) == Produced(ExpectedOf(ts[i], skipAddr)) <==> Passes(ts[i], skipAddr)
    ensures FitsLength(Recipient(a, skipAddr, i), ExpectedOf(ts[i], skipAddr))
  {
    CoinsRoundTrip(ts[i].coins);
  }

  /** What is produced at all has as many transfers as expected. */
  predicate FitsLength(x: Produced, expected: seq<EventTransfer>) {
    x.Produced? ==> |x.evts| == |expected|
  }

  predicate Pointwise(xs: seq<Produced>, es: seq<seq<EventTransfer>>) {
    |xs| == |es| && forall i :: 0 <= i < |xs| ==> xs[i] == Produced(es[i])
  }

  /** The merged result is as expected exactly when every part is. */
  lemma {:induction false} MergedExact(xs: seq<Produced>, es: seq<seq<EventTransfer>>)
    requires |xs| == |es| && forall i :: 0 <= i < |xs| ==> FitsLength(xs[i], es[i])
    ensures FitsLength(Merged(xs), Flat(es))
    ensures Merged(xs) == Produced(Flat(es)) <==> Pointwise(xs, es)
  {
    if xs != [] {
      var n := |xs| - 1;
      MergedExact(xs[..n], es[..n]);
      ThenExact(Merged(xs[..n]), Flat(es[..n]), xs[n], es[n]);
      assert Pointwise(xs, es) <==> Pointwise(xs[..n], es[..n]) && xs[n] == Produced(es[n]);
    }
  }

  lemma ThenExact(x: Produced, e: seq<EventTransfer>, y: Produced, f: seq<EventTransfer>)
    requires FitsLength(x, e) && FitsLength(y, f)
    ensures FitsLength(Then(x, y), e + f)
    ensures Then(x, y) == Produced(e + f) <==> x == Produced(e) && y == Produced(f)
  {
    if x.Produced? && y.Produced? && x.evts + y.evts == e + f {
      assert x.evts == (x.evts + y.evts)[..|e|] && y.evts == (x.evts + y.evts)[|e|..];
      assert e == (e + f)[..|e|] && f == (e + f)[|e|..];
    }
  }

  /** One transfer event, through all layers: its transfers are recovered exactly when each is skipped or readable. */
  lemma EventRoundTrip(ts: seq<Transfer>, skipAddr: string)
    ensures Event(PrintedEvent(ts), skipAddr) == Produced(Expected(ts, skipAddr))
            <==> forall i :: 0 <= i < |ts| ==> Passes(ts[i], skipAddr)
    ensures FitsLength(Event(PrintedEvent(ts), skipAddr), Expected(ts, skipAddr))
  {
    ResolvePrinted(ts);
    BucketZips(ts);
    var a := Bucket(NO_ATTRS, PairsOf(ts));
    var xs, es := Recipients(a, skipAddr), EachExpected(ts, skipAddr);
    forall i | 0 <= i < |ts|
      ensures xs[i] == Produced(es[i]) <==> Passes(ts[i], skipAddr)
      ensures FitsLength(xs[i], es[i])
    {
      ZippedRecipient(a, ts, skipAddr, i);
    }
    MergedExact(xs, es);
  }

  // ----- whole logs -----

  /** A log: printed transfer events, between events of other kinds. */
  datatype Logged = Other(event: LogEvent) | Printed(transfers: seq<Transfer>)

  predicate Survives(l: Logged, skipAddr: string) {
    l.Printed? ==> forall i :: 0 <= i < |l.transfers| ==> Passes(l.transfers[i], skipAddr)
  }

  predicate AllSurvive(ls: seq<Logged>, skipAddr: string) {
    forall i :: 0 <= i < |ls| ==> Survives(ls[i], skipAddr)
  }

  function LogEvents(ls: seq<Logged>): seq<LogEvent> {
    seq(|ls|, i requires 0 <= i < |ls| => if ls[i].Other? then ls[i].event else PrintedEvent(ls[i].transfers))
  }

  /** The log's events are these printed transfers, between events that are no transfers. */
  predicate IsLogOf(evs: seq<LogEvent>, ls: seq<Logged>) {
    evs == LogEvents(ls) && forall i :: 0 <= i < |ls| && ls[i].Other? ==> ls[i].event.kind != "transfer"
  }

  function ExpectedEach(ls: seq<Logged>, skipAddr: string): seq<seq<EventTransfer>> {
    seq(|ls|, i requires 0 <= i < |ls| => if ls[i].Other? then [] else Expected(ls[i].transfers, skipAddr))
  }

  function AllExpected(ls: seq<Logged>, skipAddr: string): seq<EventTransfer> {
    Flat(ExpectedEach(ls, skipAddr))
  }

  /** The transfer round trip: printing any transfers as attributes of any number of events, then bucketing, zipping,
      splitting and parsing, recovers exactly those transfers in order, but those to the skipped address, with
      every number and denomination, if and only if every transfer not skipped has a coin and clean denominations. */
  lemma TransferRoundTrip(ls: seq<Logged>, skipAddr: string)
    requires IsLogOf(LogEvents(ls), ls)
    ensures Events(LogEvents(ls), skipAddr) == Produced(AllExpected(ls, skipAddr)) <==> AllSurvive(ls, skipAddr)
  {
    var xs, es := EachEvent(LogEvents(ls), skipAddr), ExpectedEach(ls, skipAddr);
    forall i | 0 <= i < |ls|
      ensures xs[i] == Produced(es[i]) <==> Survives(ls[i], skipAddr)
      ensures FitsLength(xs[i], es[i])
    {
      if ls[i].Printed? {
        EventRoundTrip(ls[i].transfers, skipAddr);
      }
    }
    MergedExact(xs, es);
  }

  /** A log that cannot be read is not one of transfers that all survive. */
  lemma FailsNoneSurvive(evs: seq<LogEvent>, skipAddr: string)
    requires !Events(evs, skipAddr).Produced?
    ensures forall ls :: IsLogOf(evs, ls) ==> !AllSurvive(ls, skipAddr)
  {
    forall ls | IsLogOf(evs, ls)
      ensures !AllSurvive(ls, skipAddr)
    {
      TransferRoundTrip(ls, skipAddr);
    }
  }
}
