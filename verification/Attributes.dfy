/** Bucketing a flat list of key/value entries into the fields of `TxEventsAttributes`. */
module Attributes {
  import opened Options

  /** One element of the JSON array.  Decoding reuses one holder, so an element without a key or without a value
      keeps that of the element before it. */
  datatype Entry = Malformed | Entry(key: Option<string>, value: Option<string>)

  /** The token stream: the opening token, the elements, the closing token. */
  datatype RawAttributes = RawAttributes(opens: bool, entries: seq<Entry>, closes: bool)

  datatype Pair = Pair(key: string, value: string)

  function Held(p: Pair, e: Entry): Pair {
    if e.Malformed? then p
    else Pair(if e.key.Some? then e.key.value else p.key, if e.value.Some? then e.value.value else p.value)
  }

  /** The holder after the entries. */
  function Holder(entries: seq<Entry>): Pair {
    if entries == [] then Pair("", "") else Held(Holder(entries[..|entries| - 1]), entries[|entries| - 1])
  }

  /** The pairs the loop sees: up to the first malformed element, missing parts taken from the element before. */
  function Resolve(entries: seq<Entry>): seq<Pair> {
    if entries == [] then []
    else
      var front := Resolve(entries[..|entries| - 1]);
      if HasMalformed(entries) then front else front + [Holder(entries)]
  }

  predicate HasMalformed(entries: seq<Entry>) {
    exists i :: 0 <= i < |entries| && entries[i].Malformed?
  }

  // ----- the buckets -----

  type Lists = map<string, seq<string>>

  /** The value of a `TxEventsAttributes`; the fields the loop never sets are left out. */
  datatype Attrs = Attrs(
    moduleName: string, action: string, completionTime: string,
    amount: seq<string>, sender: seq<string>, recipient: seq<string>, voter: seq<string>, feeder: seq<string>,
    validator: Lists, others: Lists)

  const NO_ATTRS := Attrs("", "", "", [], [], [], [], [], map[], map[])

  const VALIDATOR_KEYS: set<string> := {"validator", "destination_validator", "source_validator"}
  const SCALAR_KEYS: set<string> := {"module", "action", "completion_time"}
  const LIST_KEYS: set<string> := {"amount", "sender", "recipient", "voter", "feeder"}

  function Lookup(m: Lists, k: string): seq<string> {
    if k in m then m[k] else []
  }

  function AppendTo(m: Lists, k: string, v: string): Lists {
    m[k := Lookup(m, k) + [v]]
  }

  /** One turn of the loop. */
  function Put(a: Attrs, p: Pair): Attrs {
    if p.key in VALIDATOR_KEYS then a.(validator := AppendTo(a.validator, p.key, p.value))
    else if p.key == "sender" then a.(sender := a.sender + [p.value])
    else if p.key == "recipient" then a.(recipient := a.recipient + [p.value])
    else if p.key == "feeder" then a.(feeder := a.feeder + [p.value])
    else if p.key == "voter" then a.(voter := a.voter + [p.value])
    else if p.key == "module" then a.(moduleName := p.value)
    else if p.key == "action" then a.(action := p.value)
    else if p.key == "completion_time" then a.(completionTime := p.value)
    else if p.key == "amount" then a.(amount := a.amount + [p.value])
    else a.(others := AppendTo(a.others, p.key, p.value))
  }

  function Bucket(a: Attrs, ps: seq<Pair>): Attrs {
    if ps == [] then a else Put(Bucket(a, ps[..|ps| - 1]), ps[|ps| - 1])
  }

  class TxEventsAttributes {
    var moduleName: string
    var action: string
    var completionTime: string
    var amount: seq<string>
    var sender: seq<string>
    var recipient: seq<string>
    var voter: seq<string>
    var feeder: seq<string>
    var validator: Lists
    var others: Lists

    ghost function Contents(): Attrs
      reads this
    {
      Attrs(moduleName, action, completionTime, amount, sender, recipient, voter, feeder, validator, others)
    }

    constructor ()
      ensures Contents() == NO_ATTRS
    {
      moduleName, action, completionTime := "", "", "";
      amount, sender, recipient, voter, feeder := [], [], [], [], [];
      validator, others := map[], map[];
    }

    /** One turn: the switch on the key. */
    method Set(key: string, value: string)
      modifies this
      ensures Contents() == Put(old(Contents()), Pair(key, value))
    {
      match key
      case "validator" => validator := AppendTo(validator, key, value);
      case "destination_validator" => validator := AppendTo(validator, key, value);
      case "source_validator" => validator := AppendTo(validator, key, value);
      case "sender" => sender := sender + [value];
      case "recipient" => recipient := recipient + [value];
      case "feeder" => feeder := feeder + [value];
      case "voter" => voter := voter + [value];
      case "module" => moduleName := value;
      case "action" => action := value;
      case "completion_time" => completionTime := value;
      case "amount" => amount := amount + [value];
      case _ => others := AppendTo(others, key, value);
    }

    /** `UnmarshalJSON`: what was read before an error stays. */
    method UnmarshalJSON(body: RawAttributes) returns (ok: bool)
      modifies this
      ensures ok <==> body.opens && body.closes && !HasMalformed(body.entries)
      ensures Contents() == if body.opens then Bucket(old(Contents()), Resolve(body.entries)) else old(Contents())
    {
      if !body.opens {
        return false;
      }
      var es := body.entries;
      var key, value := "", "";
      for i := 0 to |es|
        invariant !HasMalformed(es[..i])
        invariant Pair(key, value) == Holder(es[..i])
        invariant Contents() == Bucket(old(Contents()), Resolve(es[..i]))
      {
        ResolveOneMore(es, i);
        if es[i].Malformed? {
          ResolveStops(es, i);
          return false;
        }
        if es[i].key.Some? {
          key := es[i].key.value;
        }
        if es[i].value.Some? {
          value := es[i].value.value;
        }
        BucketOneMore(old(Contents()), Resolve(es[..i]), Pair(key, value));
        Set(key, value);
      }
      assert es[..|es|] == es;
      return body.closes;
    }
  }

  lemma ResolveOneMore(es: seq<Entry>, i: nat)
    requires i < |es| && !HasMalformed(es[..i])
    ensures Holder(es[..i + 1]) == Held(Holder(es[..i]), es[i])
    ensures HasMalformed(es[..i + 1]) <==> es[i].Malformed?
    ensures !es[i].Malformed? ==> Resolve(es[..i + 1]) == Resolve(es[..i]) + [Held(Holder(es[..i]), es[i])]
  {
    assert es[..i + 1][..i] == es[..i];
    assert es[..i + 1][i] == es[i];
  }

  lemma {:induction false} ResolveStops(es: seq<Entry>, i: nat)
    requires i < |es| && es[i].Malformed?
    ensures HasMalformed(es) && Resolve(es) == Resolve(es[..i])
    decreases |es|
  {
    if |es| == i + 1 {
      assert es[..|es| - 1] == es[..i];
    } else {
      ResolveStops(es[..|es| - 1], i);
      assert es[..|es| - 1][..i] == es[..i];
    }
  }

  function KeyOf(e: Entry): Option<string> {
    if e.Malformed? then None else e.key
  }

  function ValueOf(e: Entry): Option<string> {
    if e.Malformed? then None else e.value
  }

  /** v is the last part given at or before i; it is empty if there is none. */
  ghost predicate Latest(part: Entry -> Option<string>, es: seq<Entry>, i: nat, v: string)
    requires i < |es|
  {
    || (v == "" && forall k :: 0 <= k <= i ==> part(es[k]).None?)
    || exists j :: 0 <= j <= i && part(es[j]) == Some(v) && forall k :: j < k <= i ==> part(es[k]).None?
  }

  lemma LatestOneMore(part: Entry -> Option<string>, es: seq<Entry>, i: nat, v: string)
    requires i < |es|
    requires part(es[i]).None? ==> if i == 0 then v == "" else Latest(part, es, i - 1, v)
    ensures Latest(part, es, i, if part(es[i]).Some? then part(es[i]).value else v)
  {
    if part(es[i]).Some? {
      assert part(es[i]) == Some(part(es[i]).value);
    }
  }

  lemma {:induction false} HolderLatest(es: seq<Entry>, i: nat)
    requires i < |es|
    ensures Latest(KeyOf, es, i, Holder(es[..i + 1]).key) && Latest(ValueOf, es, i, Holder(es[..i + 1]).value)
  {
    assert es[..i + 1][..i] == es[..i] && es[..i + 1][i] == es[i];
    if i > 0 {
      HolderLatest(es, i - 1);
    }
    LatestOneMore(KeyOf, es, i, Holder(es[..i]).key);
    LatestOneMore(ValueOf, es, i, Holder(es[..i]).value);
  }

  /** n is the place of the first malformed entry, or the number of entries if there is none. */
  predicate FirstMalformed(es: seq<Entry>, n: nat) {
    n <= |es| && !HasMalformed(es[..n]) && (n < |es| ==> es[n].Malformed?)
  }

  /** What the loop sees, said without the holder: of each entry before the first malformed one, the last key and the
      last value given at or before it, empty if none was given. */
  lemma ResolvesToLatest(es: seq<Entry>)
    ensures var n := |Resolve(es)|;
            && FirstMalformed(es, n)
            && forall i :: 0 <= i < n ==>
                 Latest(KeyOf, es, i, Resolve(es)[i].key) && Latest(ValueOf, es, i, Resolve(es)[i].value)
  {
    var n := MalformedPlace(es);
    if n < |es| {
      ResolveStops(es, n);
    } else {
      assert es[..n] == es;
    }
    ResolvesToHolders(es, n);
    forall i | 0 <= i < n
      ensures Latest(KeyOf, es, i, Resolve(es)[i].key) && Latest(ValueOf, es, i, Resolve(es)[i].value)
    {
      HolderLatest(es, i);
    }
  }

  lemma {:induction false} MalformedPlace(es: seq<Entry>) returns (n: nat)
    ensures FirstMalformed(es, n)
  {
    n := 0;
    if es != [] {
      var front := es[..|es| - 1];
      n := MalformedPlace(front);
      assert front[..n] == es[..n];
      if n == |front| && !es[n].Malformed? {
        n := |es|;
        assert es[..n] == front + [es[|front|]];
      }
    }
  }

  lemma {:induction false} ResolvesToHolders(es: seq<Entry>, n: nat)
    requires n <= |es| && !HasMalformed(es[..n])
    ensures |Resolve(es[..n])| == n
    ensures forall i :: 0 <= i < n ==> Resolve(es[..n])[i] == Holder(es[..i + 1])
  {
    if n > 0 {
      assert es[..n][..n - 1] == es[..n - 1];
      assert !HasMalformed(es[..n - 1]) by {
        assert forall i :: 0 <= i < n - 1 ==> es[..n - 1][i] == es[..n][i];
      }
      ResolvesToHolders(es, n - 1);
    }
  }

  predicate Complete(e: Entry) {
    e.Entry? && e.key.Some? && e.value.Some?
  }

  /** Complete entries are seen as they are; the holder carries nothing over. */
  lemma {:induction false} CompleteEntries(es: seq<Entry>)
    requires forall i :: 0 <= i < |es| ==> Complete(es[i])
    ensures !HasMalformed(es) && |Resolve(es)| == |es|
    ensures forall i :: 0 <= i < |es| ==>
              Complete(es[i]) && Resolve(es)[i] == Pair(es[i].key.value, es[i].value.value)
  {
    if es != [] {
      CompleteEntries(es[..|es| - 1]);
    }
  }

  lemma BucketOneMore(a: Attrs, ps: seq<Pair>, p: Pair)
    ensures Bucket(a, ps + [p]) == Put(Bucket(a, ps), p)
  {
    assert (ps + [p])[..|ps|] == ps;
  }

  // ----- a stable partition -----

  /** The values given for a key, in order. */
  function ValuesOf(ps: seq<Pair>, key: string): seq<string> {
    if ps == [] then []
    else
      var front := ValuesOf(ps[..|ps| - 1], key);
      if ps[|ps| - 1].key == key then front + [ps[|ps| - 1].value] else front
  }

  function LastOr(values: seq<string>, default: string): string {
    if values == [] then default else values[|values| - 1]
  }

  /** Every list is the old list followed by the values of its key in order. */
  ghost predicate ListsPartitioned(a: Attrs, ps: seq<Pair>, b: Attrs) {
    && b.amount == a.amount + ValuesOf(ps, "amount")
    && b.sender == a.sender + ValuesOf(ps, "sender")
    && b.recipient == a.recipient + ValuesOf(ps, "recipient")
    && b.voter == a.voter + ValuesOf(ps, "voter")
    && b.feeder == a.feeder + ValuesOf(ps, "feeder")
  }

  /** Every scalar is its key's last value. */
  ghost predicate ScalarsLast(a: Attrs, ps: seq<Pair>, b: Attrs) {
    && b.moduleName == LastOr(ValuesOf(ps, "module"), a.moduleName)
    && b.action == LastOr(ValuesOf(ps, "action"), a.action)
    && b.completionTime == LastOr(ValuesOf(ps, "completion_time"), a.completionTime)
  }

  predicate OtherKey(k: string) {
    k !in VALIDATOR_KEYS && k !in SCALAR_KEYS && k !in LIST_KEYS
  }

  /** A map of lists grown by the values of its keys: a key is present only if it was or had a value. */
  ghost predicate Grown(before: Lists, ps: seq<Pair>, after: Lists, k: string, mine: bool) {
    && Lookup(after, k) == Lookup(before, k) + (if mine then ValuesOf(ps, k) else [])
    && (k in after <==> k in before || (mine && ValuesOf(ps, k) != []))
  }

  /** The same for the maps. */
  ghost predicate MapsPartitioned(a: Attrs, ps: seq<Pair>, b: Attrs) {
    forall k ::
      && Grown(a.validator, ps, b.validator, k, k in VALIDATOR_KEYS)
      && Grown(a.others, ps, b.others, k, OtherKey(k))
  }

  lemma {:induction false} BucketLists(a: Attrs, ps: seq<Pair>)
    ensures ListsPartitioned(a, ps, Bucket(a, ps))
  {
    if ps != [] {
      var p := ps[|ps| - 1];
      BucketLists(a, ps[..|ps| - 1]);
      PutLists(Bucket(a, ps[..|ps| - 1]), p);
      ListGrows(a.amount, ps, "amount");
      ListGrows(a.sender, ps, "sender");
      ListGrows(a.recipient, ps, "recipient");
      ListGrows(a.voter, ps, "voter");
      ListGrows(a.feeder, ps, "feeder");
    }
  }

  /** The value of a pair, for its own key. */
  function ValueFor(p: Pair, key: string): seq<string> {
    if p.key == key then [p.value] else []
  }

  lemma PutLists(b: Attrs, p: Pair)
    ensures Put(b, p).amount == b.amount + ValueFor(p, "amount")
    ensures Put(b, p).sender == b.sender + ValueFor(p, "sender")
    ensures Put(b, p).recipient == b.recipient + ValueFor(p, "recipient")
    ensures Put(b, p).voter == b.voter + ValueFor(p, "voter")
    ensures Put(b, p).feeder == b.feeder + ValueFor(p, "feeder")
  {
    if p.key in LIST_KEYS {
      PutInList(b, p);
    } else {
      PutElsewhere(b, p);
    }
  }

  /** A list key adds its value to its own list only. */
  lemma PutInList(b: Attrs, p: Pair)
    requires p.key in LIST_KEYS
    ensures Put(b, p).amount == if p.key == "amount" then b.amount + [p.value] else b.amount
    ensures Put(b, p).sender == if p.key == "sender" then b.sender + [p.value] else b.sender
    ensures Put(b, p).recipient == if p.key == "recipient" then b.recipient + [p.value] else b.recipient
    ensures Put(b, p).voter == if p.key == "voter" then b.voter + [p.value] else b.voter
    ensures Put(b, p).feeder == if p.key == "feeder" then b.feeder + [p.value] else b.feeder
  {
    assert p.key !in VALIDATOR_KEYS;
  }

  lemma PutElsewhere(b: Attrs, p: Pair)
    requires p.key !in LIST_KEYS
    ensures var a := Put(b, p);
            && a.amount == b.amount && a.sender == b.sender && a.recipient == b.recipient
            && a.voter == b.voter && a.feeder == b.feeder
  {
  }

  lemma ListGrows(before: seq<string>, ps: seq<Pair>, key: string)
    requires ps != []
    ensures before + ValuesOf(ps, key)
         == before + ValuesOf(ps[..|ps| - 1], key) + ValueFor(ps[|ps| - 1], key)
  {
  }

  lemma {:induction false} BucketScalars(a: Attrs, ps: seq<Pair>)
    ensures ScalarsLast(a, ps, Bucket(a, ps))
  {
    if ps != [] {
      BucketScalars(a, ps[..|ps| - 1]);
    }
  }

  lemma {:induction false} BucketMaps(a: Attrs, ps: seq<Pair>)
    ensures MapsPartitioned(a, ps, Bucket(a, ps))
  {
    if ps != [] {
      var b, p := Bucket(a, ps[..|ps| - 1]), ps[|ps| - 1];
      BucketMaps(a, ps[..|ps| - 1]);
      forall k
        ensures Grown(a.validator, ps, Put(b, p).validator, k, k in VALIDATOR_KEYS)
        ensures Grown(a.others, ps, Put(b, p).others, k, OtherKey(k))
      {
        assert Grown(a.validator, ps[..|ps| - 1], b.validator, k, k in VALIDATOR_KEYS);
        PutMaps(b, p);
        OneMoreValue(a.validator, ps, b.validator, Put(b, p).validator, k, k in VALIDATOR_KEYS);
        OneMoreValue(a.others, ps, b.others, Put(b, p).others, k, OtherKey(k));
      }
    }
  }

  /** Which map a pair goes to. */
  lemma PutMaps(b: Attrs, p: Pair)
    ensures Put(b, p).validator
         == if p.key in VALIDATOR_KEYS then AppendTo(b.validator, p.key, p.value) else b.validator
    ensures Put(b, p).others == if OtherKey(p.key) then AppendTo(b.others, p.key, p.value) else b.others
  {
  }

  lemma OneMoreValue(before: Lists, ps: seq<Pair>, m: Lists, n: Lists, k: string, mine: bool)
    requires ps != [] && Grown(before, ps[..|ps| - 1], m, k, mine)
    requires var p := ps[|ps| - 1];
             if p.key == k then n == (if mine then AppendTo(m, k, p.value) else m)
             else Lookup(n, k) == Lookup(m, k) && (k in n <==> k in m)
    ensures Grown(before, ps, n, k, mine)
  {
  }

  /** A stable partition: the fields after the loop, read off the input. */
  lemma BucketPartitions(a: Attrs, ps: seq<Pair>)
    ensures ListsPartitioned(a, ps, Bucket(a, ps)) && ScalarsLast(a, ps, Bucket(a, ps))
    ensures MapsPartitioned(a, ps, Bucket(a, ps))
  {
    BucketLists(a, ps);
    BucketScalars(a, ps);
    BucketMaps(a, ps);
  }

  // ----- nothing is lost -----

  /** How many values a map of lists holds. */
  ghost function Volume(m: Lists): nat {
    if m == map[] then 0 else var k :| k in m; |m[k]| + Volume(m - {k})
  }

  lemma {:induction false} VolumeTake(m: Lists, k: string)
    requires k in m
    ensures Volume(m) == |m[k]| + Volume(m - {k})
    decreases |m|
  {
    var g :| g in m && Volume(m) == |m[g]| + Volume(m - {g});
    if g != k {
      VolumeTake(m - {g}, k);
      VolumeTake(m - {k}, g);
      assert m - {g} - {k} == m - {k} - {g};
    }
  }

  lemma VolumeAppend(m: Lists, k: string, v: string)
    ensures Volume(AppendTo(m, k, v)) == Volume(m) + 1
  {
    var n := AppendTo(m, k, v);
    VolumeTake(n, k);
    assert n - {k} == m - {k};
    if k in m {
      VolumeTake(m, k);
    } else {
      assert m - {k} == m;
    }
  }

  ghost function Size(a: Attrs): nat {
    |a.amount| + |a.sender| + |a.recipient| + |a.voter| + |a.feeder| + Volume(a.validator) + Volume(a.others)
  }

  function Scalars(ps: seq<Pair>): nat {
    |ValuesOf(ps, "module")| + |ValuesOf(ps, "action")| + |ValuesOf(ps, "completion_time")|
  }

  /** Every entry lands in exactly one list or is one of the three scalars. */
  lemma {:induction false} NothingLost(a: Attrs, ps: seq<Pair>)
    ensures Size(Bucket(a, ps)) + Scalars(ps) == Size(a) + |ps|
  {
    if ps != [] {
      NothingLost(a, ps[..|ps| - 1]);
      PutGrows(Bucket(a, ps[..|ps| - 1]), ps[|ps| - 1]);
    }
  }

  lemma PutGrows(b: Attrs, p: Pair)
    ensures Size(Put(b, p)) == Size(b) + if p.key in SCALAR_KEYS then 0 else 1
  {
    PutMaps(b, p);
    if p.key in VALIDATOR_KEYS {
      VolumeAppend(b.validator, p.key, p.value);
    } else if OtherKey(p.key) {
      VolumeAppend(b.others, p.key, p.value);
    }
  }
}
