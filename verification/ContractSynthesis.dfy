/** API contracts from the captured traffic: one for each method and endpoint, from its best event. */
module ContractSynthesis {
  import opened Wrappers
  import opened Text
  import opened TrafficCapture

  datatype Key = Key(verb: string, endpoint: string)

  datatype Contract = Contract(verb: string, endpoint: string, schema: set<string>, confidence: int)

  /** The fields that a response body shows, as its JSON is read. */
  type Reader = string -> set<string>

  function UpperChar(c: char): char {
    if 'a' <= c <= 'z' then (c as int - 32) as char else c
  }

  function ToUpper(s: string): string {
    seq(|s|, i requires 0 <= i < |s| => UpperChar(s[i]))
  }

  function Endpoint(url: Url): string {
    if url.NoUrl? then "" else url.scheme + "://" + url.netloc + url.path
  }

  predicate Usable(e: Entry) {
    e.method_ != "" && e.url.Url?
  }

  function KeyOf(e: Entry): Key {
    Key(ToUpper(e.method_), Endpoint(e.url))
  }

  predicate Fits(e: Entry, key: Key) {
    Usable(e) && KeyOf(e) == key
  }

  function Score(e: Entry): int {
    (if e.ok == Some(true) then 10 else 0)
    + (if e.contentType.Some? && Contains(ToLower(e.contentType.value), "json") then 10 else 0)
    + (if e.responseBody.Some? && e.responseBody.value != "" then 5 else 0)
  }

  predicate IsJson(e: Entry) {
    e.contentType.Some? && Contains(ToLower(e.contentType.value), "json")
  }

  /** How many of the two signs of a good answer the event has: success, and JSON. */
  function Signs(e: Entry): nat {
    (if e.ok == Some(true) then 1 else 0) + (if IsJson(e) then 1 else 0)
  }

  /** More signs of a good answer, or as many and a body where the other has none. */
  predicate Better(a: Entry, b: Entry) {
    Signs(a) > Signs(b) || (Signs(a) == Signs(b) && a.responseBody.GetOr("") != "" && b.responseBody.GetOr("") == "")
  }

  function ContractOf(e: Entry, endpoint: string, read: Reader): (r: Contract)
    ensures 40 <= r.confidence <= 90
  {
    var schema := if e.responseBody.Some? && e.responseBody.value != "" then read(e.responseBody.value) else {};
    var confidence := 40 + (if e.ok == Some(true) then 20 else 0) + (if schema != {} then 20 else 0)
                      + (if e.requestBody.Some? && e.requestBody.value != "" then 10 else 0);
    Contract(ToUpper(e.method_), endpoint, schema, if confidence > 95 then 95 else confidence)
  }

  /** Events go together by method, in capitals, and endpoint: the url without its query. */
  lemma KeysTell(e: Entry, query: string)
    requires e.url.Url?
    ensures KeyOf(e) == Key(ToUpper(e.method_), e.url.scheme + "://" + e.url.netloc + e.url.path)
    ensures KeyOf(e.(url := e.url.(query := query))) == KeyOf(e)
  {
  }

  /** A contract is for its event's method, in capitals, and the endpoint asked for; its schema is what the body
      shows; and success, a schema and a request body each earn it confidence, never enough to reach the cap. */
  lemma ContractsTell(e: Entry, endpoint: string, read: Reader)
    ensures var c := ContractOf(e, endpoint, read);
      var good, sent := e.ok == Some(true), e.requestBody.GetOr("") != "";
      && c.verb == ToUpper(e.method_) && c.endpoint == endpoint
      && c.schema == (if e.responseBody.GetOr("") == "" then {} else read(e.responseBody.value))
      && (c.confidence == 90 <==> good && c.schema != {} && sent)
      && (c.confidence == 80 <==> good && c.schema != {} && !sent)
      && (c.confidence == 70 <==> good != (c.schema != {}) && sent)
      && (c.confidence == 60 <==> good != (c.schema != {}) && !sent)
      && (c.confidence == 50 <==> !good && c.schema == {} && sent)
      && (c.confidence == 40 <==> !good && c.schema == {} && !sent)
  {
  }

  // ---------------------------------------------------------------- What synthesis promises

  /** Event `b` is the earliest of the best events with this key. */
  ghost predicate Best(log: seq<Entry>, key: Key, b: nat) {
    && b < |log| && Fits(log[b], key)
    && forall j :: 0 <= j < |log| && Fits(log[j], key) ==> !Better(log[j], log[b]) && (j < b ==> Better(log[b], log[j]))
  }

  /** Where the key first appears, or the end. */
  function FirstAt(log: seq<Entry>, key: Key): (n: nat)
    ensures n <= |log| && (n < |log| ==> Fits(log[n], key))
    ensures forall j :: 0 <= j < n ==> !Fits(log[j], key)
  {
    if log == [] then 0
    else
      var n := FirstAt(log[..|log| - 1], key);
      if n < |log| - 1 || Fits(log[|log| - 1], key) then n else |log|
  }

  function KeyOfContract(c: Contract): Key {
    Key(c.verb, c.endpoint)
  }

  ghost predicate Made(log: seq<Entry>, read: Reader, min: int, c: Contract) {
    c.confidence >= min && exists b: nat :: Best(log, KeyOfContract(c), b) && c == ContractOf(log[b], c.endpoint, read)
  }

  predicate InOrder(log: seq<Entry>, contracts: seq<Contract>) {
    forall i, j :: 0 <= i < j < |contracts| ==>
      FirstAt(log, KeyOfContract(contracts[i])) < FirstAt(log, KeyOfContract(contracts[j]))
  }

  /** Exactly the contracts of the best events that are confident enough, by first appearance of their key. */
  ghost predicate IsSynthesis(log: seq<Entry>, read: Reader, min: int, contracts: seq<Contract>) {
    && InOrder(log, contracts)
    && forall c :: c in contracts <==> Made(log, read, min, c)
  }

  // ---------------------------------------------------------------- Synthesis

  function Group(log: seq<Entry>, key: Key): seq<Entry> {
    if log == [] then []
    else
      var init, last := log[..|log| - 1], log[|log| - 1];
      if Fits(last, key) then Group(init, key) + [last] else Group(init, key)
  }

  ghost predicate BestOf(events: seq<Entry>, g: nat) {
    && g < |events|
    && forall j :: 0 <= j < |events| ==> !Better(events[j], events[g]) && (j < g ==> Better(events[g], events[j]))
  }

  /** The head of the events, sorted by falling score: sorting keeps equals in their order. */
  method PickBest(events: seq<Entry>) returns (best: Option<Entry>, ghost g: nat)
    ensures events == [] <==> best == None
    ensures events != [] ==> BestOf(events, g) && best == Some(events[g])
  {
    best, g := None, 0;
    for i := 0 to |events|
      invariant i == 0 <==> best == None
      invariant i > 0 ==> g < i && BestOf(events[..i], g) && best == Some(events[g])
    {
      if best.None? || Score(events[i]) > Score(best.value) {
        best, g := Some(events[i]), i;
      }
    }
    assert events[..|events|] == events;
  }

  ghost predicate Grouped(log: seq<Entry>, order: seq<Key>, groups: map<Key, seq<Entry>>) {
    && (forall key :: key in groups ==> groups[key] == Group(log, key))
    && (forall key :: key in order <==> key in groups)
    && (forall i, j :: 0 <= i < j < |order| ==> FirstAt(log, order[i]) < FirstAt(log, order[j]))
  }

  ghost predicate AllKeys(log: seq<Entry>, groups: map<Key, seq<Entry>>) {
    forall key :: key in groups <==> FirstAt(log, key) < |log|
  }

  lemma {:induction false} GroupHolds(log: seq<Entry>, key: Key, j: nat)
    requires j < |log| && Fits(log[j], key)
    ensures log[j] in Group(log, key)
  {
    if j < |log| - 1 { GroupHolds(log[..|log| - 1], key, j); }
  }

  /** The best event of a group is the best in the log. */
  lemma {:induction false} BestInLog(log: seq<Entry>, key: Key, g: nat) returns (b: nat)
    requires BestOf(Group(log, key), g)
    ensures Best(log, key, b) && log[b] == Group(log, key)[g]
  {
    var init, last := log[..|log| - 1], log[|log| - 1];
    var group := Group(init, key);
    if Fits(last, key) && g == |group| {
      b := |log| - 1;
      forall j | 0 <= j < b && Fits(log[j], key) ensures Better(last, log[j]) {
        GroupHolds(init, key, j);
        assert log[j] in Group(log, key)[..g];
      }
    } else {
      assert forall j :: 0 <= j < |group| ==> Group(log, key)[j] == group[j];
      b := BestInLog(init, key, g);
      assert Fits(last, key) ==> Group(log, key)[|group|] == last;
    }
  }

  lemma FirstGrows(init: seq<Entry>, last: Entry, key: Key)
    ensures FirstAt(init + [last], key) == if FirstAt(init, key) < |init| then FirstAt(init, key)
                                           else if Fits(last, key) then |init| else |init| + 1
  {
    assert (init + [last])[..|init|] == init;
  }

  lemma GroupGrows(init: seq<Entry>, last: Entry, key: Key)
    ensures Group(init + [last], key) == if Fits(last, key) then Group(init, key) + [last] else Group(init, key)
  {
    assert (init + [last])[..|init|] == init;
  }

  /** What one more event makes of the groups. */
  predicate Joins(last: Entry, order: seq<Key>, groups: map<Key, seq<Entry>>, order': seq<Key>, groups': map<Key, seq<Entry>>) {
    var key := KeyOf(last);
    if !Usable(last) then order' == order && groups' == groups
    else if key in groups then order' == order && groups' == groups[key := groups[key] + [last]]
    else order' == order + [key] && groups' == groups[key := [last]]
  }

  lemma GroupsGrow(init: seq<Entry>, last: Entry, order: seq<Key>, groups: map<Key, seq<Entry>>,
                   order': seq<Key>, groups': map<Key, seq<Entry>>)
    requires Grouped(init, order, groups) && AllKeys(init, groups) && Joins(last, order, groups, order', groups')
    ensures Grouped(init + [last], order', groups') && AllKeys(init + [last], groups')
  {
    var log := init + [last];
    if Usable(last) && KeyOf(last) !in groups { NotYetGrouped(init, KeyOf(last)); }
    forall key ensures key in groups' <==> FirstAt(log, key) < |log| { FirstGrows(init, last, key); }
    forall i, j | 0 <= i < j < |order'| ensures FirstAt(log, order'[i]) < FirstAt(log, order'[j]) {
      FirstGrows(init, last, order'[i]);
      FirstGrows(init, last, order'[j]);
      assert order'[i] in order;
      assert j < |order| ==> order[j] in order;
    }
    forall key | key in groups' ensures groups'[key] == Group(log, key) {
      GroupGrows(init, last, key);
      assert Fits(last, key) <==> Usable(last) && key == KeyOf(last);
    }
  }

  lemma {:induction false} NotYetGrouped(log: seq<Entry>, key: Key)
    requires FirstAt(log, key) == |log|
    ensures Group(log, key) == []
  {
    if log != [] { NotYetGrouped(log[..|log| - 1], key); }
  }

  lemma BestIsUnique(log: seq<Entry>, key: Key, a: nat, b: nat)
    requires Best(log, key, a) && Best(log, key, b)
    ensures a == b
  {
  }

  /** One turn of the grouping loop. */
  method GroupEvent(event: Entry, order: seq<Key>, groups: map<Key, seq<Entry>>)
    returns (order': seq<Key>, groups': map<Key, seq<Entry>>)
    ensures Joins(event, order, groups, order', groups')
  {
    order', groups' := order, groups;
    if event.method_ == "" || event.url.NoUrl? { return; }
    var key := Key(ToUpper(event.method_), Endpoint(event.url));
    if key !in groups {
      order', groups' := order + [key], groups[key := []];
      assert groups'[key] + [event] == [event];
    }
    groups' := groups'[key := groups'[key] + [event]];
  }

  /** The grouping loop of `synthesize_contracts`. */
  method GroupEvents(log: seq<Entry>) returns (order: seq<Key>, groups: map<Key, seq<Entry>>)
    ensures Grouped(log, order, groups) && AllKeys(log, groups)
  {
    order, groups := [], map[];
    for i := 0 to |log|
      invariant Grouped(log[..i], order, groups) && AllKeys(log[..i], groups)
    {
      var order', groups' := GroupEvent(log[i], order, groups);
      GroupsGrow(log[..i], log[i], order, groups, order', groups');
      assert log[..i + 1] == log[..i] + [log[i]];
      order, groups := order', groups';
    }
    assert log[..|log|] == log;
  }

  /** `synthesize_contracts`. */
  method SynthesizeContracts(log: seq<Entry>, min: int, read: Reader) returns (contracts: seq<Contract>)
    ensures IsSynthesis(log, read, min, contracts)
  {
    var order, groups := GroupEvents(log);
    contracts := [];
    for i := 0 to |order|
      invariant Partial(log, read, min, order[..i], contracts)
    {
      var key := order[i];
      GroupIsThere(log, key);
      var best, g := PickBest(groups[key]);
      ghost var b := BestInLog(log, key, g);
      var contract := ContractOf(best.value, key.endpoint, read);
      ghost var before := contracts;
      if contract.confidence >= min {
        contracts := contracts + [contract];
      }
      OneMore(log, read, min, order, i, before, b);
    }
    assert order[..|order|] == order;
    forall c | Made(log, read, min, c) ensures KeyOfContract(c) in order {
      var b: nat :| Best(log, KeyOfContract(c), b);
    }
  }

  /** The contracts of the keys seen so far, in their order. */
  ghost predicate Partial(log: seq<Entry>, read: Reader, min: int, keys: seq<Key>, contracts: seq<Contract>) {
    && InOrder(log, contracts)
    && forall c :: c in contracts <==> KeyOfContract(c) in keys && Made(log, read, min, c)
  }

  lemma GroupIsThere(log: seq<Entry>, key: Key)
    requires FirstAt(log, key) < |log|
    ensures Group(log, key) != []
  {
    GroupHolds(log, key, FirstAt(log, key));
  }

  lemma OneMore(log: seq<Entry>, read: Reader, min: int, order: seq<Key>, i: nat, before: seq<Contract>, b: nat)
    requires i < |order| && Partial(log, read, min, order[..i], before) && Best(log, order[i], b)
    requires forall m, n :: 0 <= m < n < |order| ==> FirstAt(log, order[m]) < FirstAt(log, order[n])
    ensures var made := ContractOf(log[b], order[i].endpoint, read);
      Partial(log, read, min, order[..i + 1], if made.confidence >= min then before + [made] else before)
  {
    var made := ContractOf(log[b], order[i].endpoint, read);
    var after := if made.confidence >= min then before + [made] else before;
    OneMade(log, read, min, order[i], b);
    assert order[..i + 1] == order[..i] + [order[i]];
    forall m, n | 0 <= m < n < |after|
      ensures FirstAt(log, KeyOfContract(after[m])) < FirstAt(log, KeyOfContract(after[n]))
    {
      assert m < |before| && after[m] == before[m] && before[m] in before;
      assert KeyOfContract(before[m]) in order[..i];
    }
    forall c ensures c in after <==> KeyOfContract(c) in order[..i + 1] && Made(log, read, min, c) {
      assert KeyOfContract(c) in order[..i + 1] <==> KeyOfContract(c) in order[..i] || KeyOfContract(c) == order[i];
      assert c in after <==> c in before || (c == made && made.confidence >= min);
    }
  }

  lemma OneMade(log: seq<Entry>, read: Reader, min: int, key: Key, b: nat)
    requires Best(log, key, b)
    ensures var made := ContractOf(log[b], key.endpoint, read);
      && KeyOfContract(made) == key
      && forall c :: KeyOfContract(c) == key ==> (Made(log, read, min, c) <==> c == made && made.confidence >= min)
  {
    forall c, a: nat | KeyOfContract(c) == key && Best(log, key, a) ensures a == b { BestIsUnique(log, key, a, b); }
  }

  // ---------------------------------------------------------------- What follows

  /** The traffic alone decides the contracts: one for each method and endpoint at most, in one order. */
  lemma {:induction false} SynthesisIsDecided(log: seq<Entry>, read: Reader, min: int, a: seq<Contract>, b: seq<Contract>)
    requires IsSynthesis(log, read, min, a) && IsSynthesis(log, read, min, b)
    ensures a == b
    ensures forall i, j :: 0 <= i < j < |a| ==> KeyOfContract(a[i]) != KeyOfContract(a[j])
  {
    SameInOrder(log, a, b);
  }

  lemma {:induction false} SameInOrder(log: seq<Entry>, a: seq<Contract>, b: seq<Contract>)
    requires InOrder(log, a) && InOrder(log, b) && forall c :: c in a <==> c in b
    ensures a == b
  {
    EmptyAlike(a, b);
    if a != [] {
      var n, m := |a| - 1, |b| - 1;
      LastsMeet(log, a, b);
      forall c ensures c in a[..n] <==> c in b[..m] {
        LastIsNotBefore(log, a, c);
        LastIsNotBefore(log, b, c);
      }
      SameInOrder(log, a[..n], b[..m]);
      assert a == a[..n] + [a[n]] && b == b[..m] + [b[m]];
    }
  }

  lemma LastsMeet(log: seq<Entry>, a: seq<Contract>, b: seq<Contract>)
    requires InOrder(log, a) && InOrder(log, b) && a != [] && b != [] && forall c :: c in a <==> c in b
    ensures a[|a| - 1] == b[|b| - 1]
  {
    var n, m := |a| - 1, |b| - 1;
    assert a[n] in b && b[m] in a;
    var i :| 0 <= i < |b| && b[i] == a[n];
    var j :| 0 <= j < |a| && a[j] == b[m];
    assert i == m && j == n;
  }

  lemma EmptyAlike(a: seq<Contract>, b: seq<Contract>)
    requires forall c :: c in a <==> c in b
    ensures a == [] <==> b == []
  {
    if a != [] { assert a[0] in b; }
    if b != [] { assert b[0] in a; }
  }

  lemma LastIsNotBefore(log: seq<Entry>, a: seq<Contract>, c: Contract)
    requires InOrder(log, a) && a != []
    ensures c in a[..|a| - 1] <==> c in a && c != a[|a| - 1]
  {
    assert a == a[..|a| - 1] + [a[|a| - 1]];
  }

  lemma {:induction false} SomeIsBest(log: seq<Entry>, key: Key, i: nat) returns (b: nat)
    requires i < |log| && Fits(log[i], key)
    ensures Best(log, key, b)
  {
    var init, last := log[..|log| - 1], |log| - 1;
    b := last;
    if j :| 0 <= j < last && Fits(init[j], key) {
      b := SomeIsBest(init, key, j);
      if Fits(log[last], key) && Better(log[last], log[b]) { b := last; }
    }
  }

  /** Every contract is of a call that was recorded with a method and a url; and, asked for with no more confidence than
      every contract has, every such call is covered by one. */
  lemma CallsAreCovered(log: seq<Entry>, read: Reader, min: int, contracts: seq<Contract>)
    requires IsSynthesis(log, read, min, contracts)
    ensures forall c :: c in contracts ==> c.confidence >= min && exists e :: e in log && e.method_ != "" && IsFor(c, e)
    ensures min <= 40 ==> forall e :: e in log && e.method_ != "" && e.url.Url? ==> exists c :: c in contracts && IsFor(c, e)
  {
    forall c | c in contracts ensures c.confidence >= min && exists e :: e in log && e.method_ != "" && IsFor(c, e) {
      var b: nat :| Best(log, KeyOfContract(c), b);
      assert log[b] in log;
    }
    if min <= 40 {
      forall e | e in log && e.method_ != "" && e.url.Url? ensures exists c :: c in contracts && IsFor(c, e) {
        var i :| 0 <= i < |log| && log[i] == e;
        var b := SomeIsBest(log, KeyOf(e), i);
        var c := ContractOf(log[b], KeyOf(e).endpoint, read);
        assert Made(log, read, min, c);
      }
    }
  }

  /** The contract is for the event's method and the event's url without its query. */
  predicate IsFor(c: Contract, e: Entry) {
    e.url.Url? && c.verb == ToUpper(e.method_) && c.endpoint == e.url.scheme + "://" + e.url.netloc + e.url.path
  }
}
