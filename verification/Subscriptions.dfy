/** Subscriptions to availability changes: identifiers are decimal strings, allotted by a scan of the list. */
module Subscriptions {
  import opened Prelude
  import opened Decimal
  import opened Models

  const MAX_UINT32 := 0xFFFF_FFFF

  datatype CreateData = CreateData(nfNssaiAvailabilityUri: string, taiList: seq<Tai>, expiry: Option<string>)

  datatype Subscription = Subscription(subscriptionId: string, subscriptionData: CreateData)

  datatype SubscriptionError = NotANumber | NoneAvailable | NotFound

  // ----- The scan

  /** uint32(strconv.Atoi(id)). */
  function IdValue(id: string): Option<int> {
    var v := ParseInt(id, LIMIT_64);
    if v.None? then None else Some(v.value % (MAX_UINT32 + 1))
  }

  /** The first k identifiers read 1, 2, .., k. */
  predicate Counts(subs: seq<Subscription>, k: nat) {
    k <= |subs| && forall i :: 0 <= i < k ==> IdValue(subs[i].subscriptionId) == Some(i + 1)
  }

  /** The length of the longest prefix that reads 1, 2, 3, .. */
  function Prefix(subs: seq<Subscription>): (k: nat)
    ensures Counts(subs, k)
    ensures k < |subs| ==> IdValue(subs[k].subscriptionId) != Some(k + 1)
  {
    PrefixFrom(subs, 0)
  }

  function PrefixFrom(subs: seq<Subscription>, k: nat): (r: nat)
    requires Counts(subs, k)
    ensures k <= r && Counts(subs, r)
    ensures r < |subs| ==> IdValue(subs[r].subscriptionId) != Some(r + 1)
    decreases |subs| - k
  {
    if k < |subs| && IdValue(subs[k].subscriptionId) == Some(k + 1) then PrefixFrom(subs, k + 1) else k
  }

  lemma PrefixIsLongest(subs: seq<Subscription>, k: nat)
    requires Counts(subs, k) && (k < |subs| ==> IdValue(subs[k].subscriptionId) != Some(k + 1))
    ensures Prefix(subs) == k
  {
  }

  /** What the scan answers: it stops after the prefix, at a gap, a non-numeral or the end. */
  function ScanAnswer(subs: seq<Subscription>): Result<string, SubscriptionError> {
    var k := Prefix(subs);
    if k >= MAX_UINT32 then Failure(NoneAvailable)
    else if k < |subs| && IdValue(subs[k].subscriptionId).None? then Failure(NotANumber)
    else Success(Itoa(k + 1))
  }

  /** getUnusedSubscriptionIDLocked. */
  method GetUnusedSubscriptionId(subs: seq<Subscription>) returns (r: Result<string, SubscriptionError>)
    ensures r == ScanAnswer(subs)
  {
    var idx := 1;
    var i := 0;
    while i < |subs|
      invariant idx == i + 1 && i < MAX_UINT32 && Counts(subs, i)
    {
      var tempId := ParseInt(subs[i].subscriptionId, LIMIT_64);
      if tempId.None? {
        PrefixIsLongest(subs, i);
        return Failure(NotANumber);
      }
      if tempId.value % (MAX_UINT32 + 1) == idx {
        if idx == MAX_UINT32 {
          assert Counts(subs, i + 1);
          PrefixAtLeast(subs, i + 1);
          return Failure(NoneAvailable);
        }
        idx := idx + 1;
      } else {
        PrefixIsLongest(subs, i);
        return Success(Itoa(idx));
      }
      i := i + 1;
    }
    PrefixIsLongest(subs, i);
    r := Success(Itoa(idx));
  }

  lemma PrefixAtLeast(subs: seq<Subscription>, k: nat)
    requires Counts(subs, k)
    ensures Prefix(subs) >= k
  {
  }

  // ----- POST and DELETE

  function Without(subs: seq<Subscription>, id: string): seq<Subscription> {
    if subs == [] then [] else if subs[0].subscriptionId == id then subs[1..] else [subs[0]] + Without(subs[1..], id)
  }

  lemma {:induction false} WithoutAt(subs: seq<Subscription>, id: string, i: nat)
    requires i <= |subs| && forall j :: 0 <= j < i ==> subs[j].subscriptionId != id
    requires i < |subs| ==> subs[i].subscriptionId == id
    ensures Without(subs, id) == if i == |subs| then subs else subs[..i] + subs[i + 1..]
  {
    if i > 0 {
      WithoutAt(subs[1..], id, i - 1);
      assert subs == [subs[0]] + subs[1..];
    }
  }

  class SubscriptionStore {
    var subscriptions: seq<Subscription>

    constructor ()
      ensures subscriptions == []
    {
      subscriptions := [];
    }

    /** The state change of POST (lock behaviour: see ConfigLock). */
    method Post(data: CreateData) returns (r: Result<string, SubscriptionError>)
      modifies this
      ensures r == ScanAnswer(old(subscriptions)) && subscriptions == Posted(old(subscriptions), data)
    {
      var tempId := GetUnusedSubscriptionId(subscriptions);
      if tempId.Failure? {
        return Failure(tempId.error);
      }
      subscriptions := subscriptions + [Subscription(tempId.value, data)];
      r := Success(tempId.value);
    }

    method Unsubscribe(id: string) returns (error: Option<SubscriptionError>)
      modifies this
      ensures subscriptions == Without(old(subscriptions), id)
      ensures error == if exists i :: 0 <= i < |old(subscriptions)| && old(subscriptions)[i].subscriptionId == id
                       then None else Some(NotFound)
    {
      for i := 0 to |subscriptions|
        invariant subscriptions == old(subscriptions)
        invariant forall j :: 0 <= j < i ==> subscriptions[j].subscriptionId != id
      {
        if subscriptions[i].subscriptionId == id {
          WithoutAt(subscriptions, id, i);
          subscriptions := subscriptions[..i] + subscriptions[i + 1..];
          return None;
        }
      }
      WithoutAt(subscriptions, id, |subscriptions|);
      error := Some(NotFound);
    }
  }

  /** The list after a POST: unchanged when the scan found no identifier. */
  function Posted(subs: seq<Subscription>, data: CreateData): seq<Subscription> {
    var id := ScanAnswer(subs);
    if id.Failure? then subs else subs + [Subscription(id.value, data)]
  }

  // ----- Lists of issued identifiers

  /** The identifier is the numeral of some 1 <= n <= 2^32 - 1. */
  predicate IsNumeral(id: string) {
    IdValue(id).Some? && 1 <= IdValue(id).value <= MAX_UINT32 && id == Itoa(IdValue(id).value)
  }

  predicate Issued(subs: seq<Subscription>) {
    forall i :: 0 <= i < |subs| ==> IsNumeral(subs[i].subscriptionId)
  }

  function Number(s: Subscription): int {
    if IdValue(s.subscriptionId).Some? then IdValue(s.subscriptionId).value else 0
  }

  predicate Ascending(subs: seq<Subscription>) {
    forall i, j :: 0 <= i < j < |subs| ==> Number(subs[i]) < Number(subs[j])
  }

  predicate Used(subs: seq<Subscription>, n: int) {
    exists i :: 0 <= i < |subs| && Number(subs[i]) == n
  }

  lemma NumeralValue(n: int)
    requires 1 <= n <= MAX_UINT32
    ensures IdValue(Itoa(n)) == Some(n)
  {
    NumeralWraps(n);
  }

  /** An identifier of 64 bits counts by its low 32 bits: 4294967297 reads as 1. */
  lemma NumeralWraps(n: int)
    requires -0x8000_0000_0000_0000 <= n < 0x8000_0000_0000_0000
    ensures IdValue(Itoa(n)) == Some(n % 4294967296)
  {
    ItoaRoundTrip(n, LIMIT_64);
  }

  lemma IdValueExactly(id: string)
    ensures IdValue(id).Some? <==> ParseInt(id, 0x8000_0000_0000_0000).Some?
    ensures IdValue(id).Some? ==> IdValue(id).value == ParseInt(id, 0x8000_0000_0000_0000).value % 4294967296
  {
  }

  lemma {:induction false} AscendingLowerBound(subs: seq<Subscription>, i: nat)
    requires Issued(subs) && Ascending(subs) && i < |subs|
    ensures Number(subs[i]) >= i + 1
  {
    if i > 0 {
      AscendingLowerBound(subs, i - 1);
    }
  }

  /** On a strictly ascending list the scan answers with the least unused positive number, unless it has run out. */
  lemma ScanFindsLeastUnused(subs: seq<Subscription>)
    requires Issued(subs) && Ascending(subs)
    ensures var k := |subs|;
      exists n :: 1 <= n <= k + 1 && !Used(subs, n) && (forall m :: 1 <= m < n ==> Used(subs, m))
        && ScanAnswer(subs) == if n <= 4294967295 then Success(Itoa(n)) else Failure(NoneAvailable)
  {
    var p := Prefix(subs);
    PrefixIsLeastUnused(subs);
    if p < |subs| {
      AscendingLowerBound(subs, p);
      assert IsNumeral(subs[p].subscriptionId);
    }
    var n := p + 1;
    assert 1 <= n <= |subs| + 1 && !Used(subs, n);
  }

  lemma PrefixIsLeastUnused(subs: seq<Subscription>)
    requires Issued(subs) && Ascending(subs)
    ensures var k := Prefix(subs) + 1; !Used(subs, k) && forall n :: 1 <= n < k ==> Used(subs, n)
  {
    var p := Prefix(subs);
    forall n | 1 <= n < p + 1 ensures Used(subs, n) {
      assert Number(subs[n - 1]) == n;
    }
    if p < |subs| {
      AscendingLowerBound(subs, p);
      forall i | 0 <= i < |subs| ensures Number(subs[i]) != p + 1 {
        if i < p { assert Number(subs[i]) == i + 1; }
      }
    }
  }

  /** Identifiers run out exactly when the list begins with 1, 2, .., 2^32 - 1. */
  lemma NoneLeftExactly(subs: seq<Subscription>)
    ensures ScanAnswer(subs) == Failure(NoneAvailable) <==>
      |subs| >= 4294967295 && forall i :: 0 <= i < 4294967295 ==> IdValue(subs[i].subscriptionId) == Some(i + 1)
  {
    if |subs| >= 4294967295 && forall i :: 0 <= i < 4294967295 ==> IdValue(subs[i].subscriptionId) == Some(i + 1) {
      PrefixAtLeast(subs, 4294967295);
    }
  }

  /** DELETE keeps the list strictly ascending. */
  lemma DeleteKeepsAscending(subs: seq<Subscription>, id: string)
    requires Issued(subs) && Ascending(subs)
    ensures Issued(Without(subs, id)) && Ascending(Without(subs, id))
  {
    var r := Without(subs, id);
    forall a | 0 <= a < |r| ensures IsNumeral(r[a].subscriptionId) {
      var i := WithoutIndex(subs, id, a);
    }
    forall a, b | 0 <= a < b < |r| ensures Number(r[a]) < Number(r[b]) {
      var i := WithoutIndex(subs, id, a);
      var j := WithoutIndex(subs, id, b);
    }
  }

  /** Where element a of the shortened list was before. */
  lemma WithoutIndex(subs: seq<Subscription>, id: string, a: nat) returns (i: nat)
    requires a < |Without(subs, id)|
    ensures i == (if a < FirstOf(subs, id) then a else a + 1) && i < |subs| && Without(subs, id)[a] == subs[i]
  {
    WithoutAt(subs, id, FirstOf(subs, id));
    i := if a < FirstOf(subs, id) then a else a + 1;
  }

  /** The index of the first subscription with this identifier, or |subs|. */
  function FirstOf(subs: seq<Subscription>, id: string): (i: nat)
    ensures i <= |subs| && forall j :: 0 <= j < i ==> subs[j].subscriptionId != id
    ensures i < |subs| ==> subs[i].subscriptionId == id
  {
    if subs == [] || subs[0].subscriptionId == id then 0 else 1 + FirstOf(subs[1..], id)
  }

  /** POST keeps the list strictly ascending exactly when the scan met no gap, or found no identifier. */
  lemma PostKeepsAscendingExactly(subs: seq<Subscription>, data: CreateData)
    requires Issued(subs) && Ascending(subs)
    ensures Issued(Posted(subs, data))
    ensures Ascending(Posted(subs, data)) <==> Prefix(subs) == |subs| || Prefix(subs) >= MAX_UINT32
  {
    var p, now := Prefix(subs), Posted(subs, data);
    if p < MAX_UINT32 {
      NumeralValue(p + 1);
      assert now == subs + [Subscription(Itoa(p + 1), data)];
      forall i | 0 <= i < |now| ensures IsNumeral(now[i].subscriptionId) {
        if i < |subs| { assert now[i] == subs[i]; }
      }
      assert Number(now[|subs|]) == p + 1;
      if p < |subs| {
        AscendingLowerBound(subs, p);
        assert Number(now[p]) >= p + 1;
      } else {
        AscendingSnoc(subs, now[|subs|]);
      }
    }
  }

  lemma AscendingSnoc(subs: seq<Subscription>, s: Subscription)
    requires Ascending(subs) && Counts(subs, |subs|) && Number(s) == |subs| + 1
    ensures Ascending(subs + [s])
  {
    var now := subs + [s];
    forall i, j | 0 <= i < j < |now| ensures Number(now[i]) < Number(now[j]) {
      if j == |subs| { assert Number(subs[i]) == i + 1; }
    }
  }

  /**
   * On any list, two POSTs in a row answer alike exactly when the first met a gap, which repeats its identifier, or
   * failed, which repeats its error.
   */
  lemma SecondPostRepeatsExactly(subs: seq<Subscription>, data: CreateData)
    ensures ScanAnswer(Posted(subs, data)) == ScanAnswer(subs) <==> ScanAnswer(subs).Failure? || Prefix(subs) < |subs|
  {
    var p, now := Prefix(subs), Posted(subs, data);
    if ScanAnswer(subs).Success? {
      NumeralValue(p + 1);
      if p < |subs| {
        PrefixIsLongest(now, p);
      } else {
        PrefixIsLongest(now, p + 1);
        if Itoa(p + 1) == Itoa(p + 2) {
          ItoaInjective(p + 1, p + 2);
        }
      }
    }
  }

  /** POST fails for a non-numeral, and changes nothing, exactly when one follows the prefix 1, 2, .. */
  lemma NonNumeralFails(subs: seq<Subscription>, data: CreateData)
    ensures ScanAnswer(subs) == Failure(NotANumber) <==>
      exists k: nat :: k < |subs| && k < MAX_UINT32 && Counts(subs, k) && IdValue(subs[k].subscriptionId).None?
    ensures ScanAnswer(subs) == Failure(NotANumber) ==> Posted(subs, data) == subs
  {
    if k: nat :| k < |subs| && k < MAX_UINT32 && Counts(subs, k) && IdValue(subs[k].subscriptionId).None? {
      PrefixIsLongest(subs, k);
    }
  }

  // ----- Runs

  datatype Op = PostOp(data: CreateData) | DeleteOp(id: string)

  function Step(subs: seq<Subscription>, op: Op): seq<Subscription> {
    if op.PostOp? then Posted(subs, op.data) else Without(subs, op.id)
  }

  function Run(subs: seq<Subscription>, ops: seq<Op>): seq<Subscription>
    decreases |ops|
  {
    if ops == [] then subs else Run(Step(subs, ops[0]), ops[1..])
  }

  /** No POST of the run meets a gap. */
  predicate NoGapMet(subs: seq<Subscription>, ops: seq<Op>)
    decreases |ops|
  {
    ops == []
    || ((ops[0].PostOp? ==> Prefix(subs) == |subs| || Prefix(subs) >= MAX_UINT32) && NoGapMet(Step(subs, ops[0]), ops[1..]))
  }

  /** In a run whose POSTs meet no gap, identifiers stay ascending, hence unique. */
  lemma {:induction false} RunKeepsAscending(subs: seq<Subscription>, ops: seq<Op>)
    requires Issued(subs) && Ascending(subs) && NoGapMet(subs, ops)
    ensures Issued(Run(subs, ops)) && Ascending(Run(subs, ops))
    decreases |ops|
  {
    if ops != [] {
      match ops[0] {
        case PostOp(data) => PostKeepsAscendingExactly(subs, data);
        case DeleteOp(id) => DeleteKeepsAscending(subs, id);
      }
      RunKeepsAscending(Step(subs, ops[0]), ops[1..]);
    }
  }

  /** POST, POST, DELETE 1, POST, POST: the last two both get 1. */
  lemma RunWithDuplicates(d: CreateData)
    ensures Run([], [PostOp(d), PostOp(d), DeleteOp("1"), PostOp(d), PostOp(d)])
            == [Subscription("2", d), Subscription("1", d), Subscription("1", d)]
  {
    var s1, s2 := [Subscription("1", d)], [Subscription("1", d), Subscription("2", d)];
    var s3, s4 := [Subscription("2", d)], [Subscription("2", d), Subscription("1", d)];
    OneAndTwo();
    PostsOf(d, "1", "2");
    assert Step(s2, DeleteOp("1")) == s3;
    var ops := [PostOp(d), PostOp(d), DeleteOp("1"), PostOp(d), PostOp(d)];
    assert ops[1..][1..] == ops[2..] && ops[2..][1..] == ops[3..] && ops[3..][1..] == ops[4..] && ops[4..][1..] == [];
    assert Run([], ops) == Run(s1, ops[1..]) == Run(s2, ops[2..]) == Run(s3, ops[3..]);
    assert Run(s3, ops[3..]) == Run(s4, ops[4..]) == Run(s4 + [Subscription("1", d)], []);
  }

  lemma PostGives(subs: seq<Subscription>, d: CreateData, k: nat)
    requires k < MAX_UINT32 && Counts(subs, k)
    requires k < |subs| ==> IdValue(subs[k].subscriptionId).Some? && IdValue(subs[k].subscriptionId) != Some(k + 1)
    ensures Posted(subs, d) == subs + [Subscription(Itoa(k + 1), d)]
  {
    PrefixIsLongest(subs, k);
  }

  lemma OneAndTwo()
    ensures Itoa(1) == "1" && Itoa(2) == "2" && IdValue("1") == Some(1) && IdValue("2") == Some(2)
  {
    assert Itoa(1) == "1" && Itoa(2) == "2";
    NumeralWraps(1);
    NumeralWraps(2);
  }

  lemma PostsOf(d: CreateData, one: string, two: string)
    requires one == Itoa(1) && two == Itoa(2)
    ensures Posted([], d) == [Subscription(one, d)]
    ensures Posted([Subscription(one, d)], d) == [Subscription(one, d), Subscription(two, d)]
    ensures Posted([Subscription(two, d)], d) == [Subscription(two, d), Subscription(one, d)]
    ensures var s := [Subscription(two, d), Subscription(one, d)]; Posted(s, d) == s + [Subscription(one, d)]
  {
    NumeralWraps(1);
    NumeralWraps(2);
    PostGives([], d, 0);
    PostAfter(Subscription(one, d), d);
    PostBehind(Subscription(two, d), [], d);
    PostBehind(Subscription(two, d), [Subscription(one, d)], d);
  }

  /** After 1 comes 2. */
  lemma PostAfter(first: Subscription, d: CreateData)
    requires IdValue(first.subscriptionId) == Some(1)
    ensures Posted([first], d) == [first] + [Subscription(Itoa(2), d)]
  {
    PostGives([first], d, 1);
  }

  /** Behind a head that is a number but not 1, POST gives 1. */
  lemma PostBehind(first: Subscription, rest: seq<Subscription>, d: CreateData)
    requires IdValue(first.subscriptionId).Some? && IdValue(first.subscriptionId).value > 1
    ensures Posted([first] + rest, d) == [first] + rest + [Subscription(Itoa(1), d)]
  {
    PostGives([first] + rest, d, 0);
  }
}
