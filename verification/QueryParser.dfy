/** The exploded form of query parameters: parallel arrays under keys such as `prefix[sst]` and `prefix[sd]`. */
module QueryParser {
  import opened Prelude
  import opened Decimal
  import opened Models

  type Query = map<string, seq<string>>

  datatype ParseError = MissingSst | NotANumber | NotABool

  /** The value of a field that was not given. */
  const ZERO_SNSSAI := Snssai(0, None)

  function Values(query: Query, key: string): seq<string> {
    if key in query then query[key] else []
  }

  function At(values: seq<string>, i: nat): string {
    if i < |values| then values[i] else ""
  }

  function Max(a: nat, b: nat): nat {
    if a < b then b else a
  }

  function ParseSnssaiValues(sst: string, sd: string): Result<Option<Snssai>, ParseError> {
    if sst == "" then (if sd != "" then Failure(MissingSst) else Success(None))
    else
      var value := ParseInt(sst, LIMIT_32);
      if value.None? || !(-0x8000_0000 <= value.value < 0x8000_0000) then Failure(NotANumber)
      else Success(Some(Snssai(value.value, if sd != "" then Some(sd) else None)))
  }

  /** strconv.ParseBool. */
  function ParseBool(s: string): Option<bool> {
    if s in ["1", "t", "T", "TRUE", "true", "True"] then Some(true)
    else if s in ["0", "f", "F", "FALSE", "false", "False"] then Some(false)
    else None
  }

  /** An SD needs an SST, and an SST is a numeral of 32 bits; an empty text is an absent field. */
  lemma ParseSnssaiExactly(sst: string, sd: string, s: Snssai)
    ensures ParseSnssaiValues(sst, sd) == Failure(MissingSst) <==> sst == "" && sd != ""
    ensures ParseSnssaiValues(sst, sd) == Success(None) <==> sst == "" && sd == ""
    ensures ParseSnssaiValues(sst, sd) == Success(Some(s)) <==>
      sst != "" && ParseInt(sst, 2147483648) == Some(s.sst) && s.sd == if sd == "" then None else Some(sd)
    ensures ParseSnssaiValues(sst, sd) == Failure(NotANumber) <==> sst != "" && ParseInt(sst, 2147483648).None?
  {
    ParseIntInWidth(sst, 2147483648);
  }

  lemma ParseIntInWidth(text: string, limit: nat)
    requires limit > 0
    ensures ParseInt(text, limit).Some? ==> -(limit as int) <= ParseInt(text, limit).value < limit
  {
  }

  /** The texts of booleans. */
  lemma ParseBoolExactly(text: string)
    ensures ParseBool(text) == Some(true) <==>
      text == "1" || text == "t" || text == "T" || text == "true" || text == "True" || text == "TRUE"
    ensures ParseBool(text) == Some(false) <==>
      text == "0" || text == "f" || text == "F" || text == "false" || text == "False" || text == "FALSE"
  {
  }

  // ----- S-NSSAI entries

  /** The first n slots of the arrays; the error of the first bad one. */
  function Slots(ssts: seq<string>, sds: seq<string>, n: nat): Result<seq<Option<Snssai>>, ParseError> {
    if n == 0 then Success([])
    else
      var front := Slots(ssts, sds, n - 1);
      if front.Failure? then front
      else
        var slot := ParseSnssaiValues(At(ssts, n - 1), At(sds, n - 1));
        if slot.Failure? then Failure(slot.error) else Success(front.value + [slot.value])
  }

  function AllSlots(query: Query, prefix: string): Result<seq<Option<Snssai>>, ParseError> {
    var ssts, sds := Values(query, prefix + "[sst]"), Values(query, prefix + "[sd]");
    Slots(ssts, sds, Max(|ssts|, |sds|))
  }

  function SlotAt(slots: seq<Option<Snssai>>, i: nat): Option<Snssai> {
    if i < |slots| then slots[i] else None
  }

  function OrZero(slot: Option<Snssai>): Snssai {
    if slot.Some? then slot.value else ZERO_SNSSAI
  }

  function Compact(slots: seq<Option<Snssai>>): seq<Snssai> {
    FilterMap((slot: Option<Snssai>) => slot, slots)
  }

  lemma {:induction false} SlotsFail(ssts: seq<string>, sds: seq<string>, i: nat, n: nat)
    requires i <= n && Slots(ssts, sds, i).Failure?
    ensures Slots(ssts, sds, n) == Slots(ssts, sds, i)
  {
    if i < n {
      SlotsFail(ssts, sds, i, n - 1);
    }
  }

  /** The arrays fail exactly with the error of the first bad slot. */
  lemma {:induction false} SlotsFailExactly(ssts: seq<string>, sds: seq<string>, n: nat, e: ParseError)
    ensures Slots(ssts, sds, n) == Failure(e) <==>
      exists i :: 0 <= i < n && ParseSnssaiValues(At(ssts, i), At(sds, i)) == Failure(e)
        && forall j :: 0 <= j < i ==> ParseSnssaiValues(At(ssts, j), At(sds, j)).Success?
    ensures Slots(ssts, sds, n).Success? <==>
      forall j :: 0 <= j < n ==> ParseSnssaiValues(At(ssts, j), At(sds, j)).Success?
  {
    if n > 0 {
      SlotsFailExactly(ssts, sds, n - 1, e);
    }
  }

  /** items and present hold the given slots, and after them nothing. */
  predicate Holds(items: seq<Snssai>, present: seq<bool>, slots: seq<Option<Snssai>>) {
    && |slots| <= |items| == |present|
    && forall k :: 0 <= k < |items| ==>
         items[k] == OrZero(SlotAt(slots, k)) && (present[k] <==> SlotAt(slots, k).Some?)
  }

  lemma HoldsNext(items: seq<Snssai>, present: seq<bool>, slots: seq<Option<Snssai>>, item: Option<Snssai>)
    requires Holds(items, present, slots) && |slots| < |items|
    ensures item.None? ==> Holds(items, present, slots + [item])
    ensures item.Some? ==> Holds(items[|slots| := item.value], present[|slots| := true], slots + [item])
  {
  }

  lemma SlotsSnoc(ssts: seq<string>, sds: seq<string>, i: nat, slots: seq<Option<Snssai>>)
    requires Slots(ssts, sds, i) == Success(slots)
    ensures var item := ParseSnssaiValues(At(ssts, i), At(sds, i));
      Slots(ssts, sds, i + 1) == if item.Failure? then Failure(item.error) else Success(slots + [item.value])
  {
  }

  /** The parallel arrays items and present. */
  method ParseExplodedSnssaiEntries(query: Query, prefix: string)
    returns (r: Result<(seq<Snssai>, seq<bool>), ParseError>)
    ensures var slots := AllSlots(query, prefix);
      if slots.Failure? then r == Failure(slots.error)
      else r.Success? && |r.value.0| == |slots.value| && Holds(r.value.0, r.value.1, slots.value)
  {
    var sstValues, sdValues := Values(query, prefix + "[sst]"), Values(query, prefix + "[sd]");
    var count := Max(|sstValues|, |sdValues|);
    var items := new Snssai[count](_ => ZERO_SNSSAI);
    var present := new bool[count](_ => false);
    ghost var slots := [];
    for i := 0 to count
      invariant Slots(sstValues, sdValues, i) == Success(slots) && |slots| == i
      invariant Holds(items[..], present[..], slots)
    {
      var item := ParseSnssaiValues(At(sstValues, i), At(sdValues, i));
      SlotsSnoc(sstValues, sdValues, i, slots);
      if item.Failure? {
        SlotsFail(sstValues, sdValues, i + 1, count);
        return Failure(item.error);
      }
      HoldsNext(items[..], present[..], slots, item.value);
      slots := slots + [item.value];
      if item.value.None? {
        continue;
      }
      items[i] := item.value.value;
      present[i] := true;
    }
    r := Success((items[..], present[..]));
  }

  method ParseExplodedSnssaiList(query: Query, prefix: string) returns (r: Result<seq<Snssai>, ParseError>)
    ensures var slots := AllSlots(query, prefix);
      r == if slots.Failure? then Failure(slots.error) else Success(Compact(slots.value))
  {
    var entries := ParseExplodedSnssaiEntries(query, prefix);
    if entries.Failure? {
      return Failure(entries.error);
    }
    var (indexedItems, present) := entries.value;
    ghost var slots := AllSlots(query, prefix).value;
    var items := [];
    for i := 0 to |indexedItems|
      invariant items == Compact(slots[..i])
    {
      FilterMapSnoc((slot: Option<Snssai>) => slot, slots, i);
      if present[i] {
        items := items + [indexedItems[i]];
      }
    }
    assert slots[..|slots|] == slots;
    r := Success(items);
  }

  // ----- Mapping entries

  /** The first n mapping entries that have a serving or a home S-NSSAI. */
  function Pairings(serving: seq<Option<Snssai>>, home: seq<Option<Snssai>>, n: nat): seq<MappingOfSnssai> {
    if n == 0 then []
    else
      var s, h := SlotAt(serving, n - 1), SlotAt(home, n - 1);
      Pairings(serving, home, n - 1) + if s.Some? || h.Some? then [MappingOfSnssai(OrZero(s), OrZero(h))] else []
  }

  /** A side that ends early is as good as one with gaps to the end. */
  lemma {:induction false} EarlyEndIsGap(serving: seq<Option<Snssai>>, home: seq<Option<Snssai>>, n: nat)
    ensures Pairings(serving + [None], home, n) == Pairings(serving, home, n)
    ensures Pairings(serving, home + [None], n) == Pairings(serving, home, n)
  {
    if n > 0 {
      EarlyEndIsGap(serving, home, n - 1);
      assert SlotAt(serving + [None], n - 1) == SlotAt(serving, n - 1);
      assert SlotAt(home + [None], n - 1) == SlotAt(home, n - 1);
    }
  }

  method ParseExplodedMappingOfSnssaiList(query: Query, prefix: string)
    returns (r: Result<seq<MappingOfSnssai>, ParseError>)
    ensures var serving, home := AllSlots(query, prefix + "[servingSnssai]"), AllSlots(query, prefix + "[homeSnssai]");
      r == if serving.Failure? then Failure(serving.error) else if home.Failure? then Failure(home.error)
           else Success(Pairings(serving.value, home.value, Max(|serving.value|, |home.value|)))
  {
    var serving := ParseExplodedSnssaiEntries(query, prefix + "[servingSnssai]");
    if serving.Failure? {
      return Failure(serving.error);
    }
    var home := ParseExplodedSnssaiEntries(query, prefix + "[homeSnssai]");
    if home.Failure? {
      return Failure(home.error);
    }
    ghost var ss, hs := AllSlots(query, prefix + "[servingSnssai]").value, AllSlots(query, prefix + "[homeSnssai]").value;
    var (servingSnssai, servingPresent) := serving.value;
    var (homeSnssai, homePresent) := home.value;
    var items := [];
    for i := 0 to Max(|servingSnssai|, |homeSnssai|)
      invariant items == Pairings(ss, hs, i)
    {
      var item := MappingOfSnssai(ZERO_SNSSAI, ZERO_SNSSAI);
      var found := false;
      if i < |servingPresent| && servingPresent[i] {
        item := item.(servingSnssai := servingSnssai[i]);
        found := true;
      }
      if i < |homePresent| && homePresent[i] {
        item := item.(homeSnssai := homeSnssai[i]);
        found := true;
      }
      if found {
        items := items + [item];
      }
    }
    r := Success(items);
  }

  // ----- Subscribed entries

  function GroupsAt(snssais: seq<Snssai>, nssrgs: seq<string>, i: nat): seq<string> {
    if |snssais| == 1 && |nssrgs| > 1 then nssrgs else if At(nssrgs, i) != "" then [At(nssrgs, i)] else []
  }

  function SubscribedAt(snssais: seq<Snssai>, defaults: seq<string>, nssrgs: seq<string>, i: nat)
    : Result<Option<SubscribedSnssai>, ParseError>
  {
    var flag := ParseBool(At(defaults, i));
    var groups := GroupsAt(snssais, nssrgs, i);
    if At(defaults, i) != "" && flag.None? then Failure(NotABool)
    else if i >= |snssais| && At(defaults, i) == "" && groups == [] then Success(None)
    else Success(Some(SubscribedSnssai(if i < |snssais| then snssais[i] else ZERO_SNSSAI,
                                       if At(defaults, i) == "" then None else flag, groups)))
  }

  /** The first n entries, as the code zips them: the S-NSSAIs have already lost their gaps. */
  function Zipped(snssais: seq<Snssai>, defaults: seq<string>, nssrgs: seq<string>, n: nat)
    : Result<seq<SubscribedSnssai>, ParseError>
  {
    if n == 0 then Success([])
    else
      var front := Zipped(snssais, defaults, nssrgs, n - 1);
      if front.Failure? then front
      else
        var item := SubscribedAt(snssais, defaults, nssrgs, n - 1);
        if item.Failure? then Failure(item.error) else Success(front.value + Optional(item.value))
  }

  function ZipAll(snssais: seq<Snssai>, defaults: seq<string>, nssrgs: seq<string>): Result<seq<SubscribedSnssai>, ParseError> {
    Zipped(snssais, defaults, nssrgs, Max(|snssais|, Max(|defaults|, |nssrgs|)))
  }

  lemma {:induction false} ZippedFail(snssais: seq<Snssai>, defaults: seq<string>, nssrgs: seq<string>, i: nat, n: nat)
    requires i <= n && Zipped(snssais, defaults, nssrgs, i).Failure?
    ensures Zipped(snssais, defaults, nssrgs, n) == Zipped(snssais, defaults, nssrgs, i)
  {
    if i < n {
      ZippedFail(snssais, defaults, nssrgs, i, n - 1);
    }
  }

  method ParseExplodedSubscribedSnssaiList(query: Query, prefix: string)
    returns (r: Result<seq<SubscribedSnssai>, ParseError>)
    ensures var slots := AllSlots(query, prefix + "[subscribedSnssai]");
      r == if slots.Failure? then Failure(slots.error)
           else ZipAll(Compact(slots.value), Values(query, prefix + "[defaultIndication]"),
                       Values(query, prefix + "[subscribedNsSrgList]"))
  {
    var snssais := ParseExplodedSnssaiList(query, prefix + "[subscribedSnssai]");
    if snssais.Failure? {
      return Failure(snssais.error);
    }
    var subscribedSnssai := snssais.value;
    var defaultValues := Values(query, prefix + "[defaultIndication]");
    var nssrgValues := Values(query, prefix + "[subscribedNsSrgList]");
    var count := Max(|subscribedSnssai|, Max(|defaultValues|, |nssrgValues|));
    var items := [];
    for i := 0 to count
      invariant Zipped(subscribedSnssai, defaultValues, nssrgValues, i) == Success(items)
    {
      var item := ZipItem(subscribedSnssai, defaultValues, nssrgValues, i);
      if item.Failure? {
        ZippedFail(subscribedSnssai, defaultValues, nssrgValues, i + 1, count);
        return Failure(item.error);
      }
      items := items + Optional(item.value);
    }
    r := Success(items);
  }

  /** The body of the loop: the i-th entry, if it has any field. */
  method ZipItem(subscribedSnssai: seq<Snssai>, defaultValues: seq<string>, nssrgValues: seq<string>, i: nat)
    returns (r: Result<Option<SubscribedSnssai>, ParseError>)
    ensures r == SubscribedAt(subscribedSnssai, defaultValues, nssrgValues, i)
  {
    var item := SubscribedSnssai(ZERO_SNSSAI, None, []);
    var found := false;
    if i < |subscribedSnssai| {
      item := item.(subscribedSnssai := subscribedSnssai[i]);
      found := true;
    }
    if i < |defaultValues| && defaultValues[i] != "" {
      var defaultValue := ParseBool(defaultValues[i]);
      if defaultValue.None? {
        return Failure(NotABool);
      }
      item := item.(defaultIndication := defaultValue);
      found := true;
    }
    if |subscribedSnssai| == 1 && |nssrgValues| > 1 {
      item := item.(subscribedNsSrgList := nssrgValues);
      found := true;
    } else if i < |nssrgValues| && nssrgValues[i] != "" {
      item := item.(subscribedNsSrgList := [nssrgValues[i]]);
      found := true;
    }
    r := Success(if found then Some(item) else None);
  }
}
