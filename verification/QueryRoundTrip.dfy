/** Printing S-NSSAIs as parallel arrays and parsing them back. */
module QueryRoundTrip {
  import opened Prelude
  import opened Decimal
  import opened Models
  import opened QueryParser

  // ----- The printer; a gap prints as empty strings

  function SstText(slot: Option<Snssai>): string {
    if slot.None? then "" else Itoa(slot.value.sst)
  }

  function SdText(slot: Option<Snssai>): string {
    if slot.None? then "" else SnssaiToKey(slot.value).sd
  }

  function PrintSlots(prefix: string, slots: seq<Option<Snssai>>): Query {
    map[prefix + "[sst]" := Map(SstText, slots), prefix + "[sd]" := Map(SdText, slots)]
  }

  function Present(list: seq<Snssai>): seq<Option<Snssai>> {
    Map((s: Snssai) => Some(s), list)
  }

  /** The S-NSSAI with an empty SD written as an absent one. */
  function Canonical(s: Snssai): Snssai {
    if s.sd == Some("") then s.(sd := None) else s
  }

  function CanonicalSlot(slot: Option<Snssai>): Option<Snssai> {
    if slot.None? then None else Some(Canonical(slot.value))
  }

  lemma SlotRoundTrip(slot: Option<Snssai>)
    ensures ParseSnssaiValues(SstText(slot), SdText(slot)) == Success(CanonicalSlot(slot))
  {
    if slot.Some? {
      ItoaRoundTrip(slot.value.sst, LIMIT_32);
    }
  }

  lemma PrintedSlotAt(slots: seq<Option<Snssai>>, i: nat)
    requires i < |slots|
    ensures ParseSnssaiValues(At(Map(SstText, slots), i), At(Map(SdText, slots), i)) == Success(CanonicalSlot(slots[i]))
  {
    SlotRoundTrip(slots[i]);
    assert At(Map(SstText, slots), i) == SstText(slots[i]) && At(Map(SdText, slots), i) == SdText(slots[i]);
  }

  lemma {:induction false} SlotsAre(ssts: seq<string>, sds: seq<string>, slots: seq<Option<Snssai>>, n: nat)
    requires n <= |slots|
    requires forall i :: 0 <= i < n ==> ParseSnssaiValues(At(ssts, i), At(sds, i)) == Success(slots[i])
    ensures Slots(ssts, sds, n) == Success(slots[..n])
  {
    if n > 0 {
      SlotsAre(ssts, sds, slots, n - 1);
      assert slots[..n] == slots[..n - 1] + [slots[n - 1]];
    }
  }

  /** The slots of any two arrays, of whatever lengths: the longer one counts, and each slot is read by itself. */
  lemma AllSlotsExactly(query: Query, prefix: string, slots: seq<Option<Snssai>>)
    ensures AllSlots(query, prefix) == Success(slots) <==>
      var ssts, sds := Values(query, prefix + "[sst]"), Values(query, prefix + "[sd]");
      && |slots| == (if |ssts| < |sds| then |sds| else |ssts|)
      && forall i :: 0 <= i < |slots| ==> ParseSnssaiValues(At(ssts, i), At(sds, i)) == Success(slots[i])
  {
    var ssts, sds := Values(query, prefix + "[sst]"), Values(query, prefix + "[sd]");
    var n := if |ssts| < |sds| then |sds| else |ssts|;
    if AllSlots(query, prefix) == Success(slots) {
      SlotsGive(ssts, sds, n);
    }
    if |slots| == n && forall i :: 0 <= i < n ==> ParseSnssaiValues(At(ssts, i), At(sds, i)) == Success(slots[i]) {
      SlotsAre(ssts, sds, slots, n);
      assert slots[..n] == slots;
    }
  }

  lemma {:induction false} SlotsGive(ssts: seq<string>, sds: seq<string>, n: nat)
    requires Slots(ssts, sds, n).Success?
    ensures |Slots(ssts, sds, n).value| == n
    ensures forall i :: 0 <= i < n ==> ParseSnssaiValues(At(ssts, i), At(sds, i)) == Success(Slots(ssts, sds, n).value[i])
  {
    if n > 0 {
      SlotsGive(ssts, sds, n - 1);
    }
  }

  lemma SuffixesDiffer(prefix: string, a: string, b: string)
    requires a != b
    ensures prefix + a != prefix + b
  {
    assert (prefix + a)[|prefix|..] == a;
  }

  /** Whatever the gaps, the entries come back slot by slot. */
  lemma EntriesRoundTrip(query: Query, prefix: string, slots: seq<Option<Snssai>>)
    requires Values(query, prefix + "[sst]") == Map(SstText, slots) && Values(query, prefix + "[sd]") == Map(SdText, slots)
    ensures AllSlots(query, prefix) == Success(Map(CanonicalSlot, slots))
  {
    var back := Map(CanonicalSlot, slots);
    forall i | 0 <= i < |slots|
      ensures ParseSnssaiValues(At(Map(SstText, slots), i), At(Map(SdText, slots), i)) == Success(back[i])
    {
      PrintedSlotAt(slots, i);
    }
    SlotsAre(Map(SstText, slots), Map(SdText, slots), back, |slots|);
    assert back[..|slots|] == back;
  }

  lemma PrintedSlots(prefix: string, slots: seq<Option<Snssai>>)
    ensures AllSlots(PrintSlots(prefix, slots), prefix) == Success(Map(CanonicalSlot, slots))
  {
    SuffixesDiffer(prefix, "[sst]", "[sd]");
    EntriesRoundTrip(PrintSlots(prefix, slots), prefix, slots);
  }

  lemma {:induction false} CompactPresent(list: seq<Snssai>)
    ensures Compact(Map(CanonicalSlot, Present(list))) == Map(Canonical, list)
  {
    if list != [] {
      var n := |list| - 1;
      CompactPresent(list[..n]);
      assert Map(CanonicalSlot, Present(list))[..n] == Map(CanonicalSlot, Present(list[..n]));
      assert Map(Canonical, list) == Map(Canonical, list[..n]) + [Canonical(list[n])];
    }
  }

  /**
   * A list of S-NSSAIs comes back with the same keys, and as the same list exactly when no SD is the empty string.
   */
  lemma ListRoundTrip(prefix: string, list: seq<Snssai>)
    ensures var slots := AllSlots(PrintSlots(prefix, Present(list)), prefix);
      && slots.Success? && |Compact(slots.value)| == |list|
      && (forall i :: 0 <= i < |list| ==> SnssaiToKey(Compact(slots.value)[i]) == SnssaiToKey(list[i]))
      && (Compact(slots.value) == list <==> forall i :: 0 <= i < |list| ==> list[i].sd != Some(""))
  {
    PrintedSlots(prefix, Present(list));
    CompactPresent(list);
    var back := Map(Canonical, list);
    if i :| 0 <= i < |list| && list[i].sd == Some("") {
      assert back[i] != list[i];
    } else {
      assert forall i :: 0 <= i < |list| ==> back[i] == list[i];
    }
  }

  // ----- Mappings

  datatype Pair = Pair(serving: Option<Snssai>, home: Option<Snssai>)

  function ServingSlots(pairs: seq<Pair>): seq<Option<Snssai>> {
    Map((p: Pair) => p.serving, pairs)
  }

  function HomeSlots(pairs: seq<Pair>): seq<Option<Snssai>> {
    Map((p: Pair) => p.home, pairs)
  }

  /** The mapping a pair stands for; None for a gap on both sides. */
  function MappingOf(p: Pair): Option<MappingOfSnssai> {
    if p.serving.None? && p.home.None? then None
    else Some(MappingOfSnssai(OrZero(CanonicalSlot(p.serving)), OrZero(CanonicalSlot(p.home))))
  }

  function PrintPairs(prefix: string, pairs: seq<Pair>): Query {
    PrintSlots(prefix + "[servingSnssai]", ServingSlots(pairs)) + PrintSlots(prefix + "[homeSnssai]", HomeSlots(pairs))
  }

  lemma {:induction false} PairingsRoundTrip(pairs: seq<Pair>, n: nat)
    requires n <= |pairs|
    ensures Pairings(Map(CanonicalSlot, ServingSlots(pairs)), Map(CanonicalSlot, HomeSlots(pairs)), n)
            == FilterMap(MappingOf, pairs[..n])
  {
    if n > 0 {
      PairingsRoundTrip(pairs, n - 1);
      FilterMapSnoc(MappingOf, pairs, n - 1);
    }
  }

  lemma MappingKeysDiffer(prefix: string)
    ensures var keys := [prefix + "[servingSnssai]" + "[sst]", prefix + "[servingSnssai]" + "[sd]",
                         prefix + "[homeSnssai]" + "[sst]", prefix + "[homeSnssai]" + "[sd]"];
      Distinct(keys)
  {
    assert |prefix + "[servingSnssai]" + "[sst]"| == |prefix| + 20 && |prefix + "[servingSnssai]" + "[sd]"| == |prefix| + 19;
    assert |prefix + "[homeSnssai]" + "[sst]"| == |prefix| + 17 && |prefix + "[homeSnssai]" + "[sd]"| == |prefix| + 16;
  }

  /** Mapping entries keep their serving and home values together, across gaps on either side. */
  lemma MappingRoundTrip(prefix: string, pairs: seq<Pair>)
    ensures var query := PrintPairs(prefix, pairs);
      var serving, home := AllSlots(query, prefix + "[servingSnssai]"), AllSlots(query, prefix + "[homeSnssai]");
      && serving.Success? && home.Success?
      && Pairings(serving.value, home.value, Max(|serving.value|, |home.value|)) == FilterMap(MappingOf, pairs)
  {
    var query := PrintPairs(prefix, pairs);
    var keys := [prefix + "[servingSnssai]" + "[sst]", prefix + "[servingSnssai]" + "[sd]",
                 prefix + "[homeSnssai]" + "[sst]", prefix + "[homeSnssai]" + "[sd]"];
    MappingKeysDiffer(prefix);
    assert forall i, j :: 0 <= i < j < 4 ==> keys[i] != keys[j];
    assert keys[0] != keys[1] && keys[0] != keys[2] && keys[0] != keys[3] && keys[1] != keys[2] && keys[1] != keys[3]
           && keys[2] != keys[3];
    EntriesRoundTrip(query, prefix + "[servingSnssai]", ServingSlots(pairs));
    EntriesRoundTrip(query, prefix + "[homeSnssai]", HomeSlots(pairs));
    PairingsRoundTrip(pairs, |pairs|);
    assert pairs[..|pairs|] == pairs;
  }

  // ----- Subscribed S-NSSAIs

  function BoolText(b: Option<bool>): string {
    if b.None? then "" else if b.value then "true" else "false"
  }

  /** Each entry has one group slot, empty when the entry has no group. */
  function GroupText(s: SubscribedSnssai): string {
    At(s.subscribedNsSrgList, 0)
  }

  function SnssaisOf(subs: seq<SubscribedSnssai>): seq<Snssai> {
    Map((s: SubscribedSnssai) => s.subscribedSnssai, subs)
  }

  function Defaults(subs: seq<SubscribedSnssai>): seq<string> {
    Map((s: SubscribedSnssai) => BoolText(s.defaultIndication), subs)
  }

  function Groups(subs: seq<SubscribedSnssai>): seq<string> {
    Map(GroupText, subs)
  }

  function PrintSubscribed(prefix: string, subs: seq<SubscribedSnssai>): Query {
    PrintSlots(prefix + "[subscribedSnssai]", Present(SnssaisOf(subs)))
    + map[prefix + "[defaultIndication]" := Defaults(subs), prefix + "[subscribedNsSrgList]" := Groups(subs)]
  }

  function ParseSubscribed(query: Query, prefix: string): Result<seq<SubscribedSnssai>, ParseError> {
    var slots := AllSlots(query, prefix + "[subscribedSnssai]");
    if slots.Failure? then Failure(slots.error)
    else ZipAll(Compact(slots.value), Values(query, prefix + "[defaultIndication]"),
                Values(query, prefix + "[subscribedNsSrgList]"))
  }

  function CanonicalSubscribed(s: SubscribedSnssai): SubscribedSnssai {
    SubscribedSnssai(Canonical(s.subscribedSnssai), s.defaultIndication, if GroupText(s) == "" then [] else [GroupText(s)])
  }

  lemma SubscribedAtIndex(subs: seq<SubscribedSnssai>, i: nat)
    requires i < |subs|
    ensures SubscribedAt(Map(Canonical, SnssaisOf(subs)), Defaults(subs), Groups(subs), i)
            == Success(Some(CanonicalSubscribed(subs[i])))
  {
    BoolRoundTrip(subs[i].defaultIndication);
    var snssais := Map(Canonical, SnssaisOf(subs));
    assert snssais[i] == Canonical(subs[i].subscribedSnssai);
    assert At(Defaults(subs), i) == BoolText(subs[i].defaultIndication);
    assert At(Groups(subs), i) == GroupText(subs[i]);
    assert |snssais| == |Groups(subs)|;
  }

  lemma BoolRoundTrip(b: Option<bool>)
    ensures b.Some? ==> BoolText(b) != "" && ParseBool(BoolText(b)) == b
  {
  }

  lemma {:induction false} ZippedRoundTrip(subs: seq<SubscribedSnssai>, n: nat)
    requires n <= |subs|
    ensures Zipped(Map(Canonical, SnssaisOf(subs)), Defaults(subs), Groups(subs), n)
            == Success(Map(CanonicalSubscribed, subs[..n]))
  {
    if n > 0 {
      ZippedRoundTrip(subs, n - 1);
      SubscribedAtIndex(subs, n - 1);
      MapSnoc(CanonicalSubscribed, subs, n - 1);
    }
  }

  /**
   * Subscribed S-NSSAIs without gaps and with one group slot each come back as the same list exactly when no SD or
   * group is the empty string and no entry has more than one group.
   */
  lemma SubscribedRoundTrip(prefix: string, subs: seq<SubscribedSnssai>)
    ensures ParseSubscribed(PrintSubscribed(prefix, subs), prefix) == Success(Map(CanonicalSubscribed, subs))
    ensures ParseSubscribed(PrintSubscribed(prefix, subs), prefix) == Success(subs) <==>
      forall i :: 0 <= i < |subs| ==>
        subs[i].subscribedSnssai.sd != Some("") && |subs[i].subscribedNsSrgList| <= 1 && subs[i].subscribedNsSrgList != [""]
  {
    var query, inner := PrintSubscribed(prefix, subs), prefix + "[subscribedSnssai]";
    SubscribedKeys(prefix, subs);
    EntriesRoundTrip(query, inner, Present(SnssaisOf(subs)));
    CompactPresent(SnssaisOf(subs));
    ZippedRoundTrip(subs, |subs|);
    assert subs[..|subs|] == subs;
    CanonicalExactly(subs);
  }

  lemma SubscribedKeys(prefix: string, subs: seq<SubscribedSnssai>)
    ensures var query, inner := PrintSubscribed(prefix, subs), prefix + "[subscribedSnssai]";
      && Values(query, inner + "[sst]") == Map(SstText, Present(SnssaisOf(subs)))
      && Values(query, inner + "[sd]") == Map(SdText, Present(SnssaisOf(subs)))
      && Values(query, prefix + "[defaultIndication]") == Defaults(subs)
      && Values(query, prefix + "[subscribedNsSrgList]") == Groups(subs)
  {
    var inner := prefix + "[subscribedSnssai]";
    assert |inner + "[sst]"| == |prefix| + 23 && |inner + "[sd]"| == |prefix| + 22;
    assert |prefix + "[defaultIndication]"| == |prefix| + 19 && |prefix + "[subscribedNsSrgList]"| == |prefix| + 21;
  }

  lemma CanonicalExactly(subs: seq<SubscribedSnssai>)
    ensures Map(CanonicalSubscribed, subs) == subs <==>
      forall i :: 0 <= i < |subs| ==>
        subs[i].subscribedSnssai.sd != Some("") && |subs[i].subscribedNsSrgList| <= 1 && subs[i].subscribedNsSrgList != [""]
  {
    var back := Map(CanonicalSubscribed, subs);
    forall i | 0 <= i < |subs|
      ensures back[i] == subs[i] <==>
        subs[i].subscribedSnssai.sd != Some("") && |subs[i].subscribedNsSrgList| <= 1 && subs[i].subscribedNsSrgList != [""]
    {
      var g := subs[i].subscribedNsSrgList;
      if |g| == 1 {
        assert g == [g[0]];
      }
    }
    if forall i :: 0 <= i < |subs| ==> back[i] == subs[i] {
      assert back == subs;
    }
  }
}
