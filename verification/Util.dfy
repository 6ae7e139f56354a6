/** Configuration look-ups, and the two operations that extend a response in place. */
module Util {
  import opened Prelude
  import opened Models

  const ALLOWED_NSSAI_NUM := 8

  /** A standard S-NSSAI has a standardized SST and no SD. */
  predicate CheckStandardSnssai(s: Snssai) {
    1 <= s.sst <= 3 && SnssaiToKey(s).sd == ""
  }

  // ----- First-match scans

  /** The first entry of a TAI. */
  function FindTa(tas: seq<TaConfig>, tai: Tai): (r: Option<TaConfig>)
    ensures r.Some? <==> exists i :: 0 <= i < |tas| && tas[i].tai == tai
    ensures r.Some? ==> r.value.tai == tai
    ensures r.Some? ==> exists i :: 0 <= i < |tas| && tas[i] == r.value && forall j :: 0 <= j < i ==> tas[j].tai != tai
  {
    First((ta: TaConfig) => ta.tai == tai, tas)
  }

  /** The first record of an nfId. */
  function FindAmf(amfs: seq<AmfConfig>, nfId: string): (r: Option<AmfConfig>)
    ensures r.Some? <==> exists i :: 0 <= i < |amfs| && amfs[i].nfId == nfId
    ensures r.Some? ==> r.value.nfId == nfId
    ensures r.Some? ==> exists i :: 0 <= i < |amfs| && amfs[i] == r.value && forall j :: 0 <= j < i ==> amfs[j].nfId != nfId
  {
    First((amf: AmfConfig) => amf.nfId == nfId, amfs)
  }

  /** The first availability entry of a TAI. */
  function FindData(data: seq<SupportedNssaiAvailabilityData>, tai: Tai): (r: Option<SupportedNssaiAvailabilityData>)
    ensures r.Some? <==> exists i :: 0 <= i < |data| && data[i].tai == tai
    ensures r.Some? ==> r.value.tai == tai
    ensures r.Some? ==> exists i :: 0 <= i < |data| && data[i] == r.value && forall j :: 0 <= j < i ==> data[j].tai != tai
  {
    First((d: SupportedNssaiAvailabilityData) => d.tai == tai, data)
  }

  /** The first entry of a home PLMN. */
  function FindHplmn(ms: seq<MappingFromPlmnConfig>, home: PlmnId): (r: Option<MappingFromPlmnConfig>)
    ensures r.Some? <==> exists i :: 0 <= i < |ms| && ms[i].homePlmnId == home
    ensures r.Some? ==> r.value.homePlmnId == home
    ensures r.Some? ==> exists i :: 0 <= i < |ms| && ms[i] == r.value && forall j :: 0 <= j < i ==> ms[j].homePlmnId != home
  {
    First((m: MappingFromPlmnConfig) => m.homePlmnId == home, ms)
  }

  /** The first entry of an S-NSSAI. */
  function FindNsi(nsis: seq<NsiConfig>, key: SnssaiKey): (r: Option<NsiConfig>)
    ensures r.Some? <==> exists i :: 0 <= i < |nsis| && SnssaiToKey(nsis[i].snssai) == key
    ensures r.Some? ==> SnssaiToKey(r.value.snssai) == key
    ensures r.Some? ==> exists i :: 0 <= i < |nsis| && nsis[i] == r.value && forall j :: 0 <= j < i ==> SnssaiToKey(nsis[j].snssai) != key
  {
    First((nsi: NsiConfig) => SnssaiToKey(nsi.snssai) == key, nsis)
  }

  function FindMappingWithServingSnssai(s: Snssai, ms: seq<MappingOfSnssai>): (r: Option<MappingOfSnssai>)
    ensures r.Some? <==> exists i :: 0 <= i < |ms| && SnssaiToKey(ms[i].servingSnssai) == SnssaiToKey(s)
    ensures r.Some? ==> SnssaiToKey(r.value.servingSnssai) == SnssaiToKey(s)
    ensures r.Some? ==>
      exists i :: 0 <= i < |ms| && ms[i] == r.value && forall j :: 0 <= j < i ==> SnssaiToKey(ms[j].servingSnssai) != SnssaiToKey(s)
  {
    First((m: MappingOfSnssai) => SnssaiToKey(m.servingSnssai) == SnssaiToKey(s), ms)
  }

  function FindMappingWithHomeSnssai(s: Snssai, ms: seq<MappingOfSnssai>): (r: Option<MappingOfSnssai>)
    ensures r.Some? <==> exists i :: 0 <= i < |ms| && SnssaiToKey(ms[i].homeSnssai) == SnssaiToKey(s)
    ensures r.Some? ==> SnssaiToKey(r.value.homeSnssai) == SnssaiToKey(s)
    ensures r.Some? ==>
      exists i :: 0 <= i < |ms| && ms[i] == r.value && forall j :: 0 <= j < i ==> SnssaiToKey(ms[j].homeSnssai) != SnssaiToKey(s)
  {
    First((m: MappingOfSnssai) => SnssaiToKey(m.homeSnssai) == SnssaiToKey(s), ms)
  }

  // ----- Support checks

  predicate CheckSnssaiInNssai(s: Snssai, nssai: seq<Snssai>) {
    exists i :: 0 <= i < |nssai| && SnssaiToKey(nssai[i]) == SnssaiToKey(s)
  }

  predicate CheckSupportedHplmn(cfg: Configuration, home: PlmnId) {
    FindHplmn(cfg.mappingListFromPlmn, home).Some?
  }

  predicate CheckSupportedTa(cfg: Configuration, tai: Tai) {
    FindTa(cfg.taList, tai).Some?
  }

  predicate CheckSupportedSnssaiInPlmn(cfg: Configuration, s: Snssai, plmn: PlmnId) {
    CheckStandardSnssai(s)
    || (plmn in cfg.supportedNssaiInPlmnList && SnssaiToKey(s) in cfg.supportedNssaiInPlmnList[plmn])
  }

  predicate CheckSupportedNssaiInPlmn(cfg: Configuration, nssai: seq<Snssai>, plmn: PlmnId) {
    plmn in cfg.supportedNssaiInPlmnList
    && forall i :: 0 <= i < |nssai| ==>
         CheckStandardSnssai(nssai[i]) || SnssaiToKey(nssai[i]) in cfg.supportedNssaiInPlmnList[plmn]
  }

  predicate CheckSupportedSnssaiInTa(cfg: Configuration, s: Snssai, tai: Tai) {
    var ta := FindTa(cfg.taList, tai);
    ta.Some? && CheckSnssaiInNssai(s, ta.value.supportedSnssaiList)
  }

  predicate CheckSupportedNssaiAvailabilityData(s: Snssai, tai: Tai, data: seq<SupportedNssaiAvailabilityData>) {
    exists i :: 0 <= i < |data| && data[i].tai == tai && CheckSnssaiInNssai(s, data[i].supportedSnssaiList)
  }

  predicate CheckSupportedSnssaiInAmfTa(cfg: Configuration, s: Snssai, nfId: string, tai: Tai) {
    var amf := FindAmf(cfg.amfList, nfId);
    amf.Some? && CheckSupportedNssaiAvailabilityData(s, tai, amf.value.data)
  }

  predicate CheckAllowedNssaiInAmfTa(cfg: Configuration, allowed: seq<AllowedNssai>, nfId: string, tai: Tai) {
    forall i, j :: 0 <= i < |allowed| && 0 <= j < |allowed[i].allowedSnssaiList| ==>
      CheckSupportedSnssaiInAmfTa(cfg, allowed[i].allowedSnssaiList[j].allowedSnssai, nfId, tai)
  }

  // ----- Values taken from the configuration

  function GetMappingOfPlmnFromConfig(cfg: Configuration, home: PlmnId): Option<seq<MappingOfSnssai>> {
    var m := FindHplmn(cfg.mappingListFromPlmn, home);
    if m.None? then None else m.value.mappingOfSnssai
  }

  function GetNsiInformationListFromConfig(cfg: Configuration, s: Snssai): Option<seq<NsiInformation>> {
    var n := FindNsi(cfg.nsiList, SnssaiToKey(s));
    if n.None? then None else n.value.nsiInformationList
  }

  function GetAccessTypeFromConfig(cfg: Configuration, tai: Tai): AccessType {
    var ta := FindTa(cfg.taList, tai);
    if ta.None? then ACCESSTYPE_3GPP else ta.value.accessType
  }

  function GetRestrictedSnssaiListFromConfig(tas: seq<TaConfig>, tai: Tai): seq<RestrictedSnssai> {
    var ta := FindTa(tas, tai);
    if ta.None? then [] else ta.value.restrictedSnssaiList
  }

  // ----- Allowed NSSAI

  /** The list after one AddAllowedSnssai call. */
  function AddAllowed(l: seq<AllowedNssai>, e: AllowedSnssai, accessType: AccessType): seq<AllowedNssai> {
    if l == [] then [AllowedNssai([e], accessType)]
    else if l[0].accessType != accessType then [l[0]] + AddAllowed(l[1..], e, accessType)
    else if |l[0].allowedSnssaiList| == ALLOWED_NSSAI_NUM then l
    else [l[0].(allowedSnssaiList := l[0].allowedSnssaiList + [e])] + l[1..]
  }

  method AddAllowedSnssai(e: AllowedSnssai, accessType: AccessType, info: AuthorizedNetworkSliceInfo)
    modifies info
    ensures info.Value() == old(info.Value()).(
      allowedNssaiList := AddAllowed(old(info.allowedNssaiList), e, accessType))
  {
    var hitAllowedNssai := false;
    for i := 0 to |info.allowedNssaiList|
      invariant info.Value() == old(info.Value()) && !hitAllowedNssai
      invariant forall j :: 0 <= j < i ==> info.allowedNssaiList[j].accessType != accessType
    {
      var entry := info.allowedNssaiList[i];
      if entry.accessType == accessType {
        AddAllowedAt(info.allowedNssaiList, e, accessType, i);
        hitAllowedNssai := true;
        if |entry.allowedSnssaiList| != ALLOWED_NSSAI_NUM {
          info.allowedNssaiList :=
            info.allowedNssaiList[i := entry.(allowedSnssaiList := entry.allowedSnssaiList + [e])];
        }
        break;
      }
    }
    if !hitAllowedNssai {
      AddAllowedAt(info.allowedNssaiList, e, accessType, |info.allowedNssaiList|);
      info.allowedNssaiList := info.allowedNssaiList + [AllowedNssai([e], accessType)];
    }
  }

  datatype AddCall = AddCall(snssai: AllowedSnssai, accessType: AccessType)

  /** The list after a sequence of AddAllowedSnssai calls. */
  function AddCalls(l: seq<AllowedNssai>, calls: seq<AddCall>): seq<AllowedNssai> {
    if calls == [] then l
    else
      var last := calls[|calls| - 1];
      AddAllowed(AddCalls(l, calls[..|calls| - 1]), last.snssai, last.accessType)
  }

  function FirstEight<T>(xs: seq<T>): seq<T> {
    if |xs| <= ALLOWED_NSSAI_NUM then xs else xs[..ALLOWED_NSSAI_NUM]
  }

  /** The access types of calls, each at its first use. */
  function FirstUses(calls: seq<AddCall>): seq<AccessType> {
    if calls == [] then []
    else
      var front, last := FirstUses(calls[..|calls| - 1]), calls[|calls| - 1].accessType;
      if last in front then front else front + [last]
  }

  function AddedFor(calls: seq<AddCall>, accessType: AccessType): seq<AllowedSnssai> {
    FilterMap((c: AddCall) => if c.accessType == accessType then Some(c.snssai) else None, calls)
  }

  function AccessTypes(l: seq<AllowedNssai>): (ts: seq<AccessType>)
    ensures |ts| == |l|
    ensures forall i :: 0 <= i < |l| ==> ts[i] == l[i].accessType
  {
    Map((a: AllowedNssai) => a.accessType, l)
  }

  /** l holds, per access type in first-use order, the first eight S-NSSAIs added for it. */
  ghost predicate Grouped(l: seq<AllowedNssai>, calls: seq<AddCall>) {
    AccessTypes(l) == FirstUses(calls)
    && forall i :: 0 <= i < |l| ==> l[i].allowedSnssaiList == FirstEight(AddedFor(calls, l[i].accessType))
  }

  lemma {:induction false} FirstUsesDistinct(calls: seq<AddCall>)
    ensures Distinct(FirstUses(calls))
    ensures forall c :: c in calls ==> c.accessType in FirstUses(calls)
    ensures forall t :: t in FirstUses(calls) <==> AddedFor(calls, t) != []
  {
    if calls != [] {
      var n := |calls| - 1;
      FirstUsesDistinct(calls[..n]);
      assert calls == calls[..n] + [calls[n]];
    }
  }

  lemma {:induction false} AddAllowedAt(l: seq<AllowedNssai>, e: AllowedSnssai, t: AccessType, k: nat)
    requires k <= |l| && forall i :: 0 <= i < k ==> l[i].accessType != t
    requires k < |l| ==> l[k].accessType == t
    ensures AddAllowed(l, e, t) ==
      if k == |l| then l + [AllowedNssai([e], t)]
      else if |l[k].allowedSnssaiList| == ALLOWED_NSSAI_NUM then l
      else l[k := l[k].(allowedSnssaiList := l[k].allowedSnssaiList + [e])]
  {
    if k > 0 {
      AddAllowedAt(l[1..], e, t, k - 1);
      assert l == [l[0]] + l[1..];
    }
  }

  lemma AddedForSnoc(calls: seq<AddCall>, t: AccessType)
    requires calls != []
    ensures var last := calls[|calls| - 1];
            AddedFor(calls, t) == AddedFor(calls[..|calls| - 1], t) + if t == last.accessType then [last.snssai] else []
  {
  }

  lemma FirstEightSnoc<T>(xs: seq<T>, x: T)
    ensures FirstEight(xs + [x]) == if |FirstEight(xs)| == ALLOWED_NSSAI_NUM then FirstEight(xs) else FirstEight(xs) + [x]
  {
  }

  lemma GroupedAt(l: seq<AllowedNssai>, front: seq<AddCall>, c: AddCall, k: nat, i: nat)
    requires Grouped(l, front) && k <= |l| && i < |l| && i != k
    requires k < |l| ==> l[k].accessType == c.accessType
    requires k == |l| ==> c.accessType !in FirstUses(front)
    ensures l[i].allowedSnssaiList == FirstEight(AddedFor(front + [c], l[i].accessType))
  {
    FirstUsesDistinct(front);
    assert AccessTypes(l)[i] != c.accessType;
    assert (front + [c])[..|front|] == front;
    AddedForSnoc(front + [c], l[i].accessType);
  }

  lemma GroupedStep(l: seq<AllowedNssai>, front: seq<AddCall>, c: AddCall, k: nat) returns (r: seq<AllowedNssai>)
    requires Grouped(l, front) && k <= |l|
    requires k < |l| ==> l[k].accessType == c.accessType
    requires k == |l| ==> c.accessType !in FirstUses(front)
    ensures r == if k == |l| then l + [AllowedNssai([c.snssai], c.accessType)]
                 else if |l[k].allowedSnssaiList| == ALLOWED_NSSAI_NUM then l
                 else l[k := l[k].(allowedSnssaiList := l[k].allowedSnssaiList + [c.snssai])]
    ensures Grouped(r, front + [c])
  {
    var t, calls := c.accessType, front + [c];
    assert calls[..|front|] == front;
    FirstUsesDistinct(front);
    AddedForSnoc(calls, t);
    FirstEightSnoc(AddedFor(front, t), c.snssai);
    r := if k == |l| then l + [AllowedNssai([c.snssai], t)]
         else if |l[k].allowedSnssaiList| == ALLOWED_NSSAI_NUM then l
         else l[k := l[k].(allowedSnssaiList := l[k].allowedSnssaiList + [c.snssai])];
    assert k < |l| ==> AccessTypes(l)[k] == t;
    assert AccessTypes(r) == AccessTypes(l) + if k == |l| then [t] else [];
    forall i | 0 <= i < |r| && i != k ensures r[i].allowedSnssaiList == FirstEight(AddedFor(calls, r[i].accessType)) {
      GroupedAt(l, front, c, k, i);
    }
    assert r[k].allowedSnssaiList == FirstEight(AddedFor(calls, t));
  }

  lemma AddAllowedKeepsGrouped(l: seq<AllowedNssai>, front: seq<AddCall>, c: AddCall)
    requires Grouped(l, front)
    ensures Grouped(AddAllowed(l, c.snssai, c.accessType), front + [c])
  {
    var k := EntryOf(l, c.accessType);
    AddAllowedAt(l, c.snssai, c.accessType, k);
    if k == |l| {
      assert forall t :: t in AccessTypes(l) ==> t != c.accessType;
    }
    var r := GroupedStep(l, front, c, k);
  }

  /** Any sequence of AddAllowedSnssai calls on a fresh response groups by access type and keeps the first eight. */
  lemma {:induction false} AddCallsGrouped(calls: seq<AddCall>)
    ensures Grouped(AddCalls([], calls), calls)
  {
    if calls != [] {
      var front, c := calls[..|calls| - 1], calls[|calls| - 1];
      AddCallsGrouped(front);
      AddAllowedKeepsGrouped(AddCalls([], front), front, c);
      assert front + [c] == calls;
    }
  }

  /** AddCallsGrouped, with the distinctness of the entries spelt out. */
  lemma AdditionsAreDistinct(calls: seq<AddCall>)
    ensures Grouped(AddCalls([], calls), calls) && Distinct(AccessTypes(AddCalls([], calls)))
  {
    AddCallsGrouped(calls);
    FirstUsesDistinct(calls);
  }

  /** The first entry with access type t, or |l|. */
  function EntryOf(l: seq<AllowedNssai>, t: AccessType): (k: nat)
    ensures k <= |l| && forall i :: 0 <= i < k ==> l[i].accessType != t
    ensures k < |l| ==> l[k].accessType == t
  {
    if l == [] || l[0].accessType == t then 0 else 1 + EntryOf(l[1..], t)
  }

  function Tagged(es: seq<AllowedSnssai>, accessType: AccessType): seq<AddCall> {
    Map(e => AddCall(e, accessType), es)
  }

  /** Adding es in order, all for one access type. */
  function AddAll(l: seq<AllowedNssai>, es: seq<AllowedSnssai>, accessType: AccessType): seq<AllowedNssai> {
    AddCalls(l, Tagged(es, accessType))
  }

  lemma AddAllSnoc(l: seq<AllowedNssai>, es: seq<AllowedSnssai>, e: AllowedSnssai, t: AccessType)
    ensures AddAll(l, es + [e], t) == AddAllowed(AddAll(l, es, t), e, t)
  {
    assert Tagged(es + [e], t) == Tagged(es, t) + [AddCall(e, t)];
    assert Tagged(es + [e], t)[..|es|] == Tagged(es, t);
  }

  /** With one access type a fresh response gets one Allowed NSSAI, of the first eight. */
  lemma AddAllFresh(es: seq<AllowedSnssai>, t: AccessType)
    ensures AddAll([], es, t) == if es == [] then [] else [AllowedNssai(FirstEight(es), t)]
  {
    var calls := Tagged(es, t);
    AddCallsGrouped(calls);
    OneAccessType(es, t);
    var l := AddAll([], es, t);
    assert |l| == |FirstUses(calls)|;
    if es != [] {
      assert AccessTypes(l)[0] == t;
    }
  }

  lemma {:induction false} OneAccessType(es: seq<AllowedSnssai>, t: AccessType)
    ensures FirstUses(Tagged(es, t)) == if es == [] then [] else [t]
    ensures AddedFor(Tagged(es, t), t) == es
  {
    if es != [] {
      var n := |es| - 1;
      OneAccessType(es[..n], t);
      assert Tagged(es, t)[..n] == Tagged(es[..n], t);
    }
  }
}
