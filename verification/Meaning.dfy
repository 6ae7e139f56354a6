/** What the named checks and look-ups come to, in terms of the entries of the configuration. */
module Meaning {
  import opened Prelude
  import opened Models
  import opened Util
  import opened AmfSelection

  // ----- S-NSSAIs

  /** Two S-NSSAIs are compared by SST and SD, and an absent SD is the empty one. */
  lemma SameKeyExactly(s: Snssai, t: Snssai)
    ensures SnssaiToKey(s) == SnssaiToKey(t) <==>
      s.sst == t.sst && (s.sd == t.sd || (s.sd in [None, Some("")] && t.sd in [None, Some("")]))
  {
  }

  lemma StandardExactly(s: Snssai)
    ensures CheckStandardSnssai(s) <==> s.sst in [1, 2, 3] && s.sd in [None, Some("")]
  {
  }

  /** s is in the list, but for the way its absent SD is written. */
  predicate Lists(nssai: seq<Snssai>, s: Snssai) {
    exists t :: t in nssai && t.sst == s.sst && (t.sd == s.sd || (t.sd in [None, Some("")] && s.sd in [None, Some("")]))
  }

  lemma CheckSnssaiInNssaiExactly(s: Snssai, nssai: seq<Snssai>)
    ensures CheckSnssaiInNssai(s, nssai) <==> Lists(nssai, s)
  {
    if t :| t in nssai && t.sst == s.sst && (t.sd == s.sd || (t.sd in [None, Some("")] && s.sd in [None, Some("")])) {
      SameKeyExactly(t, s);
      var i :| 0 <= i < |nssai| && nssai[i] == t;
    }
    if i :| 0 <= i < |nssai| && SnssaiToKey(nssai[i]) == SnssaiToKey(s) {
      SameKeyExactly(nssai[i], s);
      assert nssai[i] in nssai;
    }
  }

  // ----- The first entry decides

  predicate IsFirstTa(tas: seq<TaConfig>, tai: Tai, i: nat) {
    i < |tas| && tas[i].tai == tai && forall j :: 0 <= j < i ==> tas[j].tai != tai
  }

  lemma FindTaAt(tas: seq<TaConfig>, tai: Tai, i: nat)
    requires IsFirstTa(tas, tai, i)
    ensures FindTa(tas, tai) == Some(tas[i])
  {
    var ta := FindTa(tas, tai).value;
    assert ta.tai == tai;
    var k :| 0 <= k < |tas| && tas[k] == ta && forall j :: 0 <= j < k ==> tas[j].tai != tai;
  }

  /** The first entry of a TAI gives its support, access type and restricted list. */
  lemma TaAt(cfg: Configuration, tai: Tai, i: nat, s: Snssai)
    requires IsFirstTa(cfg.taList, tai, i)
    ensures CheckSupportedTa(cfg, tai)
    ensures CheckSupportedSnssaiInTa(cfg, s, tai) <==> Lists(cfg.taList[i].supportedSnssaiList, s)
    ensures GetAccessTypeFromConfig(cfg, tai) == cfg.taList[i].accessType
    ensures GetRestrictedSnssaiListFromConfig(cfg.taList, tai) == cfg.taList[i].restrictedSnssaiList
  {
    FindTaAt(cfg.taList, tai, i);
    CheckSnssaiInNssaiExactly(s, cfg.taList[i].supportedSnssaiList);
  }

  /** Without an entry, the TAI is unsupported, supports nothing, is 3GPP access and restricts nothing. */
  lemma NoTa(cfg: Configuration, tai: Tai, s: Snssai)
    requires forall i :: 0 <= i < |cfg.taList| ==> cfg.taList[i].tai != tai
    ensures !CheckSupportedTa(cfg, tai) && !CheckSupportedSnssaiInTa(cfg, s, tai)
    ensures GetAccessTypeFromConfig(cfg, tai) == "3GPP_ACCESS"
    ensures GetRestrictedSnssaiListFromConfig(cfg.taList, tai) == []
  {
  }

  predicate IsFirstHplmn(ms: seq<MappingFromPlmnConfig>, home: PlmnId, i: nat) {
    i < |ms| && ms[i].homePlmnId == home && forall j :: 0 <= j < i ==> ms[j].homePlmnId != home
  }

  lemma HplmnAt(cfg: Configuration, home: PlmnId, i: nat)
    requires IsFirstHplmn(cfg.mappingListFromPlmn, home, i)
    ensures CheckSupportedHplmn(cfg, home)
    ensures GetMappingOfPlmnFromConfig(cfg, home) == cfg.mappingListFromPlmn[i].mappingOfSnssai
  {
    var ms := cfg.mappingListFromPlmn;
    var m := FindHplmn(ms, home).value;
    assert m.homePlmnId == home;
    var k :| 0 <= k < |ms| && ms[k] == m && forall j :: 0 <= j < k ==> ms[j].homePlmnId != home;
  }

  lemma NoHplmn(cfg: Configuration, home: PlmnId)
    requires forall i :: 0 <= i < |cfg.mappingListFromPlmn| ==> cfg.mappingListFromPlmn[i].homePlmnId != home
    ensures !CheckSupportedHplmn(cfg, home) && GetMappingOfPlmnFromConfig(cfg, home) == None
  {
  }

  predicate IsFirstNsi(nsis: seq<NsiConfig>, s: Snssai, i: nat) {
    i < |nsis| && SnssaiToKey(nsis[i].snssai) == SnssaiToKey(s)
    && forall j :: 0 <= j < i ==> SnssaiToKey(nsis[j].snssai) != SnssaiToKey(s)
  }

  lemma NsiAt(cfg: Configuration, s: Snssai, i: nat)
    requires IsFirstNsi(cfg.nsiList, s, i)
    ensures GetNsiInformationListFromConfig(cfg, s) == cfg.nsiList[i].nsiInformationList
  {
    var nsis, key := cfg.nsiList, SnssaiToKey(s);
    var nsi := FindNsi(nsis, key).value;
    assert SnssaiToKey(nsi.snssai) == key;
    var k :| 0 <= k < |nsis| && nsis[k] == nsi && forall j :: 0 <= j < k ==> SnssaiToKey(nsis[j].snssai) != key;
  }

  lemma NoNsi(cfg: Configuration, s: Snssai)
    requires forall i :: 0 <= i < |cfg.nsiList| ==> SnssaiToKey(cfg.nsiList[i].snssai) != SnssaiToKey(s)
    ensures GetNsiInformationListFromConfig(cfg, s) == None
  {
  }

  // ----- Mappings

  predicate IsFirstServing(ms: seq<MappingOfSnssai>, s: Snssai, i: nat) {
    i < |ms| && SnssaiToKey(ms[i].servingSnssai) == SnssaiToKey(s)
    && forall j :: 0 <= j < i ==> SnssaiToKey(ms[j].servingSnssai) != SnssaiToKey(s)
  }

  predicate IsFirstHome(ms: seq<MappingOfSnssai>, s: Snssai, i: nat) {
    i < |ms| && SnssaiToKey(ms[i].homeSnssai) == SnssaiToKey(s)
    && forall j :: 0 <= j < i ==> SnssaiToKey(ms[j].homeSnssai) != SnssaiToKey(s)
  }

  lemma FindServingExactly(ms: seq<MappingOfSnssai>, s: Snssai, m: MappingOfSnssai)
    ensures FindMappingWithServingSnssai(s, ms) == Some(m) <==> exists i: nat :: IsFirstServing(ms, s, i) && ms[i] == m
  {
    var r := FindMappingWithServingSnssai(s, ms);
    if r.Some? {
      var k :| 0 <= k < |ms| && ms[k] == r.value && forall j :: 0 <= j < k ==> SnssaiToKey(ms[j].servingSnssai) != SnssaiToKey(s);
      assert SnssaiToKey(r.value.servingSnssai) == SnssaiToKey(s);
      assert IsFirstServing(ms, s, k);
    }
  }

  lemma FindHomeExactly(ms: seq<MappingOfSnssai>, s: Snssai, m: MappingOfSnssai)
    ensures FindMappingWithHomeSnssai(s, ms) == Some(m) <==> exists i: nat :: IsFirstHome(ms, s, i) && ms[i] == m
  {
    var r := FindMappingWithHomeSnssai(s, ms);
    if r.Some? {
      var k :| 0 <= k < |ms| && ms[k] == r.value && forall j :: 0 <= j < k ==> SnssaiToKey(ms[j].homeSnssai) != SnssaiToKey(s);
      assert SnssaiToKey(r.value.homeSnssai) == SnssaiToKey(s);
      assert IsFirstHome(ms, s, k);
    }
  }

  // ----- Availability data

  /** Some entry of exactly this TAI lists the S-NSSAI. */
  predicate Offers(data: seq<SupportedNssaiAvailabilityData>, tai: Tai, s: Snssai) {
    exists d :: d in data && d.tai == tai && Lists(d.supportedSnssaiList, s)
  }

  lemma AvailabilityExactly(s: Snssai, tai: Tai, data: seq<SupportedNssaiAvailabilityData>)
    ensures CheckSupportedNssaiAvailabilityData(s, tai, data) <==> Offers(data, tai, s)
  {
    forall i | 0 <= i < |data| ensures CheckSnssaiInNssai(s, data[i].supportedSnssaiList) <==> Lists(data[i].supportedSnssaiList, s) {
      CheckSnssaiInNssaiExactly(s, data[i].supportedSnssaiList);
    }
    if d :| d in data && d.tai == tai && Lists(d.supportedSnssaiList, s) {
      var i :| 0 <= i < |data| && data[i] == d;
    }
    if i :| 0 <= i < |data| && data[i].tai == tai && CheckSnssaiInNssai(s, data[i].supportedSnssaiList) {
      assert data[i] in data;
    }
  }

  /** Data covers the Allowed NSSAI iff, for every Allowed S-NSSAI, some entry of exactly this TAI lists it. */
  lemma CoversExactly(allowed: seq<AllowedNssai>, tai: Tai, data: seq<SupportedNssaiAvailabilityData>)
    ensures Covers(allowed, tai, data) <==>
      forall i, j :: 0 <= i < |allowed| && 0 <= j < |allowed[i].allowedSnssaiList| ==>
        Offers(data, tai, allowed[i].allowedSnssaiList[j].allowedSnssai)
  {
    forall i, j | 0 <= i < |allowed| && 0 <= j < |allowed[i].allowedSnssaiList|
      ensures CheckSupportedNssaiAvailabilityData(allowed[i].allowedSnssaiList[j].allowedSnssai, tai, data)
              <==> Offers(data, tai, allowed[i].allowedSnssaiList[j].allowedSnssai)
    {
      AvailabilityExactly(allowed[i].allowedSnssaiList[j].allowedSnssai, tai, data);
    }
  }

  predicate IsFirstAmf(amfs: seq<AmfConfig>, nfId: string, i: nat) {
    i < |amfs| && amfs[i].nfId == nfId && forall j :: 0 <= j < i ==> amfs[j].nfId != nfId
  }

  /** The first record of the AMF has an entry of exactly this TAI that lists the S-NSSAI. */
  ghost predicate AmfOffers(amfs: seq<AmfConfig>, nfId: string, tai: Tai, s: Snssai) {
    exists k: nat :: IsFirstAmf(amfs, nfId, k) && Offers(amfs[k].data, tai, s)
  }

  lemma FirstAmfExactly(amfs: seq<AmfConfig>, nfId: string, amf: AmfConfig)
    ensures FindAmf(amfs, nfId) == Some(amf) <==> exists k: nat :: IsFirstAmf(amfs, nfId, k) && amfs[k] == amf
  {
    var r := FindAmf(amfs, nfId);
    if r.Some? {
      assert r.value.nfId == nfId;
      var k :| 0 <= k < |amfs| && amfs[k] == r.value && forall j :: 0 <= j < k ==> amfs[j].nfId != nfId;
      assert IsFirstAmf(amfs, nfId, k);
    }
  }

  lemma AmfSupportExactly(cfg: Configuration, s: Snssai, nfId: string, tai: Tai)
    ensures CheckSupportedSnssaiInAmfTa(cfg, s, nfId, tai) <==> AmfOffers(cfg.amfList, nfId, tai, s)
  {
    var r := FindAmf(cfg.amfList, nfId);
    if r.Some? {
      FirstAmfExactly(cfg.amfList, nfId, r.value);
      AvailabilityExactly(s, tai, r.value.data);
    }
    if k: nat :| IsFirstAmf(cfg.amfList, nfId, k) && Offers(cfg.amfList[k].data, tai, s) {
      FirstAmfExactly(cfg.amfList, nfId, cfg.amfList[k]);
    }
  }

  /** The check of an AMF asks its first record for every Allowed S-NSSAI. */
  lemma AmfCheckExactly(cfg: Configuration, allowed: seq<AllowedNssai>, nfId: string, tai: Tai)
    ensures CheckAllowedNssaiInAmfTa(cfg, allowed, nfId, tai) <==>
      forall i, j :: 0 <= i < |allowed| && 0 <= j < |allowed[i].allowedSnssaiList| ==>
        AmfOffers(cfg.amfList, nfId, tai, allowed[i].allowedSnssaiList[j].allowedSnssai)
  {
    forall s ensures CheckSupportedSnssaiInAmfTa(cfg, s, nfId, tai) <==> AmfOffers(cfg.amfList, nfId, tai, s) {
      AmfSupportExactly(cfg, s, nfId, tai);
    }
  }

  // ----- Other TAs do not matter

  /** The entries of one TAI. */
  function EntriesOf(data: seq<SupportedNssaiAvailabilityData>, tai: Tai): seq<SupportedNssaiAvailabilityData> {
    FilterMap((d: SupportedNssaiAvailabilityData) => if d.tai == tai then Some(d) else None, data)
  }

  lemma OffersFromEntries(data: seq<SupportedNssaiAvailabilityData>, tai: Tai, s: Snssai)
    ensures Offers(data, tai, s) <==> Offers(EntriesOf(data, tai), tai, s)
  {
    forall d ensures d in EntriesOf(data, tai) <==> d in data && d.tai == tai {
      FilterMapMember((d: SupportedNssaiAvailabilityData) => if d.tai == tai then Some(d) else None, data, d);
    }
  }

  lemma CoversFromEntries(allowed: seq<AllowedNssai>, tai: Tai, data: seq<SupportedNssaiAvailabilityData>,
                          data': seq<SupportedNssaiAvailabilityData>)
    requires EntriesOf(data, tai) == EntriesOf(data', tai)
    ensures Covers(allowed, tai, data) <==> Covers(allowed, tai, data')
  {
    CoversExactly(allowed, tai, data);
    CoversExactly(allowed, tai, data');
    forall s ensures Offers(data, tai, s) <==> Offers(data', tai, s) {
      OffersFromEntries(data, tai, s);
      OffersFromEntries(data', tai, s);
    }
  }

  /** cfg' differs from cfg only in what AMFs and AMF sets support in other TAs than tai. */
  predicate AgreeAt(cfg: Configuration, cfg': Configuration, tai: Tai) {
    && cfg' == cfg.(amfList := cfg'.amfList, amfSetList := cfg'.amfSetList)
    && |cfg'.amfList| == |cfg.amfList| && |cfg'.amfSetList| == |cfg.amfSetList|
    && (forall i :: 0 <= i < |cfg.amfList| ==>
          cfg'.amfList[i].nfId == cfg.amfList[i].nfId && EntriesOf(cfg'.amfList[i].data, tai) == EntriesOf(cfg.amfList[i].data, tai))
    && (forall i :: 0 <= i < |cfg.amfSetList| ==>
          cfg'.amfSetList[i] == cfg.amfSetList[i].(data := cfg'.amfSetList[i].data)
          && EntriesOf(cfg'.amfSetList[i].data, tai) == EntriesOf(cfg.amfSetList[i].data, tai))
  }

  lemma SetsAgree(cfg: Configuration, cfg': Configuration, allowed: seq<AllowedNssai>, tai: Tai)
    requires AgreeAt(cfg, cfg', tai)
    ensures FirstCovering(cfg'.amfSetList, allowed, tai) == FirstCovering(cfg.amfSetList, allowed, tai)
  {
    forall i | 0 <= i < |cfg.amfSetList|
      ensures Covers(allowed, tai, cfg.amfSetList[i].data) <==> Covers(allowed, tai, cfg'.amfSetList[i].data)
    {
      CoversFromEntries(allowed, tai, cfg.amfSetList[i].data, cfg'.amfSetList[i].data);
    }
  }

  lemma {:induction false} FallbacksAgree(amfs: seq<AmfConfig>, amfs': seq<AmfConfig>, allowed: seq<AllowedNssai>, tai: Tai)
    requires |amfs'| == |amfs|
    requires forall i :: 0 <= i < |amfs| ==>
      amfs'[i].nfId == amfs[i].nfId && EntriesOf(amfs'[i].data, tai) == EntriesOf(amfs[i].data, tai)
    ensures FilterMap(ServingAmf(allowed, tai), amfs') == FilterMap(ServingAmf(allowed, tai), amfs)
  {
    if amfs != [] {
      var n := |amfs| - 1;
      FallbacksAgree(amfs[..n], amfs'[..n], allowed, tai);
      CoversFromEntries(allowed, tai, amfs[n].data, amfs'[n].data);
    }
  }

  lemma SupportAgrees(cfg: Configuration, cfg': Configuration, s: Snssai, nfId: string, tai: Tai)
    requires AgreeAt(cfg, cfg', tai)
    ensures CheckSupportedSnssaiInAmfTa(cfg', s, nfId, tai) <==> CheckSupportedSnssaiInAmfTa(cfg, s, nfId, tai)
  {
    AmfSupportExactly(cfg, s, nfId, tai);
    AmfSupportExactly(cfg', s, nfId, tai);
    forall k | 0 <= k < |cfg.amfList| ensures Offers(cfg'.amfList[k].data, tai, s) <==> Offers(cfg.amfList[k].data, tai, s) {
      OffersFromEntries(cfg.amfList[k].data, tai, s);
      OffersFromEntries(cfg'.amfList[k].data, tai, s);
    }
    forall k: nat ensures IsFirstAmf(cfg'.amfList, nfId, k) <==> IsFirstAmf(cfg.amfList, nfId, k) {
    }
  }

  lemma ChecksAgree(cfg: Configuration, cfg': Configuration, allowed: seq<AllowedNssai>, nfId: string, tai: Tai)
    requires AgreeAt(cfg, cfg', tai)
    ensures CheckAllowedNssaiInAmfTa(cfg', allowed, nfId, tai) <==> CheckAllowedNssaiInAmfTa(cfg, allowed, nfId, tai)
  {
    forall s ensures CheckSupportedSnssaiInAmfTa(cfg', s, nfId, tai) <==> CheckSupportedSnssaiInAmfTa(cfg, s, nfId, tai) {
      SupportAgrees(cfg, cfg', s, nfId, tai);
    }
  }

  /** Availability entries of other TAs change neither the check nor what reselection writes. */
  lemma OtherTasDoNotMatter(cfg: Configuration, cfg': Configuration, tai: Tai, nfId: string, info: SliceInfo)
    requires AgreeAt(cfg, cfg', tai)
    ensures WithAmfInformation(cfg', tai, info) == WithAmfInformation(cfg, tai, info)
    ensures CheckAllowedNssaiInAmfTa(cfg', info.allowedNssaiList, nfId, tai)
            <==> CheckAllowedNssaiInAmfTa(cfg, info.allowedNssaiList, nfId, tai)
  {
    SetsAgree(cfg, cfg', info.allowedNssaiList, tai);
    FallbacksAgree(cfg.amfList, cfg'.amfList, info.allowedNssaiList, tai);
    ChecksAgree(cfg, cfg', info.allowedNssaiList, nfId, tai);
  }

  // ----- The cap

  /** The first eight: all of a shorter list, a prefix of eight of a longer one. */
  lemma EightAtMost<T>(xs: seq<T>)
    ensures FirstEight(xs) <= xs && |FirstEight(xs)| == if |xs| < 8 then |xs| else 8
  {
  }
}
