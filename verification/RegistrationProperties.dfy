/** What a registration response promises, for every configuration and request. */
module RegistrationProperties {
  import opened Prelude
  import opened Models
  import opened Util
  import opened AmfSelection
  import opened Registration

  function Response(cfg: Configuration, p: RegistrationParameter): SliceInfo {
    Register(cfg, p, EMPTY_INFO).0
  }

  function AllowedValues(es: seq<AllowedSnssai>): seq<Snssai> {
    Map((e: AllowedSnssai) => e.allowedSnssai, es)
  }

  /** The Allowed S-NSSAIs a run adds, in order, before the cap of eight. */
  function Granted(cfg: Configuration, p: RegistrationParameter): seq<AllowedSnssai> {
    match RouteOf(cfg, p)
    case Mapping => MappedNssai(cfg, p)
    case Selection => if MatchedNssai(cfg, p) == [] then DefaultNssai(cfg, p) else MatchedNssai(cfg, p)
    case _ => []
  }

  lemma ReselectionFrame(cfg: Configuration, p: RegistrationParameter, info: SliceInfo)
    ensures var r := WithReselection(cfg, p, info);
      r == info.(targetAmfSet := r.targetAmfSet, nrfAmfSet := r.nrfAmfSet, candidateAmfList := r.candidateAmfList)
  {
  }

  lemma ConfiguredFrame(cfg: Configuration, p: RegistrationParameter, info: SliceInfo)
    ensures var r := WithConfigured(cfg, p, info); r == info.(configuredNssai := r.configuredNssai)
  {
  }

  /** In a selection the three stages write separate fields. */
  lemma SelectionStages(cfg: Configuration, p: RegistrationParameter)
    requires RouteOf(cfg, p) == Selection
    ensures var r, allowed := Response(cfg, p), WithAllowed(cfg, p, EMPTY_INFO);
      var reselected := WithReselection(cfg, p, allowed);
      && r == WithConfigured(cfg, p, reselected)
      && r.allowedNssaiList == reselected.allowedNssaiList == allowed.allowedNssaiList
      && r.rejectedNssaiInTa == allowed.rejectedNssaiInTa && r.rejectedNssaiInPlmn == allowed.rejectedNssaiInPlmn
      && r.targetAmfSet == reselected.targetAmfSet && r.nrfAmfSet == reselected.nrfAmfSet
      && r.candidateAmfList == reselected.candidateAmfList
      && reselected.configuredNssai == allowed.configuredNssai
  {
    var allowed := WithAllowed(cfg, p, EMPTY_INFO);
    ReselectionFrame(cfg, p, allowed);
    ConfiguredFrame(cfg, p, WithReselection(cfg, p, allowed));
  }

  lemma AllowedStage(cfg: Configuration, p: RegistrationParameter)
    ensures var r := WithAllowed(cfg, p, EMPTY_INFO);
      && r.rejectedNssaiInTa == FilterMap(TaRejects(cfg, p), p.info.requestedNssai)
      && r.rejectedNssaiInPlmn == RejectedByPlmn(cfg, p)
      && r.targetAmfSet.None? && r.nrfAmfSet.None? && r.candidateAmfList == [] && r.configuredNssai == []
      && var granted := if MatchedNssai(cfg, p) == [] then DefaultNssai(cfg, p) else MatchedNssai(cfg, p);
         r.allowedNssaiList == AddAll([], granted, AccessTypeOf(cfg, p))
  {
    AddAllFresh(MatchedNssai(cfg, p), AccessTypeOf(cfg, p));
  }

  /** Every run uses one access type: at most one Allowed NSSAI, of the first eight granted. */
  lemma AllowedIsFirstEight(cfg: Configuration, p: RegistrationParameter)
    ensures Response(cfg, p).allowedNssaiList ==
      if Granted(cfg, p) == [] then [] else [AllowedNssai(FirstEight(Granted(cfg, p)), AccessTypeOf(cfg, p))]
  {
    var t := AccessTypeOf(cfg, p);
    AddAllFresh(Granted(cfg, p), t);
    if RouteOf(cfg, p) == Selection {
      SelectionStages(cfg, p);
      AllowedStage(cfg, p);
    }
  }

  // ----- Partition

  function Keeps(cfg: Configuration, p: RegistrationParameter): Snssai -> Option<Snssai> {
    (s: Snssai) => if Judge(cfg, p, s).Matched? then Some(s) else None
  }

  lemma MatchedValues(cfg: Configuration, p: RegistrationParameter)
    ensures AllowedValues(MatchedNssai(cfg, p)) == FilterMap(Keeps(cfg, p), p.info.requestedNssai)
  {
    FilterMapCompose(Matches(cfg, p), (e: AllowedSnssai) => e.allowedSnssai, Keeps(cfg, p), p.info.requestedNssai);
  }

  /**
   * The Requested NSSAI is split exactly: each S-NSSAI is rejected in the TA, rejected in the PLMN or matched,
   * order is kept in each part, and if anything matched the Allowed NSSAI is the first eight matches.
   */
  lemma RequestedIsPartitioned(cfg: Configuration, p: RegistrationParameter)
    requires RouteOf(cfg, p) == Selection
    ensures var r, matched := Response(cfg, p), AllowedValues(MatchedNssai(cfg, p));
      && multiset(p.info.requestedNssai) ==
           multiset(r.rejectedNssaiInTa) + multiset(r.rejectedNssaiInPlmn) + multiset(matched)
      && Subsequence(r.rejectedNssaiInTa, p.info.requestedNssai)
      && Subsequence(r.rejectedNssaiInPlmn, p.info.requestedNssai)
      && Subsequence(matched, p.info.requestedNssai)
      && (matched != [] ==>
          r.allowedNssaiList == [AllowedNssai(FirstEight(MatchedNssai(cfg, p)), AccessTypeOf(cfg, p))])
  {
    MatchedValues(cfg, p);
    RejectionsOf(cfg, p);
    VerdictsPartition(cfg, p);
    VerdictsKeepOrder(cfg, p);
    AllowedIsFirstEight(cfg, p);
  }

  lemma VerdictsPartition(cfg: Configuration, p: RegistrationParameter)
    ensures var xs := p.info.requestedNssai;
      multiset(xs) == multiset(FilterMap(TaRejects(cfg, p), xs)) + multiset(FilterMap(PlmnRejects(cfg, p), xs))
                      + multiset(FilterMap(Keeps(cfg, p), xs))
  {
    forall s ensures PassesOne(TaRejects(cfg, p), PlmnRejects(cfg, p), Keeps(cfg, p), s) {
      OneVerdict(cfg, p, s);
    }
    FiltersPartition(TaRejects(cfg, p), PlmnRejects(cfg, p), Keeps(cfg, p), p.info.requestedNssai);
  }

  lemma OneVerdict(cfg: Configuration, p: RegistrationParameter, s: Snssai)
    ensures PassesOne(TaRejects(cfg, p), PlmnRejects(cfg, p), Keeps(cfg, p), s)
  {
  }

  lemma VerdictsKeepOrder(cfg: Configuration, p: RegistrationParameter)
    ensures var xs := p.info.requestedNssai;
      && Subsequence(FilterMap(TaRejects(cfg, p), xs), xs)
      && Subsequence(FilterMap(PlmnRejects(cfg, p), xs), xs)
      && Subsequence(FilterMap(Keeps(cfg, p), xs), xs)
  {
    FilterIsSubsequence(TaRejects(cfg, p), p.info.requestedNssai);
    FilterIsSubsequence(PlmnRejects(cfg, p), p.info.requestedNssai);
    FilterIsSubsequence(Keeps(cfg, p), p.info.requestedNssai);
  }

  lemma RejectionsOf(cfg: Configuration, p: RegistrationParameter)
    requires RouteOf(cfg, p) == Selection
    ensures Response(cfg, p).rejectedNssaiInTa == FilterMap(TaRejects(cfg, p), p.info.requestedNssai)
    ensures Response(cfg, p).rejectedNssaiInPlmn == RejectedByPlmn(cfg, p)
  {
    SelectionStages(cfg, p);
    AllowedStage(cfg, p);
  }

  /** Outside mapping mode an answered request loses no S-NSSAI: on the early exits all are rejected, on one side only. */
  lemma EveryRequestIsAnswered(cfg: Configuration, p: RegistrationParameter)
    requires Register(cfg, p, EMPTY_INFO).1 == OK && RouteOf(cfg, p) != Mapping
    ensures var r := Response(cfg, p);
      var matched := if RouteOf(cfg, p) == Selection then AllowedValues(MatchedNssai(cfg, p)) else [];
      && multiset(p.info.requestedNssai) ==
           multiset(r.rejectedNssaiInTa) + multiset(r.rejectedNssaiInPlmn) + multiset(matched)
      && (RouteOf(cfg, p) != Selection ==>
          r.allowedNssaiList == [] && r.configuredNssai == [] && (r.rejectedNssaiInTa == [] || r.rejectedNssaiInPlmn == []))
  {
    if RouteOf(cfg, p) == Selection {
      RequestedIsPartitioned(cfg, p);
    } else {
      assert [] + p.info.requestedNssai == p.info.requestedNssai;
    }
  }

  // ----- Configured NSSAI

  /** Exactly when, and from what, the Configured NSSAI is computed. */
  lemma ConfiguredExactly(cfg: Configuration, p: RegistrationParameter)
    ensures Response(cfg, p).configuredNssai ==
      if RouteOf(cfg, p) != Selection then []
      else if p.info.defaultConfiguredSnssaiInd then FilterMap(DefaultConfigured(p), p.info.requestedNssai)
      else if p.tai.Some? && (p.info.requestedNssai == [] || Response(cfg, p).rejectedNssaiInPlmn != [])
      then ConfiguredFromSubscription(cfg, p)
      else []
  {
    if RouteOf(cfg, p) == Selection {
      SelectionStages(cfg, p);
      AllowedStage(cfg, p);
    }
  }

  // ----- Mapping mode

  /** In mapping mode e is granted iff a subscribed S-NSSAI or one sent for mapping is not standard and maps to it. */
  lemma MappedMembers(cfg: Configuration, p: RegistrationParameter, e: AllowedSnssai)
    ensures e in MappedNssai(cfg, p) <==>
      && HomeMapping(cfg, p).Some? && e.nsiInformationList == [] && e.mappedHomeSnssai.Some?
      && var home := e.mappedHomeSnssai.value;
         && !CheckStandardSnssai(home)
         && (home in SubscribedValues(p) || home in p.info.sNssaiForMapping)
         && var m := FindMappingWithHomeSnssai(home, HomeMapping(cfg, p).value);
            m.Some? && m.value.servingSnssai == e.allowedSnssai
  {
    var ms := HomeMapping(cfg, p);
    if ms.Some? {
      MapRequestedMember(ms.value, SubscribedValues(p), e);
      MapRequestedMember(ms.value, p.info.sNssaiForMapping, e);
    }
  }

  lemma MapRequestedMember(ms: seq<MappingOfSnssai>, values: seq<Snssai>, e: AllowedSnssai)
    ensures e in FilterMap(MapRequested(ms), values) <==>
      && e.nsiInformationList == [] && e.mappedHomeSnssai.Some? && e.mappedHomeSnssai.value in values
      && MapRequested(ms)(e.mappedHomeSnssai.value) == Some(e)
  {
    FilterMapMember(MapRequested(ms), values, e);
  }

  // ----- AMF reselection in a whole run

  /** An AMF set or candidates are given only to replace an AMF that fails the check, and never both. */
  lemma ReselectionOf(cfg: Configuration, p: RegistrationParameter)
    ensures var r := Response(cfg, p);
      && (r.targetAmfSet.None? || r.candidateAmfList == [])
      && (r.candidateAmfList != [] || r.targetAmfSet.Some? ==>
          p.tai.Some? && r.allowedNssaiList != [] && !CheckAllowedNssaiInAmfTa(cfg, r.allowedNssaiList, p.nfId, p.tai.value))
  {
    if RouteOf(cfg, p) == Selection {
      SelectionStages(cfg, p);
      AllowedStage(cfg, p);
      ReselectionFresh(cfg, p, WithAllowed(cfg, p, EMPTY_INFO));
    }
  }

  lemma ReselectionFresh(cfg: Configuration, p: RegistrationParameter, info: SliceInfo)
    requires info.targetAmfSet.None? && info.candidateAmfList == []
    ensures var r := WithReselection(cfg, p, info);
      && (r.targetAmfSet.None? || r.candidateAmfList == [])
      && (r.candidateAmfList != [] || r.targetAmfSet.Some? ==>
          p.tai.Some? && info.allowedNssaiList != []
          && !CheckAllowedNssaiInAmfTa(cfg, info.allowedNssaiList, p.nfId, p.tai.value))
  {
  }

  /** The requesting AMF cannot serve the whole (non-empty) Allowed NSSAI at the UE's TA. */
  predicate NeedsReselection(cfg: Configuration, p: RegistrationParameter, allowed: seq<AllowedNssai>)
    requires p.tai.Some?
  {
    allowed != [] && !CheckAllowedNssaiInAmfTa(cfg, allowed, p.nfId, p.tai.value)
  }

  /** When set k is the first that covers the Allowed NSSAI, the response names its AMFs, or the set if it lists none. */
  lemma AmfSetOf(cfg: Configuration, p: RegistrationParameter, k: nat)
    requires p.tai.Some? && RouteOf(cfg, p) == Selection && k < |cfg.amfSetList|
    ensures var r := Response(cfg, p);
      NeedsReselection(cfg, p, r.allowedNssaiList) && k == FirstCovering(cfg.amfSetList, r.allowedNssaiList, p.tai.value) ==>
        && r.candidateAmfList == cfg.amfSetList[k].amfList
        && r.targetAmfSet == (if cfg.amfSetList[k].amfList == [] then Some(cfg.amfSetList[k].amfSetId) else None)
        && r.nrfAmfSet == if cfg.amfSetList[k].amfList == [] then Some(cfg.amfSetList[k].nrfAmfSet) else None
  {
    SelectionStages(cfg, p);
    AllowedStage(cfg, p);
    var info := WithAllowed(cfg, p, EMPTY_INFO);
    if k == FirstCovering(cfg.amfSetList, info.allowedNssaiList, p.tai.value) {
      SetOrCandidates(cfg, p.tai.value, info, k);
    }
  }

  /**
   * With no covering set the fallback decides: it offers exactly the AMFs that pass the check iff no covering record
   * is shadowed, and in the order of the records iff those of each nfId agree. Distinct nfIds suffice for both.
   */
  lemma FallbackOf(cfg: Configuration, p: RegistrationParameter)
    requires p.tai.Some? && RouteOf(cfg, p) == Selection
    ensures var r, tai := Response(cfg, p), p.tai.value;
      var allowed, candidates := r.allowedNssaiList, r.candidateAmfList;
      NeedsReselection(cfg, p, allowed) && FirstCovering(cfg.amfSetList, allowed, tai) == |cfg.amfSetList| ==>
        && r.targetAmfSet.None? && candidates == FallbackCandidates(cfg, allowed, tai)
        && ((forall id :: id in candidates <==> Passes(cfg, allowed, tai, id)) <==> NoneShadowed(cfg, allowed, tai))
        && (candidates == FilterMap(PassesCheck(cfg, allowed, tai), cfg.amfList) <==> RecordsAgree(cfg, allowed, tai))
        && (DistinctIds(cfg.amfList) ==> NoneShadowed(cfg, allowed, tai) && RecordsAgree(cfg, allowed, tai))
  {
    SelectionStages(cfg, p);
    AllowedStage(cfg, p);
    var allowed := WithAllowed(cfg, p, EMPTY_INFO).allowedNssaiList;
    FallbackIsExact(cfg, allowed, p.tai.value);
    FallbackInOrderExactly(cfg, allowed, p.tai.value);
    if DistinctIds(cfg.amfList) {
      DistinctRecordsAgree(cfg, allowed, p.tai.value);
    }
  }

  /** Reselection can only name AMFs of the first covering set, or else AMFs with a covering record. */
  predicate CanReplace(cfg: Configuration, allowed: seq<AllowedNssai>, tai: Tai, nfId: string) {
    var k := FirstCovering(cfg.amfSetList, allowed, tai);
    if k < |cfg.amfSetList| then nfId in cfg.amfSetList[k].amfList
    else exists i :: 0 <= i < |cfg.amfList| && cfg.amfList[i].nfId == nfId && Covers(allowed, tai, cfg.amfList[i].data)
  }

  /** For every request: which AMFs the response offers. */
  lemma CandidatesExactly(cfg: Configuration, p: RegistrationParameter, nfId: string)
    ensures var r := Response(cfg, p);
      nfId in r.candidateAmfList <==>
        RouteOf(cfg, p) == Selection && p.tai.Some? && NeedsReselection(cfg, p, r.allowedNssaiList)
        && CanReplace(cfg, r.allowedNssaiList, p.tai.value, nfId)
  {
    ReselectionOf(cfg, p);
    if RouteOf(cfg, p) == Selection && p.tai.Some? {
      var allowed := Response(cfg, p).allowedNssaiList;
      var k := FirstCovering(cfg.amfSetList, allowed, p.tai.value);
      if k < |cfg.amfSetList| {
        AmfSetOf(cfg, p, k);
      } else {
        FallbackOf(cfg, p);
        FallbackMembers(cfg, allowed, p.tai.value, nfId);
      }
    }
  }

  /**
   * Unless a covering record is shadowed, the requesting AMF is offered back exactly when reselection is needed and the
   * first covering set lists it.
   */
  lemma RequesterOfferedExactly(cfg: Configuration, p: RegistrationParameter)
    requires p.tai.Some?
    ensures var r := Response(cfg, p);
      var k := FirstCovering(cfg.amfSetList, r.allowedNssaiList, p.tai.value);
      NoneShadowed(cfg, r.allowedNssaiList, p.tai.value) ==>
        (p.nfId in r.candidateAmfList <==>
           RouteOf(cfg, p) == Selection && NeedsReselection(cfg, p, r.allowedNssaiList)
           && k < |cfg.amfSetList| && p.nfId in cfg.amfSetList[k].amfList)
  {
    var allowed := Response(cfg, p).allowedNssaiList;
    CandidatesExactly(cfg, p, p.nfId);
    if NeedsReselection(cfg, p, allowed) && NoneShadowed(cfg, allowed, p.tai.value) {
      RequesterNotACandidate(cfg, allowed, p.tai.value, p.nfId);
      FallbackMembers(cfg, allowed, p.tai.value, p.nfId);
    }
  }

  // ----- A small configuration

  /** One TA that supports one slice, and no PLMN index. */
  function OneTa(tai: Tai, s: Snssai, sets: seq<AmfSetConfig>, amfs: seq<AmfConfig>): Configuration {
    Configuration(map[], [], sets, amfs, [TaConfig(tai, ACCESSTYPE_3GPP, [s], [])], [])
  }

  /** A request of a UE at home with one default subscribed S-NSSAI. */
  function DefaultRequest(nfId: string, tai: Tai, s: Snssai): RegistrationParameter {
    QueryParameter(nfId, SliceInfoForRegistration([SubscribedSnssai(s, Some(true), [])], [], [], [], false, false), None, Some(tai))
  }

  lemma DefaultIsAllowed(nfId: string, tai: Tai, s: Snssai, sets: seq<AmfSetConfig>, amfs: seq<AmfConfig>)
    ensures Response(OneTa(tai, s, sets, amfs), DefaultRequest(nfId, tai, s)).allowedNssaiList
            == [AllowedNssai([AllowedSnssai(s, [], None)], ACCESSTYPE_3GPP)]
  {
    var cfg, p := OneTa(tai, s, sets, amfs), DefaultRequest(nfId, tai, s);
    DefaultIsGranted(cfg, p, tai, s);
    AllowedIsFirstEight(cfg, p);
    assert AccessTypeOf(cfg, p) == ACCESSTYPE_3GPP;
    assert Granted(cfg, p) == DefaultNssai(cfg, p);
  }

  lemma DefaultIsGranted(cfg: Configuration, p: RegistrationParameter, tai: Tai, s: Snssai)
    requires cfg == OneTa(tai, s, cfg.amfSetList, cfg.amfList) && p == DefaultRequest(p.nfId, tai, s)
    ensures DefaultNssai(cfg, p) == [AllowedSnssai(s, [], None)]
  {
    assert cfg.taList[0].supportedSnssaiList[0] == s;
    assert CheckSupportedSnssaiInTa(cfg, s, tai);
    var sub := p.info.subscribedNssai;
    assert sub[..0] == [] && sub[..1] == sub;
    FilterMapSnoc(DefaultAllowed(cfg, p, []), sub, 0);
  }

  /** A set that covers the slice lists an AMF whose own record does not: that AMF asks and is offered back. */
  lemma RequesterCanBeOfferedBack(nfId: string, tai: Tai, s: Snssai)
    ensures var amfSet := AmfSetConfig("set", [nfId], "", [SupportedNssaiAvailabilityData(tai, [s])]);
      nfId in Response(OneTa(tai, s, [amfSet], [AmfConfig(nfId, [])]), DefaultRequest(nfId, tai, s)).candidateAmfList
  {
    var amfSet := AmfSetConfig("set", [nfId], "", [SupportedNssaiAvailabilityData(tai, [s])]);
    var cfg, p := OneTa(tai, s, [amfSet], [AmfConfig(nfId, [])]), DefaultRequest(nfId, tai, s);
    DefaultIsAllowed(nfId, tai, s, cfg.amfSetList, cfg.amfList);
    SetCoversAlone(nfId, tai, s, amfSet);
    CandidatesExactly(cfg, p, nfId);
  }

  lemma SetCoversAlone(nfId: string, tai: Tai, s: Snssai, amfSet: AmfSetConfig)
    requires amfSet == AmfSetConfig("set", [nfId], "", [SupportedNssaiAvailabilityData(tai, [s])])
    ensures var allowed := [AllowedNssai([AllowedSnssai(s, [], None)], ACCESSTYPE_3GPP)];
      var cfg := OneTa(tai, s, [amfSet], [AmfConfig(nfId, [])]);
      && NeedsReselection(cfg, DefaultRequest(nfId, tai, s), allowed)
      && CanReplace(cfg, allowed, tai, nfId)
  {
    var allowed := [AllowedNssai([AllowedSnssai(s, [], None)], ACCESSTYPE_3GPP)];
    var cfg := OneTa(tai, s, [amfSet], [AmfConfig(nfId, [])]);
    assert allowed[0].allowedSnssaiList[0].allowedSnssai == s;
    assert !CheckSupportedSnssaiInAmfTa(cfg, s, nfId, tai);
    assert amfSet.data[0].supportedSnssaiList[0] == s;
    assert Covers(allowed, tai, amfSet.data);
  }

  // ----- Two runs

  /** cfg with the supported list of the first entry for tai replaced. */
  function WithTaSupport(tas: seq<TaConfig>, tai: Tai, nssai: seq<Snssai>): seq<TaConfig> {
    if tas == [] then []
    else if tas[0].tai == tai then [tas[0].(supportedSnssaiList := nssai)] + tas[1..]
    else [tas[0]] + WithTaSupport(tas[1..], tai, nssai)
  }

  function Extended(cfg: Configuration, tai: Tai, nssai: seq<Snssai>): Configuration {
    cfg.(taList := WithTaSupport(cfg.taList, tai, nssai))
  }

  lemma {:induction false} FindTaExtended(tas: seq<TaConfig>, tai: Tai, nssai: seq<Snssai>, t: Tai)
    ensures var was, now := FindTa(tas, t), FindTa(WithTaSupport(tas, tai, nssai), t);
      now == if t == tai && was.Some? then Some(was.value.(supportedSnssaiList := nssai)) else was
  {
    if tas != [] {
      FindTaExtended(tas[1..], tai, nssai, t);
      if tas[0].tai == tai {
        assert WithTaSupport(tas, tai, nssai)[1..] == tas[1..];
      } else {
        assert WithTaSupport(tas, tai, nssai)[1..] == WithTaSupport(tas[1..], tai, nssai);
      }
    }
  }

  /** nssai holds at least what the TA entry of tai supports. */
  predicate Extends(cfg: Configuration, tai: Tai, nssai: seq<Snssai>) {
    var ta := FindTa(cfg.taList, tai);
    ta.Some? ==> forall i :: 0 <= i < |ta.value.supportedSnssaiList| ==>
      CheckSnssaiInNssai(ta.value.supportedSnssaiList[i], nssai)
  }

  lemma VerdictsUnderExtension(cfg: Configuration, p: RegistrationParameter, nssai: seq<Snssai>, s: Snssai)
    requires p.tai.Some? && Extends(cfg, p.tai.value, nssai)
    ensures var was, now := Judge(cfg, p, s), Judge(Extended(cfg, p.tai.value, nssai), p, s);
      (was == RejectedInTa) || now == was
  {
    TaSupportUnderExtension(cfg, p.tai.value, nssai, s);
    assert NsisOf(Extended(cfg, p.tai.value, nssai), s) == NsisOf(cfg, s);
  }

  lemma TaSupportUnderExtension(cfg: Configuration, tai: Tai, nssai: seq<Snssai>, s: Snssai)
    requires Extends(cfg, tai, nssai)
    ensures CheckSupportedSnssaiInTa(cfg, s, tai) ==> CheckSupportedSnssaiInTa(Extended(cfg, tai, nssai), s, tai)
  {
    FindTaExtended(cfg.taList, tai, nssai, tai);
    if CheckSupportedSnssaiInTa(cfg, s, tai) {
      SupportUnderExtension(FindTa(cfg.taList, tai).value.supportedSnssaiList, nssai, s);
    }
  }

  lemma SupportUnderExtension(was: seq<Snssai>, now: seq<Snssai>, s: Snssai)
    requires forall i :: 0 <= i < |was| ==> CheckSnssaiInNssai(was[i], now)
    requires CheckSnssaiInNssai(s, was)
    ensures CheckSnssaiInNssai(s, now)
  {
    var i :| 0 <= i < |was| && SnssaiToKey(was[i]) == SnssaiToKey(s);
    assert CheckSnssaiInNssai(was[i], now);
  }

  lemma RouteUnderExtension(cfg: Configuration, p: RegistrationParameter, nssai: seq<Snssai>)
    requires p.tai.Some?
    ensures var cfg' := Extended(cfg, p.tai.value, nssai);
      RouteOf(cfg', p) == RouteOf(cfg, p) && AccessTypeOf(cfg', p) == AccessTypeOf(cfg, p)
  {
    var cfg', tai := Extended(cfg, p.tai.value, nssai), p.tai.value;
    FindTaExtended(cfg.taList, tai, nssai, tai);
    assert CheckSupportedTa(cfg', tai) == CheckSupportedTa(cfg, tai);
    assert CheckSupportedNssaiInPlmn(cfg', p.info.requestedNssai, tai.plmnId)
        == CheckSupportedNssaiInPlmn(cfg, p.info.requestedNssai, tai.plmnId);
  }

  lemma FiltersUnderExtension(cfg: Configuration, p: RegistrationParameter, nssai: seq<Snssai>)
    requires p.tai.Some? && Extends(cfg, p.tai.value, nssai)
    ensures var cfg', xs := Extended(cfg, p.tai.value, nssai), p.info.requestedNssai;
      && Subsequence(FilterMap(TaRejects(cfg', p), xs), FilterMap(TaRejects(cfg, p), xs))
      && Subsequence(MatchedNssai(cfg, p), MatchedNssai(cfg', p))
  {
    var cfg', xs := Extended(cfg, p.tai.value, nssai), p.info.requestedNssai;
    forall s ensures Judge(cfg, p, s) == RejectedInTa || Judge(cfg', p, s) == Judge(cfg, p, s) {
      VerdictsUnderExtension(cfg, p, nssai, s);
    }
    FilterMonotone(TaRejects(cfg', p), TaRejects(cfg, p), xs);
    FilterMonotone(Matches(cfg, p), Matches(cfg', p), xs);
  }

  /**
   * Extending the supported list of the UE's TA never enlarges the rejections in the TA, never loses a match,
   * and, if something matched before and at most eight match now, only grows the Allowed NSSAI.
   */
  lemma ExtendingTaIsMonotone(cfg: Configuration, p: RegistrationParameter, nssai: seq<Snssai>)
    requires p.tai.Some? && Extends(cfg, p.tai.value, nssai)
    ensures var cfg' := Extended(cfg, p.tai.value, nssai);
      var was, now := Response(cfg, p), Response(cfg', p);
      && Subsequence(now.rejectedNssaiInTa, was.rejectedNssaiInTa)
      && Subsequence(MatchedNssai(cfg, p), MatchedNssai(cfg', p))
      && (RouteOf(cfg, p) == Selection && MatchedNssai(cfg, p) != [] && |MatchedNssai(cfg', p)| <= ALLOWED_NSSAI_NUM ==>
          && |was.allowedNssaiList| == |now.allowedNssaiList| == 1
          && was.allowedNssaiList[0].accessType == now.allowedNssaiList[0].accessType
          && Subsequence(was.allowedNssaiList[0].allowedSnssaiList, now.allowedNssaiList[0].allowedSnssaiList))
  {
    var cfg' := Extended(cfg, p.tai.value, nssai);
    FiltersUnderExtension(cfg, p, nssai);
    RouteUnderExtension(cfg, p, nssai);
    RejectionsUnderExtension(cfg, p, nssai);
    if RouteOf(cfg, p) == Selection && MatchedNssai(cfg, p) != [] && |MatchedNssai(cfg', p)| <= ALLOWED_NSSAI_NUM {
      AllowedUnderExtension(cfg, cfg', p);
    }
  }

  lemma RejectionsUnderExtension(cfg: Configuration, p: RegistrationParameter, nssai: seq<Snssai>)
    requires p.tai.Some? && Extends(cfg, p.tai.value, nssai)
    ensures var cfg' := Extended(cfg, p.tai.value, nssai);
      Subsequence(Response(cfg', p).rejectedNssaiInTa, Response(cfg, p).rejectedNssaiInTa)
  {
    var cfg' := Extended(cfg, p.tai.value, nssai);
    RouteUnderExtension(cfg, p, nssai);
    if RouteOf(cfg, p) == Selection {
      FiltersUnderExtension(cfg, p, nssai);
      RejectionsOf(cfg, p);
      RejectionsOf(cfg', p);
    } else {
      EarlyRejections(cfg, cfg', p);
      SubsequenceReflexive(Response(cfg, p).rejectedNssaiInTa);
    }
  }

  lemma EarlyRejections(cfg: Configuration, cfg': Configuration, p: RegistrationParameter)
    requires RouteOf(cfg, p) == RouteOf(cfg', p) && RouteOf(cfg, p) != Selection
    ensures Response(cfg', p).rejectedNssaiInTa == Response(cfg, p).rejectedNssaiInTa
  {
  }

  lemma AllowedUnderExtension(cfg: Configuration, cfg': Configuration, p: RegistrationParameter)
    requires RouteOf(cfg, p) == RouteOf(cfg', p) == Selection && AccessTypeOf(cfg, p) == AccessTypeOf(cfg', p)
    requires MatchedNssai(cfg, p) != [] && |MatchedNssai(cfg', p)| <= ALLOWED_NSSAI_NUM
    requires Subsequence(MatchedNssai(cfg, p), MatchedNssai(cfg', p))
    ensures var was, now := Response(cfg, p), Response(cfg', p);
      && |was.allowedNssaiList| == |now.allowedNssaiList| == 1
      && was.allowedNssaiList[0].accessType == now.allowedNssaiList[0].accessType
      && Subsequence(was.allowedNssaiList[0].allowedSnssaiList, now.allowedNssaiList[0].allowedSnssaiList)
  {
    SubsequenceMembers(MatchedNssai(cfg, p), MatchedNssai(cfg', p));
    AllowedIsFirstEight(cfg, p);
    AllowedIsFirstEight(cfg', p);
  }

  lemma {:induction false} SubsequenceReflexive<T>(xs: seq<T>)
    ensures Subsequence(xs, xs)
  {
    if xs != [] {
      SubsequenceReflexive(xs[..|xs| - 1]);
    }
  }
}
