/** AMF reselection: which AMF set or candidate AMFs can serve the Allowed NSSAI at the UE's TA. */
module AmfSelection {
  import opened Prelude
  import opened Models
  import opened Util

  /** The availability data supports every Allowed S-NSSAI at tai. */
  predicate Covers(allowed: seq<AllowedNssai>, tai: Tai, data: seq<SupportedNssaiAvailabilityData>) {
    forall i, j :: 0 <= i < |allowed| && 0 <= j < |allowed[i].allowedSnssaiList| ==>
      CheckSupportedNssaiAvailabilityData(allowed[i].allowedSnssaiList[j].allowedSnssai, tai, data)
  }

  /** The index of the first AMF set that covers the Allowed NSSAI, or |sets|. */
  function FirstCovering(sets: seq<AmfSetConfig>, allowed: seq<AllowedNssai>, tai: Tai): (k: nat)
    ensures k <= |sets| && forall i :: 0 <= i < k ==> !Covers(allowed, tai, sets[i].data)
    ensures k < |sets| ==> Covers(allowed, tai, sets[k].data)
  {
    if sets == [] || Covers(allowed, tai, sets[0].data) then 0 else 1 + FirstCovering(sets[1..], allowed, tai)
  }

  function ServingAmf(allowed: seq<AllowedNssai>, tai: Tai): AmfConfig -> Option<string> {
    (amf: AmfConfig) => if Covers(allowed, tai, amf.data) then Some(amf.nfId) else None
  }

  function FallbackCandidates(cfg: Configuration, allowed: seq<AllowedNssai>, tai: Tai): seq<string> {
    FilterMap(ServingAmf(allowed, tai), cfg.amfList)
  }

  /** The response after AddAmfInformation. */
  function WithAmfInformation(cfg: Configuration, tai: Tai, info: SliceInfo): SliceInfo {
    if info.allowedNssaiList == [] then info
    else
      var k := FirstCovering(cfg.amfSetList, info.allowedNssaiList, tai);
      if k == |cfg.amfSetList| then
        info.(candidateAmfList := info.candidateAmfList + FallbackCandidates(cfg, info.allowedNssaiList, tai))
      else if cfg.amfSetList[k].amfList != [] then
        info.(candidateAmfList := info.candidateAmfList + cfg.amfSetList[k].amfList)
      else
        info.(targetAmfSet := Some(cfg.amfSetList[k].amfSetId), nrfAmfSet := Some(cfg.amfSetList[k].nrfAmfSet))
  }

  method CoversAllowed(allowed: seq<AllowedNssai>, tai: Tai, data: seq<SupportedNssaiAvailabilityData>) returns (hit: bool)
    ensures hit == Covers(allowed, tai, data)
  {
    hit := true;
    for i := 0 to |allowed|
      invariant hit && forall k :: 0 <= k < i ==> Covers([allowed[k]], tai, data)
    {
      var list := allowed[i].allowedSnssaiList;
      for j := 0 to |list|
        invariant hit
        invariant forall m :: 0 <= m < j ==> CheckSupportedNssaiAvailabilityData(list[m].allowedSnssai, tai, data)
      {
        if !CheckSupportedNssaiAvailabilityData(list[j].allowedSnssai, tai, data) {
          return false;
        }
      }
    }
    forall i, j | 0 <= i < |allowed| && 0 <= j < |allowed[i].allowedSnssaiList|
      ensures CheckSupportedNssaiAvailabilityData(allowed[i].allowedSnssaiList[j].allowedSnssai, tai, data)
    {
      assert Covers([allowed[i]], tai, data) && [allowed[i]][0] == allowed[i];
    }
  }

  method AddAmfInformation(cfg: Configuration, tai: Tai, info: AuthorizedNetworkSliceInfo)
    modifies info
    ensures info.Value() == WithAmfInformation(cfg, tai, old(info.Value()))
  {
    if |info.allowedNssaiList| == 0 {
      return;
    }
    var allowed := info.allowedNssaiList;
    for i := 0 to |cfg.amfSetList|
      invariant info.Value() == old(info.Value())
      invariant forall j :: 0 <= j < i ==> !Covers(allowed, tai, cfg.amfSetList[j].data)
    {
      var amfSet := cfg.amfSetList[i];
      var hitAllowedNssai := CoversAllowed(allowed, tai, amfSet.data);
      if hitAllowedNssai {
        if |amfSet.amfList| != 0 {
          info.candidateAmfList := info.candidateAmfList + amfSet.amfList;
        } else {
          info.targetAmfSet := Some(amfSet.amfSetId);
          info.nrfAmfSet := Some(amfSet.nrfAmfSet);
        }
        return;
      }
    }
    for i := 0 to |cfg.amfList|
      invariant info.Value() == old(info.Value()).(candidateAmfList :=
        old(info.candidateAmfList) + FilterMap(ServingAmf(allowed, tai), cfg.amfList[..i]))
    {
      FilterMapSnoc(ServingAmf(allowed, tai), cfg.amfList, i);
      var hitAllowedNssai := CoversAllowed(allowed, tai, cfg.amfList[i].data);
      if hitAllowedNssai {
        info.candidateAmfList := info.candidateAmfList + [cfg.amfList[i].nfId];
      }
    }
    assert cfg.amfList[..|cfg.amfList|] == cfg.amfList;
  }

  predicate DistinctIds(amfs: seq<AmfConfig>) {
    forall i, j :: 0 <= i < j < |amfs| ==> amfs[i].nfId != amfs[j].nfId
  }

  function PassesCheck(cfg: Configuration, allowed: seq<AllowedNssai>, tai: Tai): AmfConfig -> Option<string> {
    (amf: AmfConfig) => if CheckAllowedNssaiInAmfTa(cfg, allowed, amf.nfId, tai) then Some(amf.nfId) else None
  }

  /** The first record of nfId covers the Allowed NSSAI. */
  predicate FirstCovers(cfg: Configuration, allowed: seq<AllowedNssai>, tai: Tai, nfId: string)
    requires FindAmf(cfg.amfList, nfId).Some?
  {
    Covers(allowed, tai, FindAmf(cfg.amfList, nfId).value.data)
  }

  /** The check asks the first record of an nfId; the fallback asks every record. */
  lemma CoversIsCheck(cfg: Configuration, allowed: seq<AllowedNssai>, tai: Tai, nfId: string)
    requires FindAmf(cfg.amfList, nfId).Some?
    ensures FirstCovers(cfg, allowed, tai, nfId) <==> CheckAllowedNssaiInAmfTa(cfg, allowed, nfId, tai)
  {
  }

  /** A record that covers the Allowed NSSAI never hides behind an earlier one of its nfId that does not. */
  predicate NoneShadowed(cfg: Configuration, allowed: seq<AllowedNssai>, tai: Tai) {
    forall i :: 0 <= i < |cfg.amfList| && Covers(allowed, tai, cfg.amfList[i].data) ==>
      FirstCovers(cfg, allowed, tai, cfg.amfList[i].nfId)
  }

  /** All records of an nfId cover the Allowed NSSAI, or none does. */
  predicate RecordsAgree(cfg: Configuration, allowed: seq<AllowedNssai>, tai: Tai) {
    forall i :: 0 <= i < |cfg.amfList| ==>
      (Covers(allowed, tai, cfg.amfList[i].data) <==> FirstCovers(cfg, allowed, tai, cfg.amfList[i].nfId))
  }

  lemma DistinctRecordsAgree(cfg: Configuration, allowed: seq<AllowedNssai>, tai: Tai)
    requires DistinctIds(cfg.amfList)
    ensures RecordsAgree(cfg, allowed, tai) && NoneShadowed(cfg, allowed, tai)
  {
    forall i | 0 <= i < |cfg.amfList| ensures FindAmf(cfg.amfList, cfg.amfList[i].nfId) == Some(cfg.amfList[i]) {
      var k :| 0 <= k < |cfg.amfList| && cfg.amfList[k] == FindAmf(cfg.amfList, cfg.amfList[i].nfId).value;
    }
  }

  lemma FallbackMembers(cfg: Configuration, allowed: seq<AllowedNssai>, tai: Tai, nfId: string)
    ensures nfId in FallbackCandidates(cfg, allowed, tai) <==>
      exists i :: 0 <= i < |cfg.amfList| && cfg.amfList[i].nfId == nfId && Covers(allowed, tai, cfg.amfList[i].data)
  {
    var f := ServingAmf(allowed, tai);
    FilterMapMember(f, cfg.amfList, nfId);
    if i :| 0 <= i < |cfg.amfList| && cfg.amfList[i].nfId == nfId && Covers(allowed, tai, cfg.amfList[i].data) {
      assert f(cfg.amfList[i]) == Some(nfId);
    }
  }

  /** nfId is recorded and passes the check that a selection makes of its requester. */
  predicate Passes(cfg: Configuration, allowed: seq<AllowedNssai>, tai: Tai, nfId: string) {
    FindAmf(cfg.amfList, nfId).Some? && CheckAllowedNssaiInAmfTa(cfg, allowed, nfId, tai)
  }

  /** The fallback offers exactly the AMFs that pass the check iff no covering record is shadowed. */
  lemma FallbackIsExact(cfg: Configuration, allowed: seq<AllowedNssai>, tai: Tai)
    ensures (forall id :: id in FallbackCandidates(cfg, allowed, tai) <==> Passes(cfg, allowed, tai, id))
            <==> NoneShadowed(cfg, allowed, tai)
  {
    forall id ensures Passes(cfg, allowed, tai, id) ==> id in FallbackCandidates(cfg, allowed, tai) {
      FallbackMembers(cfg, allowed, tai, id);
      if Passes(cfg, allowed, tai, id) {
        CoversIsCheck(cfg, allowed, tai, id);
      }
    }
    if NoneShadowed(cfg, allowed, tai) {
      forall id | id in FallbackCandidates(cfg, allowed, tai) ensures Passes(cfg, allowed, tai, id) {
        FallbackMembers(cfg, allowed, tai, id);
        CoversIsCheck(cfg, allowed, tai, id);
      }
    } else {
      var i :| 0 <= i < |cfg.amfList| && Covers(allowed, tai, cfg.amfList[i].data)
        && !FirstCovers(cfg, allowed, tai, cfg.amfList[i].nfId);
      FallbackMembers(cfg, allowed, tai, cfg.amfList[i].nfId);
      CoversIsCheck(cfg, allowed, tai, cfg.amfList[i].nfId);
    }
  }

  lemma PassesCheckOf(cfg: Configuration, allowed: seq<AllowedNssai>, tai: Tai, a: AmfConfig)
    requires a in cfg.amfList
    ensures PassesCheck(cfg, allowed, tai)(a) == if FirstCovers(cfg, allowed, tai, a.nfId) then Some(a.nfId) else None
  {
    CoversIsCheck(cfg, allowed, tai, a.nfId);
  }

  lemma MissingRecordShows(cfg: Configuration, allowed: seq<AllowedNssai>, tai: Tai, i: nat)
    requires i < |cfg.amfList| && !Covers(allowed, tai, cfg.amfList[i].data)
    requires FirstCovers(cfg, allowed, tai, cfg.amfList[i].nfId)
    ensures FallbackCandidates(cfg, allowed, tai) != FilterMap(PassesCheck(cfg, allowed, tai), cfg.amfList)
  {
    var f, g, nfId := ServingAmf(allowed, tai), PassesCheck(cfg, allowed, tai), cfg.amfList[i].nfId;
    forall a | a in cfg.amfList && f(a) == Some(nfId) ensures g(a) == Some(nfId) {
      PassesCheckOf(cfg, allowed, tai, a);
    }
    PassesCheckOf(cfg, allowed, tai, cfg.amfList[i]);
    FiltersDiffer(f, g, cfg.amfList, nfId, i);
  }

  lemma ShadowedRecordShows(cfg: Configuration, allowed: seq<AllowedNssai>, tai: Tai, i: nat)
    requires i < |cfg.amfList| && Covers(allowed, tai, cfg.amfList[i].data)
    requires !FirstCovers(cfg, allowed, tai, cfg.amfList[i].nfId)
    ensures FallbackCandidates(cfg, allowed, tai) != FilterMap(PassesCheck(cfg, allowed, tai), cfg.amfList)
  {
    var f, g, nfId := ServingAmf(allowed, tai), PassesCheck(cfg, allowed, tai), cfg.amfList[i].nfId;
    forall a | a in cfg.amfList ensures g(a) != Some(nfId) {
      PassesCheckOf(cfg, allowed, tai, a);
    }
    FiltersDiffer(g, f, cfg.amfList, nfId, i);
  }

  /** It offers them record by record, in order, iff the records of each nfId agree. */
  lemma FallbackInOrderExactly(cfg: Configuration, allowed: seq<AllowedNssai>, tai: Tai)
    ensures FallbackCandidates(cfg, allowed, tai) == FilterMap(PassesCheck(cfg, allowed, tai), cfg.amfList)
            <==> RecordsAgree(cfg, allowed, tai)
  {
    if RecordsAgree(cfg, allowed, tai) {
      forall a | a in cfg.amfList ensures ServingAmf(allowed, tai)(a) == PassesCheck(cfg, allowed, tai)(a) {
        PassesCheckOf(cfg, allowed, tai, a);
      }
      FilterMapEqual(ServingAmf(allowed, tai), PassesCheck(cfg, allowed, tai), cfg.amfList);
    } else {
      var i :| 0 <= i < |cfg.amfList|
        && (Covers(allowed, tai, cfg.amfList[i].data) <==> !FirstCovers(cfg, allowed, tai, cfg.amfList[i].nfId));
      if Covers(allowed, tai, cfg.amfList[i].data) {
        ShadowedRecordShows(cfg, allowed, tai, i);
      } else {
        MissingRecordShows(cfg, allowed, tai, i);
      }
    }
  }

  /** Without a shadowed record the fallback never offers back the AMF that could not serve the UE. */
  lemma RequesterNotACandidate(cfg: Configuration, allowed: seq<AllowedNssai>, tai: Tai, nfId: string)
    requires NoneShadowed(cfg, allowed, tai) && !CheckAllowedNssaiInAmfTa(cfg, allowed, nfId, tai)
    ensures nfId !in FallbackCandidates(cfg, allowed, tai)
  {
    FallbackIsExact(cfg, allowed, tai);
  }

  /**
   * On a fresh response TargetAmfSet and CandidateAmfList are never both set, and TargetAmfSet names a set only
   * if that set lists no AMFs and is the first that covers a non-empty Allowed NSSAI.
   */
  lemma SetOrCandidates(cfg: Configuration, tai: Tai, info: SliceInfo, k: nat)
    requires info.targetAmfSet.None? && info.nrfAmfSet.None? && info.candidateAmfList == []
    requires k < |cfg.amfSetList| && Covers(info.allowedNssaiList, tai, cfg.amfSetList[k].data)
    requires forall j :: 0 <= j < k ==> !Covers(info.allowedNssaiList, tai, cfg.amfSetList[j].data)
    ensures var r := WithAmfInformation(cfg, tai, info);
            && (r.targetAmfSet.None? || r.candidateAmfList == [])
            && r.targetAmfSet == (if info.allowedNssaiList != [] && cfg.amfSetList[k].amfList == []
                                  then Some(cfg.amfSetList[k].amfSetId) else None)
            && r.nrfAmfSet == (if r.targetAmfSet.Some? then Some(cfg.amfSetList[k].nrfAmfSet) else None)
            && (info.allowedNssaiList != [] ==> r.candidateAmfList == cfg.amfSetList[k].amfList)
  {
    assert FirstCovering(cfg.amfSetList, info.allowedNssaiList, tai) == k;
  }

  /** An empty record that shadows a covering one: the fallback offers an AMF that the first-match check refuses. */
  lemma DuplicateRecordBreaksFallback(cfg: Configuration, nfId: string, tai: Tai, s: Snssai)
    requires cfg.amfList == [AmfConfig(nfId, []), AmfConfig(nfId, [SupportedNssaiAvailabilityData(tai, [s])])]
    ensures var allowed := [AllowedNssai([AllowedSnssai(s, [], None)], ACCESSTYPE_3GPP)];
      nfId in FallbackCandidates(cfg, allowed, tai) && !CheckAllowedNssaiInAmfTa(cfg, allowed, nfId, tai)
      && !NoneShadowed(cfg, allowed, tai)
  {
    var allowed := [AllowedNssai([AllowedSnssai(s, [], None)], ACCESSTYPE_3GPP)];
    assert cfg.amfList[1].data[0].supportedSnssaiList[0] == s;
    assert Covers(allowed, tai, cfg.amfList[1].data);
    FallbackMembers(cfg, allowed, tai, nfId);
    assert !CheckSupportedSnssaiInAmfTa(cfg, allowed[0].allowedSnssaiList[0].allowedSnssai, nfId, tai);
    CoversIsCheck(cfg, allowed, tai, nfId);
  }
}
