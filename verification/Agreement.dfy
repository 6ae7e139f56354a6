/** Registration and PDU session selection agree: what one allows, the other accepts. */
module Agreement {
  import opened Prelude
  import opened Models
  import opened Util
  import opened Registration
  import opened RegistrationProperties
  import opened PduSession

  predicate IsAllowed(info: SliceInfo, e: AllowedSnssai) {
    exists i :: 0 <= i < |info.allowedNssaiList| && e in info.allowedNssaiList[i].allowedSnssaiList
  }

  /** q asks for a PDU session in the slice e, for the same UE in the same place, with a consistent roaming indication. */
  predicate SessionFor(p: RegistrationParameter, e: AllowedSnssai, q: PduSessionParameter) {
    && q.homePlmnId == p.homePlmnId && q.tai == p.tai
    && SnssaiToKey(q.info.sNssai) == SnssaiToKey(e.allowedSnssai)
    && (q.homePlmnId.Some? <==> q.info.roamingIndication != NonRoaming)
  }

  /** The instances configured for e's slice are the ones e lists. */
  predicate ListsInstances(e: AllowedSnssai, nsis: Option<seq<NsiInformation>>) {
    if nsis.None? then e.nsiInformationList == [] else e.nsiInformationList == nsis.value
  }

  lemma AllowedIsGranted(cfg: Configuration, p: RegistrationParameter, e: AllowedSnssai)
    requires IsAllowed(Response(cfg, p), e)
    ensures e in Granted(cfg, p)
    ensures RouteOf(cfg, p).Mapping? || RouteOf(cfg, p).Selection?
  {
    AllowedIsFirstEight(cfg, p);
  }

  /** The list check of registration is the single check of PDU sessions, for every element, plus a known PLMN. */
  lemma ListCheckIsSingleCheck(cfg: Configuration, nssai: seq<Snssai>, plmn: PlmnId)
    ensures CheckSupportedNssaiInPlmn(cfg, nssai, plmn) <==>
      plmn in cfg.supportedNssaiInPlmnList
      && forall i :: 0 <= i < |nssai| ==> CheckSupportedSnssaiInPlmn(cfg, nssai[i], plmn)
  {
  }

  /** The checks depend on S-NSSAIs only through their keys. */
  lemma KeysDecide(cfg: Configuration, s: Snssai, t: Snssai, tai: Tai)
    requires SnssaiToKey(s) == SnssaiToKey(t)
    ensures CheckSupportedSnssaiInTa(cfg, s, tai) == CheckSupportedSnssaiInTa(cfg, t, tai)
    ensures CheckSupportedSnssaiInPlmn(cfg, s, tai.plmnId) == CheckSupportedSnssaiInPlmn(cfg, t, tai.plmnId)
    ensures GetNsiInformationListFromConfig(cfg, s) == GetNsiInformationListFromConfig(cfg, t)
  {
  }

  /** How the session is decided, once registration has passed its own PLMN and TA checks. */
  lemma SessionDecision(cfg: Configuration, p: RegistrationParameter, e: AllowedSnssai, q: PduSessionParameter)
    requires SessionFor(p, e, q) && (RouteOf(cfg, p).Mapping? || RouteOf(cfg, p).Selection?)
    ensures Decide(cfg, q) ==
      if p.tai.Some? && !CheckSupportedSnssaiInPlmn(cfg, e.allowedSnssai, p.tai.value.plmnId) then Refuse(SnssaiNotSupported)
      else if p.tai.Some? && !CheckSupportedSnssaiInTa(cfg, e.allowedSnssai, p.tai.value) then RejectInTa
      else Accept(GetNsiInformationListFromConfig(cfg, e.allowedSnssai))
  {
    if p.tai.Some? {
      KeysDecide(cfg, q.info.sNssai, e.allowedSnssai, p.tai.value);
    }
  }

  lemma MatchedGrant(cfg: Configuration, p: RegistrationParameter, e: AllowedSnssai)
    requires e in MatchedNssai(cfg, p)
    ensures p.tai.Some? ==> CheckSupportedSnssaiInTa(cfg, e.allowedSnssai, p.tai.value)
    ensures e.allowedSnssai in p.info.requestedNssai && e.nsiInformationList == NsisOf(cfg, e.allowedSnssai)
  {
    FilterMapMember(Matches(cfg, p), p.info.requestedNssai, e);
    var i :| 0 <= i < |p.info.requestedNssai| && Matches(cfg, p)(p.info.requestedNssai[i]) == Some(e);
  }

  lemma DefaultGrant(cfg: Configuration, p: RegistrationParameter, e: AllowedSnssai)
    requires e in DefaultNssai(cfg, p)
    ensures p.tai.Some? ==> CheckSupportedSnssaiInTa(cfg, e.allowedSnssai, p.tai.value)
    ensures e.nsiInformationList == NsisOf(cfg, e.allowedSnssai)
  {
    var f := DefaultAllowed(cfg, p, HomeMapping(cfg, p).value);
    FilterMapMember(f, p.info.subscribedNssai, e);
    var i :| 0 <= i < |p.info.subscribedNssai| && f(p.info.subscribedNssai[i]) == Some(e);
  }

  /** An S-NSSAI allowed by the match of the Requested NSSAI is accepted, with the instances listed for it. */
  lemma MatchedIsAccepted(cfg: Configuration, p: RegistrationParameter, e: AllowedSnssai, q: PduSessionParameter)
    requires IsAllowed(Response(cfg, p), e) && SessionFor(p, e, q)
    requires RouteOf(cfg, p) == Selection && MatchedNssai(cfg, p) != []
    ensures Decide(cfg, q).Accept? && ListsInstances(e, Decide(cfg, q).nsis)
  {
    AllowedIsGranted(cfg, p, e);
    MatchedGrant(cfg, p, e);
    SessionDecision(cfg, p, e, q);
    if p.tai.Some? {
      ListCheckIsSingleCheck(cfg, p.info.requestedNssai, p.tai.value.plmnId);
    }
  }

  /** One allowed by default subscription is accepted exactly when its PLMN supports it, which registration does not ask. */
  lemma DefaultIsAcceptedExactly(cfg: Configuration, p: RegistrationParameter, e: AllowedSnssai, q: PduSessionParameter)
    requires SessionFor(p, e, q) && RouteOf(cfg, p) == Selection && MatchedNssai(cfg, p) == []
    ensures IsAllowed(Response(cfg, p), e) ==>
      && (Decide(cfg, q).Accept? <==> p.tai.None? || CheckSupportedSnssaiInPlmn(cfg, e.allowedSnssai, p.tai.value.plmnId))
      && (Decide(cfg, q).Accept? ==> ListsInstances(e, Decide(cfg, q).nsis))
      && (!Decide(cfg, q).Accept? ==> Decide(cfg, q) == Refuse(SnssaiNotSupported))
  {
    if IsAllowed(Response(cfg, p), e) {
      AllowedIsGranted(cfg, p, e);
      DefaultGrant(cfg, p, e);
      SessionDecision(cfg, p, e, q);
    }
  }

  /**
   * One allowed in mapping mode, which lists no instances, is accepted exactly when both the PLMN and the TA support
   * it, and then with the instances listed for it exactly when none are configured.
   */
  lemma MappedIsAcceptedExactly(cfg: Configuration, p: RegistrationParameter, e: AllowedSnssai, q: PduSessionParameter)
    requires SessionFor(p, e, q) && RouteOf(cfg, p) == Mapping
    ensures IsAllowed(Response(cfg, p), e) ==>
      && e in MappedNssai(cfg, p)
      && (Decide(cfg, q).Accept? <==>
          p.tai.None? || (CheckSupportedSnssaiInPlmn(cfg, e.allowedSnssai, p.tai.value.plmnId)
                          && CheckSupportedSnssaiInTa(cfg, e.allowedSnssai, p.tai.value)))
      && (Decide(cfg, q).Accept? ==> (ListsInstances(e, Decide(cfg, q).nsis) <==> NsisOf(cfg, e.allowedSnssai) == []))
  {
    if IsAllowed(Response(cfg, p), e) {
      AllowedIsGranted(cfg, p, e);
      MappedMembers(cfg, p, e);
      SessionDecision(cfg, p, e, q);
    }
  }

  /** An accepted session answers 200 with no rejection, and its instance is one that registration listed. */
  lemma AcceptedSession(cfg: Configuration, e: AllowedSnssai, q: PduSessionParameter, after: SliceInfo, r: Outcome)
    requires Decide(cfg, q).Accept? && ListsInstances(e, Decide(cfg, q).nsis) && Decide(cfg, q).nsis != Some([])
    requires Follows(Decide(cfg, q), q.info.sNssai, EMPTY_INFO, after, r)
    ensures r == Answered(OK) && after.rejectedNssaiInTa == after.rejectedNssaiInPlmn == []
    ensures after.nsiInformation.Some? ==> after.nsiInformation.value in e.nsiInformationList
    ensures after.nsiInformation.None? <==> e.nsiInformationList == []
  {
  }

  /**
   * End to end: a session for an S-NSSAI that registration matched answers 200 with nothing rejected and an instance
   * that registration listed for it, exactly unless the slice is configured with an empty list of instances.
   */
  lemma MatchedSessionSucceedsExactly(cfg: Configuration, p: RegistrationParameter, e: AllowedSnssai,
                                      q: PduSessionParameter, after: SliceInfo, r: Outcome)
    requires SessionFor(p, e, q) && RouteOf(cfg, p) == Selection && MatchedNssai(cfg, p) != []
    requires Follows(Decide(cfg, q), q.info.sNssai, EMPTY_INFO, after, r)
    ensures IsAllowed(Response(cfg, p), e) ==>
      && (r == Answered(OK) <==> GetNsiInformationListFromConfig(cfg, e.allowedSnssai) != Some([]))
      && after.rejectedNssaiInTa == after.rejectedNssaiInPlmn == []
      && (r == Answered(OK) ==>
          if e.nsiInformationList == [] then after.nsiInformation.None?
          else after.nsiInformation.Some? && after.nsiInformation.value in e.nsiInformationList)
  {
    if IsAllowed(Response(cfg, p), e) {
      MatchedIsAccepted(cfg, p, e, q);
      SessionDecision(cfg, p, e, q);
      if Decide(cfg, q).nsis != Some([]) {
        AcceptedSession(cfg, e, q, after, r);
      }
    }
  }

  /** All checks of the PDU session procedure, in no order; a supported TA is one of them. */
  predicate PassesAllChecks(cfg: Configuration, q: PduSessionParameter) {
    && (q.homePlmnId.Some? ==> CheckSupportedHplmn(cfg, q.homePlmnId.value))
    && (q.homePlmnId.Some? <==> q.info.roamingIndication != NonRoaming)
    && (q.tai.Some? ==> CheckSupportedSnssaiInPlmn(cfg, q.info.sNssai, q.tai.value.plmnId)
                        && CheckSupportedSnssaiInTa(cfg, q.info.sNssai, q.tai.value))
  }

  /** The PDU session procedure panics exactly when all checks pass and the slice is configured with an empty list. */
  lemma PanicsExactly(cfg: Configuration, q: PduSessionParameter, before: SliceInfo, after: SliceInfo, r: Outcome)
    requires Follows(Decide(cfg, q), q.info.sNssai, before, after, r)
    ensures Decide(cfg, q).Accept? <==> PassesAllChecks(cfg, q)
    ensures r.Panicked? <==> PassesAllChecks(cfg, q) && GetNsiInformationListFromConfig(cfg, q.info.sNssai) == Some([])
  {
  }

  /** Registration allows a default S-NSSAI that PDU session selection then refuses. */
  lemma DefaultCanBeRefused(nfId: string, tai: Tai, s: Snssai)
    requires !CheckStandardSnssai(s)
    ensures IsAllowed(Response(OneTa(tai, s, [], []), DefaultRequest(nfId, tai, s)), AllowedSnssai(s, [], None))
    ensures var q := QueryParameter(nfId, SliceInfoForPduSession(s, NonRoaming), None, Some(tai));
      Decide(OneTa(tai, s, [], []), q) == Refuse(SnssaiNotSupported)
  {
    DefaultIsAllowed(nfId, tai, s, [], []);
    var info := Response(OneTa(tai, s, [], []), DefaultRequest(nfId, tai, s));
    assert info.allowedNssaiList[0].allowedSnssaiList[0] == AllowedSnssai(s, [], None);
  }

  /** A session without TAI or home PLMN for a slice whose list of instances is present and empty. */
  lemma EmptyListPanics(nfId: string, s: Snssai)
    ensures var cfg := Configuration(map[], [NsiConfig(s, Some([]))], [], [], [], []);
      var q := QueryParameter(nfId, SliceInfoForPduSession(s, NonRoaming), None, None);
      Follows(Decide(cfg, q), s, EMPTY_INFO, EMPTY_INFO, Panicked)
  {
  }

  // ----- Mapping mode

  /** A TA that supports nothing, a PLMN that supports plmnNssai, and one mapping from a home PLMN. */
  function OneMapping(tai: Tai, plmnNssai: set<SnssaiKey>, home: PlmnId, m: MappingOfSnssai): Configuration {
    Configuration(map[tai.plmnId := plmnNssai], [], [], [], [TaConfig(tai, ACCESSTYPE_3GPP, [], [])],
                  [MappingFromPlmnConfig(home, Some([m]))])
  }

  function MappingRequest(nfId: string, tai: Tai, home: PlmnId, s: Snssai): RegistrationParameter {
    QueryParameter(nfId, SliceInfoForRegistration([], [s], [], [], false, true), Some(home), Some(tai))
  }

  lemma MappedIsAllowed(nfId: string, tai: Tai, plmnNssai: set<SnssaiKey>, home: PlmnId, m: MappingOfSnssai)
    requires !CheckStandardSnssai(m.homeSnssai)
    ensures IsAllowed(Response(OneMapping(tai, plmnNssai, home, m), MappingRequest(nfId, tai, home, m.homeSnssai)),
                      AllowedSnssai(m.servingSnssai, [], Some(m.homeSnssai)))
  {
    var cfg, p := OneMapping(tai, plmnNssai, home, m), MappingRequest(nfId, tai, home, m.homeSnssai);
    var e := AllowedSnssai(m.servingSnssai, [], Some(m.homeSnssai));
    var xs := p.info.sNssaiForMapping;
    assert xs[..0] == [] && xs[..1] == xs;
    FilterMapSnoc(MapRequested([m]), xs, 0);
    assert MappedNssai(cfg, p) == [e];
    AllowedIsFirstEight(cfg, p);
    assert Response(cfg, p).allowedNssaiList[0].allowedSnssaiList[0] == e;
  }

  /** What mapping mode allows can be refused for its PLMN, or rejected in the TA. */
  lemma MappedCanBeRefused(nfId: string, tai: Tai, plmnNssai: set<SnssaiKey>, home: PlmnId, m: MappingOfSnssai)
    requires !CheckStandardSnssai(m.homeSnssai) && !CheckStandardSnssai(m.servingSnssai)
    ensures var cfg := OneMapping(tai, plmnNssai, home, m);
      var q := QueryParameter(nfId, SliceInfoForPduSession(m.servingSnssai, Roaming("HOME_ROUTED_ROAMING")), Some(home), Some(tai));
      && IsAllowed(Response(cfg, MappingRequest(nfId, tai, home, m.homeSnssai)),
                   AllowedSnssai(m.servingSnssai, [], Some(m.homeSnssai)))
      && Decide(cfg, q) == if SnssaiToKey(m.servingSnssai) in plmnNssai then RejectInTa else Refuse(SnssaiNotSupported)
  {
    MappedIsAllowed(nfId, tai, plmnNssai, home, m);
  }
}
