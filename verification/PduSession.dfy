/** Network slice selection for PDU sessions (section 5.2 of 3GPP TS 29.531). */
module PduSession {
  import opened Prelude
  import opened Models
  import opened Util

  /** rand.Intn panics on an empty list, so an empty (but present) list of instances is its own outcome. */
  datatype Outcome = Answered(status: Status) | Panicked

  datatype Decision =
    | RejectInPlmn
    | RejectInTa
    | Refuse(status: Status)
    | Accept(nsis: Option<seq<NsiInformation>>)

  predicate ContradictsRoaming(p: PduSessionParameter) {
    p.homePlmnId.Some? <==> p.info.roamingIndication == NonRoaming
  }

  function Decide(cfg: Configuration, p: PduSessionParameter): Decision {
    var s := p.info.sNssai;
    if p.homePlmnId.Some? && !CheckSupportedHplmn(cfg, p.homePlmnId.value) then RejectInPlmn
    else if p.tai.Some? && !CheckSupportedTa(cfg, p.tai.value) then RejectInTa
    else if p.tai.Some? && !CheckSupportedSnssaiInPlmn(cfg, s, p.tai.value.plmnId) then Refuse(SnssaiNotSupported)
    else if ContradictsRoaming(p) then Refuse(InvalidHomePlmnId)
    else if p.tai.Some? && !CheckSupportedSnssaiInTa(cfg, s, p.tai.value) then RejectInTa
    else Accept(GetNsiInformationListFromConfig(cfg, s))
  }

  /** after is a possible result of decision d on before. */
  predicate Follows(d: Decision, s: Snssai, before: SliceInfo, after: SliceInfo, r: Outcome) {
    match d
    case RejectInPlmn => r == Answered(OK) && after == before.(rejectedNssaiInPlmn := before.rejectedNssaiInPlmn + [s])
    case RejectInTa => r == Answered(OK) && after == before.(rejectedNssaiInTa := before.rejectedNssaiInTa + [s])
    case Refuse(status) => r == Answered(status) && after == before
    case Accept(nsis) =>
      if nsis.None? then r == Answered(OK) && after == before
      else if nsis.value == [] then r == Panicked && after == before
      else r == Answered(OK) && after.nsiInformation.Some? && after.nsiInformation.value in nsis.value
           && after == before.(nsiInformation := after.nsiInformation)
  }

  method SelectNsiInformation(nsis: seq<NsiInformation>) returns (nsi: NsiInformation)
    requires nsis != []
    ensures nsi in nsis
  {
    var idx :| 0 <= idx < |nsis|;
    nsi := nsis[idx];
  }

  method NsselectionForPduSession(cfg: Configuration, p: PduSessionParameter, info: AuthorizedNetworkSliceInfo)
    returns (r: Outcome)
    modifies info
    ensures Follows(Decide(cfg, p), p.info.sNssai, old(info.Value()), info.Value(), r)
  {
    var s := p.info.sNssai;
    if p.homePlmnId.Some? {
      if !CheckSupportedHplmn(cfg, p.homePlmnId.value) {
        info.rejectedNssaiInPlmn := info.rejectedNssaiInPlmn + [s];
        return Answered(OK);
      }
    }
    if p.tai.Some? {
      if !CheckSupportedTa(cfg, p.tai.value) {
        info.rejectedNssaiInTa := info.rejectedNssaiInTa + [s];
        return Answered(OK);
      }
    }
    if p.tai.Some? && !CheckSupportedSnssaiInPlmn(cfg, s, p.tai.value.plmnId) {
      return Answered(SnssaiNotSupported);
    }
    if p.homePlmnId.Some? {
      if p.info.roamingIndication == NonRoaming {
        return Answered(InvalidHomePlmnId);
      }
    } else {
      if p.info.roamingIndication != NonRoaming {
        return Answered(InvalidHomePlmnId);
      }
    }
    if p.tai.Some? && !CheckSupportedSnssaiInTa(cfg, s, p.tai.value) {
      info.rejectedNssaiInTa := info.rejectedNssaiInTa + [s];
      return Answered(OK);
    }
    var nsis := GetNsiInformationListFromConfig(cfg, s);
    if nsis.Some? {
      if nsis.value == [] {
        return Panicked;
      }
      var nsi := SelectNsiInformation(nsis.value);
      info.nsiInformation := Some(nsi);
    }
    return Answered(OK);
  }

  /** A rejection says what is so, an error changes nothing, and a session is never rejected on both sides. */
  lemma RejectionsAreTrue(cfg: Configuration, p: PduSessionParameter, before: SliceInfo, after: SliceInfo, r: Outcome)
    requires Follows(Decide(cfg, p), p.info.sNssai, before, after, r)
    ensures after.rejectedNssaiInPlmn != before.rejectedNssaiInPlmn <==>
      p.homePlmnId.Some? && !CheckSupportedHplmn(cfg, p.homePlmnId.value)
    ensures after.rejectedNssaiInTa != before.rejectedNssaiInTa ==>
      p.tai.Some? && !CheckSupportedSnssaiInTa(cfg, p.info.sNssai, p.tai.value)
    ensures r != Answered(OK) ==> after == before
    ensures after.rejectedNssaiInPlmn == before.rejectedNssaiInPlmn || after.rejectedNssaiInTa == before.rejectedNssaiInTa
  {
    assert |before.rejectedNssaiInPlmn + [p.info.sNssai]| == |before.rejectedNssaiInPlmn| + 1;
    assert |before.rejectedNssaiInTa + [p.info.sNssai]| == |before.rejectedNssaiInTa| + 1;
  }

  /** What the procedure asks of a request, each by itself. */
  predicate HplmnOk(cfg: Configuration, p: PduSessionParameter) {
    p.homePlmnId.Some? ==> CheckSupportedHplmn(cfg, p.homePlmnId.value)
  }

  predicate TaOk(cfg: Configuration, p: PduSessionParameter) {
    p.tai.Some? ==> CheckSupportedTa(cfg, p.tai.value)
  }

  predicate PlmnOk(cfg: Configuration, p: PduSessionParameter) {
    p.tai.Some? ==> CheckSupportedSnssaiInPlmn(cfg, p.info.sNssai, p.tai.value.plmnId)
  }

  predicate RoamingOk(p: PduSessionParameter) {
    p.homePlmnId.Some? <==> p.info.roamingIndication != NonRoaming
  }

  predicate SnssaiOk(cfg: Configuration, p: PduSessionParameter) {
    p.tai.Some? ==> CheckSupportedSnssaiInTa(cfg, p.info.sNssai, p.tai.value)
  }

  /** For every request, exactly when each answer is given, and what it does to the response. */
  lemma AnswersExactly(cfg: Configuration, p: PduSessionParameter, before: SliceInfo, after: SliceInfo, r: Outcome)
    requires Follows(Decide(cfg, p), p.info.sNssai, before, after, r)
    // rejected in the PLMN: 200
    ensures after.rejectedNssaiInPlmn == before.rejectedNssaiInPlmn + [p.info.sNssai] <==> !HplmnOk(cfg, p)
    ensures !HplmnOk(cfg, p) ==>
      r == Answered(OK) && after == before.(rejectedNssaiInPlmn := before.rejectedNssaiInPlmn + [p.info.sNssai])
    // rejected in the TA: 200
    ensures after.rejectedNssaiInTa == before.rejectedNssaiInTa + [p.info.sNssai] <==>
      HplmnOk(cfg, p) && (!TaOk(cfg, p) || (PlmnOk(cfg, p) && RoamingOk(p) && !SnssaiOk(cfg, p)))
    ensures HplmnOk(cfg, p) && (!TaOk(cfg, p) || (PlmnOk(cfg, p) && RoamingOk(p) && !SnssaiOk(cfg, p))) ==>
      r == Answered(OK) && after == before.(rejectedNssaiInTa := before.rejectedNssaiInTa + [p.info.sNssai])
    // 403, and 400 for a contradictory roaming indication
    ensures r == Answered(SnssaiNotSupported) <==> HplmnOk(cfg, p) && TaOk(cfg, p) && !PlmnOk(cfg, p)
    ensures r == Answered(InvalidHomePlmnId) <==> HplmnOk(cfg, p) && TaOk(cfg, p) && PlmnOk(cfg, p) && !RoamingOk(p)
    ensures r != Answered(OK) ==> after == before
    // an instance, if some are configured
    ensures HplmnOk(cfg, p) && TaOk(cfg, p) && PlmnOk(cfg, p) && RoamingOk(p) && SnssaiOk(cfg, p) ==>
      match GetNsiInformationListFromConfig(cfg, p.info.sNssai)
      case None => r == Answered(OK) && after == before
      case Some(nsis) =>
        if nsis == [] then r == Panicked
        else r == Answered(OK) && exists nsi :: nsi in nsis && after == before.(nsiInformation := Some(nsi))
  {
    assert |before.rejectedNssaiInPlmn + [p.info.sNssai]| == |before.rejectedNssaiInPlmn| + 1;
    assert |before.rejectedNssaiInTa + [p.info.sNssai]| == |before.rejectedNssaiInTa| + 1;
    if after.nsiInformation.Some? {
      assert after.nsiInformation == Some(after.nsiInformation.value);
    }
  }

  /** The choice is free: any instance of the list can be the answer. */
  lemma AnyInstanceIsPossible(cfg: Configuration, p: PduSessionParameter, before: SliceInfo, nsi: NsiInformation)
    requires Decide(cfg, p).Accept? && Decide(cfg, p).nsis.Some? && nsi in Decide(cfg, p).nsis.value
    ensures Follows(Decide(cfg, p), p.info.sNssai, before, before.(nsiInformation := Some(nsi)), Answered(OK))
  {
  }
}
