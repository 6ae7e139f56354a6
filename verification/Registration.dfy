/** Network slice selection for registration (section 5.2 of 3GPP TS 29.531). */
module Registration {
  import opened Prelude
  import opened Models
  import opened Util
  import opened AmfSelection

  predicate IsRoamingValue(p: RegistrationParameter, s: Snssai) {
    p.homePlmnId.Some? && !CheckStandardSnssai(s)
  }

  function AccessTypeOf(cfg: Configuration, p: RegistrationParameter): AccessType {
    if p.tai.None? then ACCESSTYPE_3GPP else GetAccessTypeFromConfig(cfg, p.tai.value)
  }

  function NsisOf(cfg: Configuration, s: Snssai): seq<NsiInformation> {
    var nsis := GetNsiInformationListFromConfig(cfg, s);
    if nsis.None? then [] else nsis.value
  }

  // ----- Requested NSSAI

  function FindSubscribed(s: Snssai, subscribed: seq<SubscribedSnssai>): (r: Option<Snssai>)
    ensures r.Some? <==> exists i :: 0 <= i < |subscribed| && SnssaiToKey(subscribed[i].subscribedSnssai) == SnssaiToKey(s)
    ensures r.Some? ==> SnssaiToKey(r.value) == SnssaiToKey(s)
  {
    if subscribed == [] then None
    else if SnssaiToKey(s) == SnssaiToKey(subscribed[0].subscribedSnssai) then Some(subscribed[0].subscribedSnssai)
    else FindSubscribed(s, subscribed[1..])
  }

  /** The home S-NSSAI of a requested one, by the mapping the UE provided. */
  function HomeOf(p: RegistrationParameter, s: Snssai): Option<Snssai> {
    if !IsRoamingValue(p, s) then Some(s)
    else
      var m := FindMappingWithServingSnssai(s, p.info.mappingOfNssai);
      if m.None? then None else Some(m.value.homeSnssai)
  }

  datatype Verdict = RejectedInTa | RejectedInPlmn | Matched(allowed: AllowedSnssai)

  function Judge(cfg: Configuration, p: RegistrationParameter, s: Snssai): Verdict {
    if p.tai.Some? && !CheckSupportedSnssaiInTa(cfg, s, p.tai.value) then RejectedInTa
    else
      var home := HomeOf(p, s);
      var sub := if home.None? then None else FindSubscribed(home.value, p.info.subscribedNssai);
      if sub.None? then RejectedInPlmn
      else Matched(AllowedSnssai(s, NsisOf(cfg, s), if IsRoamingValue(p, s) then sub else None))
  }

  function TaRejects(cfg: Configuration, p: RegistrationParameter): Snssai -> Option<Snssai> {
    (s: Snssai) => if Judge(cfg, p, s).RejectedInTa? then Some(s) else None
  }

  function PlmnRejects(cfg: Configuration, p: RegistrationParameter): Snssai -> Option<Snssai> {
    (s: Snssai) => if Judge(cfg, p, s).RejectedInPlmn? then Some(s) else None
  }

  function Matches(cfg: Configuration, p: RegistrationParameter): Snssai -> Option<AllowedSnssai> {
    (s: Snssai) => var v := Judge(cfg, p, s); if v.Matched? then Some(v.allowed) else None
  }

  function MatchedNssai(cfg: Configuration, p: RegistrationParameter): seq<AllowedSnssai> {
    FilterMap(Matches(cfg, p), p.info.requestedNssai)
  }

  function RejectedByPlmn(cfg: Configuration, p: RegistrationParameter): seq<Snssai> {
    FilterMap(PlmnRejects(cfg, p), p.info.requestedNssai)
  }

  /** The response after the loop over requested S-NSSAIs. */
  function WithJudged(cfg: Configuration, p: RegistrationParameter, requested: seq<Snssai>, info: SliceInfo): SliceInfo {
    info.(rejectedNssaiInTa := info.rejectedNssaiInTa + FilterMap(TaRejects(cfg, p), requested),
          rejectedNssaiInPlmn := info.rejectedNssaiInPlmn + FilterMap(PlmnRejects(cfg, p), requested),
          allowedNssaiList := AddAll(info.allowedNssaiList, FilterMap(Matches(cfg, p), requested), AccessTypeOf(cfg, p)))
  }

  function WithRequested(cfg: Configuration, p: RegistrationParameter, info: SliceInfo): SliceInfo {
    WithJudged(cfg, p, p.info.requestedNssai, info)
  }

  lemma JudgedParts(cfg: Configuration, p: RegistrationParameter, xs: seq<Snssai>, i: nat)
    requires i < |xs|
    ensures var v := Judge(cfg, p, xs[i]);
      && FilterMap(TaRejects(cfg, p), xs[..i + 1]) ==
           FilterMap(TaRejects(cfg, p), xs[..i]) + (if v.RejectedInTa? then [xs[i]] else [])
      && FilterMap(PlmnRejects(cfg, p), xs[..i + 1]) ==
           FilterMap(PlmnRejects(cfg, p), xs[..i]) + (if v.RejectedInPlmn? then [xs[i]] else [])
      && FilterMap(Matches(cfg, p), xs[..i + 1]) ==
           FilterMap(Matches(cfg, p), xs[..i]) + Optional(if v.Matched? then Some(v.allowed) else None)
  {
    FilterMapSnoc(TaRejects(cfg, p), xs, i);
    FilterMapSnoc(PlmnRejects(cfg, p), xs, i);
    FilterMapSnoc(Matches(cfg, p), xs, i);
  }

  function WithVerdict(info: SliceInfo, s: Snssai, v: Verdict, accessType: AccessType): SliceInfo {
    match v
    case RejectedInTa => info.(rejectedNssaiInTa := info.rejectedNssaiInTa + [s])
    case RejectedInPlmn => info.(rejectedNssaiInPlmn := info.rejectedNssaiInPlmn + [s])
    case Matched(e) => info.(allowedNssaiList := AddAllowed(info.allowedNssaiList, e, accessType))
  }

  /** One turn of the loop adds its S-NSSAI to exactly one of the three parts. */
  lemma JudgedStep(cfg: Configuration, p: RegistrationParameter, xs: seq<Snssai>, i: nat, info: SliceInfo)
    requires i < |xs|
    ensures var before := WithJudged(cfg, p, xs[..i], info);
      WithJudged(cfg, p, xs[..i + 1], info) == WithVerdict(before, xs[i], Judge(cfg, p, xs[i]), AccessTypeOf(cfg, p))
  {
    JudgedParts(cfg, p, xs, i);
    var v := Judge(cfg, p, xs[i]);
    var ta, plmn := FilterMap(TaRejects(cfg, p), xs[..i]), FilterMap(PlmnRejects(cfg, p), xs[..i]);
    var matched := FilterMap(Matches(cfg, p), xs[..i]);
    match v {
      case RejectedInTa =>
        assert info.rejectedNssaiInTa + (ta + [xs[i]]) == (info.rejectedNssaiInTa + ta) + [xs[i]];
        assert plmn + [] == plmn && matched + [] == matched;
      case RejectedInPlmn =>
        assert info.rejectedNssaiInPlmn + (plmn + [xs[i]]) == (info.rejectedNssaiInPlmn + plmn) + [xs[i]];
        assert ta + [] == ta && matched + [] == matched;
      case Matched(e) =>
        assert ta + [] == ta && plmn + [] == plmn;
        AddAllSnoc(info.allowedNssaiList, matched, e, AccessTypeOf(cfg, p));
    }
  }

  // ----- Subscribed S-NSSAIs

  /** The mapping of the home PLMN; empty without a home PLMN; None when the configuration has none. */
  function HomeMapping(cfg: Configuration, p: RegistrationParameter): Option<seq<MappingOfSnssai>> {
    if p.homePlmnId.None? then Some([]) else GetMappingOfPlmnFromConfig(cfg, p.homePlmnId.value)
  }

  /** The serving-PLMN value of a home S-NSSAI. */
  function ServingOf(p: RegistrationParameter, ms: seq<MappingOfSnssai>, s: Snssai): Option<Snssai> {
    if !IsRoamingValue(p, s) then Some(s)
    else
      var m := FindMappingWithHomeSnssai(s, ms);
      if m.None? then None else Some(m.value.servingSnssai)
  }

  function MappedHome(p: RegistrationParameter, s: Snssai): Option<Snssai> {
    if IsRoamingValue(p, s) then Some(s) else None
  }

  function DefaultAllowed(cfg: Configuration, p: RegistrationParameter, ms: seq<MappingOfSnssai>)
    : SubscribedSnssai -> Option<AllowedSnssai>
  {
    (sub: SubscribedSnssai) =>
      var serving := ServingOf(p, ms, sub.subscribedSnssai);
      if sub.defaultIndication != Some(true) || serving.None? then None
      else if p.tai.Some? && !CheckSupportedSnssaiInTa(cfg, serving.value, p.tai.value) then None
      else Some(AllowedSnssai(serving.value, NsisOf(cfg, serving.value), MappedHome(p, sub.subscribedSnssai)))
  }

  function DefaultNssai(cfg: Configuration, p: RegistrationParameter): seq<AllowedSnssai> {
    var ms := HomeMapping(cfg, p);
    if ms.None? then [] else FilterMap(DefaultAllowed(cfg, p, ms.value), p.info.subscribedNssai)
  }

  function WithDefaults(cfg: Configuration, p: RegistrationParameter, info: SliceInfo): SliceInfo {
    info.(allowedNssaiList := AddAll(info.allowedNssaiList, DefaultNssai(cfg, p), AccessTypeOf(cfg, p)))
  }

  // ----- Configured NSSAI

  function DefaultConfigured(p: RegistrationParameter): Snssai -> Option<ConfiguredSnssai> {
    (s: Snssai) =>
      if CheckStandardSnssai(s) && FindSubscribed(s, p.info.subscribedNssai).Some?
      then Some(ConfiguredSnssai(s, None)) else None
  }

  function SubscriptionConfigured(cfg: Configuration, p: RegistrationParameter, ms: seq<MappingOfSnssai>)
    : SubscribedSnssai -> Option<ConfiguredSnssai>
    requires p.tai.Some?
  {
    (sub: SubscribedSnssai) =>
      var serving := ServingOf(p, ms, sub.subscribedSnssai);
      if serving.None? || !CheckSupportedSnssaiInPlmn(cfg, serving.value, p.tai.value.plmnId) then None
      else Some(ConfiguredSnssai(serving.value, MappedHome(p, sub.subscribedSnssai)))
  }

  function ConfiguredFromSubscription(cfg: Configuration, p: RegistrationParameter): seq<ConfiguredSnssai>
    requires p.tai.Some?
  {
    var ms := HomeMapping(cfg, p);
    if ms.None? then [] else FilterMap(SubscriptionConfigured(cfg, p, ms.value), p.info.subscribedNssai)
  }

  // ----- Mapping mode

  /** The Allowed S-NSSAI that answers a mapping request for s. */
  function MapRequested(ms: seq<MappingOfSnssai>): Snssai -> Option<AllowedSnssai> {
    (s: Snssai) =>
      var m := FindMappingWithHomeSnssai(s, ms);
      if CheckStandardSnssai(s) || m.None? then None else Some(AllowedSnssai(m.value.servingSnssai, [], Some(s)))
  }

  function SubscribedValues(p: RegistrationParameter): (r: seq<Snssai>)
    ensures |r| == |p.info.subscribedNssai|
    ensures forall i :: 0 <= i < |r| ==> r[i] == p.info.subscribedNssai[i].subscribedSnssai
  {
    Map((s: SubscribedSnssai) => s.subscribedSnssai, p.info.subscribedNssai)
  }

  function MappedNssai(cfg: Configuration, p: RegistrationParameter): seq<AllowedSnssai> {
    var ms := HomeMapping(cfg, p);
    if ms.None? then []
    else FilterMap(MapRequested(ms.value), SubscribedValues(p)) + FilterMap(MapRequested(ms.value), p.info.sNssaiForMapping)
  }

  // ----- The whole selection

  datatype Route = UnsupportedHplmn | UnsupportedTa | MappingWithoutHome | Mapping | UnsupportedInPlmn | Selection

  function RouteOf(cfg: Configuration, p: RegistrationParameter): Route {
    if p.homePlmnId.Some? && !CheckSupportedHplmn(cfg, p.homePlmnId.value) then UnsupportedHplmn
    else if p.tai.Some? && !CheckSupportedTa(cfg, p.tai.value) then UnsupportedTa
    else if p.info.requestMapping then (if p.homePlmnId.None? then MappingWithoutHome else Mapping)
    else if p.info.requestedNssai != [] && p.tai.Some?
            && !CheckSupportedNssaiInPlmn(cfg, p.info.requestedNssai, p.tai.value.plmnId) then UnsupportedInPlmn
    else Selection
  }

  function WithAllowed(cfg: Configuration, p: RegistrationParameter, info: SliceInfo): SliceInfo {
    var requested := WithRequested(cfg, p, info);
    if MatchedNssai(cfg, p) == [] then WithDefaults(cfg, p, requested) else requested
  }

  function WithReselection(cfg: Configuration, p: RegistrationParameter, info: SliceInfo): SliceInfo {
    if p.tai.Some? && !CheckAllowedNssaiInAmfTa(cfg, info.allowedNssaiList, p.nfId, p.tai.value)
    then WithAmfInformation(cfg, p.tai.value, info) else info
  }

  function WithConfigured(cfg: Configuration, p: RegistrationParameter, info: SliceInfo): SliceInfo {
    if p.info.defaultConfiguredSnssaiInd then
      info.(configuredNssai := info.configuredNssai + FilterMap(DefaultConfigured(p), p.info.requestedNssai))
    else if p.tai.Some? && (p.info.requestedNssai == [] || RejectedByPlmn(cfg, p) != []) then
      info.(configuredNssai := info.configuredNssai + ConfiguredFromSubscription(cfg, p))
    else info
  }

  /** The response and status of a registration request that starts from info. */
  function Register(cfg: Configuration, p: RegistrationParameter, info: SliceInfo): (SliceInfo, Status) {
    match RouteOf(cfg, p)
    case UnsupportedHplmn => (info.(rejectedNssaiInPlmn := info.rejectedNssaiInPlmn + p.info.requestedNssai), OK)
    case UnsupportedTa => (info.(rejectedNssaiInTa := info.rejectedNssaiInTa + p.info.requestedNssai), OK)
    case MappingWithoutHome => (info, InvalidHomePlmnId)
    case Mapping =>
      (info.(allowedNssaiList := AddAll(info.allowedNssaiList, MappedNssai(cfg, p), AccessTypeOf(cfg, p))), OK)
    case UnsupportedInPlmn => (info, SnssaiNotSupported)
    case Selection => (WithConfigured(cfg, p, WithReselection(cfg, p, WithAllowed(cfg, p, info))), OK)
  }

  // ----- The procedures

  method UseDefaultSubscribedSnssai(cfg: Configuration, p: RegistrationParameter, info: AuthorizedNetworkSliceInfo)
    modifies info
    ensures info.Value() == WithDefaults(cfg, p, old(info.Value()))
  {
    var mappingOfSnssai := [];
    var accessType := AccessTypeOf(cfg, p);
    AddAllEmpty(info.allowedNssaiList, accessType);
    if p.homePlmnId.Some? {
      var m := GetMappingOfPlmnFromConfig(cfg, p.homePlmnId.value);
      if m.None? {
        return;
      }
      mappingOfSnssai := m.value;
    }
    ghost var f := DefaultAllowed(cfg, p, mappingOfSnssai);
    var subscribed := p.info.subscribedNssai;
    for i := 0 to |subscribed|
      invariant info.Value() == old(info.Value()).(
        allowedNssaiList := AddAll(old(info.allowedNssaiList), FilterMap(f, subscribed[..i]), accessType))
    {
      FilterMapSnoc(f, subscribed, i);
      AddAllOptional(old(info.allowedNssaiList), FilterMap(f, subscribed[..i]), f(subscribed[i]), accessType);
      var element := AllowSubscribed(cfg, p, mappingOfSnssai, subscribed[i]);
      if element.Some? {
        AddAllowedSnssai(element.value, accessType, info);
      }
    }
    assert subscribed[..|subscribed|] == subscribed;
  }

  /** The body of the loop: the Allowed S-NSSAI for one subscribed one, if it is a default, maps and is supported in the TA. */
  method AllowSubscribed(cfg: Configuration, p: RegistrationParameter, mappingOfSnssai: seq<MappingOfSnssai>,
                         sub: SubscribedSnssai) returns (r: Option<AllowedSnssai>)
    ensures r == DefaultAllowed(cfg, p, mappingOfSnssai)(sub)
  {
    if sub.defaultIndication != Some(true) {
      return None;
    }
    var mapped := sub.subscribedSnssai;
    if p.homePlmnId.Some? && !CheckStandardSnssai(sub.subscribedSnssai) {
      var target := FindMappingWithHomeSnssai(sub.subscribedSnssai, mappingOfSnssai);
      if target.None? {
        return None;
      }
      mapped := target.value.servingSnssai;
    }
    if p.tai.Some? && !CheckSupportedSnssaiInTa(cfg, mapped, p.tai.value) {
      return None;
    }
    var element := AllowedSnssai(mapped, [], None);
    var nsis := GetNsiInformationListFromConfig(cfg, mapped);
    if nsis.Some? {
      element := element.(nsiInformationList := nsis.value);
    }
    if p.homePlmnId.Some? && !CheckStandardSnssai(sub.subscribedSnssai) {
      element := element.(mappedHomeSnssai := Some(sub.subscribedSnssai));
    }
    r := Some(element);
  }

  lemma AddAllEmpty(l: seq<AllowedNssai>, t: AccessType)
    ensures AddAll(l, [], t) == l
  {
  }

  lemma AddAllOptional(l: seq<AllowedNssai>, es: seq<AllowedSnssai>, e: Option<AllowedSnssai>, t: AccessType)
    ensures AddAll(l, es + Optional(e), t) == if e.None? then AddAll(l, es, t) else AddAllowed(AddAll(l, es, t), e.value, t)
  {
    if e.Some? {
      AddAllSnoc(l, es, e.value, t);
    } else {
      assert es + [] == es;
    }
  }

  method UseDefaultConfiguredNssai(p: RegistrationParameter, info: AuthorizedNetworkSliceInfo)
    modifies info
    ensures info.Value() == old(info.Value()).(
      configuredNssai := old(info.configuredNssai) + FilterMap(DefaultConfigured(p), p.info.requestedNssai))
  {
    var requested, subscribed := p.info.requestedNssai, p.info.subscribedNssai;
    for i := 0 to |requested|
      invariant info.Value() == old(info.Value()).(
        configuredNssai := old(info.configuredNssai) + FilterMap(DefaultConfigured(p), requested[..i]))
    {
      FilterMapSnoc(DefaultConfigured(p), requested, i);
      if !CheckStandardSnssai(requested[i]) {
        continue;
      }
      ghost var before := info.configuredNssai;
      for j := 0 to |subscribed|
        invariant info.Value() == old(info.Value()).(configuredNssai := before)
        invariant forall k :: 0 <= k < j ==> SnssaiToKey(subscribed[k].subscribedSnssai) != SnssaiToKey(requested[i])
      {
        if SnssaiToKey(requested[i]) == SnssaiToKey(subscribed[j].subscribedSnssai) {
          info.configuredNssai := info.configuredNssai + [ConfiguredSnssai(requested[i], None)];
          break;
        }
      }
    }
    assert requested[..|requested|] == requested;
  }

  method SetConfiguredNssai(cfg: Configuration, p: RegistrationParameter, info: AuthorizedNetworkSliceInfo)
    requires p.tai.Some?
    modifies info
    ensures info.Value() == old(info.Value()).(
      configuredNssai := old(info.configuredNssai) + ConfiguredFromSubscription(cfg, p))
  {
    var mappingOfSnssai := [];
    if p.homePlmnId.Some? {
      var m := GetMappingOfPlmnFromConfig(cfg, p.homePlmnId.value);
      if m.None? {
        return;
      }
      mappingOfSnssai := m.value;
    }
    ghost var f := SubscriptionConfigured(cfg, p, mappingOfSnssai);
    var subscribed := p.info.subscribedNssai;
    for i := 0 to |subscribed|
      invariant info.Value() == old(info.Value()).(
        configuredNssai := old(info.configuredNssai) + FilterMap(f, subscribed[..i]))
    {
      FilterMapSnoc(f, subscribed, i);
      var configured := ConfigureSubscribed(cfg, p, mappingOfSnssai, subscribed[i]);
      ghost var front := FilterMap(f, subscribed[..i]);
      assert (old(info.configuredNssai) + front) + Optional(configured) == old(info.configuredNssai) + (front + Optional(configured));
      info.configuredNssai := info.configuredNssai + Optional(configured);
    }
    assert subscribed[..|subscribed|] == subscribed;
  }

  /** The body of the loop: the Configured S-NSSAI for one subscribed one, if it maps and the PLMN supports it. */
  method ConfigureSubscribed(cfg: Configuration, p: RegistrationParameter, mappingOfSnssai: seq<MappingOfSnssai>,
                             sub: SubscribedSnssai) returns (r: Option<ConfiguredSnssai>)
    requires p.tai.Some?
    ensures r == SubscriptionConfigured(cfg, p, mappingOfSnssai)(sub)
  {
    var home := sub.subscribedSnssai;
    var mapped := home;
    if p.homePlmnId.Some? && !CheckStandardSnssai(home) {
      var target := FindMappingWithHomeSnssai(home, mappingOfSnssai);
      if target.None? {
        return None;
      }
      mapped := target.value.servingSnssai;
    }
    if !CheckSupportedSnssaiInPlmn(cfg, mapped, p.tai.value.plmnId) {
      return None;
    }
    var configured := ConfiguredSnssai(mapped, None);
    if p.homePlmnId.Some? && !CheckStandardSnssai(home) {
      configured := configured.(mappedHomeSnssai := Some(home));
    }
    r := Some(configured);
  }

  /** The loop over the Requested NSSAI. */
  method MatchRequested(cfg: Configuration, p: RegistrationParameter, info: AuthorizedNetworkSliceInfo)
    returns (checkIfRequestAllowed: bool, checkInvalidRequestedNssai: bool)
    modifies info
    ensures info.Value() == WithRequested(cfg, p, old(info.Value()))
    ensures checkIfRequestAllowed <==> MatchedNssai(cfg, p) != []
    ensures checkInvalidRequestedNssai <==> RejectedByPlmn(cfg, p) != []
  {
    checkIfRequestAllowed, checkInvalidRequestedNssai := false, false;
    var accessType := AccessTypeOf(cfg, p);
    AddAllEmpty(info.allowedNssaiList, accessType);
    var requested := p.info.requestedNssai;
    for i := 0 to |requested|
      invariant info.Value() == WithJudged(cfg, p, requested[..i], old(info.Value()))
      invariant checkIfRequestAllowed <==> FilterMap(Matches(cfg, p), requested[..i]) != []
      invariant checkInvalidRequestedNssai <==> FilterMap(PlmnRejects(cfg, p), requested[..i]) != []
    {
      JudgedStep(cfg, p, requested, i, old(info.Value()));
      JudgedParts(cfg, p, requested, i);
      var matched, invalid := JudgeRequested(cfg, p, requested[i], info);
      checkIfRequestAllowed := checkIfRequestAllowed || matched;
      checkInvalidRequestedNssai := checkInvalidRequestedNssai || invalid;
    }
    assert requested[..|requested|] == requested;
  }

  /** The body of the loop: what is done with one requested S-NSSAI. */
  method JudgeRequested(cfg: Configuration, p: RegistrationParameter, s: Snssai, info: AuthorizedNetworkSliceInfo)
    returns (matched: bool, invalid: bool)
    modifies info
    ensures info.Value() == WithVerdict(old(info.Value()), s, Judge(cfg, p, s), AccessTypeOf(cfg, p))
    ensures matched <==> Judge(cfg, p, s).Matched?
    ensures invalid <==> Judge(cfg, p, s).RejectedInPlmn?
  {
    if p.tai.Some? && !CheckSupportedSnssaiInTa(cfg, s, p.tai.value) {
      info.rejectedNssaiInTa := info.rejectedNssaiInTa + [s];
      return false, false;
    }
    var mapped := s;
    if p.homePlmnId.Some? && !CheckStandardSnssai(s) {
      var target := FindMappingWithServingSnssai(s, p.info.mappingOfNssai);
      if target.None? {
        info.rejectedNssaiInPlmn := info.rejectedNssaiInPlmn + [s];
        return false, true;
      }
      mapped := target.value.homeSnssai;
    }
    var hit := FirstSubscription(mapped, p.info.subscribedNssai);
    if hit == |p.info.subscribedNssai| {
      info.rejectedNssaiInPlmn := info.rejectedNssaiInPlmn + [s];
      return false, true;
    }
    var element := AllowedSnssai(s, [], None);
    var nsis := GetNsiInformationListFromConfig(cfg, s);
    if nsis.Some? {
      element := element.(nsiInformationList := nsis.value);
    }
    if p.homePlmnId.Some? && !CheckStandardSnssai(s) {
      element := element.(mappedHomeSnssai := Some(p.info.subscribedNssai[hit].subscribedSnssai));
    }
    AddAllowedSnssai(element, AccessTypeOf(cfg, p), info);
    return true, false;
  }

  /** The scan of the subscription with its flag hitSubscription: the index of the hit, or |subscribed|. */
  method FirstSubscription(s: Snssai, subscribed: seq<SubscribedSnssai>) returns (hit: nat)
    ensures hit <= |subscribed|
    ensures FindSubscribed(s, subscribed) == if hit == |subscribed| then None else Some(subscribed[hit].subscribedSnssai)
    ensures forall j :: 0 <= j < hit ==> SnssaiToKey(subscribed[j].subscribedSnssai) != SnssaiToKey(s)
  {
    hit := 0;
    while hit < |subscribed| && SnssaiToKey(s) != SnssaiToKey(subscribed[hit].subscribedSnssai)
      invariant hit <= |subscribed| && FindSubscribed(s, subscribed) == FindSubscribed(s, subscribed[hit..])
      invariant forall j :: 0 <= j < hit ==> SnssaiToKey(subscribed[j].subscribedSnssai) != SnssaiToKey(s)
    {
      assert subscribed[hit..][1..] == subscribed[hit + 1..];
      hit := hit + 1;
    }
  }

  /** The loop of mapping mode over one list of home S-NSSAIs. */
  method MapValues(values: seq<Snssai>, ms: seq<MappingOfSnssai>, accessType: AccessType, info: AuthorizedNetworkSliceInfo)
    modifies info
    ensures info.Value() == old(info.Value()).(
      allowedNssaiList := AddAll(old(info.allowedNssaiList), FilterMap(MapRequested(ms), values), accessType))
  {
    AddAllEmpty(info.allowedNssaiList, accessType);
    for i := 0 to |values|
      invariant info.Value() == old(info.Value()).(
        allowedNssaiList := AddAll(old(info.allowedNssaiList), FilterMap(MapRequested(ms), values[..i]), accessType))
    {
      var f := MapRequested(ms);
      FilterMapSnoc(f, values, i);
      AddAllOptional(old(info.allowedNssaiList), FilterMap(f, values[..i]), f(values[i]), accessType);
      if CheckStandardSnssai(values[i]) {
        continue;
      }
      var target := FindMappingWithHomeSnssai(values[i], ms);
      if target.None? {
        continue;
      }
      AddAllowedSnssai(AllowedSnssai(target.value.servingSnssai, [], Some(values[i])), accessType, info);
    }
    assert values[..|values|] == values;
  }

  lemma {:induction false} AddAllAppend(l: seq<AllowedNssai>, es: seq<AllowedSnssai>, fs: seq<AllowedSnssai>, t: AccessType)
    ensures AddAll(l, es + fs, t) == AddAll(AddAll(l, es, t), fs, t)
    decreases |fs|
  {
    if fs == [] {
      assert es + fs == es;
      AddAllEmpty(AddAll(l, es, t), t);
    } else {
      var front, last := fs[..|fs| - 1], fs[|fs| - 1];
      AddAllAppend(l, es, front, t);
      AddAllSnoc(l, es + front, last, t);
      AddAllSnoc(AddAll(l, es, t), front, last, t);
      assert es + fs == (es + front) + [last] && fs == front + [last];
    }
  }

  /** Mapping mode. */
  method SelectMappings(cfg: Configuration, p: RegistrationParameter, home: PlmnId, info: AuthorizedNetworkSliceInfo)
    requires p.homePlmnId == Some(home)
    modifies info
    ensures info.Value() == old(info.Value()).(
      allowedNssaiList := AddAll(old(info.allowedNssaiList), MappedNssai(cfg, p), AccessTypeOf(cfg, p)))
  {
    var mappingOfSnssai := GetMappingOfPlmnFromConfig(cfg, home);
    var accessType := AccessTypeOf(cfg, p);
    AddAllEmpty(info.allowedNssaiList, accessType);
    if mappingOfSnssai.Some? {
      MapValues(SubscribedValues(p), mappingOfSnssai.value, accessType, info);
      MapValues(p.info.sNssaiForMapping, mappingOfSnssai.value, accessType, info);
      ghost var f := MapRequested(mappingOfSnssai.value);
      AddAllAppend(old(info.allowedNssaiList), FilterMap(f, SubscribedValues(p)),
                   FilterMap(f, p.info.sNssaiForMapping), accessType);
    }
  }

  /** The Allowed NSSAI from the Requested NSSAI, or by default from the subscription. */
  method SelectAllowed(cfg: Configuration, p: RegistrationParameter, info: AuthorizedNetworkSliceInfo)
    returns (checkInvalidRequestedNssai: bool)
    modifies info
    ensures info.Value() == WithAllowed(cfg, p, old(info.Value()))
    ensures checkInvalidRequestedNssai <==> p.info.requestedNssai == [] || RejectedByPlmn(cfg, p) != []
  {
    if |p.info.requestedNssai| != 0 {
      var checkIfRequestAllowed;
      checkIfRequestAllowed, checkInvalidRequestedNssai := MatchRequested(cfg, p, info);
      if !checkIfRequestAllowed {
        UseDefaultSubscribedSnssai(cfg, p, info);
      }
    } else {
      checkInvalidRequestedNssai := true;
      AddAllEmpty(info.allowedNssaiList, AccessTypeOf(cfg, p));
      assert info.Value() == WithRequested(cfg, p, old(info.Value()));
      UseDefaultSubscribedSnssai(cfg, p, info);
    }
  }

  /** From the Allowed NSSAI to the end: reselection and the Configured NSSAI. */
  method SelectSlices(cfg: Configuration, p: RegistrationParameter, info: AuthorizedNetworkSliceInfo)
    modifies info
    ensures info.Value() == WithConfigured(cfg, p, WithReselection(cfg, p, WithAllowed(cfg, p, old(info.Value()))))
  {
    var checkInvalidRequestedNssai := SelectAllowed(cfg, p, info);
    if p.tai.Some? && !CheckAllowedNssaiInAmfTa(cfg, info.allowedNssaiList, p.nfId, p.tai.value) {
      AddAmfInformation(cfg, p.tai.value, info);
    }
    if p.info.defaultConfiguredSnssaiInd {
      UseDefaultConfiguredNssai(p, info);
    } else if checkInvalidRequestedNssai {
      if p.tai.Some? {
        SetConfiguredNssai(cfg, p, info);
      }
    }
  }

  method NsselectionForRegistration(cfg: Configuration, p: RegistrationParameter, info: AuthorizedNetworkSliceInfo)
    returns (status: Status)
    modifies info
    ensures (info.Value(), status) == Register(cfg, p, old(info.Value()))
  {
    var exit := AnswerEarly(cfg, p, info);
    if exit.Some? {
      return exit.value;
    }
    if p.info.requestMapping {
      SelectMappings(cfg, p, p.homePlmnId.value, info);
      return OK;
    }
    SelectSlices(cfg, p, info);
    status := OK;
  }

  /** The answers that need no selection. */
  method AnswerEarly(cfg: Configuration, p: RegistrationParameter, info: AuthorizedNetworkSliceInfo)
    returns (status: Option<Status>)
    modifies info
    ensures status.None? <==> RouteOf(cfg, p) in [Mapping, Selection]
    ensures status.None? ==> info.Value() == old(info.Value())
    ensures status.Some? ==> (info.Value(), status.value) == Register(cfg, p, old(info.Value()))
  {
    if p.homePlmnId.Some? && !CheckSupportedHplmn(cfg, p.homePlmnId.value) {
      info.rejectedNssaiInPlmn := info.rejectedNssaiInPlmn + p.info.requestedNssai;
      return Some(OK);
    }
    if p.tai.Some? && !CheckSupportedTa(cfg, p.tai.value) {
      info.rejectedNssaiInTa := info.rejectedNssaiInTa + p.info.requestedNssai;
      return Some(OK);
    }
    if p.info.requestMapping {
      return if p.homePlmnId.None? then Some(InvalidHomePlmnId) else None;
    }
    if |p.info.requestedNssai| != 0 && p.tai.Some?
       && !CheckSupportedNssaiInPlmn(cfg, p.info.requestedNssai, p.tai.value.plmnId) {
      return Some(SnssaiNotSupported);
    }
    status := None;
  }
}
