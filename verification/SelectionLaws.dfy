/** What a registration decides, in terms of the request and of the entries of the configuration. */
module SelectionLaws {
  import opened Prelude
  import opened Models
  import opened Util
  import opened AmfSelection
  import opened Registration
  import opened RegistrationProperties
  import opened Meaning

  // ----- Values at home and in the serving PLMN

  /** s needs a mapping: the UE is a roamer, and s is not a standard S-NSSAI. */
  predicate Roams(p: RegistrationParameter, s: Snssai) {
    p.homePlmnId.Some? && !(s.sst in [1, 2, 3] && s.sd in [None, Some("")])
  }

  /** A requested s is looked for in the subscription as home. */
  ghost predicate ComparedAs(p: RegistrationParameter, s: Snssai, home: Snssai) {
    if Roams(p, s) then exists i: nat :: IsFirstServing(p.info.mappingOfNssai, s, i) && p.info.mappingOfNssai[i].homeSnssai == home
    else home == s
  }

  predicate IsFirstSubscribed(subscribed: seq<SubscribedSnssai>, s: Snssai, i: nat) {
    i < |subscribed| && SnssaiToKey(subscribed[i].subscribedSnssai) == SnssaiToKey(s)
    && forall j :: 0 <= j < i ==> SnssaiToKey(subscribed[j].subscribedSnssai) != SnssaiToKey(s)
  }

  /** ms maps the values of the UE's home PLMN; nothing needs mapping at home. */
  ghost predicate HomeMapsBy(cfg: Configuration, p: RegistrationParameter, ms: seq<MappingOfSnssai>) {
    if p.homePlmnId.None? then ms == []
    else exists i: nat :: IsFirstHplmn(cfg.mappingListFromPlmn, p.homePlmnId.value, i)
                          && cfg.mappingListFromPlmn[i].mappingOfSnssai == Some(ms)
  }

  /** A subscribed home is offered as serving, with mapped as its mapped home value. */
  ghost predicate ServedAs(p: RegistrationParameter, ms: seq<MappingOfSnssai>, home: Snssai, serving: Snssai, mapped: Option<Snssai>) {
    if Roams(p, home) then
      mapped == Some(home) && exists i: nat :: IsFirstHome(ms, home, i) && ms[i].servingSnssai == serving
    else serving == home && mapped == None
  }

  /** nsis is the list of instances configured for s; empty without one. */
  predicate ListsConfigured(cfg: Configuration, s: Snssai, nsis: seq<NsiInformation>) {
    GetNsiInformationListFromConfig(cfg, s) == Some(nsis) || (GetNsiInformationListFromConfig(cfg, s) == None && nsis == [])
  }

  lemma RoamsExactly(p: RegistrationParameter, s: Snssai)
    ensures IsRoamingValue(p, s) <==> Roams(p, s)
  {
    StandardExactly(s);
  }

  lemma HomeOfExactly(p: RegistrationParameter, s: Snssai, home: Snssai)
    ensures HomeOf(p, s) == Some(home) <==> ComparedAs(p, s, home)
  {
    RoamsExactly(p, s);
    var m := FindMappingWithServingSnssai(s, p.info.mappingOfNssai);
    if m.Some? {
      FindServingExactly(p.info.mappingOfNssai, s, m.value);
    }
    if Roams(p, s) && ComparedAs(p, s, home) {
      var i: nat :| IsFirstServing(p.info.mappingOfNssai, s, i) && p.info.mappingOfNssai[i].homeSnssai == home;
      FindServingExactly(p.info.mappingOfNssai, s, p.info.mappingOfNssai[i]);
    }
  }

  lemma HomeMappingExactly(cfg: Configuration, p: RegistrationParameter, ms: seq<MappingOfSnssai>)
    ensures HomeMapping(cfg, p) == Some(ms) <==> HomeMapsBy(cfg, p, ms)
  {
    if p.homePlmnId.Some? {
      var home, list := p.homePlmnId.value, cfg.mappingListFromPlmn;
      if i: nat :| IsFirstHplmn(list, home, i) {
        HplmnAt(cfg, home, i);
        forall k: nat | IsFirstHplmn(list, home, k) ensures k == i {
          assert !(k < i) && !(i < k);
        }
      } else {
        FirstHplmnExists(list, home);
        NoHplmn(cfg, home);
      }
    }
  }

  lemma FirstHplmnExists(list: seq<MappingFromPlmnConfig>, home: PlmnId)
    ensures (exists i: nat :: IsFirstHplmn(list, home, i)) || forall i :: 0 <= i < |list| ==> list[i].homePlmnId != home
  {
    var r := FindHplmn(list, home);
    if r.Some? {
      var k :| 0 <= k < |list| && list[k] == r.value && forall j :: 0 <= j < k ==> list[j].homePlmnId != home;
      assert r.value.homePlmnId == home;
      assert IsFirstHplmn(list, home, k);
    }
  }

  lemma ServedExactly(p: RegistrationParameter, ms: seq<MappingOfSnssai>, home: Snssai, serving: Snssai, mapped: Option<Snssai>)
    ensures ServingOf(p, ms, home) == Some(serving) && MappedHome(p, home) == mapped <==> ServedAs(p, ms, home, serving, mapped)
  {
    RoamsExactly(p, home);
    var m := FindMappingWithHomeSnssai(home, ms);
    if m.Some? {
      FindHomeExactly(ms, home, m.value);
    }
    if Roams(p, home) && ServedAs(p, ms, home, serving, mapped) {
      var i: nat :| IsFirstHome(ms, home, i) && ms[i].servingSnssai == serving;
      FindHomeExactly(ms, home, ms[i]);
    }
  }

  lemma {:induction false} FindSubscribedExactly(s: Snssai, subscribed: seq<SubscribedSnssai>, v: Snssai)
    ensures FindSubscribed(s, subscribed) == Some(v) <==>
      exists i: nat :: IsFirstSubscribed(subscribed, s, i) && subscribed[i].subscribedSnssai == v
  {
    if subscribed != [] {
      var tail := subscribed[1..];
      FindSubscribedExactly(s, tail, v);
      if SnssaiToKey(subscribed[0].subscribedSnssai) == SnssaiToKey(s) {
        assert IsFirstSubscribed(subscribed, s, 0);
      } else {
        if i: nat :| IsFirstSubscribed(tail, s, i) && tail[i].subscribedSnssai == v {
          assert IsFirstSubscribed(subscribed, s, i + 1);
        }
        if i: nat :| IsFirstSubscribed(subscribed, s, i) && subscribed[i].subscribedSnssai == v {
          assert i > 0 && forall j :: 0 <= j < i - 1 ==> tail[j] == subscribed[j + 1];
          assert IsFirstSubscribed(tail, s, i - 1) && tail[i - 1].subscribedSnssai == v;
        }
      }
    }
  }

  // ----- The Requested NSSAI

  /** s is compared as some home value, whose first subscription is v. */
  ghost predicate IsSubscribedAs(p: RegistrationParameter, s: Snssai, v: Snssai) {
    exists home, i: nat :: ComparedAs(p, s, home) && IsFirstSubscribed(p.info.subscribedNssai, home, i)
                           && p.info.subscribedNssai[i].subscribedSnssai == v
  }

  lemma SubscribedAsExactly(p: RegistrationParameter, s: Snssai, v: Snssai)
    ensures IsSubscribedAs(p, s, v) <==> HomeOf(p, s).Some? && FindSubscribed(HomeOf(p, s).value, p.info.subscribedNssai) == Some(v)
  {
    var home := HomeOf(p, s);
    if home.Some? {
      HomeOfExactly(p, s, home.value);
      FindSubscribedExactly(home.value, p.info.subscribedNssai, v);
    }
    if IsSubscribedAs(p, s, v) {
      var h, i: nat :| ComparedAs(p, s, h) && IsFirstSubscribed(p.info.subscribedNssai, h, i)
                       && p.info.subscribedNssai[i].subscribedSnssai == v;
      HomeOfExactly(p, s, h);
      FindSubscribedExactly(h, p.info.subscribedNssai, v);
    }
  }

  /**
   * A requested S-NSSAI is rejected in the TA iff the UE gives a TAI that does not support it. Otherwise it is matched
   * iff the value it is compared as is subscribed, and the match carries it, its configured instances and, for a value
   * that roams, the subscribed one. All others are rejected in the PLMN.
   */
  lemma VerdictMeaning(cfg: Configuration, p: RegistrationParameter, s: Snssai, e: AllowedSnssai)
    ensures Judge(cfg, p, s) == RejectedInTa <==> p.tai.Some? && !CheckSupportedSnssaiInTa(cfg, s, p.tai.value)
    ensures Judge(cfg, p, s) == Matched(e) <==>
      && (p.tai.Some? ==> CheckSupportedSnssaiInTa(cfg, s, p.tai.value))
      && e.allowedSnssai == s && ListsConfigured(cfg, s, e.nsiInformationList)
      && exists v :: IsSubscribedAs(p, s, v) && e.mappedHomeSnssai == if Roams(p, s) then Some(v) else None
    ensures Judge(cfg, p, s) == RejectedInPlmn <==>
      (p.tai.Some? ==> CheckSupportedSnssaiInTa(cfg, s, p.tai.value)) && !exists v :: IsSubscribedAs(p, s, v)
  {
    RoamsExactly(p, s);
    forall v ensures IsSubscribedAs(p, s, v) <==>
      HomeOf(p, s).Some? && FindSubscribed(HomeOf(p, s).value, p.info.subscribedNssai) == Some(v)
    {
      SubscribedAsExactly(p, s, v);
    }
    var sub := if HomeOf(p, s).None? then None else FindSubscribed(HomeOf(p, s).value, p.info.subscribedNssai);
    if sub.Some? {
      assert IsSubscribedAs(p, s, sub.value);
    }
  }

  // ----- Allowed by default

  /** e is allowed by default iff a default subscribed S-NSSAI is served as it and the UE's TA, if given, supports it. */
  lemma DefaultMembers(cfg: Configuration, p: RegistrationParameter, e: AllowedSnssai)
    ensures e in DefaultNssai(cfg, p) <==>
      && (p.tai.Some? ==> CheckSupportedSnssaiInTa(cfg, e.allowedSnssai, p.tai.value))
      && ListsConfigured(cfg, e.allowedSnssai, e.nsiInformationList)
      && exists ms, i :: HomeMapsBy(cfg, p, ms) && 0 <= i < |p.info.subscribedNssai|
           && p.info.subscribedNssai[i].defaultIndication == Some(true)
           && ServedAs(p, ms, p.info.subscribedNssai[i].subscribedSnssai, e.allowedSnssai, e.mappedHomeSnssai)
  {
    var subscribed := p.info.subscribedNssai;
    forall ms ensures HomeMapping(cfg, p) == Some(ms) <==> HomeMapsBy(cfg, p, ms) {
      HomeMappingExactly(cfg, p, ms);
    }
    forall ms, i | 0 <= i < |subscribed|
      ensures ServingOf(p, ms, subscribed[i].subscribedSnssai) == Some(e.allowedSnssai)
              && MappedHome(p, subscribed[i].subscribedSnssai) == e.mappedHomeSnssai
              <==> ServedAs(p, ms, subscribed[i].subscribedSnssai, e.allowedSnssai, e.mappedHomeSnssai)
    {
      ServedExactly(p, ms, subscribed[i].subscribedSnssai, e.allowedSnssai, e.mappedHomeSnssai);
    }
    var ms := HomeMapping(cfg, p);
    if ms.Some? {
      FilterMapMember(DefaultAllowed(cfg, p, ms.value), subscribed, e);
    }
  }

  // ----- Configured NSSAI

  /** The subscription-derived list holds c iff some subscribed S-NSSAI is served as it and the serving PLMN supports it. */
  lemma ConfiguredMembers(cfg: Configuration, p: RegistrationParameter, c: ConfiguredSnssai)
    requires p.tai.Some?
    ensures c in ConfiguredFromSubscription(cfg, p) <==>
      && CheckSupportedSnssaiInPlmn(cfg, c.configuredSnssai, p.tai.value.plmnId)
      && exists ms, i :: HomeMapsBy(cfg, p, ms) && 0 <= i < |p.info.subscribedNssai|
           && ServedAs(p, ms, p.info.subscribedNssai[i].subscribedSnssai, c.configuredSnssai, c.mappedHomeSnssai)
  {
    var subscribed := p.info.subscribedNssai;
    forall ms ensures HomeMapping(cfg, p) == Some(ms) <==> HomeMapsBy(cfg, p, ms) {
      HomeMappingExactly(cfg, p, ms);
    }
    forall ms, i | 0 <= i < |subscribed|
      ensures ServingOf(p, ms, subscribed[i].subscribedSnssai) == Some(c.configuredSnssai)
              && MappedHome(p, subscribed[i].subscribedSnssai) == c.mappedHomeSnssai
              <==> ServedAs(p, ms, subscribed[i].subscribedSnssai, c.configuredSnssai, c.mappedHomeSnssai)
    {
      ServedExactly(p, ms, subscribed[i].subscribedSnssai, c.configuredSnssai, c.mappedHomeSnssai);
    }
    var ms := HomeMapping(cfg, p);
    if ms.Some? {
      FilterMapMember(SubscriptionConfigured(cfg, p, ms.value), subscribed, c);
    }
  }

  /** With the default-configured indication, the Configured NSSAI holds the standard requested S-NSSAIs that are subscribed. */
  lemma DefaultConfiguredMembers(cfg: Configuration, p: RegistrationParameter, c: ConfiguredSnssai)
    requires RouteOf(cfg, p) == Selection && p.info.defaultConfiguredSnssaiInd
    ensures c in Response(cfg, p).configuredNssai <==>
      && c.mappedHomeSnssai == None && c.configuredSnssai in p.info.requestedNssai
      && c.configuredSnssai.sst in [1, 2, 3] && c.configuredSnssai.sd in [None, Some("")]
      && exists i :: 0 <= i < |p.info.subscribedNssai|
           && SnssaiToKey(p.info.subscribedNssai[i].subscribedSnssai) == SnssaiToKey(c.configuredSnssai)
  {
    ConfiguredExactly(cfg, p);
    DefaultConfiguredFrom(p, c);
  }

  lemma DefaultConfiguredFrom(p: RegistrationParameter, c: ConfiguredSnssai)
    ensures c in FilterMap(DefaultConfigured(p), p.info.requestedNssai) <==>
      && c.mappedHomeSnssai == None && c.configuredSnssai in p.info.requestedNssai
      && c.configuredSnssai.sst in [1, 2, 3] && c.configuredSnssai.sd in [None, Some("")]
      && exists i :: 0 <= i < |p.info.subscribedNssai|
           && SnssaiToKey(p.info.subscribedNssai[i].subscribedSnssai) == SnssaiToKey(c.configuredSnssai)
  {
    var requested := p.info.requestedNssai;
    FilterMapMember(DefaultConfigured(p), requested, c);
    StandardExactly(c.configuredSnssai);
    if i :| 0 <= i < |requested| && DefaultConfigured(p)(requested[i]) == Some(c) {
      assert requested[i] in requested;
    }
    if c.configuredSnssai in requested {
      var i :| 0 <= i < |requested| && requested[i] == c.configuredSnssai;
    }
  }

  // ----- Order

  function WithSubscribed(p: RegistrationParameter, subscribed: seq<SubscribedSnssai>): RegistrationParameter {
    p.(info := p.info.(subscribedNssai := subscribed))
  }

  function WithRequest(p: RegistrationParameter, requested: seq<Snssai>): RegistrationParameter {
    p.(info := p.info.(requestedNssai := requested))
  }

  function WithForMapping(p: RegistrationParameter, values: seq<Snssai>): RegistrationParameter {
    p.(info := p.info.(sNssaiForMapping := values))
  }

  /** Defaults and subscription-derived values come in the order of the subscription. */
  lemma SubscriptionOrder(cfg: Configuration, p: RegistrationParameter, xs: seq<SubscribedSnssai>, ys: seq<SubscribedSnssai>)
    ensures DefaultNssai(cfg, WithSubscribed(p, xs + ys))
            == DefaultNssai(cfg, WithSubscribed(p, xs)) + DefaultNssai(cfg, WithSubscribed(p, ys))
    ensures p.tai.Some? ==>
      ConfiguredFromSubscription(cfg, WithSubscribed(p, xs + ys))
      == ConfiguredFromSubscription(cfg, WithSubscribed(p, xs)) + ConfiguredFromSubscription(cfg, WithSubscribed(p, ys))
  {
    var ms := HomeMapping(cfg, p);
    if ms.Some? {
      DefaultsOf(cfg, p, ms.value, xs);
      DefaultsOf(cfg, p, ms.value, ys);
      DefaultsOf(cfg, p, ms.value, xs + ys);
      FilterMapConcat(DefaultAllowed(cfg, p, ms.value), xs, ys);
      if p.tai.Some? {
        ConfiguredOf(cfg, p, ms.value, xs);
        ConfiguredOf(cfg, p, ms.value, ys);
        ConfiguredOf(cfg, p, ms.value, xs + ys);
        FilterMapConcat(SubscriptionConfigured(cfg, p, ms.value), xs, ys);
      }
    }
  }

  lemma DefaultsOf(cfg: Configuration, p: RegistrationParameter, ms: seq<MappingOfSnssai>, xs: seq<SubscribedSnssai>)
    requires HomeMapping(cfg, p) == Some(ms)
    ensures DefaultNssai(cfg, WithSubscribed(p, xs)) == FilterMap(DefaultAllowed(cfg, p, ms), xs)
  {
    FilterMapEqual(DefaultAllowed(cfg, WithSubscribed(p, xs), ms), DefaultAllowed(cfg, p, ms), xs);
  }

  lemma ConfiguredOf(cfg: Configuration, p: RegistrationParameter, ms: seq<MappingOfSnssai>, xs: seq<SubscribedSnssai>)
    requires p.tai.Some? && HomeMapping(cfg, p) == Some(ms)
    ensures ConfiguredFromSubscription(cfg, WithSubscribed(p, xs)) == FilterMap(SubscriptionConfigured(cfg, p, ms), xs)
  {
    FilterMapEqual(SubscriptionConfigured(cfg, WithSubscribed(p, xs), ms), SubscriptionConfigured(cfg, p, ms), xs);
  }

  /** In mapping mode the subscribed values come first, then those sent for mapping. */
  lemma MappingOrder(cfg: Configuration, p: RegistrationParameter)
    ensures MappedNssai(cfg, p) == MappedNssai(cfg, WithForMapping(p, [])) + MappedNssai(cfg, WithSubscribed(p, []))
  {
    var ms := HomeMapping(cfg, p);
    if ms.Some? {
      var f := MapRequested(ms.value);
      assert SubscribedValues(WithSubscribed(p, [])) == [];
      assert SubscribedValues(WithForMapping(p, [])) == SubscribedValues(p);
      assert FilterMap(f, SubscribedValues(p)) + [] == FilterMap(f, SubscribedValues(p));
      assert [] + FilterMap(f, p.info.sNssaiForMapping) == FilterMap(f, p.info.sNssaiForMapping);
    }
  }

  /** The subscribed part is in the order of the subscription, */
  lemma MappedSubscriptionOrder(cfg: Configuration, p: RegistrationParameter, xs: seq<SubscribedSnssai>, ys: seq<SubscribedSnssai>)
    requires p.info.sNssaiForMapping == []
    ensures MappedNssai(cfg, WithSubscribed(p, xs + ys))
            == MappedNssai(cfg, WithSubscribed(p, xs)) + MappedNssai(cfg, WithSubscribed(p, ys))
  {
    var ms := HomeMapping(cfg, p);
    if ms.Some? {
      MappedSubscribed(cfg, p, ms.value, xs);
      MappedSubscribed(cfg, p, ms.value, ys);
      MappedSubscribed(cfg, p, ms.value, xs + ys);
      var values := (s: SubscribedSnssai) => s.subscribedSnssai;
      MapConcat(values, xs, ys);
      FilterMapConcat(MapRequested(ms.value), Map(values, xs), Map(values, ys));
    }
  }

  /** and the other in that of sNssaiForMapping. */
  lemma MappedRequestOrder(cfg: Configuration, p: RegistrationParameter, us: seq<Snssai>, vs: seq<Snssai>)
    requires p.info.subscribedNssai == []
    ensures MappedNssai(cfg, WithForMapping(p, us + vs))
            == MappedNssai(cfg, WithForMapping(p, us)) + MappedNssai(cfg, WithForMapping(p, vs))
  {
    var ms := HomeMapping(cfg, p);
    if ms.Some? {
      MappedForMapping(cfg, p, ms.value, us);
      MappedForMapping(cfg, p, ms.value, vs);
      MappedForMapping(cfg, p, ms.value, us + vs);
      FilterMapConcat(MapRequested(ms.value), us, vs);
    }
  }

  lemma MappedSubscribed(cfg: Configuration, p: RegistrationParameter, ms: seq<MappingOfSnssai>, xs: seq<SubscribedSnssai>)
    requires p.info.sNssaiForMapping == [] && HomeMapping(cfg, p) == Some(ms)
    ensures MappedNssai(cfg, WithSubscribed(p, xs))
            == FilterMap(MapRequested(ms), Map((s: SubscribedSnssai) => s.subscribedSnssai, xs))
  {
    assert SubscribedValues(WithSubscribed(p, xs)) == Map((s: SubscribedSnssai) => s.subscribedSnssai, xs);
    assert FilterMap(MapRequested(ms), SubscribedValues(WithSubscribed(p, xs))) + []
        == FilterMap(MapRequested(ms), SubscribedValues(WithSubscribed(p, xs)));
  }

  lemma MappedForMapping(cfg: Configuration, p: RegistrationParameter, ms: seq<MappingOfSnssai>, us: seq<Snssai>)
    requires p.info.subscribedNssai == [] && HomeMapping(cfg, p) == Some(ms)
    ensures MappedNssai(cfg, WithForMapping(p, us)) == FilterMap(MapRequested(ms), us)
  {
    assert SubscribedValues(WithForMapping(p, us)) == [];
    assert [] + FilterMap(MapRequested(ms), us) == FilterMap(MapRequested(ms), us);
  }

  // ----- Status and the early exits

  /** The home PLMN, if given, is configured. */
  predicate HplmnIsKnown(cfg: Configuration, p: RegistrationParameter) {
    p.homePlmnId.Some? ==> exists m :: m in cfg.mappingListFromPlmn && m.homePlmnId == p.homePlmnId.value
  }

  predicate TaIsKnown(cfg: Configuration, p: RegistrationParameter) {
    p.tai.Some? ==> exists ta :: ta in cfg.taList && ta.tai == p.tai.value
  }

  /** The PLMN of the TAI is indexed and supports every requested S-NSSAI that is not standard. */
  predicate PlmnSupports(cfg: Configuration, p: RegistrationParameter) {
    p.tai.Some? ==>
      && p.tai.value.plmnId in cfg.supportedNssaiInPlmnList
      && forall s :: s in p.info.requestedNssai ==>
           (s.sst in [1, 2, 3] && s.sd in [None, Some("")])
           || SnssaiToKey(s) in cfg.supportedNssaiInPlmnList[p.tai.value.plmnId]
  }

  lemma KnownExactly(cfg: Configuration, p: RegistrationParameter)
    ensures HplmnIsKnown(cfg, p) <==> (p.homePlmnId.Some? ==> CheckSupportedHplmn(cfg, p.homePlmnId.value))
    ensures TaIsKnown(cfg, p) <==> (p.tai.Some? ==> CheckSupportedTa(cfg, p.tai.value))
  {
    if p.homePlmnId.Some? {
      if i :| 0 <= i < |cfg.mappingListFromPlmn| && cfg.mappingListFromPlmn[i].homePlmnId == p.homePlmnId.value {
        assert cfg.mappingListFromPlmn[i] in cfg.mappingListFromPlmn;
      }
    }
    if p.tai.Some? {
      if i :| 0 <= i < |cfg.taList| && cfg.taList[i].tai == p.tai.value {
        assert cfg.taList[i] in cfg.taList;
      }
    }
  }

  lemma PlmnSupportsExactly(cfg: Configuration, p: RegistrationParameter)
    ensures PlmnSupports(cfg, p) <==>
      (p.tai.Some? ==> CheckSupportedNssaiInPlmn(cfg, p.info.requestedNssai, p.tai.value.plmnId))
  {
    forall s ensures CheckStandardSnssai(s) <==> s.sst in [1, 2, 3] && s.sd in [None, Some("")] {
      StandardExactly(s);
    }
    var requested := p.info.requestedNssai;
    assert forall i :: 0 <= i < |requested| ==> requested[i] in requested;
  }

  /** The status of every request, and the whole response of every request that does not come to a selection. */
  lemma AnswerExactly(cfg: Configuration, p: RegistrationParameter)
    ensures var r, status := Response(cfg, p), Register(cfg, p, EMPTY_INFO).1;
      var hplmn, ta := HplmnIsKnown(cfg, p), TaIsKnown(cfg, p);
      var unsupported := p.info.requestedNssai != [] && !PlmnSupports(cfg, p);
      && (status == InvalidHomePlmnId <==> hplmn && ta && p.info.requestMapping && p.homePlmnId.None?)
      && (status == SnssaiNotSupported <==> hplmn && ta && !p.info.requestMapping && unsupported)
      && (status != OK ==> r == EMPTY_INFO)
      && (!hplmn ==> r == EMPTY_INFO.(rejectedNssaiInPlmn := p.info.requestedNssai))
      && (hplmn && !ta ==> r == EMPTY_INFO.(rejectedNssaiInTa := p.info.requestedNssai))
      && (hplmn && ta && p.info.requestMapping ==> r == EMPTY_INFO.(allowedNssaiList := r.allowedNssaiList))
      && (RouteOf(cfg, p) == Selection <==> hplmn && ta && !p.info.requestMapping && !unsupported)
  {
    KnownExactly(cfg, p);
    PlmnSupportsExactly(cfg, p);
    assert [] + p.info.requestedNssai == p.info.requestedNssai;
  }

  /** The access type of whatever a run allows: that of the first entry of the TAI, else 3GPP access. */
  lemma AccessTypeExactly(cfg: Configuration, p: RegistrationParameter, i: nat)
    requires Response(cfg, p).allowedNssaiList != []
    ensures p.tai.None? ==> Response(cfg, p).allowedNssaiList[0].accessType == "3GPP_ACCESS"
    ensures p.tai.Some? && IsFirstTa(cfg.taList, p.tai.value, i) ==>
      Response(cfg, p).allowedNssaiList[0].accessType == cfg.taList[i].accessType
  {
    AllowedIsFirstEight(cfg, p);
    if p.tai.Some? && IsFirstTa(cfg.taList, p.tai.value, i) {
      TaAt(cfg, p.tai.value, i, Snssai(0, None));
    }
  }

  /** More than eight grants are cut to the first eight. */
  lemma EightAreAllowed(cfg: Configuration, p: RegistrationParameter)
    requires |Granted(cfg, p)| >= 8
    ensures |Response(cfg, p).allowedNssaiList| == 1
    ensures Response(cfg, p).allowedNssaiList[0].allowedSnssaiList == Granted(cfg, p)[..8]
  {
    AllowedIsFirstEight(cfg, p);
    EightAtMost(Granted(cfg, p));
  }

  // ----- Reselection and other TAs

  /** Availability entries of other TAs do not change what a selection does about reselection. */
  lemma OtherTasAreIgnored(cfg: Configuration, cfg': Configuration, p: RegistrationParameter, info: SliceInfo)
    requires p.tai.Some? && AgreeAt(cfg, cfg', p.tai.value)
    ensures WithReselection(cfg', p, info) == WithReselection(cfg, p, info)
  {
    OtherTasDoNotMatter(cfg, cfg', p.tai.value, p.nfId, info);
  }

  /** An AMF, or a set, that supports the slice in another TA only: the first fails the check, neither is offered. */
  lemma OtherTaIsNotOffered(nfId: string, tai: Tai, other: Tai, s: Snssai)
    requires tai != other
    ensures var data := [SupportedNssaiAvailabilityData(other, [s])];
      var cfg := OneTa(tai, s, [AmfSetConfig("set", [nfId], "", data)], [AmfConfig(nfId, data)]);
      var r := Response(cfg, DefaultRequest(nfId, tai, s));
      && r.allowedNssaiList != [] && !CheckAllowedNssaiInAmfTa(cfg, r.allowedNssaiList, nfId, tai)
      && r.candidateAmfList == [] && r.targetAmfSet.None?
  {
    var data := [SupportedNssaiAvailabilityData(other, [s])];
    var cfg := OneTa(tai, s, [AmfSetConfig("set", [nfId], "", data)], [AmfConfig(nfId, data)]);
    var p := DefaultRequest(nfId, tai, s);
    DefaultIsAllowed(nfId, tai, s, cfg.amfSetList, cfg.amfList);
    var allowed := Response(cfg, p).allowedNssaiList;
    assert allowed[0].allowedSnssaiList[0].allowedSnssai == s;
    NothingOfOtherTa(cfg, allowed, nfId, tai, other, s);
    var candidates := Response(cfg, p).candidateAmfList;
    if candidates != [] {
      CandidatesExactly(cfg, p, candidates[0]);
    }
    FallbackOf(cfg, p);
  }

  lemma NothingOfOtherTa(cfg: Configuration, allowed: seq<AllowedNssai>, nfId: string, tai: Tai, other: Tai, s: Snssai)
    requires tai != other && allowed == [AllowedNssai([AllowedSnssai(s, [], None)], ACCESSTYPE_3GPP)]
    requires cfg.amfList == [AmfConfig(nfId, [SupportedNssaiAvailabilityData(other, [s])])]
    ensures !Covers(allowed, tai, [SupportedNssaiAvailabilityData(other, [s])])
    ensures !CheckAllowedNssaiInAmfTa(cfg, allowed, nfId, tai)
  {
    CoversExactly(allowed, tai, cfg.amfList[0].data);
    assert !Offers(cfg.amfList[0].data, tai, allowed[0].allowedSnssaiList[0].allowedSnssai);
    assert FindAmf(cfg.amfList, nfId) == Some(cfg.amfList[0]);
    CoversIsCheck(cfg, allowed, tai, nfId);
  }
}
