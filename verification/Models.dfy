/** The records that slice selection and the availability service are stated over. */
module Models {
  import opened Prelude

  type int32 = x: int | -0x8000_0000 <= x < 0x8000_0000

  /** sd is optional; an absent sd and the empty string denote the same S-NSSAI. */
  datatype Snssai = Snssai(sst: int32, sd: Option<string>)

  datatype SnssaiKey = SnssaiKey(sst: int32, sd: string)

  function SnssaiToKey(s: Snssai): SnssaiKey {
    SnssaiKey(s.sst, if s.sd.Some? then s.sd.value else "")
  }

  datatype PlmnId = PlmnId(mcc: string, mnc: string)

  datatype Tai = Tai(plmnId: PlmnId, tac: string, nid: Option<string>)

  type AccessType = string
  const ACCESSTYPE_3GPP: AccessType := "3GPP_ACCESS"

  datatype NsiInformation = NsiInformation(nrfId: string, nsiId: string)

  datatype MappingOfSnssai = MappingOfSnssai(servingSnssai: Snssai, homeSnssai: Snssai)

  datatype RestrictedSnssai = RestrictedSnssai(homePlmnId: PlmnId, sNssaiList: seq<Snssai>)

  datatype SupportedNssaiAvailabilityData =
    SupportedNssaiAvailabilityData(tai: Tai, supportedSnssaiList: seq<Snssai>)

  datatype AuthorizedNssaiAvailabilityData =
    AuthorizedNssaiAvailabilityData(tai: Tai, supportedSnssaiList: seq<Snssai>,
                                    restrictedSnssaiList: seq<RestrictedSnssai>)

  // Configuration. An optional list is one whose absence (nil) the code tells apart from emptiness.

  datatype AmfConfig = AmfConfig(nfId: string, data: seq<SupportedNssaiAvailabilityData>)

  datatype AmfSetConfig = AmfSetConfig(amfSetId: string, amfList: seq<string>, nrfAmfSet: string,
                                       data: seq<SupportedNssaiAvailabilityData>)

  datatype TaConfig = TaConfig(tai: Tai, accessType: AccessType, supportedSnssaiList: seq<Snssai>,
                               restrictedSnssaiList: seq<RestrictedSnssai>)

  datatype NsiConfig = NsiConfig(snssai: Snssai, nsiInformationList: Option<seq<NsiInformation>>)

  datatype MappingFromPlmnConfig =
    MappingFromPlmnConfig(homePlmnId: PlmnId, mappingOfSnssai: Option<seq<MappingOfSnssai>>)

  type SupportedNssaiInPlmn = map<PlmnId, set<SnssaiKey>>

  datatype Configuration = Configuration(
    supportedNssaiInPlmnList: SupportedNssaiInPlmn,
    nsiList: seq<NsiConfig>,
    amfSetList: seq<AmfSetConfig>,
    amfList: seq<AmfConfig>,
    taList: seq<TaConfig>,
    mappingListFromPlmn: seq<MappingFromPlmnConfig>)

  // Query parameters.

  datatype SubscribedSnssai =
    SubscribedSnssai(subscribedSnssai: Snssai, defaultIndication: Option<bool>, subscribedNsSrgList: seq<string>)

  datatype SliceInfoForRegistration = SliceInfoForRegistration(
    subscribedNssai: seq<SubscribedSnssai>,
    sNssaiForMapping: seq<Snssai>,
    requestedNssai: seq<Snssai>,
    mappingOfNssai: seq<MappingOfSnssai>,
    defaultConfiguredSnssaiInd: bool,
    requestMapping: bool)

  datatype RoamingIndication = NonRoaming | Roaming(value: string)

  datatype SliceInfoForPduSession = SliceInfoForPduSession(sNssai: Snssai, roamingIndication: RoamingIndication)

  datatype QueryParameter<Info> = QueryParameter(nfId: string, info: Info, homePlmnId: Option<PlmnId>, tai: Option<Tai>)

  type RegistrationParameter = QueryParameter<SliceInfoForRegistration>
  type PduSessionParameter = QueryParameter<SliceInfoForPduSession>

  // Response.

  datatype AllowedSnssai =
    AllowedSnssai(allowedSnssai: Snssai, nsiInformationList: seq<NsiInformation>, mappedHomeSnssai: Option<Snssai>)

  datatype AllowedNssai = AllowedNssai(allowedSnssaiList: seq<AllowedSnssai>, accessType: AccessType)

  datatype ConfiguredSnssai = ConfiguredSnssai(configuredSnssai: Snssai, mappedHomeSnssai: Option<Snssai>)

  /** The value of a response under construction. */
  datatype SliceInfo = SliceInfo(
    allowedNssaiList: seq<AllowedNssai>,
    configuredNssai: seq<ConfiguredSnssai>,
    rejectedNssaiInPlmn: seq<Snssai>,
    rejectedNssaiInTa: seq<Snssai>,
    targetAmfSet: Option<string>,
    nrfAmfSet: Option<string>,
    candidateAmfList: seq<string>,
    nsiInformation: Option<NsiInformation>)

  const EMPTY_INFO := SliceInfo([], [], [], [], None, None, [], None)

  /** 200; 403 with cause SNSSAI_NOT_SUPPORTED; 400 with invalid parameter home-plmn-id. */
  datatype Status = OK | SnssaiNotSupported | InvalidHomePlmnId

  /** The response object, filled in place by the selection procedures. */
  class AuthorizedNetworkSliceInfo {
    var allowedNssaiList: seq<AllowedNssai>
    var configuredNssai: seq<ConfiguredSnssai>
    var rejectedNssaiInPlmn: seq<Snssai>
    var rejectedNssaiInTa: seq<Snssai>
    var targetAmfSet: Option<string>
    var nrfAmfSet: Option<string>
    var candidateAmfList: seq<string>
    var nsiInformation: Option<NsiInformation>

    ghost function Value(): SliceInfo
      reads this
    {
      SliceInfo(allowedNssaiList, configuredNssai, rejectedNssaiInPlmn, rejectedNssaiInTa,
                targetAmfSet, nrfAmfSet, candidateAmfList, nsiInformation)
    }

    constructor ()
      ensures Value() == EMPTY_INFO
    {
      allowedNssaiList, configuredNssai, rejectedNssaiInPlmn, rejectedNssaiInTa := [], [], [], [];
      targetAmfSet, nrfAmfSet, candidateAmfList, nsiInformation := None, None, [], None;
    }
  }
}
