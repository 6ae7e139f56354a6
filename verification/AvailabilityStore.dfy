/** The AMF records of the NSSAI availability service: PUT, PATCH and DELETE on an in-place list. */
module AvailabilityStore {
  import opened Prelude
  import opened Models
  import opened Util
  import opened AmfSelection

  type Data = seq<SupportedNssaiAvailabilityData>

  // ----- The list operations

  function RemoveFirst(l: seq<AmfConfig>, nfId: string): seq<AmfConfig> {
    if l == [] then [] else if l[0].nfId == nfId then l[1..] else [l[0]] + RemoveFirst(l[1..], nfId)
  }

  /** Overwrite the first record of nfId, or append one. */
  function Upsert(l: seq<AmfConfig>, nfId: string, data: Data): seq<AmfConfig> {
    if l == [] then [AmfConfig(nfId, data)]
    else if l[0].nfId == nfId then [AmfConfig(nfId, data)] + l[1..]
    else [l[0]] + Upsert(l[1..], nfId, data)
  }

  /** Decoding into the target's old data; a failure may have written a part. */
  datatype Decoded = Undecodable(written: Data) | Patched(written: Data)

  /** What a patch makes of the data of the record that was hit, up to the decoding into its target. */
  datatype PatchAnswer =
    | Unencodable
    | Malformed
    | Conflict
    | Modified(decode: Data -> Decoded)

  type Patch = Data -> PatchAnswer

  /** PATCH writes to record 0, whichever record was hit. */
  function PatchZero(l: seq<AmfConfig>, nfId: string, patch: Patch): seq<AmfConfig> {
    var hit := FindAmf(l, nfId);
    if hit.None? then l
    else
      match patch(hit.value.data)
      case Modified(decode) => l[0 := AmfConfig(l[0].nfId, decode(l[0].data).written)]
      case _ => l
  }

  datatype StoreError = NotFound | NotSupportedInPlmn | SystemFailure | MalformedPatch | ConflictingPatch | UndecodablePatch

  function Authorize(tas: seq<TaConfig>, d: SupportedNssaiAvailabilityData): AuthorizedNssaiAvailabilityData {
    AuthorizedNssaiAvailabilityData(d.tai, d.supportedSnssaiList, GetRestrictedSnssaiListFromConfig(tas, d.tai))
  }

  /** AuthorizeOfAmfTaFromConfig. */
  function AuthorizeOfAmfTa(l: seq<AmfConfig>, tas: seq<TaConfig>, nfId: string, tai: Tai)
    : Option<AuthorizedNssaiAvailabilityData>
  {
    var amf := FindAmf(l, nfId);
    var d := if amf.None? then None else FindData(amf.value.data, tai);
    if d.None? then None else Some(Authorize(tas, d.value))
  }

  /** AuthorizeOfAmfFromConfig: an error without a record of nfId. */
  function AuthorizeOfAmf(l: seq<AmfConfig>, tas: seq<TaConfig>, nfId: string)
    : Result<seq<AuthorizedNssaiAvailabilityData>, StoreError>
  {
    var amf := FindAmf(l, nfId);
    if amf.None? then Failure(NotFound)
    else Success(AuthorizedAll(tas, amf.value.data))
  }

  function AuthorizedAll(tas: seq<TaConfig>, data: Data): (r: seq<AuthorizedNssaiAvailabilityData>)
    ensures |r| == |data| && forall i :: 0 <= i < |data| ==> r[i] == Authorize(tas, data[i])
  {
    Map((d: SupportedNssaiAvailabilityData) => Authorize(tas, d), data)
  }

  predicate PutIsSupported(cfg: Configuration, data: Data) {
    forall i :: 0 <= i < |data| ==> CheckSupportedNssaiInPlmn(cfg, data[i].supportedSnssaiList, data[i].tai.plmnId)
  }

  /** The PLMN of the entry is indexed, and each of its S-NSSAIs is standard or in the index. */
  predicate EntryIsSupported(cfg: Configuration, d: SupportedNssaiAvailabilityData) {
    && d.tai.plmnId in cfg.supportedNssaiInPlmnList
    && forall s :: s in d.supportedSnssaiList ==>
         (s.sst in [1, 2, 3] && s.sd in [None, Some("")])
         || SnssaiToKey(s) in cfg.supportedNssaiInPlmnList[d.tai.plmnId]
  }

  lemma EntrySupportExactly(cfg: Configuration, d: SupportedNssaiAvailabilityData)
    ensures CheckSupportedNssaiInPlmn(cfg, d.supportedSnssaiList, d.tai.plmnId) <==> EntryIsSupported(cfg, d)
  {
    var nssai := d.supportedSnssaiList;
    if CheckSupportedNssaiInPlmn(cfg, nssai, d.tai.plmnId) {
      forall s | s in nssai
        ensures (s.sst in [1, 2, 3] && s.sd in [None, Some("")]) || SnssaiToKey(s) in cfg.supportedNssaiInPlmnList[d.tai.plmnId]
      {
        var j :| 0 <= j < |nssai| && nssai[j] == s;
      }
    } else if d.tai.plmnId in cfg.supportedNssaiInPlmnList {
      var j :| 0 <= j < |nssai| && !CheckStandardSnssai(nssai[j])
               && SnssaiToKey(nssai[j]) !in cfg.supportedNssaiInPlmnList[d.tai.plmnId];
      assert nssai[j] in nssai;
    }
  }

  lemma PutSupportExactly(cfg: Configuration, data: Data)
    ensures PutIsSupported(cfg, data) <==> forall d :: d in data ==> EntryIsSupported(cfg, d)
  {
    forall d: SupportedNssaiAvailabilityData ensures CheckSupportedNssaiInPlmn(cfg, d.supportedSnssaiList, d.tai.plmnId) <==> EntryIsSupported(cfg, d) {
      EntrySupportExactly(cfg, d);
    }
    if !PutIsSupported(cfg, data) {
      var i :| 0 <= i < |data| && !CheckSupportedNssaiInPlmn(cfg, data[i].supportedSnssaiList, data[i].tai.plmnId);
      assert data[i] in data;
    }
  }

  // ----- The store

  lemma {:induction false} RemoveFirstAt(l: seq<AmfConfig>, nfId: string, i: nat)
    requires i <= |l| && forall j :: 0 <= j < i ==> l[j].nfId != nfId
    requires i < |l| ==> l[i].nfId == nfId
    ensures RemoveFirst(l, nfId) == if i == |l| then l else l[..i] + l[i + 1..]
  {
    if i > 0 {
      RemoveFirstAt(l[1..], nfId, i - 1);
      assert l == [l[0]] + l[1..];
    }
  }

  lemma FindAmfAt(l: seq<AmfConfig>, nfId: string, i: nat)
    requires i <= |l| && forall j :: 0 <= j < i ==> l[j].nfId != nfId
    requires i < |l| ==> l[i].nfId == nfId
    ensures FindAmf(l, nfId) == if i == |l| then None else Some(l[i])
  {
    if i < |l| {
      var amf := FindAmf(l, nfId).value;
      assert amf.nfId == nfId;
      var k :| 0 <= k < |l| && l[k] == amf && forall j :: 0 <= j < k ==> l[j].nfId != nfId;
    }
  }

  lemma {:induction false} UpsertAt(l: seq<AmfConfig>, nfId: string, data: Data, i: nat)
    requires i <= |l| && forall j :: 0 <= j < i ==> l[j].nfId != nfId
    requires i < |l| ==> l[i].nfId == nfId
    ensures Upsert(l, nfId, data) == if i == |l| then l + [AmfConfig(nfId, data)] else l[i := AmfConfig(nfId, data)]
  {
    if i > 0 {
      UpsertAt(l[1..], nfId, data, i - 1);
      assert l == [l[0]] + l[1..];
    }
  }

  lemma RewriteKeepsFound(l: seq<AmfConfig>, i: nat, data: Data, nfId: string)
    requires i < |l|
    ensures FindAmf(l[i := AmfConfig(l[i].nfId, data)], nfId).Some? <==> FindAmf(l, nfId).Some?
  {
    var l' := l[i := AmfConfig(l[i].nfId, data)];
    assert forall j :: 0 <= j < |l| ==> l'[j].nfId == l[j].nfId;
  }

  /** The loop over the data of one record. */
  method AuthorizeData(tas: seq<TaConfig>, data: Data) returns (response: seq<AuthorizedNssaiAvailabilityData>)
    ensures response == AuthorizedAll(tas, data)
  {
    response := [];
    for i := 0 to |data|
      invariant |response| == i && forall k :: 0 <= k < i ==> response[k] == Authorize(tas, data[k])
    {
      response := response + [Authorize(tas, data[i])];
    }
  }

  method AuthorizeOfAmfFromConfig(l: seq<AmfConfig>, tas: seq<TaConfig>, nfId: string)
    returns (r: Result<seq<AuthorizedNssaiAvailabilityData>, StoreError>)
    ensures r == AuthorizeOfAmf(l, tas, nfId)
  {
    for i := 0 to |l|
      invariant forall j :: 0 <= j < i ==> l[j].nfId != nfId
    {
      if l[i].nfId == nfId {
        FindAmfAt(l, nfId, i);
        var response := AuthorizeData(tas, l[i].data);
        return Success(response);
      }
    }
    FindAmfAt(l, nfId, |l|);
    r := Failure(NotFound);
  }

  class Store {
    var amfList: seq<AmfConfig>

    constructor (configured: seq<AmfConfig>)
      ensures amfList == configured
    {
      amfList := configured;
    }

    method Delete(nfId: string) returns (error: Option<StoreError>)
      modifies this
      ensures amfList == RemoveFirst(old(amfList), nfId)
      ensures error == if FindAmf(old(amfList), nfId).Some? then None else Some(NotFound)
    {
      for i := 0 to |amfList|
        invariant amfList == old(amfList)
        invariant forall j :: 0 <= j < i ==> amfList[j].nfId != nfId
      {
        if amfList[i].nfId == nfId {
          RemoveFirstAt(amfList, nfId, i);
          amfList := amfList[..i] + amfList[i + 1..];
          return None;
        }
      }
      RemoveFirstAt(amfList, nfId, |amfList|);
      error := Some(NotFound);
    }

    /** PUT without interference between its look-up and its append (see InterleavedStore for the interleavings). */
    method Put(cfg: Configuration, data: Data, nfId: string)
      returns (r: Result<seq<AuthorizedNssaiAvailabilityData>, StoreError>)
      modifies this
      ensures r.Success? <==>
        forall d :: d in data ==> EntryIsSupported(cfg, d)
      ensures r.Failure? ==> r.error == NotSupportedInPlmn && amfList == old(amfList)
      ensures r.Success? ==>
        && amfList == Upsert(old(amfList), nfId, data)
        && r.value == FilterMap(AuthorizedFor(amfList, cfg.taList, nfId), data)
    {
      for i := 0 to |data|
        invariant forall j :: 0 <= j < i ==> CheckSupportedNssaiInPlmn(cfg, data[j].supportedSnssaiList, data[j].tai.plmnId)
      {
        if !CheckSupportedNssaiInPlmn(cfg, data[i].supportedSnssaiList, data[i].tai.plmnId) {
          PutSupportExactly(cfg, data);
          return Failure(NotSupportedInPlmn);
        }
      }
      PutSupportExactly(cfg, data);
      Write(data, nfId);
      var response := PutAnswer(amfList, cfg.taList, nfId, data);
      r := Success(response);
    }

    /** The response loop of PUT. */
    static method PutAnswer(l: seq<AmfConfig>, tas: seq<TaConfig>, nfId: string, data: Data)
      returns (response: seq<AuthorizedNssaiAvailabilityData>)
      ensures response == FilterMap(AuthorizedFor(l, tas, nfId), data)
    {
      response := [];
      for i := 0 to |data|
        invariant response == FilterMap(AuthorizedFor(l, tas, nfId), data[..i])
      {
        FilterMapSnoc(AuthorizedFor(l, tas, nfId), data, i);
        var authorized := AuthorizeOfAmfTa(l, tas, nfId, data[i].tai);
        if authorized.Some? {
          response := response + [authorized.value];
        }
      }
      assert data[..|data|] == data;
    }

    /** The look-up of PUT, followed by its append when no record was found. */
    method Write(data: Data, nfId: string)
      modifies this
      ensures amfList == Upsert(old(amfList), nfId, data)
    {
      var hitAmf := false;
      for i := 0 to |amfList|
        invariant !hitAmf && amfList == old(amfList)
        invariant forall j :: 0 <= j < i ==> amfList[j].nfId != nfId
      {
        if amfList[i].nfId == nfId {
          UpsertAt(amfList, nfId, data, i);
          amfList := amfList[i := amfList[i].(data := data)];
          hitAmf := true;
          break;
        }
      }
      if !hitAmf {
        UpsertAt(amfList, nfId, data, |amfList|);
        amfList := amfList + [AmfConfig(nfId, data)];
      }
    }

    method PatchAmf(tas: seq<TaConfig>, patch: Patch, nfId: string)
      returns (r: Result<seq<AuthorizedNssaiAvailabilityData>, StoreError>)
      modifies this
      ensures amfList == PatchZero(old(amfList), nfId, patch)
      ensures r.Success? ==> FindAmf(amfList, nfId).Some? && AnswersData(r.value, FindAmf(amfList, nfId).value.data, tas)
      ensures var hit := FindAmf(old(amfList), nfId);
        if hit.None? then r == Failure(NotFound)
        else match patch(hit.value.data)
             case Unencodable => r == Failure(SystemFailure)
             case Malformed => r == Failure(MalformedPatch)
             case Conflict => r == Failure(ConflictingPatch)
             case Modified(decode) =>
               if decode(old(amfList)[0].data).Patched? then r.Success? else r == Failure(UndecodablePatch)
    {
      var amfIdx := 0;
      var original: Data := [];
      var hitAmf := false;
      for i := 0 to |amfList|
        invariant amfList == old(amfList) && !hitAmf
        invariant forall j :: 0 <= j < i ==> amfList[j].nfId != nfId
      {
        if amfList[i].nfId == nfId {
          FindAmfAt(amfList, nfId, i);
          original := amfList[i].data;
          hitAmf := true;
          break;
        }
      }
      if !hitAmf {
        return Failure(NotFound);
      }
      match patch(original) {
        case Unencodable => r := Failure(SystemFailure);
        case Malformed => r := Failure(MalformedPatch);
        case Conflict => r := Failure(ConflictingPatch);
        case Modified(decode) =>
          var decoded := decode(amfList[amfIdx].data);
          amfList := amfList[amfIdx := amfList[amfIdx].(data := decoded.written)];
          if decoded.Undecodable? {
            return Failure(UndecodablePatch);
          }
          RewriteKeepsFound(old(amfList), 0, decoded.written, nfId);
          r := AuthorizeOfAmfFromConfig(amfList, tas, nfId);
          AuthorizedAnswers(tas, FindAmf(amfList, nfId).value.data);
      }
    }
  }

  function AuthorizedFor(l: seq<AmfConfig>, tas: seq<TaConfig>, nfId: string)
    : SupportedNssaiAvailabilityData -> Option<AuthorizedNssaiAvailabilityData>
  {
    (d: SupportedNssaiAvailabilityData) => AuthorizeOfAmfTa(l, tas, nfId, d.tai)
  }

  // ----- The map the list stands for

  /** The map under first-match look-up. */
  function AsMap(l: seq<AmfConfig>): map<string, Data> {
    if l == [] then map[] else AsMap(l[1..])[l[0].nfId := l[0].data]
  }

  lemma {:induction false} LookupIsMap(l: seq<AmfConfig>, nfId: string)
    ensures nfId in AsMap(l) <==> FindAmf(l, nfId).Some?
    ensures nfId in AsMap(l) ==> AsMap(l)[nfId] == FindAmf(l, nfId).value.data
  {
    if l != [] {
      LookupIsMap(l[1..], nfId);
    }
  }

  function Records(l: seq<AmfConfig>, nfId: string): nat {
    if l == [] then 0 else (if l[0].nfId == nfId then 1 else 0) + Records(l[1..], nfId)
  }

  lemma {:induction false} RecordsFound(l: seq<AmfConfig>, nfId: string)
    ensures Records(l, nfId) > 0 <==> nfId in AsMap(l)
  {
    if l != [] {
      RecordsFound(l[1..], nfId);
    }
  }

  /** PUT is the map update, for any list. */
  lemma {:induction false} UpsertIsMapUpdate(l: seq<AmfConfig>, nfId: string, data: Data)
    ensures AsMap(Upsert(l, nfId, data)) == AsMap(l)[nfId := data]
  {
    if l != [] && l[0].nfId != nfId {
      UpsertIsMapUpdate(l[1..], nfId, data);
    }
  }

  /** DELETE is the map removal exactly when nfId has at most one record. */
  lemma {:induction false} DeleteIsMapRemovalExactly(l: seq<AmfConfig>, nfId: string)
    ensures AsMap(RemoveFirst(l, nfId)) == AsMap(l) - {nfId} <==> Records(l, nfId) <= 1
  {
    if l != [] {
      var tail := l[1..];
      if l[0].nfId == nfId {
        RecordsFound(tail, nfId);
        if nfId !in AsMap(tail) {
          assert AsMap(l) - {nfId} == AsMap(tail);
        } else {
          assert nfId !in AsMap(l) - {nfId};
        }
      } else {
        DeleteIsMapRemovalExactly(tail, nfId);
        var here := l[0].nfId;
        var rest := RemoveFirst(tail, nfId);
        assert RemoveFirst(l, nfId)[1..] == rest;
        assert AsMap(l) - {nfId} == (AsMap(tail) - {nfId})[here := l[0].data];
        RemovalElsewhere(tail, nfId, here);
        if AsMap(rest)[here := l[0].data] == (AsMap(tail) - {nfId})[here := l[0].data] {
          MapsAgree(AsMap(rest), AsMap(tail) - {nfId}, here, l[0].data);
        }
      }
    }
  }

  lemma MapsAgree(m: map<string, Data>, n: map<string, Data>, k: string, d: Data)
    requires m[k := d] == n[k := d]
    requires k in m <==> k in n
    requires k in m ==> m[k] == n[k]
    ensures m == n
  {
    forall x ensures (x in m <==> x in n) && (x in m ==> m[x] == n[x]) {
      assert x != k ==> (x in m <==> x in m[k := d]) && (x in n <==> x in n[k := d]);
      if x != k && x in m {
        assert m[k := d][x] == m[x] && n[k := d][x] == n[x];
      }
    }
  }

  lemma {:induction false} RemovalElsewhere(l: seq<AmfConfig>, nfId: string, other: string)
    requires other != nfId
    ensures other in AsMap(RemoveFirst(l, nfId)) <==> other in AsMap(l)
    ensures other in AsMap(l) ==> AsMap(RemoveFirst(l, nfId))[other] == AsMap(l)[other]
  {
    if l != [] && l[0].nfId != nfId {
      RemovalElsewhere(l[1..], nfId, other);
    }
  }

  lemma {:induction false} DistinctHasOneRecord(l: seq<AmfConfig>, nfId: string)
    requires DistinctIds(l)
    ensures Records(l, nfId) <= 1
  {
    if l != [] {
      DistinctHasOneRecord(l[1..], nfId);
      if l[0].nfId == nfId {
        RecordsFound(l[1..], nfId);
        LookupIsMap(l[1..], nfId);
      }
    }
  }

  // ----- Runs

  datatype Op = PutOp(nfId: string, data: Data) | DeleteOp(nfId: string)

  function Step(l: seq<AmfConfig>, op: Op): seq<AmfConfig> {
    match op
    case PutOp(nfId, data) => Upsert(l, nfId, data)
    case DeleteOp(nfId) => RemoveFirst(l, nfId)
  }

  function MapStep(m: map<string, Data>, op: Op): map<string, Data> {
    match op
    case PutOp(nfId, data) => m[nfId := data]
    case DeleteOp(nfId) => m - {nfId}
  }

  function Run(l: seq<AmfConfig>, ops: seq<Op>): seq<AmfConfig>
    decreases |ops|
  {
    if ops == [] then l else Run(Step(l, ops[0]), ops[1..])
  }

  function MapRun(m: map<string, Data>, ops: seq<Op>): map<string, Data>
    decreases |ops|
  {
    if ops == [] then m else MapRun(MapStep(m, ops[0]), ops[1..])
  }

  lemma StepKeepsDistinct(l: seq<AmfConfig>, op: Op)
    requires DistinctIds(l)
    ensures DistinctIds(Step(l, op))
  {
    var i := IndexOf(l, op.nfId);
    match op {
      case PutOp(nfId, data) => UpsertAt(l, nfId, data, i);
      case DeleteOp(nfId) => RemoveFirstAt(l, nfId, i);
    }
  }

  function IndexOf(l: seq<AmfConfig>, nfId: string): (i: nat)
    ensures i <= |l| && forall j :: 0 <= j < i ==> l[j].nfId != nfId
    ensures i < |l| ==> l[i].nfId == nfId
  {
    if l == [] || l[0].nfId == nfId then 0 else 1 + IndexOf(l[1..], nfId)
  }

  /** Every run of PUTs and DELETEs from a list of distinct nfIds keeps them distinct and is the same run on a map. */
  lemma {:induction false} RunRefinesMap(l: seq<AmfConfig>, ops: seq<Op>)
    requires DistinctIds(l)
    ensures DistinctIds(Run(l, ops))
    ensures AsMap(Run(l, ops)) == MapRun(AsMap(l), ops)
    decreases |ops|
  {
    if ops != [] {
      StepKeepsDistinct(l, ops[0]);
      match ops[0] {
        case PutOp(nfId, data) => UpsertIsMapUpdate(l, nfId, data);
        case DeleteOp(nfId) =>
          DistinctHasOneRecord(l, nfId);
          DeleteIsMapRemovalExactly(l, nfId);
      }
      RunRefinesMap(Step(l, ops[0]), ops[1..]);
    }
  }

  /**
   * After any run, from any list, AMF reselection's fallback offers exactly the AMFs of the map that pass the check
   * iff no covering record is shadowed; from distinct nfIds that is always so, and the map is the run on the map.
   */
  lemma FallbackExactAfterRun(cfg: Configuration, ops: seq<Op>, allowed: seq<AllowedNssai>, tai: Tai)
    ensures var l := Run(cfg.amfList, ops);
      var cfg' := cfg.(amfList := l);
      && ((forall id :: id in FallbackCandidates(cfg', allowed, tai) <==>
                          id in AsMap(l) && CheckAllowedNssaiInAmfTa(cfg', allowed, id, tai))
          <==> NoneShadowed(cfg', allowed, tai))
      && (DistinctIds(cfg.amfList) ==> NoneShadowed(cfg', allowed, tai) && AsMap(l) == MapRun(AsMap(cfg.amfList), ops))
  {
    var cfg' := cfg.(amfList := Run(cfg.amfList, ops));
    FallbackIsExact(cfg', allowed, tai);
    forall id ensures Passes(cfg', allowed, tai, id) <==>
                        id in AsMap(cfg'.amfList) && CheckAllowedNssaiInAmfTa(cfg', allowed, id, tai)
    {
      LookupIsMap(cfg'.amfList, id);
    }
    if DistinctIds(cfg.amfList) {
      RunRefinesMap(cfg.amfList, ops);
      DistinctRecordsAgree(cfg', allowed, tai);
    }
  }

  // ----- Responses

  /** A PUT answers every input entry, in order, with the supported list of the first input entry for its TAI. */
  lemma PutResponse(l: seq<AmfConfig>, tas: seq<TaConfig>, nfId: string, data: Data)
    ensures var response := FilterMap(AuthorizedFor(Upsert(l, nfId, data), tas, nfId), data);
      && |response| == |data|
      && forall i :: 0 <= i < |data| ==>
           && FindData(data, data[i].tai).Some?
           && response[i].tai == data[i].tai
           && response[i].supportedSnssaiList == FindData(data, data[i].tai).value.supportedSnssaiList
           && RestrictsAt(tas, data[i].tai, response[i].restrictedSnssaiList)
  {
    var f := AuthorizedFor(Upsert(l, nfId, data), tas, nfId);
    forall i | 0 <= i < |data|
      ensures FindData(data, data[i].tai).Some? && f(data[i]) == Some(Authorize(tas, FindData(data, data[i].tai).value))
      ensures RestrictsAt(tas, data[i].tai, GetRestrictedSnssaiListFromConfig(tas, data[i].tai))
    {
      PutEntry(l, tas, nfId, data, i);
      RestrictedExactly(tas, data[i].tai);
    }
    TotalFilter(f, data);
  }

  lemma PutEntry(l: seq<AmfConfig>, tas: seq<TaConfig>, nfId: string, data: Data, i: nat)
    requires i < |data|
    ensures FindData(data, data[i].tai).Some?
    ensures AuthorizeOfAmfTa(Upsert(l, nfId, data), tas, nfId, data[i].tai)
            == Some(Authorize(tas, FindData(data, data[i].tai).value))
  {
    UpsertIsMapUpdate(l, nfId, data);
    LookupIsMap(Upsert(l, nfId, data), nfId);
  }

  lemma {:induction false} TotalFilter<T, U>(f: T -> Option<U>, xs: seq<T>)
    requires forall i :: 0 <= i < |xs| ==> f(xs[i]).Some?
    ensures |FilterMap(f, xs)| == |xs|
    ensures forall i :: 0 <= i < |xs| ==> FilterMap(f, xs)[i] == f(xs[i]).value
  {
    if xs != [] {
      TotalFilter(f, xs[..|xs| - 1]);
    }
  }

  /** One answer per entry, in order: its TAI, its supported list, and what the first configuration of the TAI restricts. */
  predicate AnswersData(response: seq<AuthorizedNssaiAvailabilityData>, data: Data, tas: seq<TaConfig>) {
    && |response| == |data|
    && forall i :: 0 <= i < |data| ==>
         && response[i].tai == data[i].tai
         && response[i].supportedSnssaiList == data[i].supportedSnssaiList
         && RestrictsAt(tas, data[i].tai, response[i].restrictedSnssaiList)
  }

  predicate RestrictsAt(tas: seq<TaConfig>, tai: Tai, restricted: seq<RestrictedSnssai>) {
    if exists k :: 0 <= k < |tas| && tas[k].tai == tai then
      exists k :: 0 <= k < |tas| && tas[k].tai == tai && (forall j :: 0 <= j < k ==> tas[j].tai != tai)
                  && tas[k].restrictedSnssaiList == restricted
    else restricted == []
  }

  lemma RestrictedExactly(tas: seq<TaConfig>, tai: Tai)
    ensures RestrictsAt(tas, tai, GetRestrictedSnssaiListFromConfig(tas, tai))
  {
    var ta := FindTa(tas, tai);
    if ta.Some? {
      assert ta.value.tai == tai;
      var k :| 0 <= k < |tas| && tas[k] == ta.value && forall j :: 0 <= j < k ==> tas[j].tai != tai;
    }
  }

  lemma AuthorizedAnswers(tas: seq<TaConfig>, data: Data)
    ensures AnswersData(AuthorizedAll(tas, data), data, tas)
  {
    forall i | 0 <= i < |data| ensures RestrictsAt(tas, data[i].tai, GetRestrictedSnssaiListFromConfig(tas, data[i].tai)) {
      RestrictedExactly(tas, data[i].tai);
    }
  }

  /** The answer for an AMF: an error without a record, else one entry per entry of its first record. */
  lemma AuthorizeExactly(l: seq<AmfConfig>, tas: seq<TaConfig>, nfId: string)
    ensures FindAmf(l, nfId).None? ==> AuthorizeOfAmf(l, tas, nfId) == Failure(NotFound)
    ensures FindAmf(l, nfId).Some? ==>
      var r := AuthorizeOfAmf(l, tas, nfId); r.Success? && AnswersData(r.value, FindAmf(l, nfId).value.data, tas)
  {
    if FindAmf(l, nfId).Some? {
      AuthorizedAnswers(tas, FindAmf(l, nfId).value.data);
    }
  }

  // ----- PATCH

  /** PATCH never changes which nfIds are recorded, nor any record but the first. */
  lemma PatchTouchesOnlyZero(l: seq<AmfConfig>, nfId: string, patch: Patch)
    ensures |PatchZero(l, nfId, patch)| == |l|
    ensures l != [] ==> PatchZero(l, nfId, patch)[0].nfId == l[0].nfId && PatchZero(l, nfId, patch)[1..] == l[1..]
  {
  }

  /**
   * A PATCH that comes to decode, whether or not that succeeds, is the intended map update of nfId's entry exactly when
   * nfId owns record 0, or the value written there and the value intended for nfId are the ones already stored.
   */
  lemma PatchIsMapUpdateExactly(l: seq<AmfConfig>, nfId: string, patch: Patch, written: Data, intended: Data)
    requires FindAmf(l, nfId).Some? && patch(FindAmf(l, nfId).value.data).Modified?
    requires var own := FindAmf(l, nfId).value.data;
      patch(own).decode(l[0].data).written == written && patch(own).decode(own).written == intended
    ensures AsMap(PatchZero(l, nfId, patch)) == AsMap(l)[nfId := intended] <==>
      l[0].nfId == nfId || (written == l[0].data && intended == FindAmf(l, nfId).value.data)
  {
    var l' := PatchZero(l, nfId, patch);
    assert l'[1..] == l[1..];
    assert AsMap(l') == AsMap(l)[l[0].nfId := written];
    LookupIsMap(l, nfId);
    LookupIsMap(l, l[0].nfId);
    if l[0].nfId != nfId {
      var m, n := AsMap(l'), AsMap(l)[nfId := intended];
      assert m[nfId] == AsMap(l)[nfId] && n[nfId] == intended;
      assert m[l[0].nfId] == written && n[l[0].nfId] == l[0].data;
    }
  }

  /** A PATCH that fails still changes the list exactly when decoding stopped after writing something new to record 0. */
  lemma FailedPatchChangesExactly(l: seq<AmfConfig>, nfId: string, patch: Patch)
    requires var hit := FindAmf(l, nfId);
      hit.Some? && patch(hit.value.data).Modified? ==> patch(hit.value.data).decode(l[0].data).Undecodable?
    ensures var hit := FindAmf(l, nfId);
      PatchZero(l, nfId, patch) != l <==>
        hit.Some? && patch(hit.value.data).Modified? && patch(hit.value.data).decode(l[0].data).written != l[0].data
  {
    if l != [] {
      assert l[0 := AmfConfig(l[0].nfId, l[0].data)] == l;
    }
  }

  /** The patch that replaces everything by data. */
  function Overwrite(data: Data): Patch {
    own => Modified(target => Patched(data))
  }

  /** A patch of the second AMF lands on the first. */
  lemma PatchHitsTheWrongRecord(a: Data, b: Data, c: Data)
    requires a != c && b != c
    ensures var l := [AmfConfig("a", a), AmfConfig("b", b)];
      && PatchZero(l, "b", Overwrite(c)) == [AmfConfig("a", c), AmfConfig("b", b)]
      && AsMap(PatchZero(l, "b", Overwrite(c))) != AsMap(l)["b" := c]
  {
    var l := [AmfConfig("a", a), AmfConfig("b", b)];
    FindAmfAt(l, "b", 1);
    PatchIsMapUpdateExactly(l, "b", Overwrite(c), c, c);
  }
}
