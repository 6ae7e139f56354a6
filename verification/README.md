# Verification of the NSSF

A Dafny model of the Network Slice Selection Function: which network slices a UE gets, and whether the tables and the
NRF registration behind that decision stay coherent. `dafny verify dfyconfig.toml` checks the whole project.

The state that the program updates in place (the response under construction, the AMF records, the subscriptions, the
poller's fields, the keep-alive timer) is kept in classes whose methods follow the code branch by branch. Each method
is proved against a function of the old state, and the properties are lemmas about those functions. The concurrent
parts (registration with the NRF, PUT, PATCH and DELETE, the configuration lock) are transition systems in which
every action is one critical section or one exchange with the NRF, and every interleaving is a run.

| module | models |
|---|---|
| `Prelude`, `Decimal` | options, filters and subsequences; decimal numerals |
| `Models`, `Util`, `Meaning` | records, S-NSSAI keys, configuration look-ups, `AddAllowedSnssai`; what the checks come to in terms of configuration entries |
| `AmfSelection`, `Registration`, `RegistrationProperties`, `SelectionLaws` | slice selection for registration (section 5.2 of 3GPP TS 29.531) and AMF reselection |
| `PduSession`, `Agreement` | slice selection for PDU sessions, and its agreement with registration |
| `AvailabilityStore`, `InterleavedStore`, `InterleavedFaults` | the AMF records, sequentially and under interleaving |
| `Subscriptions`, `ConfigLock` | subscription identifiers; the lock that POST takes twice |
| `NrfProtocol`, `NrfInvariants`, `NrfProperties`, `NrfTermination`, `NrfWitnesses`, `NrfRegistration` | NRF registration and heartbeat (section 5.2.2.3.2 of 3GPP TS 29.510) |
| `Poller` | the configuration poller and the PLMN index |
| `QueryParser`, `QueryRoundTrip`, `QueryAlignment` | query parameters in exploded form |
| `Routes` | route canonicalisation and parameter aliases |

One configuration snapshot serves one selection request. S-NSSAIs are compared by `SnssaiToKey`, so an absent SD and the
empty SD are the same. A list whose absence (nil) the code tells apart from emptiness is an `Option`.

## Where the code differs from its intent

The model keeps what the code does. For each difference there is the exact condition under which the intent holds, and
a concrete failure.

- PATCH declares `amfIdx` anew in its loop (producer/nssaiavailability_store.go:56 and :60), so line 138 always writes
  record 0: `PatchIsMapUpdateExactly`, `PatchHitsTheWrongRecord`. A PATCH that is answered with an error can still
  change record 0: `FailedPatchChangesExactly`.
- PUT and PATCH release the lock between look-up and write. n concurrent PUTs can leave n records of one nfId
  (`BoundIsReached`). AMF reselection then disagrees with its own check exactly when a record that covers the Allowed
  NSSAI stands behind one that does not (`FallbackIsExact`, `DuplicateRecordBreaksFallback`), which n clients can bring
  about iff n >= 2 (`FallbackBreaksExactlyWithTwoClients`). A DELETE inside a PATCH empties the list that the PATCH then
  indexes, also iff n >= 2 (`CrashExactlyWithTwoClients`, `TwoClientsCanCrash`). The panic leaves the write lock held, and
  nobody proceeds after it (`BlockedExactlyByCrash`).
- Reselection can offer back the very AMF that could not serve the UE, exactly when the first covering AMF set lists it
  or a covering record of it is shadowed: `RequesterOfferedExactly`, `CandidatesExactly`, `RequesterCanBeOfferedBack`.
- POST asks for the read lock while it holds the write lock (producer/nssaiavailability_subscription.go:55,
  util/util.go:319) and waits for itself, unless the list makes its scan fail: `PostBlocksEveryoneExactly`,
  `FirstPostBlocks`. The properties of identifiers are about the state change of lines 58-68.
- The identifier scan assumes ascending order, but POST appends: `PostKeepsAscendingExactly`,
  `SecondPostRepeatsExactly`, `RunWithDuplicates`.
- The subscribed list is zipped against S-NSSAIs that have already lost their gaps, and one S-NSSAI with several groups
  gives one entry per group: `AlignedExactly`, `MisalignedDefault`, `OneEntryExactly`.
- A cancelled `registerNF` may still take its timer branch, and a heartbeat past its nil check outlives `DeregisterNF`:
  `DeregistrationIsFinalExactly`, `CancelledRegistrationStillRegisters`, `HeartbeatOutlivesDeregistration`. A late
  heartbeat can also replace the timer of a newer registration: `RegistrationPrevailsExactly`,
  `StaleConfigurationTakesOver`. The comment at nfregistration/nf_registration.go:34-35 promises one registration
  process at a time; the mutex gives that (`OnePastTheMutex`), cancellation does not.
- The poller sends without watching for termination (polling/nf_configuration.go:127). Its send can complete exactly
  when the channel has room or the service has not stopped; else the wait at service/init.go:162 never ends:
  `PendingSendCompletesExactly`, `TerminationEndsExactly`, `PollerCanWaitForEver`.
- Termination deregisters before it waits for the loops, so a registration can still follow:
  `TerminationIsFinalExactly`, `RegistrationAfterTermination`.
- A default S-NSSAI is allowed without asking whether the PLMN supports it, and PDU session selection may then refuse
  it: `DefaultIsAcceptedExactly`, `DefaultCanBeRefused`. Mapping mode asks about neither the PLMN nor the TA:
  `MappedIsAcceptedExactly`, `MappedCanBeRefused`.
- PDU session selection panics on a slice whose instance list is present but empty: `PanicsExactly`, `EmptyListPanics`.
- An original parameter name that is also another parameter's name can read the wrong segment: `ReadsItsSegmentExactly`,
  `ReadsFilledSegmentExactly`, `UnclearPattern`.

## Model

| member | source | states |
|---|---|---|
| Util.FindTa | util/util.go:45-58 | the first TA entry for a TAI; found iff some entry has it |
| Util.FindAmf | util/util.go:151-155 | the first AMF record of an nfId; found iff some record has it |
| Util.FindData | util/util.go:271-279 | the first availability entry for a TAI; found iff some entry has it |
| Util.FindHplmn | util/util.go:32-42 | the first mapping entry of a home PLMN; found iff some entry has it |
| Util.FindNsi | util/util.go:208-218 | the first instance entry of an S-NSSAI by key; found iff some entry has it |
| Util.FindMappingWithServingSnssai | util/util.go:337-347 | the first mapping with that serving S-NSSAI, by key; found iff there is one |
| Util.FindMappingWithHomeSnssai | util/util.go:349-357 | the first mapping with that home S-NSSAI, by key; found iff there is one |
| Util.AddAllowedSnssai | util/util.go:359-383 | the scan and in-place append has exactly the effect of AddAllowed, and changes nothing else in the response |
| Util.AddCallsGrouped | util/util.go:359-383 | any sequence of additions groups by access type in first-use order, each with the first eight S-NSSAIs added for it |
| Util.AdditionsAreDistinct | util/util.go:359-383 | the same, and the access types are distinct |
| Util.AddAllFresh | util/util.go:359-383 | additions under one access type give one Allowed NSSAI of the first eight, or none |
| Meaning.SameKeyExactly | factory/config.go:113-118 | two S-NSSAIs have one key iff SST and SD agree, an absent SD being the empty one |
| Meaning.StandardExactly | util/util.go:177-182 | standard iff the SST is 1, 2 or 3 and the SD is absent or empty |
| Meaning.TaAt | util/util.go:45-127 | the first entry of a TAI decides its support, access type and restricted list |
| Meaning.NoTa | util/util.go:45-260 | without an entry a TAI is unsupported, supports nothing, is 3GPP access and restricts nothing |
| Meaning.HplmnAt | util/util.go:196-205 | the first entry of a home PLMN makes it supported and gives its mapping |
| Meaning.NsiAt | util/util.go:208-218 | the first entry of an S-NSSAI gives its instances |
| Meaning.AvailabilityExactly | util/util.go:130-140 | availability data supports an S-NSSAI at a TAI iff some entry of exactly that TAI lists it |
| Meaning.CoversExactly | util/util.go:400-414 | data covers the Allowed NSSAI iff, for every Allowed S-NSSAI, some entry of exactly that TAI lists it |
| Meaning.AmfCheckExactly | util/util.go:143-173 | an AMF passes the check iff its first record has, for every Allowed S-NSSAI, an entry of exactly that TAI that lists it |
| Meaning.OtherTasDoNotMatter | util/util.go:130-173 | availability entries of other TAs change neither the check nor what reselection writes |
| Meaning.EightAtMost | util/util.go:359-383 | the cap is a prefix, of eight elements if there are as many |
| AmfSelection.FirstCovering | util/util.go:396-431 | the index of the first AMF set that covers the Allowed NSSAI, no earlier one does |
| AmfSelection.CoversAllowed | util/util.go:400-414 | the nested loops with their flag decide whether every Allowed S-NSSAI is supported at the TAI |
| AmfSelection.AddAmfInformation | util/util.go:386-465 | in place, the first covering set's AMFs or its identifier, else the fallback candidates; the rest of the response is kept |
| AmfSelection.CoversIsCheck | util/util.go:143-173 | on any list, the check of a recorded nfId is whether its first record covers the Allowed NSSAI |
| AmfSelection.FallbackIsExact | util/util.go:386-465 | on any list, the candidates are exactly the recorded AMFs that pass CheckAllowedNssaiInAmfTa iff no covering record is shadowed by a first record that does not cover |
| AmfSelection.FallbackInOrderExactly | util/util.go:433-464 | they are so record by record, in order, iff the records of each nfId agree |
| AmfSelection.FallbackMembers | util/util.go:433-464 | an AMF is a fallback candidate iff some record of it covers the Allowed NSSAI |
| AmfSelection.DistinctRecordsAgree | util/util.go:151-155 | distinct nfIds give both conditions |
| AmfSelection.RequesterNotACandidate | util/util.go:433-464 | without a shadowed record, an AMF that fails the check is not among the fallback candidates |
| AmfSelection.SetOrCandidates | util/util.go:386-465 | TargetAmfSet and CandidateAmfList are never both set; the first covering set decides which |
| AmfSelection.DuplicateRecordBreaksFallback | util/util.go:433-464 | an empty record before a covering one of the same nfId: offered by the fallback, refused by the check |
| Registration.UseDefaultSubscribedSnssai | producer/nsselection_for_registration.go:25-87 | appends exactly the default subscribed S-NSSAIs that map and are supported in the TA |
| Registration.AllowSubscribed | producer/nsselection_for_registration.go:43-86 | the Allowed S-NSSAI of one subscribed one, if it is a default, maps and is supported in the TA |
| Registration.UseDefaultConfiguredNssai | producer/nsselection_for_registration.go:90-112 | appends each standard requested S-NSSAI that is subscribed, once, in order |
| Registration.SetConfiguredNssai | producer/nsselection_for_registration.go:115-156 | appends exactly the subscribed S-NSSAIs mapped to serving values that the PLMN supports |
| Registration.ConfigureSubscribed | producer/nsselection_for_registration.go:127-155 | the Configured S-NSSAI of one subscribed one, if it maps and the PLMN supports it |
| Registration.FirstSubscription | producer/nsselection_for_registration.go:334-370 | the subscription scan hits the first entry with the key, or none |
| Registration.JudgeRequested | producer/nsselection_for_registration.go:303-379 | one requested S-NSSAI goes to exactly one of rejected in TA, rejected in PLMN and allowed |
| Registration.MatchRequested | producer/nsselection_for_registration.go:300-379 | the whole loop, with both of its flags |
| Registration.MapValues | producer/nsselection_for_registration.go:206-237 | a mapping loop appends the mapped serving values with their home values |
| Registration.SelectMappings | producer/nsselection_for_registration.go:188-271 | mapping mode adds mapped subscribed values, then mapped values of sNssaiForMapping |
| Registration.SelectAllowed | producer/nsselection_for_registration.go:280-391 | matches, or else defaults; the flag that asks for a Configured NSSAI |
| Registration.SelectSlices | producer/nsselection_for_registration.go:280-410 | Allowed NSSAI, then reselection, then Configured NSSAI |
| Registration.AnswerEarly | producer/nsselection_for_registration.go:165-298 | the answers that need no selection, and that none is given otherwise |
| Registration.NsselectionForRegistration | producer/nsselection_for_registration.go:160-414 | status and final response of every branch |
| RegistrationProperties.AllowedIsFirstEight | producer/nsselection_for_registration.go:203-385 | every run uses one access type: at most one Allowed NSSAI, exactly the first eight granted, in all modes |
| RegistrationProperties.RequestedIsPartitioned | producer/nsselection_for_registration.go:303-385 | requested = rejected in TA + rejected in PLMN + matched as multisets, each an order-preserving subsequence; allowed is the first eight matches |
| RegistrationProperties.EveryRequestIsAnswered | producer/nsselection_for_registration.go:165-186 | on the early exits with status 200 too, no requested S-NSSAI is lost or reported twice |
| SelectionLaws.VerdictMeaning | producer/nsselection_for_registration.go:303-379 | for every verdict and every match, when it is given, in terms of TA support, the first mapping the UE sends, the first subscription with its key, and the configured instances |
| SelectionLaws.DefaultMembers | producer/nsselection_for_registration.go:25-87 | membership in the default list, both directions, in terms of the first home mapping and its serving value |
| RegistrationProperties.MappedMembers | producer/nsselection_for_registration.go:203-268 | membership in the mapping-mode list, both directions |
| RegistrationProperties.ConfiguredExactly | producer/nsselection_for_registration.go:398-410 | exactly when a Configured NSSAI is computed, and from what |
| SelectionLaws.ConfiguredMembers | producer/nsselection_for_registration.go:115-156 | membership in the subscription-derived list, both directions, in terms of the first home mapping and its serving value; every entry is supported in the serving PLMN |
| SelectionLaws.DefaultConfiguredMembers | producer/nsselection_for_registration.go:90-112 | with the default-configured indication, exactly the standard requested S-NSSAIs that are subscribed |
| SelectionLaws.SubscriptionOrder | producer/nsselection_for_registration.go:43-156 | defaults and subscription-derived values come in the order of the subscription |
| SelectionLaws.MappingOrder | producer/nsselection_for_registration.go:203-268 | in mapping mode subscribed values come before those sent for mapping |
| SelectionLaws.MappedSubscriptionOrder | producer/nsselection_for_registration.go:203-237 | the subscribed ones in the order of the subscription |
| SelectionLaws.MappedRequestOrder | producer/nsselection_for_registration.go:239-268 | the others in the order of sNssaiForMapping |
| SelectionLaws.AnswerExactly | producer/nsselection_for_registration.go:165-298 | exactly when each status is given, the whole response of every request that comes to no selection, and when one comes to it |
| SelectionLaws.AccessTypeExactly | util/util.go:221-235 | what is allowed has the access type of the first entry of the TAI, 3GPP access without a TAI |
| SelectionLaws.EightAreAllowed | util/util.go:359-383 | of eight or more grants the first eight are allowed |
| SelectionLaws.OtherTasAreIgnored | producer/nsselection_for_registration.go:393-396 | availability entries of other TAs do not change what a selection does about reselection |
| SelectionLaws.OtherTaIsNotOffered | util/util.go:130-140 | an AMF and a set that support the slice in another TA only: the check fails and neither is offered |
| RegistrationProperties.ReselectionOf | producer/nsselection_for_registration.go:393-396 | in any run, reselection data only replaces an AMF that fails the check, and never both kinds |
| RegistrationProperties.AmfSetOf | util/util.go:396-431 | in a whole run, the first covering set decides TargetAmfSet and CandidateAmfList |
| RegistrationProperties.FallbackOf | util/util.go:433-464 | in a whole run without a covering set, on any AMF list: the candidates are the passing AMFs iff none is shadowed, in record order iff the records agree |
| RegistrationProperties.CandidatesExactly | util/util.go:386-465 | for every request, which AMFs the response offers |
| RegistrationProperties.RequesterOfferedExactly | producer/nsselection_for_registration.go:393-396 | in a whole run, without a shadowed record, the requesting AMF is offered back iff reselection is needed and the first covering set lists it |
| RegistrationProperties.RequesterCanBeOfferedBack | util/util.go:419-422 | a registration whose response offers the requesting AMF back |
| RegistrationProperties.VerdictsUnderExtension | util/util.go:104-118 | a longer supported list of the TA changes only verdicts that were rejections in the TA |
| RegistrationProperties.ExtendingTaIsMonotone | producer/nsselection_for_registration.go:303-370 | two runs: rejections in the TA only shrink, matches are kept, and up to eight matches the Allowed NSSAI only grows |
| PduSession.SelectNsiInformation | producer/nsselection_for_pdu_session.go:24-31 | the chosen instance is in the list |
| PduSession.NsselectionForPduSession | producer/nsselection_for_pdu_session.go:35-117 | status and response of every branch; the instance is any of the configured list |
| PduSession.RejectionsAreTrue | producer/nsselection_for_pdu_session.go:40-98 | rejected in PLMN iff the home PLMN is unsupported; rejected in TA only if the TA does not support the S-NSSAI; errors change nothing |
| PduSession.AnswersExactly | producer/nsselection_for_pdu_session.go:40-116 | for every request, exactly when it is rejected in the PLMN, rejected in the TA, refused with 403, refused with 400 or answered with an instance, and what each does to the response |
| PduSession.AnyInstanceIsPossible | producer/nsselection_for_pdu_session.go:24-31 | any instance of the list can be the answer |
| Agreement.ListCheckIsSingleCheck | util/util.go:62-101 | the list check is "PLMN known and every element passes the single check" |
| Agreement.SessionDecision | producer/nsselection_for_pdu_session.go:40-98 | how a session for an allowed S-NSSAI is decided, by support in the PLMN and the TA only |
| Agreement.MatchedIsAccepted | producer/nsselection_for_registration.go:303-370 | an S-NSSAI allowed by the match is accepted, with the instances listed for it |
| Agreement.MatchedSessionSucceedsExactly | producer/nsselection_for_pdu_session.go:40-116 | end to end: 200, nothing rejected and a listed instance, exactly unless the configured list is empty |
| Agreement.DefaultIsAcceptedExactly | producer/nsselection_for_registration.go:25-87 | one allowed by default is accepted iff the PLMN supports it, and else refused with SNSSAI_NOT_SUPPORTED |
| Agreement.MappedIsAcceptedExactly | producer/nsselection_for_registration.go:203-268 | one allowed in mapping mode is accepted iff PLMN and TA support it, and then with the instances listed for it iff none are configured |
| Agreement.AcceptedSession | producer/nsselection_for_pdu_session.go:100-116 | an accepted session answers 200 with an instance of the list, if there is one |
| Agreement.PanicsExactly | producer/nsselection_for_pdu_session.go:24-31 | a session is accepted iff all its checks pass, in no order; the panic occurs iff it is and the instance list is present and empty |
| Agreement.EmptyListPanics | producer/nsselection_for_pdu_session.go:24-31 | a configuration and a request that panic |
| Agreement.DefaultCanBeRefused | producer/nsselection_for_registration.go:25-87 | an S-NSSAI that registration allows and PDU session selection refuses |
| Agreement.MappedCanBeRefused | producer/nsselection_for_registration.go:203-268 | an S-NSSAI that mapping mode allows and PDU session selection refuses, or rejects in the TA |
| AvailabilityStore.AuthorizeOfAmfFromConfig | util/util.go:293-313 | one answer per entry of the first record, in order; an error iff there is no record |
| AvailabilityStore.AuthorizeExactly | util/util.go:293-313 | one entry per entry of the first record, with its TAI, its supported list and what the first configuration of the TAI restricts |
| AvailabilityStore.Store.Delete | producer/nssaiavailability_store.go:30-49 | removes exactly the first record of nfId; an error iff there is none |
| AvailabilityStore.Store.Write | producer/nssaiavailability_store.go:178-199 | overwrites the first record of nfId or appends one |
| AvailabilityStore.Store.PutAnswer | producer/nssaiavailability_store.go:205-212 | the response loop keeps the authorised entries in order |
| AvailabilityStore.Store.Put | producer/nssaiavailability_store.go:157-215 | succeeds iff the PLMN of every entry is indexed and each of its S-NSSAIs is standard or in the index; the list is unchanged on failure |
| AvailabilityStore.Store.PatchAmf | producer/nssaiavailability_store.go:52-154 | writes record 0 whichever record was hit; each error case, with encoding failures and the partial write of a failed decoding; a success answers one entry per entry of the first record of nfId |
| AvailabilityStore.LookupIsMap | producer/nssaiavailability_store.go:181-188 | first-match look-up is look-up in the map |
| AvailabilityStore.UpsertIsMapUpdate | producer/nssaiavailability_store.go:178-199 | PUT is the map update, on any list |
| AvailabilityStore.DeleteIsMapRemovalExactly | producer/nssaiavailability_store.go:30-49 | DELETE is the map removal iff nfId has at most one record |
| AvailabilityStore.StepKeepsDistinct | producer/nssaiavailability_store.go:30-199 | PUT and DELETE keep nfIds distinct |
| AvailabilityStore.RunRefinesMap | producer/nssaiavailability_store.go:30-215 | every sequential run keeps nfIds distinct and equals the run on a map |
| AvailabilityStore.FallbackExactAfterRun | util/util.go:433-464 | after any run from any list the fallback offers exactly the AMFs of the map that pass iff none is shadowed; always so from distinct nfIds |
| AvailabilityStore.PutResponse | producer/nssaiavailability_store.go:205-212 | one answer per input entry, same TAI, with the supported list of the first input entry for that TAI and what the first configuration of the TAI restricts |
| AvailabilityStore.PatchTouchesOnlyZero | producer/nssaiavailability_store.go:137-139 | PATCH changes no nfId and no record but the first |
| AvailabilityStore.PatchIsMapUpdateExactly | producer/nssaiavailability_store.go:56-139 | a PATCH that comes to decode, successfully or not, is the intended map update iff nfId owns record 0 or nothing was to change |
| AvailabilityStore.FailedPatchChangesExactly | producer/nssaiavailability_store.go:137-143 | a failed PATCH changes the list iff decoding stopped after writing something new to record 0 |
| AvailabilityStore.PatchHitsTheWrongRecord | producer/nssaiavailability_store.go:56-139 | a patch of the second AMF lands on the first |
| InterleavedStore.StepKeepsBound | producer/nssaiavailability_store.go:180-199 | each critical section keeps records + waiting PUTs of an nfId within the number of clients |
| InterleavedStore.RecordsNeverExceedClients | producer/nssaiavailability_store.go:180-199 | the bound over every run of PUTs, PATCHes and DELETEs |
| InterleavedStore.FromInitial | producer/nssaiavailability_store.go:180-199 | the bound for n clients from the empty list; uniqueness for one |
| InterleavedStore.PutUndisturbed | producer/nssaiavailability_store.go:178-199 | the two sections of a PUT in a row do what the sequential PUT does |
| InterleavedStore.PatchUndisturbed | producer/nssaiavailability_store.go:56-139 | so do those of a PATCH |
| InterleavedStore.BoundIsReached | producer/nssaiavailability_store.go:180-199 | for every n a run of n clients that leaves n records of one nfId |
| InterleavedFaults.LoneClientNeverCrashes | producer/nssaiavailability_store.go:56-139 | with at most one client PATCH never indexes an empty list |
| InterleavedFaults.TwoClientsCanCrash | producer/nssaiavailability_store.go:56-139 | from the empty list, with any n >= 2 clients, a run in which it does |
| InterleavedFaults.CrashExactlyWithTwoClients | producer/nssaiavailability_store.go:56-139 | n clients can crash iff n >= 2 |
| InterleavedFaults.BlockedExactlyByCrash | producer/nssaiavailability_store.go:137-139 | some client can take a step iff none has crashed: the lock of a crashed PATCH stays held |
| InterleavedFaults.FallbackBreaksExactlyWithTwoClients | producer/nssaiavailability_store.go:180-199 | n clients can leave records on which reselection and its check disagree iff n >= 2 |
| Subscriptions.Prefix | producer/nssaiavailability_subscription.go:29-46 | the length of the longest prefix that reads 1, 2, 3, .. |
| Subscriptions.GetUnusedSubscriptionId | producer/nssaiavailability_subscription.go:29-46 | the scan returns the numeral of that length plus one, or an error for a non-numeral or exhausted identifiers |
| Subscriptions.SubscriptionStore.Post | producer/nssaiavailability_subscription.go:58-68 | answers with the scan and appends a subscription under its identifier; the list is unchanged on an error |
| Subscriptions.SubscriptionStore.Unsubscribe | producer/nssaiavailability_subscription.go:80-101 | removes the first subscription with the identifier; an error iff there is none |
| Subscriptions.ScanFindsLeastUnused | producer/nssaiavailability_subscription.go:29-46 | on strictly ascending lists the scan answers the numeral of the least unused positive number, and fails iff that exceeds 2^32-1 |
| Subscriptions.NoneLeftExactly | producer/nssaiavailability_subscription.go:36-38 | identifiers run out iff the list begins with 1, 2, .., 4294967295 |
| Subscriptions.NumeralWraps | producer/nssaiavailability_subscription.go:32-36 | an identifier of 64 bits counts by its low 32 bits |
| Subscriptions.DeleteKeepsAscending | producer/nssaiavailability_subscription.go:85-92 | DELETE keeps the list strictly ascending |
| Subscriptions.PostKeepsAscendingExactly | producer/nssaiavailability_subscription.go:58-68 | POST keeps it iff the scan met no gap or the identifiers had run out |
| Subscriptions.SecondPostRepeatsExactly | producer/nssaiavailability_subscription.go:58-68 | on any list, two POSTs in a row answer alike iff the first failed, and with the same error, or met a gap, and with the same identifier |
| Subscriptions.NonNumeralFails | producer/nssaiavailability_subscription.go:29-46 | POST fails for a non-numeral iff one follows the prefix 1, 2, .. below the maximum, and then changes nothing |
| Subscriptions.RunKeepsAscending | producer/nssaiavailability_subscription.go:49-101 | identifiers stay unique over runs whose POSTs meet no gap |
| Subscriptions.RunWithDuplicates | producer/nssaiavailability_subscription.go:29-92 | POST, POST, DELETE 1, POST, POST gives 1 twice |
| ConfigLock.PostBlocksEveryoneExactly | producer/nssaiavailability_subscription.go:55-75 | once POST is in its section, some thread can take a lock step iff the identifiers have run out or the prefix ends at a non-numeral |
| ConfigLock.FirstPostBlocks | producer/nssaiavailability_subscription.go:55-75 | the first POST on an empty list blocks every thread |
| NrfRegistration.NrfClient.StopKeepAliveTimer | nfregistration/nf_registration.go:172-178 | disarms and clears the timer, if set |
| NrfRegistration.NrfClient.StartKeepAliveTimer | nfregistration/nf_registration.go:158-170 | stops the old timer and arms one more, of 60 seconds unless the profile gives a positive number |
| NrfRegistration.NrfClient.DeregisterNF | nfregistration/nf_registration.go:145-156 | is the protocol's two actions in a row, from the service or from termination; stops the timer and makes one call |
| NrfRegistration.NrfClient.HeartbeatNF | nfregistration/nf_registration.go:102-132 | the very actions of the protocol for its answers; its calls; iff keepAliveTimer was set, one more timer, of the seconds the update answered, or those of the second registration, or 60 |
| NrfRegistration.NrfClient.RegisterNF | nfregistration/nf_registration.go:76-97 | the very actions of the protocol for its answers and choices; how often the NRF is asked, that it ends with the first success or cancellation and then frees the mutex, and the timer it leaves |
| NrfProperties.StepKeepsInv | nfregistration/nf_registration.go:36-178 | every action of every goroutine keeps the invariant |
| NrfProperties.RunKeepsInv | nfregistration/nf_registration.go:36-178 | so does every run |
| NrfProperties.HeartbeatNeverDies | nfregistration/nf_registration.go:76-178 | in every reachable state a set keepAliveTimer is armed or its callback is in flight, and can take a step |
| NrfProperties.ChainContinues | nfregistration/nf_registration.go:102-178 | once started, the chain survives every run without DeregisterNF |
| NrfProperties.CompletionStartsChain | nfregistration/nf_registration.go:86-94 | a successful registration leaves exactly its own timer armed, with the right duration |
| NrfProperties.TimersBounded | nfregistration/nf_registration.go:158-178 | at most one timer is armed, it is keepAliveTimer, and timers plus callbacks never exceed the completions |
| NrfProperties.NothingEndsByItself | nfregistration/nf_registration.go:36-97 | the loops end only on termination, and a registration only by success, which arms a timer, or by cancellation |
| NrfProperties.LiveContextIsLatest | nfregistration/nf_registration.go:36-71 | at most one register context is uncancelled, that of the latest non-empty configuration |
| NrfProperties.OnePastTheMutex | nfregistration/nf_registration.go:76-78 | at most one registerNF is past its mutex |
| NrfProperties.StreamIsFaithful | nfregistration/nf_registration.go:48-71 | received plus channel contents is what the poller sent, and no configuration follows itself |
| NrfProperties.RegistrationBetweenDeregistrations | polling/nf_configuration.go:113-130 | the first configuration is not empty, and between two empty ones a registerNF was started |
| NrfProperties.PendingSendCompletesExactly | polling/nf_configuration.go:124-128 | the pending send can complete iff the channel has room or the service has not stopped |
| NrfProperties.StaleWorkNeverReturns | nfregistration/nf_registration.go:48-132 | once no goroutine, timer or callback carries an older configuration, none does before the next receive |
| NrfProperties.DrainedIsSilent | nfregistration/nf_registration.go:64-68 | after a drained empty configuration only deregistrations reach the NRF before the next receive |
| NrfProperties.QuietIsSilent | nfregistration/nf_registration.go:102-156 | from a quiet state only deregistrations reach the NRF without a new configuration |
| NrfProperties.SilentExactlyWhenQuiet | nfregistration/nf_registration.go:76-156 | a registration or heartbeat can still reach the NRF iff the state is not quiet |
| NrfProperties.DeregistrationIsFinalExactly | nfregistration/nf_registration.go:64-68 | until a new configuration is received, the service's DeregisterNF is final iff no registerNF is alive and no heartbeat is past its nil check |
| NrfProperties.RegistrationPrevailsExactly | nfregistration/nf_registration.go:86-132 | the latest registration can be displaced by an older one iff another registerNF or a callback is in flight as it completes |
| NrfTermination.SilentForEverExactly | nfregistration/nf_registration.go:36-156 | a registration or heartbeat can ever again reach the NRF iff work is left, or the service runs and the poller runs or a non-empty configuration is on its way |
| NrfTermination.TerminationIsFinalExactly | service/init.go:158-164 | the DeregisterNF of a termination is final iff no registerNF is alive, no heartbeat is past its nil check, and the service has stopped or will find only empty configurations |
| NrfTermination.TerminationEndsExactly | service/init.go:158-164 | once services are cancelled, both loops can return iff the poller is not stuck sending to a stopped service |
| NrfWitnesses.HeartbeatOutlivesDeregistration | nfregistration/nf_registration.go:102-131 | a heartbeat that updates the NRF and arms a timer after the deregistration |
| NrfWitnesses.CancelledRegistrationStillRegisters | nfregistration/nf_registration.go:80-94 | a cancelled registerNF that registers after the deregistration |
| NrfWitnesses.RegistrationAfterTermination | service/init.go:158-164 | a registration that follows the deregistration of a termination |
| NrfWitnesses.PollerCanWaitForEver | service/init.go:158-164 | a termination after which the poller waits to send for ever |
| NrfWitnesses.StaleConfigurationTakesOver | nfregistration/nf_registration.go:102-132 | a late heartbeat that replaces the timer of a newer registration |
| Poller.NfConfigPoller.HandlePolledPlmnSnssaiConfig | polling/nf_configuration.go:113-130 | keeps PLMN list and index those of the polled configuration; sends iff the PLMN list changed |
| Poller.ConvertPlmnSnssaiList | polling/nf_configuration.go:132-155 | the nested loops build the PLMN list in order and the index of last entries |
| Poller.IndexIsLastEntry | polling/nf_configuration.go:132-155 | the index agrees with a scan for the last entry of the PLMN |
| Poller.SingleCheckIsScan | util/util.go:62-76 | the single check is that scan, or a standard S-NSSAI |
| Poller.ListCheckIsScan | util/util.go:79-101 | the list check is "PLMN configured and every element passes the single check" |
| Poller.StartPollingService | polling/nf_configuration.go:40-70 | over any answers the configuration and its index are those last fetched, or the ones before if every fetch failed, PLMN lists are sent when they change, and the interval is 5, 10, 20, then 40 seconds |
| Poller.SendsDoNotRepeat | polling/nf_configuration.go:113-130 | no PLMN list is sent twice in a row, the initial empty one included |
| Poller.SendsKeepUp | polling/nf_configuration.go:113-130 | the last PLMN list sent is that of the last poll, and each one sent is that of some poll |
| Poller.FailuresExactly | polling/nf_configuration.go:50-68 | the back-off counts the failures since the last success |
| Poller.BackoffExactly | polling/nf_configuration.go:50-68 | 5, 10 and 20 seconds, then always 40 |
| QueryParser.ParseExplodedSnssaiEntries | producer/network_slice_information_document.go:105-141 | the parallel arrays hold the slots, gaps included; the error is that of the first bad slot |
| QueryParser.ParseExplodedSnssaiList | producer/network_slice_information_document.go:86-103 | the slots without their gaps |
| QueryParser.ParseExplodedMappingOfSnssaiList | producer/network_slice_information_document.go:187-220 | the slots of both sides, paired by index |
| QueryParser.ParseExplodedSubscribedSnssaiList | producer/network_slice_information_document.go:143-185 | zips flags and groups with the list that has lost its gaps |
| QueryParser.ZipItem | producer/network_slice_information_document.go:156-181 | one entry of that zip, and whether it is emitted |
| QueryParser.ParseSnssaiExactly | producer/network_slice_information_document.go:41-62 | when two texts are an S-NSSAI, a gap or either error |
| QueryParser.ParseBoolExactly | producer/network_slice_information_document.go:165-172 | which texts are booleans |
| QueryParser.SlotsFailExactly | producer/network_slice_information_document.go:117-138 | the arrays fail with the error of the first bad slot, and only so |
| QueryParser.EarlyEndIsGap | producer/network_slice_information_document.go:197-217 | a side of the mappings that ends early is as good as one with gaps |
| QueryRoundTrip.PrintedSlots | producer/network_slice_information_document.go:105-141 | printed slots come back one by one, gaps included |
| QueryRoundTrip.AllSlotsExactly | producer/network_slice_information_document.go:105-141 | the slots of any two arrays: the longer one counts, and each slot is read by itself |
| QueryRoundTrip.ListRoundTrip | producer/network_slice_information_document.go:41-62 | a printed list comes back with the same keys, over all int32 SSTs, and identical iff no SD is the empty string |
| QueryRoundTrip.MappingRoundTrip | producer/network_slice_information_document.go:187-220 | printed mappings keep serving and home values together across gaps on either side |
| QueryRoundTrip.SubscribedRoundTrip | producer/network_slice_information_document.go:143-185 | subscribed entries without gaps come back identical iff each has at most one group and no empty text |
| QueryAlignment.AlignedExactly | producer/network_slice_information_document.go:143-185 | off the special case of one S-NSSAI with several groups, for any arrays: read as intended if no indication or group lies between a gap and a present slot; and, without a zero S-NSSAI, iff so or an indication is no boolean |
| QueryAlignment.MisalignedDefault | producer/network_slice_information_document.go:144-164 | a default indication after a gap goes to a zero S-NSSAI instead of its own |
| QueryAlignment.ParserReads | producer/network_slice_information_document.go:144-181 | off the special case, the parser reads as if the present S-NSSAIs filled the first slots |
| QueryAlignment.OneEntryExactly | producer/network_slice_information_document.go:172-177 | one S-NSSAI with any indications and groups is one entry iff there is at most one group, no stray indication and none that is no boolean; with more groups one entry per position, each with all groups |
| Decimal.ItoaRoundTrip | producer/network_slice_information_document.go:51-55 | every number of the parser's width survives printing and parsing |
| Decimal.NumeralsExactly | producer/network_slice_information_document.go:51-55 | a numeral is a non-empty text of digits |
| Decimal.LeadingZero | producer/network_slice_information_document.go:51-55 | leading zeros do not count |
| Routes.CanonicalizeRoutePattern | nssaiavailability/routers.go:101-116 | the in-place rewriting gives the canonical pattern and its aliases |
| Routes.SplitJoin | nssaiavailability/routers.go:102-115 | joining and splitting segments is the identity |
| Routes.CanonicalKeepsShape | nssaiavailability/routers.go:101-116 | segment count and every segment: a named parameter in position i becomes :param<i>, all else stays |
| Routes.CanonicalizeIsIdempotent | nssaiavailability/routers.go:101-116 | a second application changes nothing and yields no aliases |
| Routes.RestoreCanonicalize | nssaiavailability/routers.go:101-116 | substituting the aliases back restores the pattern |
| Routes.Context.AddAliases | nssaiavailability/routers.go:123-130 | the loop appends each alias with a non-empty value |
| Routes.AliasesOfRoute | nssaiavailability/routers.go:101-116 | the aliases of a pattern are those of its parameters |
| Routes.CanonicalsOfRoute | nssaiavailability/routers.go:101-116 | the canonical names of a pattern's parameters differ |
| Routes.ServeRoute | nssaiavailability/routers.go:101-133 | canonicalisation, matching, aliases and look-up in a row |
| Routes.ServedIsRead | nssaiavailability/routers.go:101-133 | what a handler reads, from the pattern and a request, is a look-up among the bindings of the pattern's parameters |
| Routes.ReadsItsSegmentExactly | nssaiavailability/routers.go:118-133 | for every pattern and parameter: its original name reads its own segment in every request iff it is canonical or no other parameter has that name, originally or canonically |
| Routes.ReadsFilledSegmentExactly | nssaiavailability/routers.go:118-133 | the same for requests without empty parameters: iff it is canonical, or no other canonical name is like it and no earlier parameter has it |
| Routes.UnclearPattern | nssaiavailability/routers.go:101-133 | in /:param2/:nfId the first parameter reads the segment of the second |

## Left out

- HTTP handlers, gin, logging, metrics, CLI, start-up, TLS and YAML loading: no invariants of their own.
- Transport to the NRF and to the configuration service: answers are parameters, arbitrary in the protocol. The profile that comes with a failed registration may carry a heartbeat timer; a missing profile reads 0.
- JSON patch, JSON encoding and the "DUMMY" rewrite of PATCH: a patch is any function of the original and the target's data, with its failures (status 500, 400 or 409).
- The JSON form of query parameters, TAI and PLMN parsing, NF type checks and the dispatch of NSSelectionGet: they would only add easy members. The printer of the round trips is defined in the model.
- ProblemDetails texts: the status and its cause remain.
- `AuthorizeOfTaListFromConfig` as data: POST never gets its answer, see ConfigLock.
- Aliasing of slices: responses and records are values, so a response does not change when a record it shares does. A missing pointer in the configuration is not modelled.
- Strings are sequences of characters; `len` of a segment counts characters. The width of Go's int is 64 bits.
- The random choice of an instance is any element of the list.
- nil and empty configurations polled: the poller may convert once more for them, with the same result and no send.
- Duration of timers and retries in the protocol: any armed timer may fire and any waiting goroutine may go on at any time. That the poller holds the configuration lock while it sends is not part of the protocol.
- The closing of the channel: the service would leave its loop as it does on termination.
- Interference in the middle of one selection request, such as the unlocked reads at util/util.go:143-159.
- `nsselection/routers.go`: the same canonicalisation, with one static route.
- NrfRegistration.NrfClient.RegisterNF: the choices of its select are given as a finite list, so a run that retries for ever is seen through its prefixes.
- NrfProperties.HeartbeatNeverDies: is about every reachable state; that an armed timer eventually fires is left to the clock.
- Subscriptions.ScanFindsLeastUnused: is about lists whose identifiers are numerals of 1 to 2^32-1 in ascending order; on other lists GetUnusedSubscriptionId says what the scan returns.
