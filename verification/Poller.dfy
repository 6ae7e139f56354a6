/** The configuration poller: what it sends to the registration service and the PLMN index it builds. */
module Poller {
  import opened Prelude
  import opened Models
  import opened Util

  datatype PlmnSnssai = PlmnSnssai(plmnId: PlmnId, sNssaiList: seq<Snssai>)

  function PlmnsOf(config: seq<PlmnSnssai>): (plmns: seq<PlmnId>)
    ensures |plmns| == |config| && forall i :: 0 <= i < |config| ==> plmns[i] == config[i].plmnId
  {
    Map((e: PlmnSnssai) => e.plmnId, config)
  }

  function KeysOf(nssai: seq<Snssai>): set<SnssaiKey> {
    set s | s in nssai :: SnssaiToKey(s)
  }

  /** The conversion of a configuration: a later entry of a PLMN replaces an earlier one. */
  function Index(config: seq<PlmnSnssai>): SupportedNssaiInPlmn {
    if config == [] then map[]
    else
      var last := config[|config| - 1];
      Index(config[..|config| - 1])[last.plmnId := KeysOf(last.sNssaiList)]
  }

  /** The last entry of a PLMN, found by scanning the configuration. */
  function LastEntry(config: seq<PlmnSnssai>, plmn: PlmnId): Option<PlmnSnssai> {
    if config == [] then None
    else if config[|config| - 1].plmnId == plmn then Some(config[|config| - 1])
    else LastEntry(config[..|config| - 1], plmn)
  }

  class NfConfigPoller {
    var currentPlmnSnssaiConfig: seq<PlmnSnssai>
    var currentPlmnConfig: seq<PlmnId>
    var supportedNssaiInPlmnList: SupportedNssaiInPlmn

    /** The PLMN list and the index are those of the current configuration. */
    ghost predicate Valid()
      reads this
    {
      && currentPlmnConfig == PlmnsOf(currentPlmnSnssaiConfig)
      && supportedNssaiInPlmnList == Index(currentPlmnSnssaiConfig)
    }

    constructor ()
      ensures Valid() && currentPlmnSnssaiConfig == []
    {
      currentPlmnSnssaiConfig, currentPlmnConfig, supportedNssaiInPlmnList := [], [], map[];
    }

    /** Handle a polled configuration; sent is what goes on the channel. */
    method HandlePolledPlmnSnssaiConfig(polled: seq<PlmnSnssai>) returns (sent: Option<seq<PlmnId>>)
      requires Valid()
      modifies this
      ensures Valid() && currentPlmnSnssaiConfig == polled
      ensures sent == if PlmnsOf(polled) == old(currentPlmnConfig) then None else Some(PlmnsOf(polled))
    {
      if currentPlmnSnssaiConfig == polled {
        return None;
      }
      currentPlmnSnssaiConfig := polled;
      var newPlmnConfig, newSupportedNssai := ConvertPlmnSnssaiList(polled);
      sent := None;
      if currentPlmnConfig != newPlmnConfig {
        currentPlmnConfig := newPlmnConfig;
        sent := Some(currentPlmnConfig);
      }
      supportedNssaiInPlmnList := newSupportedNssai;
    }
  }

  method ConvertPlmnSnssaiList(config: seq<PlmnSnssai>) returns (plmns: seq<PlmnId>, index: SupportedNssaiInPlmn)
    ensures plmns == PlmnsOf(config)
    ensures index == Index(config)
  {
    plmns, index := [], map[];
    for i := 0 to |config|
      invariant plmns == PlmnsOf(config[..i]) && index == Index(config[..i])
    {
      assert config[..i + 1][..i] == config[..i];
      var newSnssaiSet := {};
      var list := config[i].sNssaiList;
      for j := 0 to |list|
        invariant newSnssaiSet == KeysOf(list[..j])
      {
        assert list[..j + 1] == list[..j] + [list[j]];
        newSnssaiSet := newSnssaiSet + {SnssaiToKey(list[j])};
      }
      assert list[..|list|] == list;
      plmns := plmns + [config[i].plmnId];
      index := index[config[i].plmnId := newSnssaiSet];
    }
    assert config[..|config|] == config;
  }

  /** The index agrees with scanning the configuration for the last entry of the PLMN. */
  lemma {:induction false} IndexIsLastEntry(config: seq<PlmnSnssai>, plmn: PlmnId)
    ensures plmn in Index(config) <==> LastEntry(config, plmn).Some?
    ensures plmn in Index(config) ==> Index(config)[plmn] == KeysOf(LastEntry(config, plmn).value.sNssaiList)
  {
    if config != [] {
      IndexIsLastEntry(config[..|config| - 1], plmn);
    }
  }

  /** Under the index of config, the single check is the scan, or a standard S-NSSAI. */
  lemma SingleCheckIsScan(cfg: Configuration, config: seq<PlmnSnssai>, s: Snssai, plmn: PlmnId)
    requires cfg.supportedNssaiInPlmnList == Index(config)
    ensures CheckSupportedSnssaiInPlmn(cfg, s, plmn) <==>
      CheckStandardSnssai(s)
      || (LastEntry(config, plmn).Some? && CheckSnssaiInNssai(s, LastEntry(config, plmn).value.sNssaiList))
  {
    IndexIsLastEntry(config, plmn);
    var entry := LastEntry(config, plmn);
    if entry.Some? && SnssaiToKey(s) in KeysOf(entry.value.sNssaiList) {
      var x :| x in entry.value.sNssaiList && SnssaiToKey(x) == SnssaiToKey(s);
      var i :| 0 <= i < |entry.value.sNssaiList| && entry.value.sNssaiList[i] == x;
    }
  }

  /** The list check is the single check of every element, and the PLMN must be configured. */
  lemma ListCheckIsScan(cfg: Configuration, config: seq<PlmnSnssai>, nssai: seq<Snssai>, plmn: PlmnId)
    requires cfg.supportedNssaiInPlmnList == Index(config)
    ensures CheckSupportedNssaiInPlmn(cfg, nssai, plmn) <==>
      LastEntry(config, plmn).Some? && forall i :: 0 <= i < |nssai| ==> CheckSupportedSnssaiInPlmn(cfg, nssai[i], plmn)
  {
    IndexIsLastEntry(config, plmn);
  }

  // ----- Runs of the poller

  /** What a run of polls sends, when the PLMN list was plmns before it. */
  function Sends(plmns: seq<PlmnId>, polls: seq<seq<PlmnSnssai>>): seq<seq<PlmnId>>
    decreases |polls|
  {
    if polls == [] then []
    else
      var next := PlmnsOf(polls[0]);
      (if next == plmns then [] else [next]) + Sends(next, polls[1..])
  }

  // Intervals in seconds.
  const INITIAL_POLLING_INTERVAL := 5
  const POLLING_MAX_BACKOFF := 40
  const POLLING_BACKOFF_FACTOR := 2

  function Fetched(answers: seq<Option<seq<PlmnSnssai>>>): seq<seq<PlmnSnssai>> {
    FilterMap((a: Option<seq<PlmnSnssai>>) => a, answers)
  }

  /** The number of failed fetches at the end. */
  function Failures(answers: seq<Option<seq<PlmnSnssai>>>): nat {
    if answers == [] || answers[|answers| - 1].Some? then 0 else 1 + Failures(answers[..|answers| - 1])
  }

  /** 5, 10, 20, then 40 seconds. */
  function Backoff(failures: nat): nat {
    [5, 10, 20, 40][if failures < 3 then failures else 3]
  }

  /**
   * The polling loop over the answers of its fetches, of which None is an error. The index is that of the last
   * configuration fetched, PLMN lists are sent without repetition, and the interval backs off with the failures.
   */
  method StartPollingService(poller: NfConfigPoller, answers: seq<Option<seq<PlmnSnssai>>>)
    returns (sends: seq<seq<PlmnId>>, interval: nat)
    requires poller.Valid()
    modifies poller
    ensures poller.Valid()
    ensures poller.currentPlmnSnssaiConfig ==
      if Fetched(answers) == [] then old(poller.currentPlmnSnssaiConfig) else Fetched(answers)[|Fetched(answers)| - 1]
    ensures sends == Sends(old(poller.currentPlmnConfig), Fetched(answers))
    ensures interval == Backoff(Failures(answers))
  {
    interval := INITIAL_POLLING_INTERVAL;
    sends := [];
    ghost var config := poller.currentPlmnSnssaiConfig;
    for i := 0 to |answers|
      invariant poller.Valid() && Polled(config, answers[..i], poller.currentPlmnSnssaiConfig, sends, interval)
    {
      ghost var was, before, wait := poller.currentPlmnSnssaiConfig, sends, interval;
      var sent;
      sent, interval := HandleAnswer(poller, answers[i], interval);
      if sent.Some? {
        sends := sends + [sent.value];
      }
      PolledNext(config, answers, i, was, before, wait, poller.currentPlmnSnssaiConfig, sends, interval);
    }
    assert answers[..|answers|] == answers;
  }

  /** Where the loop stands after some answers, when it began with config. */
  ghost predicate Polled(config: seq<PlmnSnssai>, answers: seq<Option<seq<PlmnSnssai>>>,
                         now: seq<PlmnSnssai>, sends: seq<seq<PlmnId>>, interval: nat) {
    var fetched := Fetched(answers);
    && now == (if fetched == [] then config else fetched[|fetched| - 1])
    && sends == Sends(PlmnsOf(config), fetched)
    && interval == Backoff(Failures(answers))
  }

  lemma PolledNext(config: seq<PlmnSnssai>, answers: seq<Option<seq<PlmnSnssai>>>, i: nat,
                   was: seq<PlmnSnssai>, before: seq<seq<PlmnId>>, wait: nat,
                   now: seq<PlmnSnssai>, sends: seq<seq<PlmnId>>, interval: nat)
    requires i < |answers| && Polled(config, answers[..i], was, before, wait)
    requires answers[i].None? ==>
      now == was && sends == before && interval == MinDuration(wait * POLLING_BACKOFF_FACTOR, POLLING_MAX_BACKOFF)
    requires answers[i].Some? ==>
      && now == answers[i].value && interval == INITIAL_POLLING_INTERVAL
      && sends == if PlmnsOf(now) == PlmnsOf(was) then before else before + [PlmnsOf(now)]
    ensures Polled(config, answers[..i + 1], now, sends, interval)
  {
    AnswersSnoc(answers, i);
    BackoffNext(Failures(answers[..i]));
    if answers[i].Some? {
      SendsSnoc(PlmnsOf(config), Fetched(answers[..i]), answers[i].value);
    }
  }

  /** 5, 10 and 20 seconds, then always 40. */
  lemma BackoffExactly(failures: nat)
    ensures Backoff(0) == 5 && Backoff(1) == 10 && Backoff(2) == 20 && (failures >= 3 ==> Backoff(failures) == 40)
  {
  }

  lemma BackoffNext(failures: nat)
    ensures Backoff(0) == INITIAL_POLLING_INTERVAL
    ensures MinDuration(Backoff(failures) * POLLING_BACKOFF_FACTOR, POLLING_MAX_BACKOFF) == Backoff(failures + 1)
  {
  }

  /** The PLMN list held after some polls, if it was plmns before. */
  function Held(plmns: seq<PlmnId>, polls: seq<seq<PlmnSnssai>>): seq<PlmnId> {
    if polls == [] then plmns else PlmnsOf(polls[|polls| - 1])
  }

  /** One turn of the loop: what is sent, and how long to wait before the next. */
  method HandleAnswer(poller: NfConfigPoller, answer: Option<seq<PlmnSnssai>>, wait: nat)
    returns (sent: Option<seq<PlmnId>>, interval: nat)
    requires poller.Valid()
    modifies poller
    ensures poller.Valid()
    ensures answer.None? ==>
      && sent.None? && interval == MinDuration(wait * POLLING_BACKOFF_FACTOR, POLLING_MAX_BACKOFF)
      && poller.currentPlmnSnssaiConfig == old(poller.currentPlmnSnssaiConfig)
    ensures answer.Some? ==>
      && interval == INITIAL_POLLING_INTERVAL && poller.currentPlmnSnssaiConfig == answer.value
      && sent == if PlmnsOf(answer.value) == old(poller.currentPlmnConfig) then None else Some(PlmnsOf(answer.value))
    ensures poller.currentPlmnConfig == PlmnsOf(poller.currentPlmnSnssaiConfig)
  {
    if answer.None? {
      interval := MinDuration(wait * POLLING_BACKOFF_FACTOR, POLLING_MAX_BACKOFF);
      return None, interval;
    }
    interval := INITIAL_POLLING_INTERVAL;
    sent := poller.HandlePolledPlmnSnssaiConfig(answer.value);
  }

  lemma AnswersSnoc(answers: seq<Option<seq<PlmnSnssai>>>, i: nat)
    requires i < |answers|
    ensures Fetched(answers[..i + 1]) ==
      if answers[i].None? then Fetched(answers[..i]) else Fetched(answers[..i]) + [answers[i].value]
    ensures Failures(answers[..i + 1]) == if answers[i].Some? then 0 else 1 + Failures(answers[..i])
  {
    assert answers[..i + 1][..i] == answers[..i];
    assert Fetched(answers[..i]) + [] == Fetched(answers[..i]);
  }

  function MinDuration(a: nat, b: nat): nat {
    if a < b then a else b
  }

  lemma SendsNext(plmns: seq<PlmnId>, poll: seq<PlmnSnssai>, polls: seq<seq<PlmnSnssai>>)
    ensures Sends(plmns, [poll] + polls) == (if PlmnsOf(poll) == plmns then [] else [PlmnsOf(poll)]) + Sends(PlmnsOf(poll), polls)
  {
    assert ([poll] + polls)[1..] == polls;
  }

  lemma {:induction false} SendsSnoc(plmns: seq<PlmnId>, polls: seq<seq<PlmnSnssai>>, poll: seq<PlmnSnssai>)
    ensures Sends(plmns, polls + [poll]) ==
      if PlmnsOf(poll) == Held(plmns, polls) then Sends(plmns, polls) else Sends(plmns, polls) + [PlmnsOf(poll)]
    decreases |polls|
  {
    if polls == [] {
      SendsNext(plmns, poll, []);
      assert [] + [poll] == [poll] + [];
    } else {
      var next, tail := polls[0], polls[1..];
      SendsSnoc(PlmnsOf(next), tail, poll);
      SendsNext(plmns, next, tail);
      SendsNext(plmns, next, tail + [poll]);
      assert polls == [next] + tail && polls + [poll] == [next] + (tail + [poll]);
      var first := if PlmnsOf(next) == plmns then [] else [PlmnsOf(next)];
      var last := if PlmnsOf(poll) == Held(plmns, polls) then [] else [PlmnsOf(poll)];
      assert first + (Sends(PlmnsOf(next), tail) + last) == (first + Sends(PlmnsOf(next), tail)) + last;
    }
  }

  /** The last list sent, or the one held before, is that of the last poll; each one sent is that of some poll. */
  lemma {:induction false} SendsKeepUp(plmns: seq<PlmnId>, polls: seq<seq<PlmnSnssai>>)
    ensures var all := [plmns] + Sends(plmns, polls);
      && all[|all| - 1] == Held(plmns, polls)
      && forall sent :: sent in Sends(plmns, polls) ==> exists i :: 0 <= i < |polls| && sent == PlmnsOf(polls[i])
    decreases |polls|
  {
    if polls != [] {
      var next, tail := PlmnsOf(polls[0]), polls[1..];
      SendsKeepUp(next, tail);
      SendsNext(plmns, polls[0], tail);
      assert polls == [polls[0]] + tail;
      forall sent | sent in Sends(plmns, polls) ensures exists i :: 0 <= i < |polls| && sent == PlmnsOf(polls[i]) {
        if sent in Sends(next, tail) {
          var i :| 0 <= i < |tail| && sent == PlmnsOf(tail[i]);
          assert polls[i + 1] == tail[i];
        } else {
          assert sent == PlmnsOf(polls[0]);
        }
      }
    }
  }

  /** How many fetches have failed since the last success. */
  lemma {:induction false} FailuresExactly(answers: seq<Option<seq<PlmnSnssai>>>)
    ensures var k := Failures(answers);
      && k <= |answers| && (forall i :: |answers| - k <= i < |answers| ==> answers[i].None?)
      && (k < |answers| ==> answers[|answers| - 1 - k].Some?)
  {
    if answers != [] && answers[|answers| - 1].None? {
      FailuresExactly(answers[..|answers| - 1]);
    }
  }

  /** No PLMN list is sent twice in a row, and none equals the list held before it. */
  lemma {:induction false} SendsDoNotRepeat(plmns: seq<PlmnId>, polls: seq<seq<PlmnSnssai>>)
    ensures var all := [plmns] + Sends(plmns, polls); forall i :: 0 <= i < |all| - 1 ==> all[i] != all[i + 1]
    decreases |polls|
  {
    if polls != [] {
      var next := PlmnsOf(polls[0]);
      SendsDoNotRepeat(next, polls[1..]);
      if next == plmns {
        assert Sends(plmns, polls) == Sends(next, polls[1..]);
      } else {
        assert [plmns] + Sends(plmns, polls) == [plmns] + ([next] + Sends(next, polls[1..]));
      }
    }
  }
}
