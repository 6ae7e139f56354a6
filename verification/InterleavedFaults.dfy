/** What interleaving can break, and with how many clients: a PATCH that indexes an emptied list, and duplicate records. */
module InterleavedFaults {
  import opened Prelude
  import opened Models
  import opened AmfSelection
  import opened AvailabilityStore
  import opened InterleavedStore

  // ----- PATCH against DELETE

  /** With at most one client, a PATCH between its sections still finds a record to write. */
  ghost predicate PatchIsSafe(s: State) {
    |s.clients| <= 1
    && forall c :: 0 <= c < |s.clients| ==> !s.clients[c].Crashed? && (s.clients[c].Patching? ==> s.l != [])
  }

  lemma {:induction false} LoneClientNeverCrashes(s: State, run: seq<Move>, t: State)
    requires PatchIsSafe(s) && InterleavedStore.Run(s, run, t)
    ensures PatchIsSafe(t)
    decreases |run|
  {
    if run != [] {
      var m :| Next(s, run[0].client, run[0].action, m) && InterleavedStore.Run(m, run[1..], t);
      LoneClientNeverCrashes(m, run[1..], t);
    }
  }

  /** n clients, of which the first is x and the others are idle. */
  function OneBusy(n: nat, x: Client): seq<Client>
    requires n > 0
  {
    [x] + seq(n - 1, _ => Idle)
  }

  lemma BusyUpdate(n: nat, x: Client, y: Client)
    requires n > 0
    ensures OneBusy(n, x)[0 := y] == OneBusy(n, y)
    ensures OneBusy(n, Idle) == Initial(n).clients
    ensures !x.Crashed? ==> forall c :: 0 <= c < n ==> !OneBusy(n, x)[c].Crashed?
  {
  }

  /** A record is put and found by a PATCH. */
  lemma PatchUnderWay(n: nat, nfId: string, data: Data) returns (run: seq<Move>, x: Client)
    requires n > 0
    ensures x.Patching? && InterleavedStore.Run(Initial(n), run, State([AmfConfig(nfId, data)], OneBusy(n, x)))
  {
    var l := [AmfConfig(nfId, data)];
    x := Patching(Overwrite(data)(data).decode);
    var y := Appending(nfId, data);
    BusyUpdate(n, Idle, y);
    BusyUpdate(n, y, Idle);
    BusyUpdate(n, Idle, x);
    assert [] + l == l;
    RunAppend(Initial(n), [], State([], OneBusy(n, Idle)), Move(0, PutLookup(nfId, data)), State([], OneBusy(n, y)));
    run := [] + [Move(0, PutLookup(nfId, data))];
    RunAppend(Initial(n), run, State([], OneBusy(n, y)), Move(0, PutAppend), State(l, OneBusy(n, Idle)));
    run := run + [Move(0, PutAppend)];
    RunAppend(Initial(n), run, State(l, OneBusy(n, Idle)), Move(0, PatchLookup(nfId, Overwrite(data))), State(l, OneBusy(n, x)));
    run := run + [Move(0, PatchLookup(nfId, Overwrite(data)))];
  }

  /** A DELETE of another client between the two sections of a PATCH makes it index an empty list. */
  lemma TwoClientsCanCrash(n: nat, nfId: string, data: Data) returns (run: seq<Move>)
    requires n >= 2
    ensures InterleavedStore.Run(Initial(n), run, State([], OneBusy(n, Crashed)))
  {
    var x;
    run, x := PatchUnderWay(n, nfId, data);
    BusyUpdate(n, x, Crashed);
    assert OneBusy(n, x)[1].Idle?;
    RunAppend(Initial(n), run, State([AmfConfig(nfId, data)], OneBusy(n, x)), Move(1, Delete(nfId)), State([], OneBusy(n, x)));
    run := run + [Move(1, Delete(nfId))];
    RunAppend(Initial(n), run, State([], OneBusy(n, x)), Move(0, PatchWrite), State([], OneBusy(n, Crashed)));
    run := run + [Move(0, PatchWrite)];
  }

  ghost predicate Reaches(n: nat, t: State) {
    exists run :: InterleavedStore.Run(Initial(n), run, t)
  }

  /** Some run of n clients from an empty list crashes one of them. */
  ghost predicate CanCrash(n: nat) {
    exists t :: Reaches(n, t) && !LockIsFree(t)
  }

  lemma CrashExactlyWithTwoClients(n: nat)
    ensures CanCrash(n) <==> n >= 2
  {
    if n >= 2 {
      var run := TwoClientsCanCrash(n, "", []);
      assert Reaches(n, State([], OneBusy(n, Crashed)));
      assert OneBusy(n, Crashed)[0].Crashed?;
    } else if t :| Reaches(n, t) && !LockIsFree(t) {
      var run :| InterleavedStore.Run(Initial(n), run, t);
      LoneClientNeverCrashes(Initial(n), run, t);
    }
  }

  /** A crash blocks every client for good, and nothing else does. */
  lemma BlockedExactlyByCrash(s: State)
    requires s.clients != []
    ensures (exists c, a, t :: Next(s, c, a, t)) <==> LockIsFree(s)
  {
    if LockIsFree(s) {
      match s.clients[0] {
        case Idle => assert Next(s, 0, Delete(""), s.(l := RemoveFirst(s.l, "")));
        case Appending(nfId, data) => assert Next(s, 0, PutAppend, State(s.l + [AmfConfig(nfId, data)], s.clients[0 := Idle]));
        case Patching(decode) =>
          var t := if s.l == [] then s.(clients := s.clients[0 := Crashed])
                   else State(s.l[0 := AmfConfig(s.l[0].nfId, decode(s.l[0].data).written)], s.clients[0 := Idle]);
          assert Next(s, 0, PatchWrite, t);
      }
    }
  }

  // ----- Duplicates against AMF reselection

  /** Some run of n clients leaves records on which the fallback of AMF reselection and its check disagree. */
  ghost predicate FallbackCanBreak(n: nat) {
    exists t, cfg: Configuration, allowed, tai :: Reaches(n, t) && cfg.amfList == t.l && !NoneShadowed(cfg, allowed, tai)
  }

  lemma OneRecordIsDistinct(l: seq<AmfConfig>, i: nat, j: nat)
    requires i < j < |l| && l[i].nfId == l[j].nfId
    ensures Records(l, l[i].nfId) >= 2
  {
    if i > 0 {
      OneRecordIsDistinct(l[1..], i - 1, j - 1);
    } else {
      RecordsAt(l[1..], j - 1);
    }
  }

  lemma {:induction false} RecordsAt(l: seq<AmfConfig>, i: nat)
    requires i < |l|
    ensures Records(l, l[i].nfId) >= 1
  {
    if i > 0 {
      RecordsAt(l[1..], i - 1);
    }
  }

  /** n clients that put the same nfId, one of them with data: an empty record comes to stand before the covering one. */
  lemma ShadowedRun(n: nat, nfId: string, data: Data) returns (run: seq<Move>)
    requires n >= 2
    ensures InterleavedStore.Run(Initial(n), run, State([AmfConfig(nfId, []), AmfConfig(nfId, data)], Initial(n).clients))
  {
    var a, b, idle := Appending(nfId, []), Appending(nfId, data), Initial(n).clients;
    var s1 := State([], idle[0 := a]);
    var s2 := State([], idle[0 := a][1 := b]);
    var s3 := State([AmfConfig(nfId, [])], idle[1 := b]);
    assert idle[0 := a][1 := b][0 := Idle] == idle[1 := b] && idle[1 := b][1 := Idle] == idle;
    RunAppend(Initial(n), [], Initial(n), Move(0, PutLookup(nfId, [])), s1);
    run := [] + [Move(0, PutLookup(nfId, []))];
    RunAppend(Initial(n), run, s1, Move(1, PutLookup(nfId, data)), s2);
    run := run + [Move(1, PutLookup(nfId, data))];
    RunAppend(Initial(n), run, s2, Move(0, PutAppend), s3);
    run := run + [Move(0, PutAppend)];
    assert s3.l + [AmfConfig(nfId, data)] == [AmfConfig(nfId, []), AmfConfig(nfId, data)];
    RunAppend(Initial(n), run, s3, Move(1, PutAppend), State([AmfConfig(nfId, []), AmfConfig(nfId, data)], idle));
    run := run + [Move(1, PutAppend)];
  }

  lemma FallbackBreaksExactlyWithTwoClients(n: nat)
    ensures FallbackCanBreak(n) <==> n >= 2
  {
    if n >= 2 {
      var s, tai := Snssai(1, None), Tai(PlmnId("", ""), "", None);
      var data := [SupportedNssaiAvailabilityData(tai, [s])];
      var run := ShadowedRun(n, "", data);
      var t := State([AmfConfig("", []), AmfConfig("", data)], Initial(n).clients);
      assert Reaches(n, t);
      DuplicateRecordBreaksFallback(Configuration(map[], [], [], t.l, [], []), "", tai, s);
    } else if t, cfg: Configuration, allowed, tai :| Reaches(n, t) && cfg.amfList == t.l && !NoneShadowed(cfg, allowed, tai) {
      LoneClientKeepsDistinct(n, t);
      DistinctRecordsAgree(cfg, allowed, tai);
    }
  }

  /** With at most one client, nfIds stay distinct. */
  lemma LoneClientKeepsDistinct(n: nat, t: State)
    requires n <= 1 && Reaches(n, t)
    ensures DistinctIds(t.l)
  {
    var run :| InterleavedStore.Run(Initial(n), run, t);
    forall i, j | 0 <= i < j < |t.l| ensures t.l[i].nfId != t.l[j].nfId {
      FromInitial(n, run, t, t.l[i].nfId);
      if t.l[i].nfId == t.l[j].nfId {
        OneRecordIsDistinct(t.l, i, j);
      }
    }
  }
}
