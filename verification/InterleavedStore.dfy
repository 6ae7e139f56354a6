/**
 * PUT, PATCH and DELETE under interleaving. PUT releases the lock between its look-up and its append, PATCH between
 * its look-up and its write; every step below is one critical section. A PATCH that indexes an emptied list panics
 * between Lock and Unlock, so the lock stays held.
 */
module InterleavedStore {
  import opened Models
  import opened Util
  import opened AvailabilityStore

  datatype Client =
    | Idle
    | Appending(nfId: string, data: Data)   // a PUT whose look-up missed
    | Patching(decode: Data -> Decoded)     // a PATCH that has still to write
    | Crashed                               // index out of range on an emptied list, with the lock held

  datatype State = State(l: seq<AmfConfig>, clients: seq<Client>)

  datatype Action =
    | PutLookup(nfId: string, data: Data)
    | PutAppend
    | Delete(nfId: string)
    | PatchLookup(nfId: string, patch: Patch)
    | PatchWrite

  /** No crashed client holds the lock. */
  predicate LockIsFree(s: State) {
    forall c :: 0 <= c < |s.clients| ==> !s.clients[c].Crashed?
  }

  /** Client c takes action a. */
  ghost predicate Next(s: State, c: nat, a: Action, t: State) {
    c < |s.clients| && LockIsFree(s) &&
    match a
    case PutLookup(nfId, data) =>
      s.clients[c].Idle?
      && t == if FindAmf(s.l, nfId).Some? then s.(l := Upsert(s.l, nfId, data))
              else s.(clients := s.clients[c := Appending(nfId, data)])
    case PutAppend =>
      s.clients[c].Appending?
      && t == State(s.l + [AmfConfig(s.clients[c].nfId, s.clients[c].data)], s.clients[c := Idle])
    case Delete(nfId) =>
      s.clients[c].Idle? && t == s.(l := RemoveFirst(s.l, nfId))
    case PatchLookup(nfId, patch) =>
      s.clients[c].Idle?
      && t == if FindAmf(s.l, nfId).None? || !patch(FindAmf(s.l, nfId).value.data).Modified? then s
              else s.(clients := s.clients[c := Patching(patch(FindAmf(s.l, nfId).value.data).decode)])
    case PatchWrite =>
      s.clients[c].Patching?
      && t == if s.l == [] then s.(clients := s.clients[c := Crashed])
              else State(s.l[0 := AmfConfig(s.l[0].nfId, s.clients[c].decode(s.l[0].data).written)], s.clients[c := Idle])
  }

  datatype Move = Move(client: nat, action: Action)

  /** run leads from s to t. */
  ghost predicate Run(s: State, run: seq<Move>, t: State)
    decreases |run|
  {
    if run == [] then s == t
    else exists m :: Next(s, run[0].client, run[0].action, m) && Run(m, run[1..], t)
  }

  function Initial(clients: nat): State {
    State([], seq(clients, _ => Idle))
  }

  function Weight(c: Client, nfId: string): nat {
    if c.Appending? && c.nfId == nfId then 1 else 0
  }

  /** The PUTs for nfId that wait between look-up and append. */
  function Waiting(clients: seq<Client>, nfId: string): nat {
    if clients == [] then 0 else Waiting(clients[1..], nfId) + Weight(clients[0], nfId)
  }

  lemma {:induction false} WaitingUpdate(clients: seq<Client>, c: nat, x: Client, nfId: string)
    requires c < |clients|
    ensures Waiting(clients[c := x], nfId) == Waiting(clients, nfId) - Weight(clients[c], nfId) + Weight(x, nfId)
    ensures Waiting(clients, nfId) + 1 - Weight(clients[c], nfId) <= |clients|
  {
    if c > 0 {
      WaitingUpdate(clients[1..], c - 1, x, nfId);
      assert clients[c := x][1..] == clients[1..][c - 1 := x];
    } else {
      assert clients[c := x][1..] == clients[1..];
      WaitingBound(clients[1..], nfId);
    }
  }

  lemma {:induction false} WaitingBound(clients: seq<Client>, nfId: string)
    ensures Waiting(clients, nfId) <= |clients|
  {
    if clients != [] {
      WaitingBound(clients[1..], nfId);
    }
  }

  lemma {:induction false} RecordsAppend(l: seq<AmfConfig>, a: AmfConfig, nfId: string)
    ensures Records(l + [a], nfId) == Records(l, nfId) + if a.nfId == nfId then 1 else 0
  {
    if l == [] {
      assert l + [a] == [a];
    } else {
      RecordsAppend(l[1..], a, nfId);
      assert (l + [a])[1..] == l[1..] + [a];
    }
  }

  lemma {:induction false} RecordsRemove(l: seq<AmfConfig>, gone: string, nfId: string)
    ensures Records(RemoveFirst(l, gone), nfId) <= Records(l, nfId)
  {
    if l != [] && l[0].nfId != gone {
      RecordsRemove(l[1..], gone, nfId);
    }
  }

  lemma {:induction false} RecordsRewrite(l: seq<AmfConfig>, i: nat, data: Data, nfId: string)
    requires i < |l|
    ensures Records(l[i := AmfConfig(l[i].nfId, data)], nfId) == Records(l, nfId)
  {
    if i > 0 {
      RecordsRewrite(l[1..], i - 1, data, nfId);
      assert l[i := AmfConfig(l[i].nfId, data)][1..] == l[1..][i - 1 := AmfConfig(l[i].nfId, data)];
    }
  }

  ghost predicate Bounded(s: State, nfId: string) {
    Records(s.l, nfId) + Waiting(s.clients, nfId) <= |s.clients|
  }

  lemma StepKeepsBound(s: State, c: nat, a: Action, t: State, nfId: string)
    requires Bounded(s, nfId) && Next(s, c, a, t)
    ensures Bounded(t, nfId) && |t.clients| == |s.clients|
  {
    match a {
      case PutLookup(id, data) =>
        if FindAmf(s.l, id).Some? {
          var i := IndexOf(s.l, id);
          UpsertAt(s.l, id, data, i);
          RecordsRewrite(s.l, i, data, nfId);
        } else {
          WaitingUpdate(s.clients, c, Appending(id, data), nfId);
          if id == nfId {
            RecordsFound(s.l, id);
            LookupIsMap(s.l, id);
          }
        }
      case PutAppend =>
        WaitingUpdate(s.clients, c, Idle, nfId);
        RecordsAppend(s.l, AmfConfig(s.clients[c].nfId, s.clients[c].data), nfId);
      case Delete(id) => RecordsRemove(s.l, id, nfId);
      case PatchLookup(id, patch) =>
        if FindAmf(s.l, id).Some? && patch(FindAmf(s.l, id).value.data).Modified? {
          WaitingUpdate(s.clients, c, Patching(patch(FindAmf(s.l, id).value.data).decode), nfId);
        }
      case PatchWrite =>
        WaitingUpdate(s.clients, c, Idle, nfId);
        WaitingUpdate(s.clients, c, Crashed, nfId);
        if s.l != [] {
          RecordsRewrite(s.l, 0, t.l[0].data, nfId);
          assert t.l == s.l[0 := AmfConfig(s.l[0].nfId, t.l[0].data)];
        }
    }
  }

  /**
   * In every run of N clients, the records of an nfId and the PUTs waiting to append one never exceed N together.
   * For one client this is uniqueness.
   */
  lemma {:induction false} RecordsNeverExceedClients(s: State, run: seq<Move>, t: State, nfId: string)
    requires Bounded(s, nfId) && Run(s, run, t)
    ensures Bounded(t, nfId) && |t.clients| == |s.clients|
    decreases |run|
  {
    if run != [] {
      var m :| Next(s, run[0].client, run[0].action, m) && Run(m, run[1..], t);
      StepKeepsBound(s, run[0].client, run[0].action, m, nfId);
      RecordsNeverExceedClients(m, run[1..], t, nfId);
    }
  }

  lemma FromInitial(n: nat, run: seq<Move>, t: State, nfId: string)
    requires Run(Initial(n), run, t)
    ensures Records(t.l, nfId) + Waiting(t.clients, nfId) <= n
  {
    NoneWaiting(n, nfId);
    RecordsNeverExceedClients(Initial(n), run, t, nfId);
  }

  lemma {:induction false} NoneWaiting(n: nat, nfId: string)
    ensures Waiting(Initial(n).clients, nfId) == 0
  {
    if n > 0 {
      NoneWaiting(n - 1, nfId);
      assert Initial(n).clients[1..] == Initial(n - 1).clients;
    }
  }

  // ----- Without interference

  /** A PUT whose two sections come in a row does what the sequential one does. */
  lemma PutUndisturbed(s: State, c: nat, nfId: string, data: Data, m: State, t: State)
    requires Next(s, c, PutLookup(nfId, data), m)
    requires (m.clients[c].Appending? ==> Next(m, c, PutAppend, t)) && (!m.clients[c].Appending? ==> t == m)
    ensures t == s.(l := Upsert(s.l, nfId, data))
  {
    var i := IndexOf(s.l, nfId);
    UpsertAt(s.l, nfId, data, i);
    FindAmfAt(s.l, nfId, i);
    if m.clients[c].Appending? {
      assert s.clients[c := Appending(nfId, data)][c := Idle] == s.clients;
    }
  }

  /** A DELETE has but one section, */
  lemma DeleteUndisturbed(s: State, c: nat, nfId: string, t: State)
    requires Next(s, c, Delete(nfId), t)
    ensures t == s.(l := RemoveFirst(s.l, nfId))
  {
  }

  /** and a PATCH, too, does without interference what the sequential one does. */
  lemma PatchUndisturbed(s: State, c: nat, nfId: string, patch: Patch, m: State, t: State)
    requires Next(s, c, PatchLookup(nfId, patch), m)
    requires (m.clients[c].Patching? ==> Next(m, c, PatchWrite, t)) && (!m.clients[c].Patching? ==> t == m)
    ensures t == s.(l := PatchZero(s.l, nfId, patch))
  {
    if m.clients[c].Patching? {
      assert s.l != [];
      assert s.clients[c := m.clients[c]][c := Idle] == s.clients;
    }
  }

  // ----- The bound is reached

  lemma {:induction false} RunAppend(s: State, run: seq<Move>, m: State, move: Move, t: State)
    requires Run(s, run, m) && Next(m, move.client, move.action, t)
    ensures Run(s, run + [move], t)
    decreases |run|
  {
    if run == [] {
      assert [] + [move] == [move];
      assert Next(s, [move][0].client, [move][0].action, t) && Run(t, [move][1..], t);
    } else {
      var x :| Next(s, run[0].client, run[0].action, x) && Run(x, run[1..], m);
      RunAppend(x, run[1..], m, move, t);
      assert (run + [move])[1..] == run[1..] + [move];
    }
  }

  /** n clients of which the first k wait to append nfId. */
  function KWaiting(n: nat, k: nat, nfId: string, data: Data): seq<Client> {
    seq(n, i => if i < k then Appending(nfId, data) else Idle)
  }

  lemma {:induction false} AllLookUp(n: nat, k: nat, nfId: string, data: Data) returns (run: seq<Move>)
    requires k <= n
    ensures Run(Initial(n), run, State([], KWaiting(n, k, nfId, data)))
  {
    if k == 0 {
      run := [];
      assert KWaiting(n, 0, nfId, data) == Initial(n).clients;
    } else {
      run := AllLookUp(n, k - 1, nfId, data);
      var m := State([], KWaiting(n, k - 1, nfId, data));
      var t := State([], KWaiting(n, k, nfId, data));
      assert m.clients[k - 1 := Appending(nfId, data)] == t.clients;
      RunAppend(Initial(n), run, m, Move(k - 1, PutLookup(nfId, data)), t);
      run := run + [Move(k - 1, PutLookup(nfId, data))];
    }
  }

  lemma {:induction false} ThenAppend(n: nat, k: nat, nfId: string, data: Data) returns (run: seq<Move>)
    requires k <= n
    ensures Run(Initial(n), run, State(seq(n - k, _ => AmfConfig(nfId, data)), KWaiting(n, k, nfId, data)))
    decreases n - k
  {
    if k == n {
      run := AllLookUp(n, n, nfId, data);
      assert State([], KWaiting(n, n, nfId, data)) == State(seq(n - k, _ => AmfConfig(nfId, data)), KWaiting(n, k, nfId, data));
    } else {
      run := ThenAppend(n, k + 1, nfId, data);
      var m := State(seq(n - (k + 1), _ => AmfConfig(nfId, data)), KWaiting(n, k + 1, nfId, data));
      var t := State(seq(n - k, _ => AmfConfig(nfId, data)), KWaiting(n, k, nfId, data));
      assert m.clients[k := Idle] == t.clients && m.l + [AmfConfig(nfId, data)] == t.l;
      RunAppend(Initial(n), run, m, Move(k, PutAppend), t);
      run := run + [Move(k, PutAppend)];
    }
  }

  lemma {:induction false} RecordsOfCopies(n: nat, nfId: string, data: Data)
    ensures Records(seq(n, _ => AmfConfig(nfId, data)), nfId) == n
  {
    if n > 0 {
      RecordsOfCopies(n - 1, nfId, data);
      assert seq(n, _ => AmfConfig(nfId, data))[1..] == seq(n - 1, _ => AmfConfig(nfId, data));
    }
  }

  /** The bound is tight: n concurrent PUTs of one nfId can leave n records of it, so two clients can duplicate it. */
  lemma BoundIsReached(n: nat, nfId: string, data: Data) returns (run: seq<Move>, t: State)
    ensures Run(Initial(n), run, t) && Records(t.l, nfId) == n && t.clients == Initial(n).clients
  {
    run := ThenAppend(n, 0, nfId, data);
    t := State(seq(n, _ => AmfConfig(nfId, data)), KWaiting(n, 0, nfId, data));
    assert t.clients == Initial(n).clients;
    RecordsOfCopies(n, nfId, data);
  }
}
