/**
 * The readers-writer lock on the configuration. POST holds it for writing when it asks for it again to read
 * (AuthorizeOfTaListFromConfig), and Go's lock is not reentrant.
 */
module ConfigLock {
  import opened Prelude
  import opened Subscriptions

  datatype LockOp = Lock | Unlock | RLock | RUnlock

  /** One thread per index; the list is what the thread has still to do. */
  datatype State = State(writer: Option<nat>, readers: nat, todo: seq<seq<LockOp>>)

  /** Thread k takes its next lock operation, if it is not blocked. */
  predicate Next(s: State, k: nat, t: State) {
    && k < |s.todo| && s.todo[k] != []
    && t.todo == s.todo[k := s.todo[k][1..]]
    && match s.todo[k][0]
       case Lock => s.writer.None? && s.readers == 0 && t.writer == Some(k) && t.readers == 0
       case Unlock => s.writer == Some(k) && t.writer.None? && t.readers == s.readers
       case RLock => s.writer.None? && t.writer.None? && t.readers == s.readers + 1
       case RUnlock => s.readers > 0 && t.writer == s.writer && t.readers == s.readers - 1
  }

  /** The lock operations of POST on a subscription list: the nested read lock is reached once the scan has answered. */
  function PostScript(subs: seq<Subscription>): seq<LockOp> {
    if ScanAnswer(subs).Success? then [Lock, RLock, RUnlock, Unlock] else [Lock, Unlock]
  }

  /**
   * When POST has entered its critical section, some thread can still take a lock step exactly when the identifiers
   * have run out or the list goes on, after its prefix 1, 2, .., with a non-numeral. Otherwise POST waits for itself,
   * and no reader or writer of the configuration ever proceeds.
   */
  lemma PostBlocksEveryoneExactly(s: State, k: nat, subs: seq<Subscription>, t: State)
    requires k < |s.todo| && s.todo[k] == PostScript(subs) && Next(s, k, t)
    ensures (exists j: nat, u :: Next(t, j, u)) <==>
      Prefix(subs) >= 4294967295
      || (Prefix(subs) < |subs| && IdValue(subs[Prefix(subs)].subscriptionId).None?)
  {
    if ScanAnswer(subs).Failure? {
      assert t.todo[k] == [Unlock] && [Unlock][1..] == [];
      var u := State(None, 0, t.todo[k := []]);
      assert Next(t, k, u);
    } else {
      forall j: nat, u ensures !Next(t, j, u) {
        assert t.todo[k][0] == RLock;
      }
    }
  }

  /** On the empty list, as after start-up, the first POST blocks every thread for good. */
  lemma FirstPostBlocks(others: seq<seq<LockOp>>)
    ensures var s := State(None, 0, [PostScript([])] + others);
      var t := State(Some(0), 0, [PostScript([])[1..]] + others);
      Next(s, 0, t) && !exists j: nat, u :: Next(t, j, u)
  {
    var s, t := State(None, 0, [PostScript([])] + others), State(Some(0), 0, [PostScript([])[1..]] + others);
    assert t.todo == s.todo[0 := s.todo[0][1..]];
    PostBlocksEveryoneExactly(s, 0, [], t);
  }
}
