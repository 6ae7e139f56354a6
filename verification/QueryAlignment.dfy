/**
 * Where the subscribed list goes wrong: the parser zips default indications and groups with S-NSSAIs that have already
 * lost their gaps.
 */
module QueryAlignment {
  import opened Prelude
  import opened Models
  import opened QueryParser
  import opened QueryRoundTrip

  // ----- The intended reading, slot by slot

  /** What a slot holds beside its S-NSSAI. */
  datatype Tail = Tail(flag: Option<bool>, groups: seq<string>)

  const NO_TAIL := Tail(None, [])

  function TailAt(tails: seq<Tail>, i: nat): Tail {
    if i < |tails| then tails[i] else NO_TAIL
  }

  /** The entry of one slot; None if it has no field. */
  function EntryAt(slot: Option<Snssai>, tail: Tail): Option<SubscribedSnssai> {
    if slot.None? && tail == NO_TAIL then None else Some(SubscribedSnssai(OrZero(slot), tail.flag, tail.groups))
  }

  function EntriesOf(slots: seq<Option<Snssai>>, tails: seq<Tail>, i: nat): seq<SubscribedSnssai> {
    Optional(EntryAt(SlotAt(slots, i), TailAt(tails, i)))
  }

  /** The entries of the first n slots. */
  function Entries(slots: seq<Option<Snssai>>, tails: seq<Tail>, n: nat): seq<SubscribedSnssai> {
    if n == 0 then [] else Entries(slots, tails, n - 1) + EntriesOf(slots, tails, n - 1)
  }

  /** No slot with a tail lies between a gap and a present slot, either of them included. */
  predicate Separated(slots: seq<Option<Snssai>>, tails: seq<Tail>) {
    forall j, i, k :: 0 <= j <= i <= k < |slots| && slots[j].None? && slots[k].Some? ==> TailAt(tails, i) == NO_TAIL
  }

  // ----- The texts of the tails

  predicate AllBools(defaults: seq<string>) {
    forall i :: 0 <= i < |defaults| && defaults[i] != "" ==> ParseBool(defaults[i]).Some?
  }

  function TailOf(defaults: seq<string>, groups: seq<string>, i: nat): Tail {
    Tail(ParseBool(At(defaults, i)), if At(groups, i) == "" then [] else [At(groups, i)])
  }

  function Tails(defaults: seq<string>, groups: seq<string>): (tails: seq<Tail>)
    ensures |tails| == Max(|defaults|, |groups|)
    ensures forall i :: 0 <= i < |tails| ==> tails[i] == TailOf(defaults, groups, i)
  {
    seq(Max(|defaults|, |groups|), i requires i >= 0 => TailOf(defaults, groups, i))
  }

  lemma TailsAt(defaults: seq<string>, groups: seq<string>, i: nat)
    ensures TailAt(Tails(defaults, groups), i) == TailOf(defaults, groups, i)
  {
    assert ParseBool("") == None;
  }

  /** A slot has no tail exactly when both of its texts are empty. */
  lemma NoTailExactly(defaults: seq<string>, groups: seq<string>, i: nat)
    requires AllBools(defaults)
    ensures TailAt(Tails(defaults, groups), i) == NO_TAIL <==> At(defaults, i) == "" && At(groups, i) == ""
  {
    TailsAt(defaults, groups, i);
    assert ParseBool("") == None;
  }

  /** What the three arrays say. */
  function Intended(slots: seq<Option<Snssai>>, defaults: seq<string>, groups: seq<string>)
    : Result<seq<SubscribedSnssai>, ParseError>
  {
    if AllBools(defaults) then
      Success(Entries(slots, Tails(defaults, groups), Max(|slots|, Max(|defaults|, |groups|))))
    else Failure(NotABool)
  }

  // ----- The S-NSSAIs before a slot

  function Before(slots: seq<Option<Snssai>>, n: nat): seq<Snssai> {
    if n == 0 then [] else Before(slots, n - 1) + Optional(SlotAt(slots, n - 1))
  }

  lemma {:induction false} BeforeIsCompact(slots: seq<Option<Snssai>>, n: nat)
    ensures Before(slots, n) == Compact(slots[..if n < |slots| then n else |slots|])
  {
    if 0 < n <= |slots| {
      BeforeIsCompact(slots, n - 1);
      FilterMapSnoc((slot: Option<Snssai>) => slot, slots, n - 1);
    } else if n > 0 {
      BeforeIsCompact(slots, n - 1);
      assert Before(slots, n - 1) + [] == Before(slots, n - 1);
    }
  }

  lemma BeforeAll(slots: seq<Option<Snssai>>, n: nat)
    requires n >= |slots|
    ensures Before(slots, n) == Compact(slots)
  {
    BeforeIsCompact(slots, n);
    assert slots[..|slots|] == slots;
  }

  lemma {:induction false} BeforeGrows(slots: seq<Option<Snssai>>, i: nat, n: nat)
    requires i <= n
    ensures Before(slots, i) <= Before(slots, n)
  {
    if i < n {
      BeforeGrows(slots, i, n - 1);
    }
  }

  /** The S-NSSAIs before slot i begin the compacted list, and slot i goes on with it. */
  lemma BeforeSlot(slots: seq<Option<Snssai>>, i: nat)
    ensures Before(slots, i) <= Compact(slots) && |Before(slots, i)| <= i
    ensures SlotAt(slots, i).Some? ==>
      |Before(slots, i)| < |Compact(slots)| && Compact(slots)[|Before(slots, i)|] == SlotAt(slots, i).value
  {
    BeforeIsPrefix(slots, i);
    BeforeIsPrefix(slots, i + 1);
    BeforeLength(slots, i);
  }

  lemma BeforeIsPrefix(slots: seq<Option<Snssai>>, i: nat)
    ensures Before(slots, i) <= Compact(slots)
  {
    var n := Max(i, |slots|);
    BeforeAll(slots, n);
    BeforeGrows(slots, i, n);
  }

  lemma {:induction false} BeforeLength(slots: seq<Option<Snssai>>, i: nat)
    ensures |Before(slots, i)| <= i
    ensures |Before(slots, i)| == i <==> forall j :: 0 <= j < i ==> SlotAt(slots, j).Some?
  {
    if i > 0 {
      BeforeLength(slots, i - 1);
    }
  }

  /** As many S-NSSAIs come before slot i as there are in all, exactly when no slot from i on is present. */
  lemma {:induction false} NoneAfter(slots: seq<Option<Snssai>>, i: nat)
    ensures |Before(slots, i)| == |Compact(slots)| <==> forall k :: i <= k < |slots| ==> slots[k].None?
    decreases |slots| - i
  {
    if i < |slots| {
      NoneAfter(slots, i + 1);
      BeforeSlot(slots, i);
      BeforeSlot(slots, i + 1);
    } else {
      BeforeAll(slots, i);
    }
  }

  /** The compacted list as slots has no gaps before its end. */
  lemma BeforePresent(c: seq<Snssai>, i: nat)
    ensures Before(Present(c), i) == c[..if i < |c| then i else |c|]
  {
    BeforeIsCompact(Present(c), i);
    var m := if i < |c| then i else |c|;
    CompactOfPresent(c[..m]);
    assert Present(c)[..m] == Present(c[..m]);
  }

  lemma {:induction false} CompactOfPresent(c: seq<Snssai>)
    ensures Compact(Present(c)) == c
  {
    if c != [] {
      var n := |c| - 1;
      CompactOfPresent(c[..n]);
      assert Present(c)[..n] == Present(c[..n]);
    }
  }

  // ----- The parser's reading

  lemma ZippedEntry(c: seq<Snssai>, defaults: seq<string>, groups: seq<string>, i: nat)
    requires (|c| != 1 || |groups| <= 1) && AllBools(defaults)
    ensures SubscribedAt(c, defaults, groups, i) ==
      Success(EntryAt(SlotAt(Present(c), i), TailAt(Tails(defaults, groups), i)))
  {
    NoTailExactly(defaults, groups, i);
    TailsAt(defaults, groups, i);
  }

  lemma {:induction false} ZippedEntries(c: seq<Snssai>, defaults: seq<string>, groups: seq<string>, n: nat)
    requires (|c| != 1 || |groups| <= 1) && AllBools(defaults)
    ensures Zipped(c, defaults, groups, n) == Success(Entries(Present(c), Tails(defaults, groups), n))
  {
    if n > 0 {
      ZippedEntries(c, defaults, groups, n - 1);
      ZippedEntry(c, defaults, groups, n - 1);
    }
  }

  lemma {:induction false} BadBoolFails(c: seq<Snssai>, defaults: seq<string>, groups: seq<string>, i: nat, n: nat)
    requires i < n && At(defaults, i) != "" && ParseBool(At(defaults, i)).None?
    ensures Zipped(c, defaults, groups, n) == Failure(NotABool)
  {
    if i < n - 1 {
      BadBoolFails(c, defaults, groups, i, n - 1);
    } else {
      OnlyBoolsFail(c, defaults, groups, n - 1);
    }
  }

  lemma {:induction false} OnlyBoolsFail(c: seq<Snssai>, defaults: seq<string>, groups: seq<string>, n: nat)
    ensures Zipped(c, defaults, groups, n).Failure? ==> Zipped(c, defaults, groups, n) == Failure(NotABool)
  {
    if n > 0 {
      OnlyBoolsFail(c, defaults, groups, n - 1);
    }
  }

  /** An indication that is no boolean fails the whole list. */
  lemma BadBool(c: seq<Snssai>, defaults: seq<string>, groups: seq<string>)
    requires !AllBools(defaults)
    ensures ZipAll(c, defaults, groups) == Failure(NotABool)
  {
    var i :| 0 <= i < |defaults| && defaults[i] != "" && ParseBool(defaults[i]).None?;
    BadBoolFails(c, defaults, groups, i, Max(|c|, Max(|defaults|, |groups|)));
  }

  lemma {:induction false} EntriesEnd(slots: seq<Option<Snssai>>, tails: seq<Tail>, m: nat, n: nat)
    requires |slots| <= m <= n && |tails| <= m
    ensures Entries(slots, tails, n) == Entries(slots, tails, m)
  {
    if m < n {
      EntriesEnd(slots, tails, m, n - 1);
    }
  }

  /** Off the special case, the parser reads the compacted list as if its S-NSSAIs filled the first slots. */
  lemma ParserReads(slots: seq<Option<Snssai>>, defaults: seq<string>, groups: seq<string>)
    requires (|Compact(slots)| != 1 || |groups| <= 1) && AllBools(defaults)
    ensures ZipAll(Compact(slots), defaults, groups) ==
      Success(Entries(Present(Compact(slots)), Tails(defaults, groups), Max(|slots|, Max(|defaults|, |groups|))))
  {
    var c := Compact(slots);
    var m := Max(|c|, Max(|defaults|, |groups|));
    BeforeAll(slots, |slots|);
    BeforeLength(slots, |slots|);
    ZippedEntries(c, defaults, groups, m);
    EntriesEnd(Present(c), Tails(defaults, groups), m, Max(|slots|, Max(|defaults|, |groups|)));
  }

  // ----- Separated arrays are read as intended

  function Bare(c: seq<Snssai>): seq<SubscribedSnssai> {
    Map((s: Snssai) => SubscribedSnssai(s, None, []), c)
  }

  function Least(a: nat, b: nat): nat {
    if a < b then a else b
  }

  /** Up to slot i the parser is ahead by the S-NSSAIs that the gaps before i have let move up. */
  predicate AheadBy(slots: seq<Option<Snssai>>, tails: seq<Tail>, i: nat) {
    var c, p := Compact(slots), |Before(slots, i)|;
    && p <= Least(i, |c|)
    && Entries(Present(c), tails, i) == Entries(slots, tails, i) + Bare(c[p..Least(i, |c|)])
  }

  lemma BareSplit(es: seq<SubscribedSnssai>, c: seq<Snssai>, p: nat, q: nat, r: nat)
    requires p <= q <= r <= |c|
    ensures (es + Bare(c[p..q])) + Bare(c[q..r]) == es + Bare(c[p..r])
  {
    assert c[p..q] + c[q..r] == c[p..r];
  }

  lemma BareEntry(slots: seq<Option<Snssai>>, tails: seq<Tail>, i: nat)
    requires TailAt(tails, i) == NO_TAIL
    ensures Entries(slots, tails, i + 1) == Entries(slots, tails, i) + Bare(Optional(SlotAt(slots, i)))
  {
  }

  /** Slot i holds the next S-NSSAI of the compacted list, or none. */
  lemma BeforeNext(slots: seq<Option<Snssai>>, i: nat)
    ensures var c, p, q := Compact(slots), |Before(slots, i)|, |Before(slots, i + 1)|;
      p <= q <= |c| && c[p..q] == Optional(SlotAt(slots, i))
  {
    BeforeSlot(slots, i);
    BeforeSlot(slots, i + 1);
  }

  /** A slot without tail: each reading goes on with a bare S-NSSAI, if it has one there. */
  lemma BareStep(slots: seq<Option<Snssai>>, tails: seq<Tail>, i: nat)
    requires AheadBy(slots, tails, i) && TailAt(tails, i) == NO_TAIL
    ensures AheadBy(slots, tails, i + 1)
  {
    var c, p, q := Compact(slots), |Before(slots, i)|, |Before(slots, i + 1)|;
    BeforeNext(slots, i);
    BeforeSlot(slots, i + 1);
    BareEntry(slots, tails, i);
    BareEntry(Present(c), tails, i);
    PresentNext(c, i);
    BareSplit(Entries(slots, tails, i), c, p, Least(i, |c|), Least(i + 1, |c|));
    BareSplit(Entries(slots, tails, i), c, p, q, Least(i + 1, |c|));
  }

  lemma PresentNext(c: seq<Snssai>, i: nat)
    ensures Optional(SlotAt(Present(c), i)) == c[Least(i, |c|)..Least(i + 1, |c|)]
  {
  }

  /** In separated arrays, at a slot with a tail, all S-NSSAIs have gone before, or none is missing. */
  lemma TailStands(slots: seq<Option<Snssai>>, tails: seq<Tail>, i: nat)
    requires TailAt(tails, i) != NO_TAIL && Separated(slots, tails)
    ensures var c, p, q := Compact(slots), |Before(slots, i)|, |Before(slots, i + 1)|;
      && SlotAt(Present(c), i) == SlotAt(slots, i)
      && p == Least(i, |c|) && q == Least(i + 1, |c|)
  {
    BeforeSlot(slots, i);
    BeforeSlot(slots, i + 1);
    BeforeLength(slots, i + 1);
    NoneAfter(slots, i);
    if k :| i <= k < |slots| && slots[k].Some? {
      forall j | 0 <= j < i + 1 ensures SlotAt(slots, j).Some? {
        assert slots[j].Some?;
      }
    }
  }

  /** A slot with a tail in separated arrays: both readings have the same S-NSSAI there, or none. */
  lemma TailStep(slots: seq<Option<Snssai>>, tails: seq<Tail>, i: nat)
    requires AheadBy(slots, tails, i) && TailAt(tails, i) != NO_TAIL && Separated(slots, tails)
    ensures AheadBy(slots, tails, i + 1)
  {
    TailStands(slots, tails, i);
    var now, next := Entries(slots, tails, i), Entries(slots, tails, i + 1);
    assert now + [] == now && next + [] == next;
  }

  lemma {:induction false} SeparatedIsAhead(slots: seq<Option<Snssai>>, tails: seq<Tail>, i: nat)
    requires Separated(slots, tails)
    ensures AheadBy(slots, tails, i)
  {
    if i == 0 {
      NoneIsAhead(slots, tails);
    } else {
      SeparatedIsAhead(slots, tails, i - 1);
      AheadStep(slots, tails, i - 1);
    }
  }

  lemma NoneIsAhead(slots: seq<Option<Snssai>>, tails: seq<Tail>)
    ensures AheadBy(slots, tails, 0)
  {
  }

  lemma AheadStep(slots: seq<Option<Snssai>>, tails: seq<Tail>, i: nat)
    requires Separated(slots, tails) && AheadBy(slots, tails, i)
    ensures AheadBy(slots, tails, i + 1)
  {
    if TailAt(tails, i) != NO_TAIL {
      TailStep(slots, tails, i);
    } else {
      BareStep(slots, tails, i);
    }
  }

  lemma SeparatedIsAligned(slots: seq<Option<Snssai>>, tails: seq<Tail>, n: nat)
    requires Separated(slots, tails) && n >= |slots|
    ensures Entries(Present(Compact(slots)), tails, n) == Entries(slots, tails, n)
  {
    SeparatedIsAhead(slots, tails, n);
    BeforeAll(slots, n);
    var all := Entries(slots, tails, n);
    assert all + [] == all;
  }

  // ----- Others are not

  predicate IsTailed(e: SubscribedSnssai) {
    e.defaultIndication.Some? || e.subscribedNsSrgList != []
  }

  predicate AllBare(es: seq<SubscribedSnssai>) {
    forall i :: 0 <= i < |es| ==> !IsTailed(es[i])
  }

  lemma TailedEntry(slot: Option<Snssai>, tail: Tail)
    ensures tail != NO_TAIL ==> EntryAt(slot, tail).Some? && IsTailed(EntryAt(slot, tail).value)
    ensures tail == NO_TAIL ==> AllBare(Optional(EntryAt(slot, tail)))
  {
  }

  /** The last tailed entry of a list marks where it stands. */
  lemma CutAtTail(a: seq<SubscribedSnssai>, x: SubscribedSnssai, xs: seq<SubscribedSnssai>,
                     b: seq<SubscribedSnssai>, y: SubscribedSnssai, ys: seq<SubscribedSnssai>)
    requires a + [x] + xs == b + [y] + ys && IsTailed(x) && IsTailed(y) && AllBare(xs) && AllBare(ys)
    ensures a == b && x == y
  {
    var all := a + [x] + xs;
    assert all[|a|] == x && all[|b|] == y;
    assert |a| == |b|;
    assert all[..|a|] == a && all[..|b|] == b;
  }

  /** If two readings of the same tails agree in the end, they agree at every slot with a tail and before it. */
  lemma {:induction false} TailsMatch(s: seq<Option<Snssai>>, t: seq<Option<Snssai>>, tails: seq<Tail>,
                                      n: nat, xs: seq<SubscribedSnssai>, ys: seq<SubscribedSnssai>, i: nat)
    requires AllBare(xs) && AllBare(ys) && i < n && TailAt(tails, i) != NO_TAIL
    requires Entries(s, tails, n) + xs == Entries(t, tails, n) + ys
    ensures Entries(s, tails, i) == Entries(t, tails, i)
    ensures OrZero(SlotAt(s, i)) == OrZero(SlotAt(t, i))
  {
    if TailAt(tails, n - 1) != NO_TAIL {
      MatchLastTail(s, t, tails, n - 1, xs, ys);
      if i < n - 1 {
        TailsMatch(s, t, tails, n - 1, [], [], i);
      }
    } else {
      MoveLastBare(s, t, tails, n - 1, xs, ys);
      TailsMatch(s, t, tails, n - 1, EntriesOf(s, tails, n - 1) + xs,
                 EntriesOf(t, tails, n - 1) + ys, i);
    }
  }

  lemma MoveLastBare(s: seq<Option<Snssai>>, t: seq<Option<Snssai>>, tails: seq<Tail>,
                     i: nat, xs: seq<SubscribedSnssai>, ys: seq<SubscribedSnssai>)
    requires AllBare(xs) && AllBare(ys) && TailAt(tails, i) == NO_TAIL
    requires Entries(s, tails, i + 1) + xs == Entries(t, tails, i + 1) + ys
    ensures AllBare(EntriesOf(s, tails, i) + xs) && AllBare(EntriesOf(t, tails, i) + ys)
    ensures Entries(s, tails, i) + (EntriesOf(s, tails, i) + xs)
            == Entries(t, tails, i) + (EntriesOf(t, tails, i) + ys)
  {
    TailedEntry(SlotAt(s, i), TailAt(tails, i));
    TailedEntry(SlotAt(t, i), TailAt(tails, i));
    Regrouped(Entries(s, tails, i), EntriesOf(s, tails, i), xs);
    Regrouped(Entries(t, tails, i), EntriesOf(t, tails, i), ys);
  }

  lemma Regrouped(a: seq<SubscribedSnssai>, b: seq<SubscribedSnssai>, c: seq<SubscribedSnssai>)
    ensures (a + b) + c == a + (b + c)
  {
  }

  lemma MatchLastTail(s: seq<Option<Snssai>>, t: seq<Option<Snssai>>, tails: seq<Tail>,
                      i: nat, xs: seq<SubscribedSnssai>, ys: seq<SubscribedSnssai>)
    requires AllBare(xs) && AllBare(ys) && TailAt(tails, i) != NO_TAIL
    requires Entries(s, tails, i + 1) + xs == Entries(t, tails, i + 1) + ys
    ensures Entries(s, tails, i) == Entries(t, tails, i)
    ensures Entries(s, tails, i) + [] == Entries(t, tails, i) + []
    ensures OrZero(SlotAt(s, i)) == OrZero(SlotAt(t, i))
  {
    TailedEntry(SlotAt(s, i), TailAt(tails, i));
    TailedEntry(SlotAt(t, i), TailAt(tails, i));
    var x := EntryAt(SlotAt(s, i), TailAt(tails, i)).value;
    var y := EntryAt(SlotAt(t, i), TailAt(tails, i)).value;
    CutAtTail(Entries(s, tails, i), x, xs, Entries(t, tails, i), y, ys);
  }

  /** The entries with an S-NSSAI that is not the zero one. */
  function NonZero(es: seq<SubscribedSnssai>): nat {
    if es == [] then 0
    else NonZero(es[..|es| - 1]) + if es[|es| - 1].subscribedSnssai != ZERO_SNSSAI then 1 else 0
  }

  lemma {:induction false} EntriesCount(slots: seq<Option<Snssai>>, tails: seq<Tail>, n: nat)
    requires Some(ZERO_SNSSAI) !in slots
    ensures NonZero(Entries(slots, tails, n)) == |Before(slots, n)|
  {
    if n > 0 {
      EntriesCount(slots, tails, n - 1);
      NonZeroNext(Entries(slots, tails, n - 1),
                  EntryAt(SlotAt(slots, n - 1), TailAt(tails, n - 1)));
    }
  }

  lemma NonZeroNext(es: seq<SubscribedSnssai>, e: Option<SubscribedSnssai>)
    ensures NonZero(es + Optional(e)) ==
      NonZero(es) + if e.Some? && e.value.subscribedSnssai != ZERO_SNSSAI then 1 else 0
  {
    if e.Some? {
      assert (es + [e.value])[..|es|] == es;
    } else {
      assert es + [] == es;
    }
  }

  /** Where the two readings agree, as many S-NSSAIs stand before a slot with a tail as the compacted list has there. */
  lemma AgreementCounts(slots: seq<Option<Snssai>>, tails: seq<Tail>, n: nat, i: nat)
    requires Some(ZERO_SNSSAI) !in slots && i < n && TailAt(tails, i) != NO_TAIL
    requires Entries(Present(Compact(slots)), tails, n) == Entries(slots, tails, n)
    ensures |Before(slots, i)| == Least(i, |Compact(slots)|)
    ensures i < |Compact(slots)| ==> SlotAt(slots, i).Some?
  {
    var c := Compact(slots);
    TailsMatch(Present(c), slots, tails, n, [], [], i);
    ZeroNotKept(slots);
    EntriesCount(Present(c), tails, i);
    EntriesCount(slots, tails, i);
    BeforePresent(c, i);
    if i < |c| {
      assert Present(c)[i] in Present(c);
    }
  }

  /** There, a present slot from the tail on means that there is no gap up to it. */
  lemma AgreementAtTail(slots: seq<Option<Snssai>>, tails: seq<Tail>, n: nat, i: nat)
    requires Some(ZERO_SNSSAI) !in slots && i < n && TailAt(tails, i) != NO_TAIL
    requires Entries(Present(Compact(slots)), tails, n) == Entries(slots, tails, n)
    ensures (exists k :: i <= k < |slots| && slots[k].Some?) ==> forall j :: 0 <= j <= i ==> SlotAt(slots, j).Some?
  {
    AgreementCounts(slots, tails, n, i);
    NoneAfter(slots, i);
    BeforeSlot(slots, i);
    BeforeLength(slots, i);
  }

  lemma MisalignedShows(slots: seq<Option<Snssai>>, tails: seq<Tail>, n: nat)
    requires Some(ZERO_SNSSAI) !in slots && !Separated(slots, tails) && n >= |slots|
    ensures Entries(Present(Compact(slots)), tails, n) != Entries(slots, tails, n)
  {
    var j, i, k :| 0 <= j <= i <= k < |slots| && slots[j].None? && slots[k].Some? && TailAt(tails, i) != NO_TAIL;
    assert SlotAt(slots, j).None?;
    if Entries(Present(Compact(slots)), tails, n) == Entries(slots, tails, n) {
      AgreementAtTail(slots, tails, n, i);
    }
  }

  lemma ZeroNotKept(slots: seq<Option<Snssai>>)
    requires Some(ZERO_SNSSAI) !in slots
    ensures Some(ZERO_SNSSAI) !in Present(Compact(slots))
  {
    FilterMapMember((slot: Option<Snssai>) => slot, slots, ZERO_SNSSAI);
  }

  /** No text stands between a gap and a present slot, either of them included. */
  predicate TextsSeparated(slots: seq<Option<Snssai>>, defaults: seq<string>, groups: seq<string>) {
    forall j, i, k :: 0 <= j <= i <= k < |slots| && slots[j].None? && slots[k].Some? ==>
      At(defaults, i) == "" && At(groups, i) == ""
  }

  lemma TextsAreTails(slots: seq<Option<Snssai>>, defaults: seq<string>, groups: seq<string>)
    requires AllBools(defaults)
    ensures TextsSeparated(slots, defaults, groups) <==> Separated(slots, Tails(defaults, groups))
  {
    forall i: nat ensures TailAt(Tails(defaults, groups), i) == NO_TAIL <==> At(defaults, i) == "" && At(groups, i) == "" {
      NoTailExactly(defaults, groups, i);
    }
  }

  /**
   * Off the special case of one S-NSSAI with several groups, the arrays are read as intended if no default indication
   * or group lies between a gap and a present slot, and, when no S-NSSAI is the zero one that a gap reads as, exactly
   * then, or if an indication that is no boolean fails the list anyway.
   */
  lemma AlignedExactly(slots: seq<Option<Snssai>>, defaults: seq<string>, groups: seq<string>)
    requires |Compact(slots)| != 1 || |groups| <= 1
    ensures var aligned := ZipAll(Compact(slots), defaults, groups) == Intended(slots, defaults, groups);
      && (TextsSeparated(slots, defaults, groups) || !AllBools(defaults) ==> aligned)
      && (Some(ZERO_SNSSAI) !in slots ==> (aligned <==> TextsSeparated(slots, defaults, groups) || !AllBools(defaults)))
  {
    var n, tails := Max(|slots|, Max(|defaults|, |groups|)), Tails(defaults, groups);
    if !AllBools(defaults) {
      BadBool(Compact(slots), defaults, groups);
    } else {
      ParserReads(slots, defaults, groups);
      TextsAreTails(slots, defaults, groups);
      if Separated(slots, tails) {
        SeparatedIsAligned(slots, tails, n);
      } else if Some(ZERO_SNSSAI) !in slots {
        MisalignedShows(slots, tails, n);
      }
    }
  }

  /** A gap, then a default S-NSSAI: its indication goes to a zero S-NSSAI. */
  lemma MisalignedDefault(s: Snssai)
    ensures ZipAll(Compact([None, Some(s)]), ["", "true"], [])
            == Success([SubscribedSnssai(s, None, []), SubscribedSnssai(ZERO_SNSSAI, Some(true), [])])
  {
    var slots: seq<Option<Snssai>> := [None, Some(s)];
    var defaults := ["", "true"];
    CompactAfterGap(s);
    DefaultAfterNone();
    ParserReads(slots, defaults, []);
    TwoEntries(s, Tails(defaults, []));
  }

  lemma CompactAfterGap(s: Snssai)
    ensures Compact([None, Some(s)]) == [s]
  {
    var slots: seq<Option<Snssai>> := [None, Some(s)];
    BeforeAll(slots, 2);
    assert Before(slots, 0) == [] && Before(slots, 1) == [] && Before(slots, 2) == [s];
  }

  lemma DefaultAfterNone()
    ensures AllBools(["", "true"])
    ensures Tails(["", "true"], []) == [NO_TAIL, Tail(Some(true), [])]
  {
    var defaults := ["", "true"];
    assert ParseBool("") == None && ParseBool("true") == Some(true);
    assert At(defaults, 0) == "" && At(defaults, 1) == "true";
  }

  lemma {:induction false} TwoEntries(s: Snssai, tails: seq<Tail>)
    requires |tails| == 2 && tails[0] == NO_TAIL && tails[1] == Tail(Some(true), [])
    ensures Entries(Present([s]), tails, 2)
            == [SubscribedSnssai(s, None, []), SubscribedSnssai(ZERO_SNSSAI, Some(true), [])]
  {
    assert Entries(Present([s]), tails, 0) == [];
    assert Entries(Present([s]), tails, 1) == [SubscribedSnssai(s, None, [])];
  }

  // ----- One S-NSSAI with its groups

  /** What position i gives when there are several groups: all of them. */
  function GroupedEntry(s: Snssai, defaults: seq<string>, groups: seq<string>, i: nat): SubscribedSnssai {
    SubscribedSnssai(if i == 0 then s else ZERO_SNSSAI, ParseBool(At(defaults, i)), groups)
  }

  function GroupedEntries(s: Snssai, defaults: seq<string>, groups: seq<string>, n: nat): seq<SubscribedSnssai> {
    if n == 0 then [] else GroupedEntries(s, defaults, groups, n - 1) + [GroupedEntry(s, defaults, groups, n - 1)]
  }

  lemma {:induction false} GroupedEntryAt(s: Snssai, defaults: seq<string>, groups: seq<string>, n: nat, i: nat)
    ensures |GroupedEntries(s, defaults, groups, n)| == n
    ensures i < n ==> GroupedEntries(s, defaults, groups, n)[i] == GroupedEntry(s, defaults, groups, i)
  {
    if n > 0 {
      GroupedEntryAt(s, defaults, groups, n - 1, i);
    }
  }

  lemma GroupedItem(s: Snssai, defaults: seq<string>, groups: seq<string>, i: nat)
    requires |groups| > 1 && AllBools(defaults)
    ensures SubscribedAt([s], defaults, groups, i) == Success(Some(GroupedEntry(s, defaults, groups, i)))
  {
  }

  lemma ZippedNext(c: seq<Snssai>, defaults: seq<string>, groups: seq<string>, i: nat,
                   front: seq<SubscribedSnssai>, e: SubscribedSnssai)
    requires Zipped(c, defaults, groups, i) == Success(front) && SubscribedAt(c, defaults, groups, i) == Success(Some(e))
    ensures Zipped(c, defaults, groups, i + 1) == Success(front + [e])
  {
  }

  /** With several groups every position gives an entry with all of them. */
  lemma {:induction false} RepeatedGroups(s: Snssai, defaults: seq<string>, groups: seq<string>, n: nat)
    requires |groups| > 1 && AllBools(defaults)
    ensures Zipped([s], defaults, groups, n) == Success(GroupedEntries(s, defaults, groups, n))
  {
    if n > 0 {
      RepeatedGroups(s, defaults, groups, n - 1);
      GroupedItem(s, defaults, groups, n - 1);
      ZippedNext([s], defaults, groups, n - 1, GroupedEntries(s, defaults, groups, n - 1),
                 GroupedEntry(s, defaults, groups, n - 1));
    }
  }

  lemma SeveralGroups(s: Snssai, defaults: seq<string>, groups: seq<string>)
    requires |groups| > 1 && AllBools(defaults)
    ensures var all := ZipAll([s], defaults, groups);
      && all.Success? && |all.value| == Max(|defaults|, |groups|)
      && forall i :: 0 <= i < |all.value| ==> all.value[i] == GroupedEntry(s, defaults, groups, i)
  {
    var n := Max(|defaults|, |groups|);
    RepeatedGroups(s, defaults, groups, n);
    GroupedEntryAt(s, defaults, groups, n, 0);
    forall i | 0 <= i < n ensures GroupedEntries(s, defaults, groups, n)[i] == GroupedEntry(s, defaults, groups, i) {
      GroupedEntryAt(s, defaults, groups, n, i);
    }
  }

  /** With one S-NSSAI, only stray tails add entries. */
  lemma {:induction false} OneThenStrays(s: Snssai, tails: seq<Tail>, n: nat)
    requires n > 0
    ensures var es := Entries(Present([s]), tails, n);
      && |es| > 0 && es[0] == SubscribedSnssai(s, TailAt(tails, 0).flag, TailAt(tails, 0).groups)
      && (|es| == 1 <==> forall i :: 1 <= i < n ==> TailAt(tails, i) == NO_TAIL)
  {
    if n > 1 {
      OneThenStrays(s, tails, n - 1);
    } else {
      assert Entries(Present([s]), tails, 0) == [];
    }
  }

  /** With at most one group, the S-NSSAI is the one entry exactly when no indication is a stray one. */
  lemma OneGroup(s: Snssai, defaults: seq<string>, groups: seq<string>)
    requires |groups| <= 1 && AllBools(defaults)
    ensures ZipAll([s], defaults, groups)
              == Success([SubscribedSnssai(s, ParseBool(At(defaults, 0)), GroupsAt([s], groups, 0))]) <==>
      forall i :: 1 <= i < |defaults| ==> defaults[i] == ""
  {
    var n, tails := Max(1, Max(|defaults|, |groups|)), Tails(defaults, groups);
    ZippedEntries([s], defaults, groups, n);
    OneThenStrays(s, tails, n);
    TailsAt(defaults, groups, 0);
    StraysAreTexts(defaults, groups, n);
    var es := Entries(Present([s]), tails, n);
    assert |es| == 1 ==> es == [es[0]];
  }

  lemma StraysAreTexts(defaults: seq<string>, groups: seq<string>, n: nat)
    requires |groups| <= 1 && AllBools(defaults) && n >= |defaults|
    ensures (forall i :: 1 <= i < n ==> TailAt(Tails(defaults, groups), i) == NO_TAIL)
            <==> forall i :: 1 <= i < |defaults| ==> defaults[i] == ""
  {
    forall i | 1 <= i < n ensures TailAt(Tails(defaults, groups), i) == NO_TAIL <==> At(defaults, i) == "" {
      NoTailExactly(defaults, groups, i);
    }
    assert forall i :: 1 <= i < |defaults| ==> At(defaults, i) == defaults[i];
  }

  /**
   * One S-NSSAI with its indication and groups is read as one entry exactly when there is at most one group, no stray
   * indication, and no indication that is no boolean; with more groups it is read as one entry per position.
   */
  lemma OneEntryExactly(s: Snssai, defaults: seq<string>, groups: seq<string>)
    ensures ZipAll([s], defaults, groups)
              == Success([SubscribedSnssai(s, ParseBool(At(defaults, 0)), GroupsAt([s], groups, 0))]) <==>
      AllBools(defaults) && |groups| <= 1 && forall i :: 1 <= i < |defaults| ==> defaults[i] == ""
    ensures AllBools(defaults) && |groups| > 1 ==>
      var all := ZipAll([s], defaults, groups);
      && all.Success? && |all.value| == Max(|defaults|, |groups|)
      && forall i :: 0 <= i < |all.value| ==>
           all.value[i] == SubscribedSnssai(if i == 0 then s else ZERO_SNSSAI, ParseBool(At(defaults, i)), groups)
  {
    if !AllBools(defaults) {
      BadBool([s], defaults, groups);
    } else if |groups| > 1 {
      SeveralGroups(s, defaults, groups);
    } else {
      OneGroup(s, defaults, groups);
    }
  }
}
