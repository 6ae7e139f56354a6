/** Route patterns: parameters renamed by position, and the aliases that restore their names for the handlers. */
module Routes {
  import opened Prelude
  import opened Decimal

  // ----- strings.Split and strings.Join with the separator "/"

  function Split(s: string): (segs: seq<string>)
    ensures segs != []
    ensures forall i :: 0 <= i < |segs| ==> '/' !in segs[i]
  {
    if s == "" then [""]
    else
      var rest := Split(s[1..]);
      if s[0] == '/' then [""] + rest else [[s[0]] + rest[0]] + rest[1..]
  }

  function Join(segs: seq<string>): string
    requires segs != []
  {
    if |segs| == 1 then segs[0] else segs[0] + "/" + Join(segs[1..])
  }

  lemma {:induction false} JoinSplit(s: string)
    ensures Join(Split(s)) == s
  {
    if s != "" {
      JoinSplit(s[1..]);
      var rest := Split(s[1..]);
      if s[0] == '/' {
        assert Split(s)[1..] == rest;
        assert s == "" + "/" + s[1..];
      } else if |rest| == 1 {
        assert s == [s[0]] + s[1..];
      } else {
        assert Split(s)[1..] == rest[1..];
        assert s == [s[0]] + (rest[0] + "/" + Join(rest[1..]));
      }
    }
  }

  lemma {:induction false} SplitSegment(seg: string, tail: string)
    requires '/' !in seg
    ensures Split(seg) == [seg]
    ensures Split(seg + "/" + tail) == [seg] + Split(tail)
    decreases |seg|
  {
    if seg == "" {
      assert ("" + "/" + tail)[1..] == tail;
    } else {
      SplitSegment(seg[1..], tail);
      assert seg == [seg[0]] + seg[1..];
      assert (seg + "/" + tail)[1..] == seg[1..] + "/" + tail && (seg + "/" + tail)[0] == seg[0];
      assert seg[0] in seg;
    }
  }

  lemma {:induction false} SplitJoin(segs: seq<string>)
    requires segs != [] && forall i :: 0 <= i < |segs| ==> '/' !in segs[i]
    ensures Split(Join(segs)) == segs
  {
    if |segs| == 1 {
      SplitSegment(segs[0], "");
    } else {
      SplitJoin(segs[1..]);
      SplitSegment(segs[0], Join(segs[1..]));
    }
  }

  // ----- Canonical patterns

  datatype RouteParamAlias = RouteParamAlias(canonical: string, original: string)

  predicate IsParam(seg: string) {
    |seg| > 1 && seg[0] == ':'
  }

  function CanonicalName(i: nat): string {
    "param" + Itoa(i)
  }

  function CanonicalSegment(segs: seq<string>, i: nat): string
    requires i < |segs|
  {
    if IsParam(segs[i]) then ":" + CanonicalName(i) else segs[i]
  }

  function CanonicalSegments(segs: seq<string>): (r: seq<string>)
    ensures |r| == |segs| && forall i :: 0 <= i < |segs| ==> r[i] == CanonicalSegment(segs, i)
  {
    seq(|segs|, i requires 0 <= i < |segs| => CanonicalSegment(segs, i))
  }

  predicate IsAliased(segs: seq<string>, i: nat)
    requires i < |segs|
  {
    IsParam(segs[i]) && segs[i][1..] != CanonicalName(i)
  }

  /** The aliases of the first n segments. */
  function Aliases(segs: seq<string>, n: nat): seq<RouteParamAlias>
    requires n <= |segs|
  {
    if n == 0 then []
    else Aliases(segs, n - 1)
         + if IsAliased(segs, n - 1) then [RouteParamAlias(CanonicalName(n - 1), segs[n - 1][1..])] else []
  }

  function Canonicalize(pattern: string): (string, seq<RouteParamAlias>) {
    var segs := Split(pattern);
    (Join(CanonicalSegments(segs)), Aliases(segs, |segs|))
  }

  method CanonicalizeRoutePattern(pattern: string) returns (canonicalPattern: string, aliases: seq<RouteParamAlias>)
    ensures (canonicalPattern, aliases) == Canonicalize(pattern)
  {
    var original := Split(pattern);
    var segments := new string[|original|](i requires 0 <= i < |original| => original[i]);
    aliases := [];
    for index := 0 to segments.Length
      invariant forall k :: 0 <= k < index ==> segments[k] == CanonicalSegment(original, k)
      invariant forall k :: index <= k < segments.Length ==> segments[k] == original[k]
      invariant aliases == Aliases(original, index)
    {
      var segment := segments[index];
      if |segment| <= 1 || segment[0] != ':' {
        continue;
      }
      var name := segment[1..];
      var canonical := CanonicalName(index);
      segments[index] := ":" + canonical;
      if name != canonical {
        aliases := aliases + [RouteParamAlias(canonical, name)];
      }
    }
    assert segments[..] == CanonicalSegments(original);
    canonicalPattern := Join(segments[..]);
  }

  lemma CanonicalNamesDiffer(i: nat, j: nat)
    requires CanonicalName(i) == CanonicalName(j)
    ensures i == j
  {
    assert CanonicalName(i)[5..] == Itoa(i) && CanonicalName(j)[5..] == Itoa(j);
    ItoaInjective(i, j);
  }

  lemma CanonicalSplit(pattern: string)
    ensures Split(Canonicalize(pattern).0) == CanonicalSegments(Split(pattern))
  {
    var r := CanonicalSegments(Split(pattern));
    forall i | 0 <= i < |r| ensures '/' !in r[i] {
      if IsParam(Split(pattern)[i]) {
        assert forall c :: c in Itoa(i) ==> c != '/';
      }
    }
    SplitJoin(r);
  }

  /** A named parameter becomes :param<i>, everything else stays. */
  function Expected(seg: string, i: nat): string {
    if seg != "" && seg != ":" && seg[0] == ':' then ":param" + Itoa(i) else seg
  }

  lemma CanonicalSegmentExactly(segs: seq<string>, i: nat)
    requires i < |segs|
    ensures CanonicalSegment(segs, i) == Expected(segs[i], i)
  {
    assert ":" + ("param" + Itoa(i)) == ":param" + Itoa(i);
  }

  /** Segment count and static segments stay; a parameter in position i becomes :param<i>. */
  lemma CanonicalKeepsShape(pattern: string)
    ensures var before, after := Split(pattern), Split(Canonicalize(pattern).0);
      && |after| == |before|
      && forall i :: 0 <= i < |before| ==> after[i] == Expected(before[i], i)
  {
    CanonicalSplit(pattern);
    var before := Split(pattern);
    forall i | 0 <= i < |before| ensures CanonicalSegment(before, i) == Expected(before[i], i) {
      CanonicalSegmentExactly(before, i);
    }
  }

  lemma {:induction false} NoAliases(segs: seq<string>, n: nat)
    requires n <= |segs| && forall i :: 0 <= i < n ==> !IsAliased(segs, i)
    ensures Aliases(segs, n) == []
  {
    if n > 0 {
      NoAliases(segs, n - 1);
    }
  }

  /** A second application changes nothing and yields no aliases. */
  lemma CanonicalizeIsIdempotent(pattern: string)
    ensures Canonicalize(Canonicalize(pattern).0) == (Canonicalize(pattern).0, [])
  {
    CanonicalSplit(pattern);
    var r := CanonicalSegments(Split(pattern));
    forall i | 0 <= i < |r| ensures !IsAliased(r, i) && CanonicalSegment(r, i) == r[i] {
      if IsParam(r[i]) {
        assert r[i] == ":" + CanonicalName(i) && r[i][1..] == CanonicalName(i);
      }
    }
    assert CanonicalSegments(r) == r;
    NoAliases(r, |r|);
  }

  // ----- The way back

  function OriginalOf(aliases: seq<RouteParamAlias>, name: string): string {
    if aliases == [] then name
    else if aliases[|aliases| - 1].canonical == name then aliases[|aliases| - 1].original
    else OriginalOf(aliases[..|aliases| - 1], name)
  }

  /** Substitute the aliases into a canonical pattern. */
  function Restore(pattern: string, aliases: seq<RouteParamAlias>): string {
    var segs := Split(pattern);
    Join(seq(|segs|, i requires 0 <= i < |segs| =>
      if IsParam(segs[i]) then ":" + OriginalOf(aliases, segs[i][1..]) else segs[i]))
  }

  lemma OriginalOfSnoc(aliases: seq<RouteParamAlias>, a: RouteParamAlias, name: string)
    ensures OriginalOf(aliases + [a], name) == if a.canonical == name then a.original else OriginalOf(aliases, name)
  {
    assert (aliases + [a])[..|aliases|] == aliases;
  }

  /** Segment n decides for its own canonical name only. */
  lemma OriginalOfNext(segs: seq<string>, n: nat, i: nat)
    requires n < |segs| && i < |segs|
    ensures var name := CanonicalName(i);
      OriginalOf(Aliases(segs, n + 1), name) ==
        if IsAliased(segs, n) && n == i then segs[i][1..] else OriginalOf(Aliases(segs, n), name)
  {
    if IsAliased(segs, n) {
      OriginalOfSnoc(Aliases(segs, n), RouteParamAlias(CanonicalName(n), segs[n][1..]), CanonicalName(i));
      if CanonicalName(n) == CanonicalName(i) {
        CanonicalNamesDiffer(n, i);
      }
    } else {
      assert Aliases(segs, n + 1) == Aliases(segs, n);
    }
  }

  lemma {:induction false} OriginalOfAll(segs: seq<string>, n: nat, i: nat, name: string)
    requires n <= |segs| && i < |segs|
    requires forall k :: 0 <= k < n ==>
      OriginalOf(Aliases(segs, k + 1), name) ==
        if IsAliased(segs, k) && k == i then segs[i][1..] else OriginalOf(Aliases(segs, k), name)
    ensures OriginalOf(Aliases(segs, n), name) == if i < n && IsAliased(segs, i) then segs[i][1..] else name
  {
    if n > 0 {
      OriginalOfAll(segs, n - 1, i, name);
      assert OriginalOf(Aliases(segs, (n - 1) + 1), name) == OriginalOf(Aliases(segs, n), name);
    }
  }

  lemma OriginalOfCanonical(segs: seq<string>, n: nat, i: nat)
    requires n <= |segs| && i < |segs| && IsParam(segs[i])
    ensures OriginalOf(Aliases(segs, n), CanonicalName(i)) == if i < n then segs[i][1..] else CanonicalName(i)
  {
    forall k | 0 <= k < n
      ensures OriginalOf(Aliases(segs, k + 1), CanonicalName(i)) ==
        if IsAliased(segs, k) && k == i then segs[i][1..] else OriginalOf(Aliases(segs, k), CanonicalName(i))
    {
      OriginalOfNext(segs, k, i);
    }
    OriginalOfAll(segs, n, i, CanonicalName(i));
  }

  /** Substituting the aliases back restores the pattern. */
  lemma RestoreCanonicalize(pattern: string)
    ensures Restore(Canonicalize(pattern).0, Canonicalize(pattern).1) == pattern
  {
    CanonicalSplit(pattern);
    var segs := Split(pattern);
    var r := CanonicalSegments(segs);
    var aliases := Aliases(segs, |segs|);
    var back := seq(|r|, i requires 0 <= i < |r| => if IsParam(r[i]) then ":" + OriginalOf(aliases, r[i][1..]) else r[i]);
    forall i | 0 <= i < |r| ensures back[i] == segs[i] {
      if IsParam(segs[i]) {
        OriginalOfCanonical(segs, |segs|, i);
        assert r[i][1..] == CanonicalName(i);
        assert segs[i] == ":" + segs[i][1..];
      }
    }
    assert back == segs;
    JoinSplit(pattern);
  }

  // ----- The wrapped handler

  datatype Param = Param(key: string, value: string)

  /** c.Param: the value of the first parameter with this key, or "". */
  function Lookup(params: seq<Param>, key: string): string {
    if params == [] then "" else if params[0].key == key then params[0].value else Lookup(params[1..], key)
  }

  function WithAliases(params: seq<Param>, aliases: seq<RouteParamAlias>): seq<Param>
    decreases |aliases|
  {
    if aliases == [] then params
    else
      var front, last := WithAliases(params, aliases[..|aliases| - 1]), aliases[|aliases| - 1];
      var value := Lookup(front, last.canonical);
      if value == "" then front else front + [Param(last.original, value)]
  }

  class Context {
    var params: seq<Param>

    constructor (matched: seq<Param>)
      ensures params == matched
    {
      params := matched;
    }

    /** What a wrapped handler does before it calls the handler. */
    method AddAliases(aliases: seq<RouteParamAlias>)
      modifies this
      ensures params == WithAliases(old(params), aliases)
    {
      for i := 0 to |aliases|
        invariant params == WithAliases(old(params), aliases[..i])
      {
        assert aliases[..i + 1][..i] == aliases[..i];
        var value := Lookup(params, aliases[i].canonical);
        if value == "" {
          continue;
        }
        params := params + [Param(aliases[i].original, value)];
      }
      assert aliases[..|aliases|] == aliases;
    }
  }

  /** A parameter of a matched route: its canonical and original names, and the value of its segment. */
  datatype Binding = Binding(canonical: string, original: string, value: string)

  /** The parameters among the first n segments. */
  function BindingsOf(segs: seq<string>, values: seq<string>, n: nat): seq<Binding>
    requires n <= |segs| == |values|
  {
    if n == 0 then []
    else BindingsOf(segs, values, n - 1)
         + if IsParam(segs[n - 1]) then [Binding(CanonicalName(n - 1), segs[n - 1][1..], values[n - 1])] else []
  }

  predicate CanonicalsDiffer(bs: seq<Binding>) {
    forall i, j :: 0 <= i < j < |bs| ==> bs[i].canonical != bs[j].canonical
  }

  /** What the router matches: the canonical names. */
  function Matched(bs: seq<Binding>): seq<Param> {
    Map((b: Binding) => Param(b.canonical, b.value), bs)
  }

  function AliasesOf(bs: seq<Binding>): seq<RouteParamAlias> {
    if bs == [] then []
    else
      var last := bs[|bs| - 1];
      AliasesOf(bs[..|bs| - 1]) + if last.canonical != last.original then [RouteParamAlias(last.canonical, last.original)] else []
  }

  /** The aliases of a pattern are those of its bindings. */
  lemma {:induction false} AliasesOfRoute(segs: seq<string>, values: seq<string>, n: nat)
    requires n <= |segs| == |values|
    ensures AliasesOf(BindingsOf(segs, values, n)) == Aliases(segs, n)
  {
    if n > 0 {
      AliasesOfRoute(segs, values, n - 1);
      var front, all := BindingsOf(segs, values, n - 1), BindingsOf(segs, values, n);
      if IsParam(segs[n - 1]) {
        assert all[..|all| - 1] == front;
      } else {
        assert all == front && Aliases(segs, n) == Aliases(segs, n - 1);
      }
    }
  }

  /** The canonical names of a route's parameters differ. */
  lemma {:induction false} CanonicalsOfRoute(segs: seq<string>, values: seq<string>, n: nat, m: nat)
    requires n <= |segs| == |values| && n <= m
    ensures CanonicalsDiffer(BindingsOf(segs, values, n))
    ensures forall k :: 0 <= k < |BindingsOf(segs, values, n)| ==> BindingsOf(segs, values, n)[k].canonical != CanonicalName(m)
  {
    if n > 0 {
      CanonicalsOfRoute(segs, values, n - 1, m);
      CanonicalsOfRoute(segs, values, n - 1, n - 1);
      if CanonicalName(n - 1) == CanonicalName(m) {
        CanonicalNamesDiffer(n - 1, m);
      }
    }
  }

  predicate HasKey(params: seq<Param>, key: string) {
    params != [] && (params[0].key == key || HasKey(params[1..], key))
  }

  lemma {:induction false} LookupAppend(params: seq<Param>, more: seq<Param>, key: string)
    ensures Lookup(params + more, key) == if HasKey(params, key) then Lookup(params, key) else Lookup(more, key)
    ensures HasKey(params + more, key) <==> HasKey(params, key) || HasKey(more, key)
  {
    if params == [] {
      assert params + more == more;
    } else {
      LookupAppend(params[1..], more, key);
      assert (params + more)[1..] == params[1..] + more;
    }
  }

  lemma {:induction false} MatchedLookup(bs: seq<Binding>, i: nat)
    requires CanonicalsDiffer(bs) && i < |bs|
    ensures HasKey(Matched(bs), bs[i].canonical) && Lookup(Matched(bs), bs[i].canonical) == bs[i].value
  {
    assert Matched(bs)[1..] == Matched(bs[1..]);
    if i > 0 {
      MatchedLookup(bs[1..], i - 1);
    }
  }

  lemma {:induction false} NotMatched(bs: seq<Binding>, key: string)
    requires forall i :: 0 <= i < |bs| ==> bs[i].canonical != key
    ensures !HasKey(Matched(bs), key)
  {
    if bs != [] {
      NotMatched(bs[1..], key);
      assert Matched(bs)[1..] == Matched(bs[1..]);
    }
  }

  function AddedParam(b: Binding): seq<Param> {
    if b.canonical != b.original && b.value != "" then [Param(b.original, b.value)] else []
  }

  /** The parameters the aliases add. */
  function Added(bs: seq<Binding>): seq<Param> {
    if bs == [] then [] else Added(bs[..|bs| - 1]) + AddedParam(bs[|bs| - 1])
  }

  lemma AliasesSnoc(bs: seq<Binding>, n: nat)
    requires n < |bs|
    ensures var b := bs[n];
      AliasesOf(bs[..n + 1]) ==
        AliasesOf(bs[..n]) + if b.canonical != b.original then [RouteParamAlias(b.canonical, b.original)] else []
  {
    assert bs[..n + 1][..n] == bs[..n];
  }

  lemma WithAliasesSnoc(params: seq<Param>, aliases: seq<RouteParamAlias>, a: RouteParamAlias)
    ensures var front := WithAliases(params, aliases);
      var value := Lookup(front, a.canonical);
      WithAliases(params, aliases + [a]) == if value == "" then front else front + [Param(a.original, value)]
  {
    assert (aliases + [a])[..|aliases|] == aliases;
  }

  /** The n-th parameter adds its value under its original name, unless that is the canonical one or the value is empty. */
  lemma WrappedParam(bs: seq<Binding>, n: nat)
    requires CanonicalsDiffer(bs) && n < |bs|
    requires WithAliases(Matched(bs), AliasesOf(bs[..n])) == Matched(bs) + Added(bs[..n])
    ensures WithAliases(Matched(bs), AliasesOf(bs[..n + 1])) == (Matched(bs) + Added(bs[..n])) + AddedParam(bs[n])
  {
    var b, aliases := bs[n], AliasesOf(bs[..n]);
    AliasesSnoc(bs, n);
    if b.canonical != b.original {
      WithAliasesSnoc(Matched(bs), aliases, RouteParamAlias(b.canonical, b.original));
      MatchedLookup(bs, n);
      LookupAppend(Matched(bs), Added(bs[..n]), b.canonical);
    } else {
      assert aliases + [] == aliases;
    }
  }

  lemma AddedSnoc(bs: seq<Binding>, n: nat, ps: seq<Param>)
    requires n < |bs|
    ensures ps + Added(bs[..n + 1]) == (ps + Added(bs[..n])) + AddedParam(bs[n])
  {
    assert bs[..n + 1][..n] == bs[..n];
  }

  lemma {:induction false} WrappedParams(bs: seq<Binding>, n: nat)
    requires CanonicalsDiffer(bs) && n <= |bs|
    ensures WithAliases(Matched(bs), AliasesOf(bs[..n])) == Matched(bs) + Added(bs[..n])
  {
    if n == 0 {
      assert Matched(bs) + [] == Matched(bs);
    } else {
      WrappedParams(bs, n - 1);
      WrappedParam(bs, n - 1);
      AddedSnoc(bs, n - 1, Matched(bs));
    }
  }

  /** What the handler reads under a name. */
  function Read(bs: seq<Binding>, name: string): string {
    Lookup(WithAliases(Matched(bs), AliasesOf(bs)), name)
  }

  lemma ReadSplits(bs: seq<Binding>, name: string)
    requires CanonicalsDiffer(bs)
    ensures Read(bs, name) == if HasKey(Matched(bs), name) then Lookup(Matched(bs), name) else Lookup(Added(bs), name)
  {
    WrappedParams(bs, |bs|);
    assert bs[..|bs|] == bs;
    LookupAppend(Matched(bs), Added(bs), name);
  }

  /** The original name is the canonical one, or neither the original nor the canonical name of another parameter. */
  predicate NameIsClear(bs: seq<Binding>, i: nat)
    requires i < |bs|
  {
    bs[i].original == bs[i].canonical
    || forall j :: 0 <= j < |bs| && j != i ==> bs[j].original != bs[i].original && bs[j].canonical != bs[i].original
  }

  lemma {:induction false} AddedNone(bs: seq<Binding>, name: string)
    requires forall j :: 0 <= j < |bs| ==> bs[j].original != name
    ensures !HasKey(Added(bs), name) && Lookup(Added(bs), name) == ""
  {
    if bs != [] {
      AddedNone(bs[..|bs| - 1], name);
      LookupAppend(Added(bs[..|bs| - 1]), AddedParam(bs[|bs| - 1]), name);
    }
  }

  lemma {:induction false} AddedOne(bs: seq<Binding>, i: nat)
    requires i < |bs| && bs[i].original != bs[i].canonical
    requires forall j :: 0 <= j < |bs| && j != i ==> bs[j].original != bs[i].original
    ensures Lookup(Added(bs), bs[i].original) == bs[i].value
    ensures HasKey(Added(bs), bs[i].original) <==> bs[i].value != ""
  {
    var front, last := bs[..|bs| - 1], bs[|bs| - 1];
    LookupAppend(Added(front), AddedParam(last), bs[i].original);
    if i < |front| {
      AddedOne(front, i);
    } else {
      AddedNone(front, bs[i].original);
    }
  }

  lemma ClearNameReads(bs: seq<Binding>, i: nat)
    requires CanonicalsDiffer(bs) && i < |bs| && NameIsClear(bs, i)
    ensures Read(bs, bs[i].original) == bs[i].value
  {
    ReadSplits(bs, bs[i].original);
    if bs[i].original == bs[i].canonical {
      MatchedLookup(bs, i);
    } else {
      NotMatched(bs, bs[i].original);
      AddedOne(bs, i);
    }
  }

  /** All values added for a name are b, and there is one if some aliased parameter of that name has value b. */
  lemma {:induction false} AddedUniform(bs: seq<Binding>, name: string, b: string)
    requires b != "" && forall k :: 0 <= k < |bs| ==> bs[k].value == b || bs[k].value == ""
    ensures HasKey(Added(bs), name) ==> Lookup(Added(bs), name) == b
    ensures (exists j :: 0 <= j < |bs| && bs[j].original == name && bs[j].canonical != name && bs[j].value == b)
            ==> HasKey(Added(bs), name)
  {
    if bs != [] {
      var front, last := bs[..|bs| - 1], bs[|bs| - 1];
      AddedUniform(front, name, b);
      LookupAppend(Added(front), AddedParam(last), name);
      if j :| 0 <= j < |bs| && bs[j].original == name && bs[j].canonical != name && bs[j].value == b {
        if j < |front| {
          assert front[j] == bs[j];
        }
      }
    }
  }

  lemma MisreadsCanonical(bs: seq<Binding>, name: string, k: nat)
    requires CanonicalsDiffer(bs) && k < |bs| && bs[k].canonical == name
    ensures Read(bs, name) == bs[k].value
  {
    ReadSplits(bs, name);
    MatchedLookup(bs, k);
  }

  lemma MisreadsOriginal(bs: seq<Binding>, name: string, j: nat, b: string)
    requires CanonicalsDiffer(bs) && forall k :: 0 <= k < |bs| ==> bs[k].canonical != name
    requires j < |bs| && bs[j].original == name && bs[j].value == b != ""
    requires forall k :: 0 <= k < |bs| ==> bs[k].value == b || bs[k].value == ""
    ensures Read(bs, name) == b
  {
    ReadSplits(bs, name);
    NotMatched(bs, name);
    AddedUniform(bs, name, b);
  }

  // ----- A whole route

  /** What the router matches for a canonical pattern: its parameters and the segments in their place. */
  function RouterParams(segs: seq<string>, values: seq<string>, n: nat): seq<Param>
    requires n <= |segs| == |values|
  {
    if n == 0 then []
    else RouterParams(segs, values, n - 1) + if IsParam(segs[n - 1]) then [Param(segs[n - 1][1..], values[n - 1])] else []
  }

  lemma {:induction false} RouterMatches(segs: seq<string>, values: seq<string>, n: nat)
    requires n <= |segs| == |values|
    ensures RouterParams(CanonicalSegments(segs), values, n) == Matched(BindingsOf(segs, values, n))
  {
    if n > 0 {
      RouterMatches(segs, values, n - 1);
      CanonicalParam(segs, n - 1);
      if IsParam(segs[n - 1]) {
        MatchedSnoc(BindingsOf(segs, values, n - 1), Binding(CanonicalName(n - 1), segs[n - 1][1..], values[n - 1]));
      }
    }
  }

  lemma CanonicalParam(segs: seq<string>, i: nat)
    requires i < |segs|
    ensures var c := CanonicalSegments(segs)[i];
      (IsParam(c) <==> IsParam(segs[i])) && (IsParam(c) ==> c[1..] == CanonicalName(i))
  {
  }

  lemma MatchedSnoc(bs: seq<Binding>, b: Binding)
    ensures Matched(bs + [b]) == Matched(bs) + [Param(b.canonical, b.value)]
  {
  }

  function AllBindings(segs: seq<string>, values: seq<string>): seq<Binding>
    requires |segs| == |values|
  {
    BindingsOf(segs, values, |segs|)
  }

  /** What the handler of a route reads under a name, for a request with these segments. */
  function Served(pattern: string, values: seq<string>, name: string): string
    requires |values| == |Split(Canonicalize(pattern).0)|
  {
    var segs := Split(Canonicalize(pattern).0);
    Lookup(WithAliases(RouterParams(segs, values, |segs|), Canonicalize(pattern).1), name)
  }

  /** A route from its registration to the handler's look-up. */
  method ServeRoute(pattern: string, values: seq<string>, name: string) returns (value: string)
    requires |values| == |Split(Canonicalize(pattern).0)|
    ensures value == Served(pattern, values, name)
  {
    var canonical, aliases := CanonicalizeRoutePattern(pattern);
    var segs := Split(canonical);
    var c := new Context(RouterParams(segs, values, |segs|));
    c.AddAliases(aliases);
    value := Lookup(c.params, name);
  }

  lemma ServedIsRead(pattern: string, values: seq<string>, name: string)
    requires |values| == |Split(pattern)|
    ensures |Split(Canonicalize(pattern).0)| == |Split(pattern)|
    ensures Served(pattern, values, name) == Read(AllBindings(Split(pattern), values), name)
    ensures CanonicalsDiffer(AllBindings(Split(pattern), values))
  {
    var segs := Split(pattern);
    CanonicalSplit(pattern);
    RouterMatches(segs, values, |segs|);
    AliasesOfRoute(segs, values, |segs|);
    CanonicalsOfRoute(segs, values, |segs|, |segs|);
  }

  /** The binding of parameter i comes after those of the parameters before it. */
  lemma {:induction false} BindingAt(segs: seq<string>, values: seq<string>, n: nat, i: nat) returns (k: nat)
    requires i < n <= |segs| == |values| && IsParam(segs[i])
    ensures k < |BindingsOf(segs, values, n)| && k == |BindingsOf(segs, values, i)|
    ensures BindingsOf(segs, values, n)[k] == Binding(CanonicalName(i), segs[i][1..], values[i])
    ensures BindingsOf(segs, values, n)[..k] == BindingsOf(segs, values, i)
  {
    if i < n - 1 {
      k := BindingAt(segs, values, n - 1, i);
      assert BindingsOf(segs, values, n)[..k] == BindingsOf(segs, values, n - 1)[..k];
    } else {
      k := |BindingsOf(segs, values, n - 1)|;
    }
  }

  /** The parameter of binding k. */
  lemma {:induction false} BoundAt(segs: seq<string>, values: seq<string>, n: nat, k: nat) returns (i: nat)
    requires n <= |segs| == |values| && k < |BindingsOf(segs, values, n)|
    ensures i < n && IsParam(segs[i])
    ensures BindingsOf(segs, values, n)[k] == Binding(CanonicalName(i), segs[i][1..], values[i])
  {
    if k < |BindingsOf(segs, values, n - 1)| {
      i := BoundAt(segs, values, n - 1, k);
    } else {
      i := n - 1;
    }
  }

  /** Parameter i keeps its name, or no other parameter has that name, originally or as its canonical one. */
  predicate SegmentIsClear(segs: seq<string>, i: nat)
    requires i < |segs| && IsParam(segs[i])
  {
    segs[i][1..] == CanonicalName(i)
    || forall j :: 0 <= j < |segs| && j != i && IsParam(segs[j]) ==>
         segs[j][1..] != segs[i][1..] && CanonicalName(j) != segs[i][1..]
  }

  lemma ClearSegmentReads(segs: seq<string>, values: seq<string>, i: nat)
    requires i < |segs| == |values| && IsParam(segs[i]) && SegmentIsClear(segs, i)
    requires CanonicalsDiffer(AllBindings(segs, values))
    ensures Read(AllBindings(segs, values), segs[i][1..]) == values[i]
  {
    var bs := AllBindings(segs, values);
    var k := BindingAt(segs, values, |segs|, i);
    forall j | 0 <= j < |bs| && j != k && segs[i][1..] != CanonicalName(i)
      ensures bs[j].original != bs[k].original && bs[j].canonical != bs[k].original
    {
      var at := BoundAt(segs, values, |segs|, j);
      assert bs[j].canonical != bs[k].canonical;
    }
    ClearNameReads(bs, k);
  }

  /** Values for which an unclear parameter reads the segment of another. */
  function Confusing(n: nat, i: nat): seq<string> {
    seq(n, k => if k == i then "" else "b")
  }

  lemma UnclearSegmentMisreads(segs: seq<string>, i: nat)
    requires i < |segs| && IsParam(segs[i]) && !SegmentIsClear(segs, i)
    requires CanonicalsDiffer(AllBindings(segs, Confusing(|segs|, i)))
    ensures Read(AllBindings(segs, Confusing(|segs|, i)), segs[i][1..]) == "b"
  {
    var values, name := Confusing(|segs|, i), segs[i][1..];
    var bs := AllBindings(segs, values);
    forall k | 0 <= k < |bs| ensures bs[k].value == "b" || bs[k].value == "" {
      var at := BoundAt(segs, values, |segs|, k);
    }
    if j :| 0 <= j < |segs| && IsParam(segs[j]) && CanonicalName(j) == name {
      var k := BindingAt(segs, values, |segs|, j);
      MisreadsCanonical(bs, name, k);
    } else {
      var j :| 0 <= j < |segs| && j != i && IsParam(segs[j]) && segs[j][1..] == name;
      var k := BindingAt(segs, values, |segs|, j);
      forall m | 0 <= m < |bs| ensures bs[m].canonical != name {
        var at := BoundAt(segs, values, |segs|, m);
      }
      MisreadsOriginal(bs, name, k, "b");
    }
  }

  /**
   * For every pattern: the handler reads segment i under the original name of parameter i, whatever the request,
   * exactly when that name is clear.
   */
  lemma ReadsItsSegmentExactly(pattern: string, i: nat)
    requires i < |Split(pattern)| && IsParam(Split(pattern)[i])
    ensures |Split(Canonicalize(pattern).0)| == |Split(pattern)|
    ensures (forall values: seq<string> :: |values| == |Split(pattern)| ==>
              Served(pattern, values, Split(pattern)[i][1..]) == values[i])
            <==> SegmentIsClear(Split(pattern), i)
  {
    var segs := Split(pattern);
    CanonicalSplit(pattern);
    if SegmentIsClear(segs, i) {
      forall values: seq<string> | |values| == |segs| ensures Served(pattern, values, segs[i][1..]) == values[i] {
        ServedIsRead(pattern, values, segs[i][1..]);
        ClearSegmentReads(segs, values, i);
      }
    } else {
      var values := Confusing(|segs|, i);
      ServedIsRead(pattern, values, segs[i][1..]);
      UnclearSegmentMisreads(segs, i);
      assert Served(pattern, values, segs[i][1..]) != values[i];
    }
  }

  // ----- Requests without empty parameters

  /** Parameter i keeps its name, or no other canonical name is like it and no earlier parameter has it. */
  predicate SegmentIsFirst(segs: seq<string>, i: nat)
    requires i < |segs| && IsParam(segs[i])
  {
    segs[i][1..] == CanonicalName(i)
    || ((forall j :: 0 <= j < |segs| && IsParam(segs[j]) ==> CanonicalName(j) != segs[i][1..])
        && forall j :: 0 <= j < i && IsParam(segs[j]) ==> segs[j][1..] != segs[i][1..])
  }

  predicate ParamsAreFilled(segs: seq<string>, values: seq<string>)
    requires |segs| == |values|
  {
    forall i :: 0 <= i < |segs| && IsParam(segs[i]) ==> values[i] != ""
  }

  /** The first alias of a name decides, if its value is not empty. */
  lemma {:induction false} AddedFirst(bs: seq<Binding>, k: nat)
    requires k < |bs| && bs[k].original != bs[k].canonical && bs[k].value != ""
    requires forall j :: 0 <= j < k ==> bs[j].original != bs[k].original
    ensures HasKey(Added(bs), bs[k].original) && Lookup(Added(bs), bs[k].original) == bs[k].value
  {
    var front, last := bs[..|bs| - 1], bs[|bs| - 1];
    LookupAppend(Added(front), AddedParam(last), bs[k].original);
    if k < |front| {
      AddedFirst(front, k);
    } else {
      AddedNone(front, bs[k].original);
    }
  }

  /** What is read under the original name of parameter i, when it is aliased, filled and the first of its name. */
  lemma FirstSegmentReads(segs: seq<string>, values: seq<string>, i: nat)
    requires i < |segs| == |values| && IsParam(segs[i]) && values[i] != ""
    requires CanonicalsDiffer(AllBindings(segs, values))
    requires forall j :: 0 <= j < |segs| && IsParam(segs[j]) ==> CanonicalName(j) != segs[i][1..]
    requires forall j :: 0 <= j < i && IsParam(segs[j]) ==> segs[j][1..] != segs[i][1..]
    ensures Read(AllBindings(segs, values), segs[i][1..]) == values[i]
  {
    var bs, name := AllBindings(segs, values), segs[i][1..];
    var k := BindingAt(segs, values, |segs|, i);
    forall m | 0 <= m < |bs| ensures bs[m].canonical != name {
      var at := BoundAt(segs, values, |segs|, m);
    }
    forall m | 0 <= m < k ensures bs[m].original != name {
      assert bs[m] == bs[..k][m];
      var at := BoundAt(segs, values, i, m);
    }
    ReadSplits(bs, name);
    NotMatched(bs, name);
    AddedFirst(bs, k);
  }

  /** The value a for parameter i and b for all others. */
  function Distinguishing(n: nat, i: nat): seq<string> {
    seq(n, k => if k == i then "a" else "b")
  }

  lemma LaterSegmentMisreads(segs: seq<string>, i: nat)
    requires i < |segs| && IsParam(segs[i])
    ensures SegmentIsFirst(segs, i) || Read(AllBindings(segs, Distinguishing(|segs|, i)), segs[i][1..]) == "b"
  {
    CanonicalsOfRoute(segs, Distinguishing(|segs|, i), |segs|, |segs|);
    var values, name := Distinguishing(|segs|, i), segs[i][1..];
    if j :| 0 <= j < |segs| && IsParam(segs[j]) && CanonicalName(j) == name {
      var k := BindingAt(segs, values, |segs|, j);
      MisreadsCanonical(AllBindings(segs, values), name, k);
    } else if j :| 0 <= j < i && IsParam(segs[j]) && segs[j][1..] == name {
      var first := FirstOfName(segs, name, j);
      FirstSegmentReads(segs, values, first);
    }
  }

  lemma {:induction false} FirstOfName(segs: seq<string>, name: string, j: nat) returns (first: nat)
    requires j < |segs| && IsParam(segs[j]) && segs[j][1..] == name
    ensures first <= j && IsParam(segs[first]) && segs[first][1..] == name
    ensures forall k :: 0 <= k < first && IsParam(segs[k]) ==> segs[k][1..] != name
  {
    if k :| 0 <= k < j && IsParam(segs[k]) && segs[k][1..] == name {
      first := FirstOfName(segs, name, k);
    } else {
      first := j;
    }
  }

  lemma FilledSegmentReads(pattern: string, values: seq<string>, i: nat)
    requires i < |Split(pattern)| == |values| && IsParam(Split(pattern)[i]) && SegmentIsFirst(Split(pattern), i)
    requires ParamsAreFilled(Split(pattern), values)
    ensures |Split(Canonicalize(pattern).0)| == |Split(pattern)|
    ensures Served(pattern, values, Split(pattern)[i][1..]) == values[i]
  {
    var segs := Split(pattern);
    ServedIsRead(pattern, values, segs[i][1..]);
    if segs[i][1..] == CanonicalName(i) {
      ClearSegmentReads(segs, values, i);
    } else {
      FirstSegmentReads(segs, values, i);
    }
  }

  /**
   * For every pattern and all requests whose parameters are not empty: the handler reads segment i under the original
   * name of parameter i exactly when that name is canonical, or no other canonical name is like it and no earlier
   * parameter has it.
   */
  lemma ReadsFilledSegmentExactly(pattern: string, i: nat)
    requires i < |Split(pattern)| && IsParam(Split(pattern)[i])
    ensures |Split(Canonicalize(pattern).0)| == |Split(pattern)|
    ensures (forall values: seq<string> :: |values| == |Split(pattern)| && ParamsAreFilled(Split(pattern), values) ==>
              Served(pattern, values, Split(pattern)[i][1..]) == values[i])
            <==> SegmentIsFirst(Split(pattern), i)
  {
    var segs := Split(pattern);
    CanonicalSplit(pattern);
    if SegmentIsFirst(segs, i) {
      forall values: seq<string> | |values| == |segs| && ParamsAreFilled(segs, values)
        ensures Served(pattern, values, segs[i][1..]) == values[i]
      {
        FilledSegmentReads(pattern, values, i);
      }
    } else {
      var values := Distinguishing(|segs|, i);
      ServedIsRead(pattern, values, segs[i][1..]);
      LaterSegmentMisreads(segs, i);
      assert Served(pattern, values, segs[i][1..]) != values[i];
    }
  }

  /** The pattern /:param2/:nfId, whose first parameter has the canonical name of its second, and reads its segment. */
  lemma UnclearPattern(values: seq<string>)
    requires |values| == 3
    ensures var segs := ["", ":param2", ":nfId"];
      var pattern := Join(segs);
      && Split(pattern) == segs && |Split(Canonicalize(pattern).0)| == 3
      && !SegmentIsClear(segs, 1) && Served(pattern, values, "param2") == values[2]
  {
    var segs := ["", ":param2", ":nfId"];
    SplitJoin(segs);
    SecondIsParam2();
    ServedIsRead(Join(segs), values, "param2");
    var k := BindingAt(segs, values, 3, 2);
    MisreadsCanonical(AllBindings(segs, values), "param2", k);
  }

  lemma SecondIsParam2()
    ensures CanonicalName(1) == "param1" && CanonicalName(2) == "param2" && ":param2"[1..] == "param2"
  {
    assert Itoa(1) == "1" && Itoa(2) == "2";
  }
}
