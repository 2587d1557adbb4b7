/** The warnings of a boundary merge: what each of them says about the observations, and which of them
  depend on their order. */
module MergeWarnings {
  import opened Basics
  import opened Orders
  import opened BoundaryMerge
  import opened MergeOrder

  // -------------------------------------------------------------- what a warning says

  /** The observations measured different values, or one of them says that they vary. */
  ghost predicate Variant(observations: seq<Boundary>) {
    Flagged(observations) || VariesIn(AllMetrics(observations))
  }

  /** Two or more observations from the first on agree in shape and vary in their metrics. */
  ghost predicate VariantSeen(observations: seq<Boundary>) {
    exists k :: 2 <= k <= |observations| && Agree(observations[..k]) && Variant(observations[..k])
  }

  /** Why a location is warned about. */
  ghost predicate Cause(kind: Kind, boundaries: seq<Boundary>, successful: Coverage, key: Key) {
    var observations := At(boundaries, key);
    match kind
    case Scope => !Agree(observations)
    case Metrics => VariantSeen(observations)
    case Incomplete => observations != [] && Agree(observations) && !Complete(observations, successful, key)
    case Preprocessor =>
      observations != [] && Agree(observations) && Complete(observations, successful, key) && Conditional(observations)
  }

  predicate OnLine(w: Warning, key: Key) {
    key.filePath == w.filePath && key.startLine == w.startLine
  }

  ghost predicate Caused(w: Warning, boundaries: seq<Boundary>, successful: Coverage) {
    exists key :: OnLine(w, key) && Cause(w.kind, boundaries, successful, key)
  }

  // ------------------------------------------------------------------------ the grouping

  /** The warning that one more observation of a location gives. */
  lemma TroubleMeans(observations: seq<Boundary>, b: Boundary)
    requires forall o | o in observations :: o.key == b.key
    ensures var trouble := Trouble(StatusOf(observations), b);
      && (!Agree(observations + [b]) <==> !Agree(observations) || trouble == Some(Scope))
      && (VariantSeen(observations + [b]) <==> VariantSeen(observations) || trouble == Some(Metrics))
      && (trouble.Some? ==> trouble.value in {Scope, Metrics})
  {
    hide IsMerge, Absorb, AllMetrics, VariesIn, Flagged;
    if observations == [] {
      assert StatusOf(observations) == Unseen;
    } else {
      StatusMeans(observations, b.key);
      StatusSeen(observations);
      AgreeStep(observations, b);
      SeenStep(observations, b);
      if StatusOf(observations).Grouped? {
        var e := StatusOf(observations).boundary;
        MergeShape(observations, e);
        AbsorbVariant(observations, e, b);
      }
    }
  }

  lemma SeenStep(observations: seq<Boundary>, b: Boundary)
    requires observations != []
    ensures VariantSeen(observations + [b])
      <==> VariantSeen(observations) || (Agree(observations + [b]) && Variant(observations + [b]))
  {
    hide Agree, Variant;
    var more := observations + [b];
    assert more[..|more|] == more;
    if VariantSeen(more) {
      var k :| 2 <= k <= |more| && Agree(more[..k]) && Variant(more[..k]);
      assert k < |more| ==> more[..k] == observations[..k];
    }
    if VariantSeen(observations) {
      var k :| 2 <= k <= |observations| && Agree(observations[..k]) && Variant(observations[..k]);
      assert more[..k] == observations[..k];
    }
  }

  lemma WarnMembers(warnings: seq<Warning>, kind: Kind, b: Boundary, w: Warning)
    ensures w in Warn(warnings, kind, b) <==> w in warnings || w == WarningAt(kind, b)
    ensures NoRepeats(warnings) ==> NoRepeats(Warn(warnings, kind, b))
  {
  }

  ghost predicate GroupCause(kind: Kind, boundaries: seq<Boundary>, key: Key) {
    (kind == Scope && !Agree(At(boundaries, key))) || (kind == Metrics && VariantSeen(At(boundaries, key)))
  }

  /** A grouping warning is issued exactly when some location on its line gives cause. */
  lemma {:induction false} GroupingMeans(boundaries: seq<Boundary>, w: Warning)
    ensures w in GroupingWarnings(boundaries) <==> exists key :: OnLine(w, key) && GroupCause(w.kind, boundaries, key)
    ensures NoRepeats(GroupingWarnings(boundaries))
  {
    hide GroupCause, Warn, WarningAt, NoRepeats;
    if boundaries == [] {
      forall key
        ensures !GroupCause(w.kind, boundaries, key)
      {
        NoCause(w.kind, key);
      }
      NothingRepeats();
    } else {
      var init, last := boundaries[..|boundaries| - 1], boundaries[|boundaries| - 1];
      assert boundaries == init + [last];
      GroupingMeans(init, w);
      var trouble := Trouble(StatusOf(At(init, last.key)), last);
      if trouble.Some? {
        WarnMembers(GroupingWarnings(init), trouble.value, last, w);
      }
      forall key
        ensures GroupCause(w.kind, boundaries, key)
          <==> GroupCause(w.kind, init, key) || (key == last.key && trouble == Some(w.kind))
      {
        CauseStep(w.kind, init, last, key);
      }
      assert OnLine(w, last.key) && trouble == Some(w.kind)
        <==> trouble.Some? && w == WarningAt(trouble.value, last) by {
        WarningIs(w, last);
      }
    }
  }

  lemma NothingRepeats()
    ensures NoRepeats<Warning>([])
  {
  }

  lemma WarningIs(w: Warning, b: Boundary)
    ensures forall kind :: w == WarningAt(kind, b) <==> OnLine(w, b.key) && w.kind == kind
  {
  }

  lemma NoCause(kind: Kind, key: Key)
    ensures !GroupCause(kind, [], key)
  {
  }

  lemma CauseStep(kind: Kind, init: seq<Boundary>, last: Boundary, key: Key)
    ensures GroupCause(kind, init + [last], key)
      <==> GroupCause(kind, init, key)
           || (key == last.key && Trouble(StatusOf(At(init, key)), last) == Some(kind))
  {
    hide At, Agree, VariantSeen, StatusOf, Trouble;
    AtStep(init, last, key);
    if key == last.key {
      AtHasKey(init, key);
      TroubleMeans(At(init, key), last);
    }
  }

  // ------------------------------------------------------------- coverage, preprocessor

  lemma CoverageMeans(boundaries: seq<Boundary>, successful: Coverage, key: Key)
    ensures CoverageTrouble(boundaries, successful, key).Some? <==> Cause(Incomplete, boundaries, successful, key)
    ensures CoverageTrouble(boundaries, successful, key).Some? ==>
      CoverageTrouble(boundaries, successful, key).value.key == key
  {
    var observations := At(boundaries, key);
    AtHasKey(boundaries, key);
    if observations != [] {
      StatusMeans(observations, key);
      hide StatusOf, At, Agree;
      if StatusOf(observations).Grouped? {
        var b := StatusOf(observations).boundary;
        MergeShape(observations, b);
        assert (set c | c in b.configurations) == Elements(b.configurations);
        assert observations[0] in observations;
      }
    }
  }

  lemma {:induction false} CoverageMembers(boundaries: seq<Boundary>, successful: Coverage, keys: seq<Key>,
                                           before: seq<Warning>, w: Warning)
    requires NoRepeats(before)
    ensures w in CoverageWarnings(boundaries, successful, keys, before)
      <==> w in before
           || exists key ::
                key in keys && w.kind == Incomplete && OnLine(w, key) && Cause(Incomplete, boundaries, successful, key)
    ensures NoRepeats(CoverageWarnings(boundaries, successful, keys, before))
  {
    hide CoverageTrouble, Cause, Warn, NoRepeats;
    if keys != [] {
      var init, last := keys[..|keys| - 1], keys[|keys| - 1];
      assert keys == init + [last];
      CoverageMembers(boundaries, successful, init, before, w);
      CoverageMeans(boundaries, successful, last);
      match CoverageTrouble(boundaries, successful, last)
      case None =>
      case Some(b) => WarnMembers(CoverageWarnings(boundaries, successful, init, before), Incomplete, b, w);
    }
  }

  lemma {:induction false} PreprocessorMembers(values: seq<Boundary>, before: seq<Warning>, w: Warning)
    requires NoRepeats(before)
    ensures w in PreprocessorWarnings(values, before)
      <==> w in before || exists v :: v in values && v.conditional && w == WarningAt(Preprocessor, v)
    ensures NoRepeats(PreprocessorWarnings(values, before))
  {
    hide Warn, NoRepeats, WarningAt;
    if values != [] {
      var init, last := values[..|values| - 1], values[|values| - 1];
      assert values == init + [last];
      PreprocessorMembers(init, before, w);
      if last.conditional {
        WarnMembers(PreprocessorWarnings(init, before), Preprocessor, last, w);
      }
    }
  }

  /** A kept boundary that depends on the preprocessor is the cause of that warning. */
  lemma PreprocessorMeans(boundaries: seq<Boundary>, successful: Coverage, w: Warning)
    ensures (exists v :: v in Values(boundaries, successful, KeysOf(boundaries)) && v.conditional
                         && w == WarningAt(Preprocessor, v))
      <==> w.kind == Preprocessor && Caused(w, boundaries, successful)
  {
    var keys := KeysOf(boundaries);
    KeysAreDistinct(boundaries);
    ValuesMembers(boundaries, successful, keys);
    hide Values, KeptAt, At, Agree, Complete, NoRepeats;
    forall key
      ensures Cause(Preprocessor, boundaries, successful, key)
        <==> KeptAt(boundaries, successful, key).Some? && KeptAt(boundaries, successful, key).value.conditional
      ensures KeptAt(boundaries, successful, key).Some? ==>
        KeptAt(boundaries, successful, key).value.key == key && key in keys
    {
      KeptIff(boundaries, successful, key);
      KeysObserved(boundaries, key);
    }
    hide Cause;
    if w.kind == Preprocessor && Caused(w, boundaries, successful) {
      var key :| OnLine(w, key) && Cause(w.kind, boundaries, successful, key);
      var v := KeptAt(boundaries, successful, key).value;
      assert v in Values(boundaries, successful, keys) && v.conditional && w == WarningAt(Preprocessor, v);
    }
  }

  // ------------------------------------------------------------------------- the theorems

  /** Exactly the warnings with a cause are issued, each once. */
  lemma WarningsMean(boundaries: seq<Boundary>, successful: Coverage, w: Warning)
    ensures w in Warnings(boundaries, successful) <==> Caused(w, boundaries, successful)
    ensures NoRepeats(Warnings(boundaries, successful))
  {
    hide Values, GroupingWarnings, CoverageWarnings, PreprocessorWarnings, KeysOf, NoRepeats, WarningAt;
    var keys := KeysOf(boundaries);
    GroupingMeans(boundaries, w);
    var first := GroupingWarnings(boundaries);
    CoverageMembers(boundaries, successful, keys, first, w);
    PreprocessorMembers(Values(boundaries, successful, keys), CoverageWarnings(boundaries, successful, keys, first), w);
    PreprocessorMeans(boundaries, successful, w);
    forall key | Cause(Incomplete, boundaries, successful, key)
      ensures key in keys
    {
      KeysObserved(boundaries, key);
    }
    hide At, Agree, VariantSeen, Complete, Conditional;
    if w.kind == Scope || w.kind == Metrics {
      forall key
        ensures GroupCause(w.kind, boundaries, key) == Cause(w.kind, boundaries, successful, key)
      {
      }
    }
  }

  /** Observations of one shape are warned about for their metrics exactly when two or more of them vary. */
  lemma VariantOfAgreeing(observations: seq<Boundary>)
    requires Agree(observations)
    ensures VariantSeen(observations) <==> |observations| >= 2 && Variant(observations)
  {
    assert observations[..|observations|] == observations;
    if VariantSeen(observations) {
      var k :| 2 <= k <= |observations| && Agree(observations[..k]) && Variant(observations[..k]);
      forall o | o in observations[..k]
        ensures o in observations
      {
      }
    }
  }

  /** Apart from the metrics of a location whose observations differ in shape, a cause does not depend on
    the order of the observations. */
  lemma CausePermuted(kind: Kind, a: seq<Boundary>, b: seq<Boundary>, successful: Coverage, key: Key)
    requires multiset(a) == multiset(b) && (kind == Metrics ==> Agree(At(a, key)))
    ensures Cause(kind, a, successful, key) <==> Cause(kind, b, successful, key)
  {
    hide At, VariantSeen, Agree, AllConfigurations, AllMetrics, Flagged, Conditional, VariesIn;
    AtPermuted(a, b, key);
    PermutedMembers(At(a, key), At(b, key));
    SameSets(At(a, key), At(b, key));
    if kind == Metrics {
      VariantOfAgreeing(At(a, key));
      VariantOfAgreeing(At(b, key));
    }
  }

  /** Which warnings are issued does not depend on the order of the observations, except for metric
    warnings on a line that also has a scope warning; whether there are any never does. */
  lemma WarningsOrderFree(a: seq<Boundary>, b: seq<Boundary>, successful: Coverage)
    requires multiset(a) == multiset(b)
    ensures Warnings(a, successful) == [] <==> Warnings(b, successful) == []
    ensures forall w: Warning ::
      w.kind != Metrics || Warning(Scope, w.filePath, w.startLine) !in Warnings(a, successful) ==>
        (w in Warnings(a, successful) <==> w in Warnings(b, successful))
  {
    hide Warnings, Cause;
    forall w: Warning | w.kind != Metrics || Warning(Scope, w.filePath, w.startLine) !in Warnings(a, successful)
      ensures w in Warnings(a, successful) <==> w in Warnings(b, successful)
    {
      SameWarning(a, b, successful, w);
    }
    NoneOrSome(a, b, successful);
    NoneOrSome(b, a, successful);
  }

  lemma SameWarning(a: seq<Boundary>, b: seq<Boundary>, successful: Coverage, w: Warning)
    requires multiset(a) == multiset(b)
    requires w.kind != Metrics || Warning(Scope, w.filePath, w.startLine) !in Warnings(a, successful)
    ensures w in Warnings(a, successful) <==> w in Warnings(b, successful)
  {
    hide Warnings, Complete, Conditional, VariantSeen;
    var scope := Warning(Scope, w.filePath, w.startLine);
    WarningsMean(a, successful, w);
    WarningsMean(b, successful, w);
    WarningsMean(a, successful, scope);
    forall key | OnLine(w, key)
      ensures Cause(w.kind, a, successful, key) <==> Cause(w.kind, b, successful, key)
    {
      if w.kind == Metrics {
        assert OnLine(scope, key);
        assert !Cause(Scope, a, successful, key);
      }
      CausePermuted(w.kind, a, b, successful, key);
    }
    hide Cause;
  }

  /** No warning in one order means none in any other. */
  lemma NoneOrSome(a: seq<Boundary>, b: seq<Boundary>, successful: Coverage)
    requires multiset(a) == multiset(b)
    ensures Warnings(a, successful) == [] ==> Warnings(b, successful) == []
  {
    hide Warnings;
    if Warnings(a, successful) == [] && Warnings(b, successful) != [] {
      SameWarning(a, b, successful, Warnings(b, successful)[0]);
    }
  }

  // --------------------------------------------------------------- when the order decides

  /** Two observations, not one counted twice, have one shape and vary. */
  ghost predicate PairVaries(observations: seq<Boundary>) {
    exists x: Boundary, y: Boundary :: multiset{x, y} <= multiset(observations) && x.shape == y.shape && Variant([x, y])
  }

  /** Some location on the line has two observations of one shape that vary. */
  ghost predicate SomePairVaries(w: Warning, boundaries: seq<Boundary>) {
    exists key :: OnLine(w, key) && PairVaries(At(boundaries, key))
  }

  /** The same, at a location whose observations all have one shape. */
  ghost predicate AgreeingPairVaries(w: Warning, boundaries: seq<Boundary>) {
    exists key :: OnLine(w, key) && Agree(At(boundaries, key)) && PairVaries(At(boundaries, key))
  }

  ghost predicate WarnsInOrder(w: Warning, boundaries: seq<Boundary>, successful: Coverage, order: seq<Boundary>) {
    multiset(order) == multiset(boundaries) && w in Warnings(order, successful)
  }

  ghost predicate SilentInOrder(w: Warning, boundaries: seq<Boundary>, successful: Coverage, order: seq<Boundary>) {
    multiset(order) == multiset(boundaries) && w !in Warnings(order, successful)
  }

  lemma PairVariesPermuted(a: seq<Boundary>, b: seq<Boundary>)
    requires multiset(a) == multiset(b)
    ensures PairVaries(a) == PairVaries(b)
  {
    hide Variant;
  }

  /** Where a metric warning is due, two observations of one shape vary. */
  lemma SeenHasPair(observations: seq<Boundary>)
    requires VariantSeen(observations)
    ensures PairVaries(observations)
  {
    var k :| 2 <= k <= |observations| && Agree(observations[..k]) && Variant(observations[..k]);
    VariantHasPair(observations[..k]);
    assert observations == observations[..k] + observations[k..];
    hide Variant;
  }

  lemma VariantHasPair(observations: seq<Boundary>)
    requires |observations| >= 2 && Agree(observations) && Variant(observations)
    ensures PairVaries(observations)
  {
    if Flagged(observations) {
      var o :| o in observations && o.variant;
      var i :| 0 <= i < |observations| && observations[i] == o;
      var j := if i == 0 then 1 else 0;
      assert o in [o, observations[j]];
      assert Variant([o, observations[j]]);
      TwoOf(observations, i, j);
    } else {
      var m, n :| m in AllMetrics(observations) && n in AllMetrics(observations) && MetricTriple(m) != MetricTriple(n);
      var o :| o in observations && m in o.metrics;
      var u :| u in observations && n in u.metrics;
      var i :| 0 <= i < |observations| && observations[i] == o;
      var j :| 0 <= j < |observations| && observations[j] == u;
      if i == j {
        j := if i == 0 then 1 else 0;
      }
      var pair := [observations[i], observations[j]];
      assert observations[i] in pair && observations[j] in pair;
      assert m in AllMetrics(pair) && n in AllMetrics(pair);
      assert Variant(pair);
      TwoOf(observations, i, j);
    }
  }

  /** Two places of a list hold two of its members. */
  lemma TwoOf<T>(s: seq<T>, i: nat, j: nat)
    requires i < |s| && j < |s| && i != j
    ensures multiset{s[i], s[j]} <= multiset(s)
  {
    if i < j {
      TwoInOrder(s, i, j);
    } else {
      TwoInOrder(s, j, i);
    }
  }

  lemma TwoInOrder<T>(s: seq<T>, i: nat, j: nat)
    requires i < j < |s|
    ensures multiset{s[i], s[j]} <= multiset(s)
  {
    var before, after := s[..j], s[j..];
    assert s == before + after;
    assert before[i] in multiset(before) && after[0] in multiset(after);
  }

  /** All observations of a location whose pair varies vary themselves. */
  lemma PairMakesVariant(observations: seq<Boundary>)
    requires PairVaries(observations)
    ensures |observations| >= 2 && Variant(observations)
  {
    var x: Boundary, y: Boundary :| multiset{x, y} <= multiset(observations) && x.shape == y.shape && Variant([x, y]);
    hide Variant;
    PairCounts(observations, x, y);
    assert x in multiset{x, y} && y in multiset{x, y};
    assert x in observations && y in observations;
    VariantGrows([x, y], observations);
  }

  lemma PairCounts<T>(s: seq<T>, x: T, y: T)
    requires multiset{x, y} <= multiset(s)
    ensures |s| >= 2
  {
    assert multiset(s) == multiset{x, y} + (multiset(s) - multiset{x, y});
    assert |multiset(s)| == |s|;
  }

  lemma VariantGrows(few: seq<Boundary>, many: seq<Boundary>)
    requires Variant(few) && forall o | o in few :: o in many
    ensures Variant(many)
  {
    assert AllMetrics(few) <= AllMetrics(many);
    hide AllMetrics;
  }

  // ------------------------------------------------------------------------- rearranging

  /** `s` without one `x`. */
  ghost function Without<T>(s: seq<T>, x: T): (r: seq<T>)
    requires x in s
    ensures multiset(r) == multiset(s) - multiset{x}
  {
    var i :| 0 <= i < |s| && s[i] == x;
    assert s == s[..i] + [x] + s[i + 1..];
    s[..i] + s[i + 1..]
  }

  /** Two members first, then the others. */
  lemma PairFirst<T>(s: seq<T>, x: T, y: T) returns (rest: seq<T>)
    requires multiset{x, y} <= multiset(s)
    ensures multiset([x, y] + rest) == multiset(s)
  {
    assert x in multiset{x, y};
    var most := Without(s, x);
    assert multiset(most) == multiset(s) - multiset{x};
    assert y in multiset(most);
    rest := Without(most, y);
    assert multiset([x, y]) == multiset{x, y};
    assert multiset([x, y] + rest) == multiset{x, y} + multiset(rest);
  }

  lemma {:induction false} AtConcat(a: seq<Boundary>, b: seq<Boundary>, key: Key)
    ensures At(a + b, key) == At(a, key) + At(b, key)
    decreases |b|
  {
    if b == [] {
      assert a + b == a;
    } else {
      var init, last := b[..|b| - 1], b[|b| - 1];
      assert a + b == (a + init) + [last];
      AtConcat(a, init, key);
      AtStep(a + init, last, key);
    }
  }

  /** Two observations of one shape that vary give a warning when they come first. */
  lemma PairFirstWarns(w: Warning, boundaries: seq<Boundary>, successful: Coverage) returns (order: seq<Boundary>)
    requires w.kind == Metrics && SomePairVaries(w, boundaries)
    ensures WarnsInOrder(w, boundaries, successful, order)
  {
    hide Warnings, At, Variant, Agree;
    var key :| OnLine(w, key) && PairVaries(At(boundaries, key));
    var observations := At(boundaries, key);
    var x: Boundary, y: Boundary :| multiset{x, y} <= multiset(observations) && x.shape == y.shape && Variant([x, y]);
    AtWithin(boundaries, key);
    AtHasKey(boundaries, key);
    assert x in multiset{x, y} && y in multiset{x, y};
    assert x in observations && y in observations;
    var rest := PairFirst(boundaries, x, y);
    order := [x, y] + rest;
    AtConcat([x, y], rest, key);
    AllHere([x, y], key);
    FirstTwoSeen(x, y, At(rest, key));
    WarningsMean(order, successful, w);
    assert Cause(Metrics, order, successful, key);
  }

  lemma FirstTwoSeen(x: Boundary, y: Boundary, rest: seq<Boundary>)
    requires x.shape == y.shape && Variant([x, y])
    ensures VariantSeen([x, y] + rest)
  {
    hide Variant;
    assert ([x, y] + rest)[..2] == [x, y];
    assert Agree([x, y]);
  }

  lemma AtWithin(boundaries: seq<Boundary>, key: Key)
    ensures multiset(At(boundaries, key)) <= multiset(boundaries)
  {
    forall x
      ensures multiset(At(boundaries, key))[x] <= multiset(boundaries)[x]
    {
      AtCounts(boundaries, key, x);
    }
  }

  /** The observations of one location with two different shapes first, if there are such. */
  lemma Quieted(observations: seq<Boundary>) returns (order: seq<Boundary>)
    ensures multiset(order) == multiset(observations)
    ensures Agree(observations) ==> order == observations
    ensures !Agree(observations) ==> !VariantSeen(order)
  {
    if Agree(observations) {
      order := observations;
    } else {
      var x, y :| x in observations && y in observations && x.shape != y.shape;
      var i :| 0 <= i < |observations| && observations[i] == x;
      var j :| 0 <= j < |observations| && observations[j] == y;
      TwoOf(observations, i, j);
      var rest := PairFirst(observations, x, y);
      order := [x, y] + rest;
      NeverAgree(x, y, rest);
    }
  }

  lemma NeverAgree(x: Boundary, y: Boundary, rest: seq<Boundary>)
    requires x.shape != y.shape
    ensures !VariantSeen([x, y] + rest)
  {
    var order := [x, y] + rest;
    forall k | 2 <= k <= |order|
      ensures !Agree(order[..k])
    {
      assert order[..k][0] == x && order[..k][1] == y;
    }
  }

  /** Each location in turn, quieted. */
  lemma {:induction false} QuietOrder(boundaries: seq<Boundary>, keys: seq<Key>) returns (order: seq<Boundary>)
    requires NoRepeats(keys)
    ensures forall key | key in keys :: multiset(At(order, key)) == multiset(At(boundaries, key))
    ensures forall key | key !in keys :: At(order, key) == []
    ensures forall key | key in keys && !Agree(At(boundaries, key)) :: !VariantSeen(At(order, key))
  {
    hide Agree, VariantSeen;
    if keys == [] {
      order := [];
    } else {
      var init, last := keys[..|keys| - 1], keys[|keys| - 1];
      assert keys == init + [last];
      var before := QuietOrder(boundaries, init);
      var own := Quieted(At(boundaries, last));
      AtHasKey(boundaries, last);
      PermutedMembers(At(boundaries, last), own);
      order := before + own;
      assert last !in init;
      forall key
        ensures At(order, key) == if key == last then own else At(before, key)
      {
        AtConcat(before, own, key);
        if key == last {
          AllHere(own, key);
        } else {
          NoneHere(own, key);
        }
      }
    }
  }

  lemma QuietIsPermutation(boundaries: seq<Boundary>, order: seq<Boundary>)
    requires forall key :: multiset(At(order, key)) == multiset(At(boundaries, key))
    ensures multiset(order) == multiset(boundaries)
  {
    forall x: Boundary
      ensures multiset(order)[x] == multiset(boundaries)[x]
    {
      AtCounts(order, x.key, x);
      AtCounts(boundaries, x.key, x);
      assert multiset(At(order, x.key)) == multiset(At(boundaries, x.key));
    }
  }

  /** Unless an agreeing location varies, some order gives no metric warning. */
  lemma SomeOrderIsSilent(w: Warning, boundaries: seq<Boundary>, successful: Coverage) returns (order: seq<Boundary>)
    requires w.kind == Metrics && !AgreeingPairVaries(w, boundaries)
    ensures SilentInOrder(w, boundaries, successful, order)
  {
    hide Warnings, At, Agree, VariantSeen, PairVaries, NoRepeats;
    var keys := KeysOf(boundaries);
    KeysAreDistinct(boundaries);
    order := QuietOrder(boundaries, keys);
    forall key
      ensures multiset(At(order, key)) == multiset(At(boundaries, key))
    {
      KeysObserved(boundaries, key);
    }
    QuietIsPermutation(boundaries, order);
    WarningsMean(order, successful, w);
    forall key | OnLine(w, key)
      ensures !Cause(Metrics, order, successful, key)
    {
      if key !in keys {
        NothingVaries();
      } else if Agree(At(boundaries, key)) {
        PairVariesPermuted(At(order, key), At(boundaries, key));
        if VariantSeen(At(order, key)) {
          SeenHasPair(At(order, key));
        }
      }
    }
  }

  lemma NothingVaries()
    ensures !VariantSeen([])
  {
  }

  /** An agreeing location that varies gives its warning in every order. */
  lemma AgreeingAlwaysWarns(w: Warning, boundaries: seq<Boundary>, successful: Coverage, order: seq<Boundary>)
    requires w.kind == Metrics && AgreeingPairVaries(w, boundaries) && multiset(order) == multiset(boundaries)
    ensures w in Warnings(order, successful)
  {
    hide Warnings, At, Agree, PairVaries, Variant;
    var key :| OnLine(w, key) && Agree(At(boundaries, key)) && PairVaries(At(boundaries, key));
    PairMakesVariant(At(boundaries, key));
    VariantOfAgreeing(At(boundaries, key));
    CausePermuted(Metrics, boundaries, order, successful, key);
    assert Cause(Metrics, order, successful, key);
    WarningsMean(order, successful, w);
  }

  /** Whether a metric warning is issued depends on the order exactly when some location on its line has two
    observations of one shape that vary, and none whose observations all have one shape does. */
  lemma OrderDecidesMetricsIff(w: Warning, boundaries: seq<Boundary>, successful: Coverage)
    requires w.kind == Metrics
    ensures (exists a, b :: WarnsInOrder(w, boundaries, successful, a) && SilentInOrder(w, boundaries, successful, b))
      <==> SomePairVaries(w, boundaries) && !AgreeingPairVaries(w, boundaries)
  {
    hide Warnings, At, Agree, PairVaries, VariantSeen;
    if SomePairVaries(w, boundaries) && !AgreeingPairVaries(w, boundaries) {
      var a := PairFirstWarns(w, boundaries, successful);
      var b := SomeOrderIsSilent(w, boundaries, successful);
    }
    forall a, b | WarnsInOrder(w, boundaries, successful, a) && SilentInOrder(w, boundaries, successful, b)
      ensures SomePairVaries(w, boundaries) && !AgreeingPairVaries(w, boundaries)
    {
      WarningsMean(a, successful, w);
      var key :| OnLine(w, key) && Cause(Metrics, a, successful, key);
      SeenHasPair(At(a, key));
      AtPermuted(a, boundaries, key);
      PairVariesPermuted(At(a, key), At(boundaries, key));
      if AgreeingPairVaries(w, boundaries) {
        AgreeingAlwaysWarns(w, boundaries, successful, b);
      }
    }
  }

  // ---------------------------------------------------------------------------- an input

  /** One observation as the parser of one configuration writes it. */
  function Sample(configuration: string, lines: nat, shape: Shape): Boundary {
    Boundary(Key("f.cpp", 1, Some(1)), shape, lines, 0, 0, [configuration], [Metric(configuration, lines, 0, 0)],
             false, false)
  }

  /** Two configurations count different lines and a third one sees another shape: the metric warning is
    issued only when the two come first. */
  lemma MetricOrderExample(shape: Shape, other: Shape, successful: Coverage)
    requires shape != other
    ensures var a, b, c := Sample("x", 1, shape), Sample("y", 2, shape), Sample("z", 1, other);
      var w := Warning(Metrics, "f.cpp", 1);
      multiset([a, b, c]) == multiset([a, c, b])
      && w in Warnings([a, b, c], successful) && w !in Warnings([a, c, b], successful)
  {
    var a, b, c := Sample("x", 1, shape), Sample("y", 2, shape), Sample("z", 1, other);
    var w := Warning(Metrics, "f.cpp", 1);
    hide Warnings, Variant, MetricTriple;
    TripleIs(a.metrics[0]);
    TripleIs(b.metrics[0]);
    SamplesVary(a, b);
    VaryingFirst(w, a, b, c, successful);
    DifferingFirst(w, a, c, b, successful);
    hide *;
    SwapLast(a, b, c);
  }

  lemma TripleIs(m: Metric)
    ensures MetricTriple(m) == (m.lines, m.statements, m.parameters)
  {
  }

  lemma SwapLast<T>(x: T, y: T, z: T)
    ensures multiset([x, y, z]) == multiset([x, z, y])
  {
  }

  lemma VaryingFirst(w: Warning, x: Boundary, y: Boundary, z: Boundary, successful: Coverage)
    requires w.kind == Metrics && OnLine(w, x.key) && x.key == y.key == z.key && x.shape == y.shape && Variant([x, y])
    ensures w in Warnings([x, y, z], successful)
  {
    hide Warnings, Variant, VariantSeen, At, Agree;
    AllHere([x, y, z], x.key);
    assert [x, y, z] == [x, y] + [z];
    FirstTwoSeen(x, y, [z]);
    assert Cause(Metrics, [x, y, z], successful, x.key);
    WarningsMean([x, y, z], successful, w);
  }

  lemma DifferingFirst(w: Warning, x: Boundary, y: Boundary, z: Boundary, successful: Coverage)
    requires w.kind == Metrics && x.key == y.key == z.key && x.shape != y.shape
    ensures w !in Warnings([x, y, z], successful)
  {
    hide Warnings, Variant, VariantSeen, At, Agree;
    WarningsMean([x, y, z], successful, w);
    AllHere([x, y, z], x.key);
    assert [x, y, z] == [x, y] + [z];
    NeverAgree(x, y, [z]);
    forall key | OnLine(w, key)
      ensures !Cause(Metrics, [x, y, z], successful, key)
    {
      if key != x.key {
        NoneHere([x, y, z], key);
        NothingVaries();
      }
    }
  }

  lemma SamplesVary(a: Boundary, b: Boundary)
    requires a.metrics != [] && b.metrics != [] && MetricTriple(a.metrics[0]) != MetricTriple(b.metrics[0])
    ensures Variant([a, b])
  {
    var pair := [a, b];
    assert a in pair && b in pair;
    assert a.metrics[0] in a.metrics && b.metrics[0] in b.metrics;
    assert a.metrics[0] in AllMetrics(pair) && b.metrics[0] in AllMetrics(pair);
  }

  lemma {:induction false} AllHere(boundaries: seq<Boundary>, key: Key)
    requires forall o | o in boundaries :: o.key == key
    ensures At(boundaries, key) == boundaries
  {
    if boundaries != [] {
      AllHere(boundaries[..|boundaries| - 1], key);
    }
  }

  lemma {:induction false} NoneHere(boundaries: seq<Boundary>, key: Key)
    requires forall o | o in boundaries :: o.key != key
    ensures At(boundaries, key) == []
  {
    if boundaries != [] {
      NoneHere(boundaries[..|boundaries| - 1], key);
    }
  }
}
