/** Function boundaries observed under many compiler configurations, merged into one per location. */
module BoundaryMerge {
  import opened Basics
  import opened Orders

  datatype Metric = Metric(configuration: string, lines: nat, statements: nat, parameters: nat)

  datatype Key = Key(filePath: string, startLine: nat, startColumn: Option<nat>)

  /** What every observation of one location must agree on. */
  datatype Shape = Shape(endLine: nat, endColumn: Option<nat>, bodyStartLine: nat, bodyStartColumn: nat, name: string,
                         kind: string, isTemplate: bool, origin: string)

  datatype Boundary = Boundary(key: Key, shape: Shape, lines: nat, statements: nat, parameters: nat,
                               configurations: seq<string>, metrics: seq<Metric>, variant: bool, conditional: bool)

  // ------------------------------------------------------------------------- orders

  function MetricTriple(m: Metric): (nat, nat, nat) {
    (m.lines, m.statements, m.parameters)
  }

  predicate NatTripleLess(a: (nat, nat, nat), b: (nat, nat, nat)) {
    a.0 < b.0 || (a.0 == b.0 && (a.1 < b.1 || (a.1 == b.1 && a.2 < b.2)))
  }

  predicate MetricLess(a: Metric, b: Metric) {
    || StringLess(a.configuration, b.configuration)
    || (a.configuration == b.configuration && NatTripleLess(MetricTriple(a), MetricTriple(b)))
  }

  lemma MetricLessIsTotal()
    ensures StrictTotalOrder(MetricLess)
  {
    StringLessIsTotal();
    hide StringLess;
  }

  // ------------------------------------------------------------------ sorted unions

  /** `sorted({...})` as a function: the members, ascending, each once. */
  function Collect<T(==)>(less: (T, T) -> bool, s: seq<T>): seq<T> {
    if s == [] then []
    else
      var r := Collect(less, s[..|s| - 1]);
      if s[|s| - 1] in r then r else Insert(less, r, s[|s| - 1])
  }

  lemma {:induction false} CollectSorts<T(!new)>(less: (T, T) -> bool, s: seq<T>)
    requires StrictTotalOrder(less)
    ensures Ascending(less, Collect(less, s)) && Elements(Collect(less, s)) == Elements(s)
  {
    if s != [] {
      var init, last := s[..|s| - 1], s[|s| - 1];
      CollectSorts(less, init);
      var r := Collect(less, init);
      assert s == init + [last];
      assert Elements(s) == Elements(init) + {last};
      assert last in r <==> last in Elements(r);
      if last !in r {
        InsertAscending(less, r, last);
      }
    }
  }

  method SortedUnion<T(==,!new)>(less: (T, T) -> bool, a: seq<T>, b: seq<T>) returns (r: seq<T>)
    requires StrictTotalOrder(less)
    ensures r == Collect(less, a + b)
  {
    var members := (set x | x in a) + (set x | x in b);
    r := SortSet(less, members);
    CollectSorts(less, a + b);
    assert Elements(a + b) == members;
    AscendingUnique(less, r, Collect(less, a + b));
  }

  // ----------------------------------------------------------------- one more observation

  /** Two configurations measured different values. */
  ghost predicate Varies(metrics: seq<Metric>) {
    exists a, b | a in metrics && b in metrics :: MetricTriple(a) != MetricTriple(b)
  }

  /** What a grouped boundary becomes with one more observation of the same shape. */
  ghost function Absorb(e: Boundary, b: Boundary): Boundary {
    var metrics := Collect(MetricLess, e.metrics + b.metrics);
    Boundary(e.key, e.shape, Max(e.lines, b.lines), Max(e.statements, b.statements), Max(e.parameters, b.parameters),
             Collect(StringLess, e.configurations + b.configurations), metrics,
             e.variant || b.variant || Varies(metrics), e.conditional || b.conditional)
  }

  datatype Status = Unseen | Grouped(boundary: Boundary) | Rejected

  /** One observation of the location. */
  ghost function Observe(status: Status, b: Boundary): Status {
    match status
    case Rejected => Rejected
    case Unseen => Grouped(b)
    case Grouped(e) => if e.shape != b.shape then Rejected else Grouped(Absorb(e, b))
  }

  /** The observations of one location in order. */
  function At(boundaries: seq<Boundary>, key: Key): seq<Boundary> {
    if boundaries == [] then []
    else
      var rest, last := At(boundaries[..|boundaries| - 1], key), boundaries[|boundaries| - 1];
      if last.key == key then rest + [last] else rest
  }

  ghost function StatusOf(observations: seq<Boundary>): Status {
    if observations == [] then Unseen
    else Observe(StatusOf(observations[..|observations| - 1]), observations[|observations| - 1])
  }

  /** The locations in the order of their first observations. */
  function KeysOf(boundaries: seq<Boundary>): seq<Key> {
    if boundaries == [] then []
    else
      var rest, key := KeysOf(boundaries[..|boundaries| - 1]), boundaries[|boundaries| - 1].key;
      if key in rest then rest else rest + [key]
  }

  // -------------------------------------------------------------------------- the merge

  type Coverage = map<string, set<string>>

  /** All configurations that compiled the file observed the boundary. */
  predicate Covered(b: Boundary, successful: Coverage) {
    b.key.filePath in successful ==> (set c | c in b.configurations) == successful[b.key.filePath]
  }

  /** What is kept of a location, if anything. */
  ghost function KeptAt(boundaries: seq<Boundary>, successful: Coverage, key: Key): Option<Boundary> {
    match StatusOf(At(boundaries, key))
    case Grouped(b) => if Covered(b, successful) then Some(b) else None
    case _ => None
  }

  ghost function Values(boundaries: seq<Boundary>, successful: Coverage, keys: seq<Key>): seq<Boundary> {
    if keys == [] then []
    else
      var rest := Values(boundaries, successful, keys[..|keys| - 1]);
      match KeptAt(boundaries, successful, keys[|keys| - 1])
      case None => rest
      case Some(b) => rest + [b]
  }

  type SortKey = (string, nat, nat, string)

  function SortKeyOf(b: Boundary): SortKey {
    (b.key.filePath, b.key.startLine, if b.key.startColumn.Some? then b.key.startColumn.value else 0, b.shape.name)
  }

  predicate SortKeyLess(a: SortKey, b: SortKey) {
    || StringLess(a.0, b.0)
    || (a.0 == b.0 && (a.1 < b.1 || (a.1 == b.1 && (a.2 < b.2 || (a.2 == b.2 && StringLess(a.3, b.3))))))
  }

  lemma SortKeyLessIsTotal()
    ensures StrictTotalOrder(SortKeyLess)
  {
    StringLessIsTotal();
    hide StringLess;
  }

  /** The boundaries the merge returns. */
  ghost function Merged(boundaries: seq<Boundary>, successful: Coverage): seq<Boundary> {
    SortByKey(SortKeyOf, SortKeyLess, Values(boundaries, successful, KeysOf(boundaries)))
  }

  // ------------------------------------------------------------------------ the warnings

  /** A scope that differs, metrics that differ, an observation that is missing, and metrics that depend
    on the preprocessor. */
  datatype Kind = Scope | Metrics | Incomplete | Preprocessor

  /** A warning names the file and the line; each is issued once. */
  datatype Warning = Warning(kind: Kind, filePath: string, startLine: nat)

  function WarningAt(kind: Kind, b: Boundary): Warning {
    Warning(kind, b.key.filePath, b.key.startLine)
  }

  function Warn(warnings: seq<Warning>, kind: Kind, b: Boundary): seq<Warning> {
    if WarningAt(kind, b) in warnings then warnings else warnings + [WarningAt(kind, b)]
  }

  /** What one more observation of a location gives a warning about. */
  ghost function Trouble(status: Status, b: Boundary): Option<Kind> {
    match status
    case Grouped(e) => if e.shape != b.shape then Some(Scope) else if Absorb(e, b).variant then Some(Metrics) else None
    case _ => None
  }

  ghost function WarnOf(warnings: seq<Warning>, kind: Option<Kind>, b: Boundary): seq<Warning> {
    match kind
    case None => warnings
    case Some(k) => Warn(warnings, k, b)
  }

  /** The warnings of the grouping, in the order of the observations. */
  ghost function GroupingWarnings(boundaries: seq<Boundary>): seq<Warning> {
    if boundaries == [] then []
    else
      var init, last := boundaries[..|boundaries| - 1], boundaries[|boundaries| - 1];
      WarnOf(GroupingWarnings(init), Trouble(StatusOf(At(init, last.key)), last), last)
  }

  /** A grouped location that some successful configuration did not observe, or that another one did. */
  ghost function CoverageTrouble(boundaries: seq<Boundary>, successful: Coverage, key: Key): Option<Boundary> {
    match StatusOf(At(boundaries, key))
    case Grouped(b) => if Covered(b, successful) then None else Some(b)
    case _ => None
  }

  ghost function CoverageWarnings(boundaries: seq<Boundary>, successful: Coverage, keys: seq<Key>,
                                  before: seq<Warning>):
    seq<Warning>
  {
    if keys == [] then before
    else
      var rest := CoverageWarnings(boundaries, successful, keys[..|keys| - 1], before);
      match CoverageTrouble(boundaries, successful, keys[|keys| - 1])
      case None => rest
      case Some(b) => Warn(rest, Incomplete, b)
  }

  ghost function PreprocessorWarnings(values: seq<Boundary>, before: seq<Warning>): seq<Warning> {
    if values == [] then before
    else
      var rest, last := PreprocessorWarnings(values[..|values| - 1], before), values[|values| - 1];
      if last.conditional then Warn(rest, Preprocessor, last) else rest
  }

  /** The warnings the merge returns. */
  ghost function Warnings(boundaries: seq<Boundary>, successful: Coverage): seq<Warning> {
    var keys := KeysOf(boundaries);
    PreprocessorWarnings(Values(boundaries, successful, keys),
                         CoverageWarnings(boundaries, successful, keys, GroupingWarnings(boundaries)))
  }

  // ------------------------------------------------------------------------- the method

  /** The dictionary and the rejected set after some boundaries. */
  ghost predicate Tracks(boundaries: seq<Boundary>, grouped: map<Key, Boundary>, rejected: set<Key>) {
    forall key :: TracksKey(boundaries, grouped, rejected, key)
  }

  ghost predicate TracksKey(boundaries: seq<Boundary>, grouped: map<Key, Boundary>, rejected: set<Key>, key: Key) {
    match StatusOf(At(boundaries, key))
    case Unseen => key !in grouped && key !in rejected
    case Grouped(b) => key in grouped && grouped[key] == b && key !in rejected
    case Rejected => key !in grouped && key in rejected
  }

  method AbsorbBoundary(existing: Boundary, boundary: Boundary) returns (r: Boundary)
    ensures r == Absorb(existing, boundary)
  {
    hide StringLess;
    StringLessIsTotal();
    MetricLessIsTotal();
    hide MetricLess;
    var metrics := SortedUnion(MetricLess, existing.metrics, boundary.metrics);
    var configurations := SortedUnion(StringLess, existing.configurations, boundary.configurations);
    var values := set m | m in metrics :: MetricTriple(m);
    VariesCounts(metrics, values);
    var variant := existing.variant || boundary.variant || |values| > 1;
    r := existing.(lines := Max(existing.lines, boundary.lines),
      statements := Max(existing.statements, boundary.statements),
                   parameters := Max(existing.parameters, boundary.parameters), configurations := configurations,
                   metrics := metrics, variant := variant, conditional := existing.conditional || boundary.conditional);
  }

  lemma VariesCounts(metrics: seq<Metric>, values: set<(nat, nat, nat)>)
    requires values == set m | m in metrics :: MetricTriple(m)
    ensures Varies(metrics) <==> |values| > 1
  {
    if Varies(metrics) {
      var a, b :| a in metrics && b in metrics && MetricTriple(a) != MetricTriple(b);
      assert {MetricTriple(a), MetricTriple(b)} <= values;
      SubsetSize({MetricTriple(a), MetricTriple(b)}, values);
    }
    if |values| > 1 {
      var x :| x in values;
      var rest := values - {x};
      assert |rest| > 0;
      var y :| y in rest;
      var a :| a in metrics && MetricTriple(a) == x;
      var b :| b in metrics && MetricTriple(b) == y;
    }
  }

  /** One boundary changes the status of its own location only. */
  lemma TracksStep(boundaries: seq<Boundary>, b: Boundary, grouped: map<Key, Boundary>, rejected: set<Key>,
                   grouped2: map<Key, Boundary>, rejected2: set<Key>)
    requires Tracks(boundaries, grouped, rejected)
    requires forall key | key != b.key :: key in grouped2 <==> key in grouped
    requires forall key | key != b.key && key in grouped :: grouped2[key] == grouped[key]
    requires forall key | key != b.key :: key in rejected2 <==> key in rejected
    requires match Observe(StatusOf(At(boundaries, b.key)), b)
      case Unseen => false
      case Grouped(e) => b.key in grouped2 && grouped2[b.key] == e && b.key !in rejected2
      case Rejected => b.key !in grouped2 && b.key in rejected2
    ensures Tracks(boundaries + [b], grouped2, rejected2)
  {
    hide Observe;
    var more := boundaries + [b];
    assert more[..|more| - 1] == boundaries;
    forall key
      ensures TracksKey(more, grouped2, rejected2, key)
    {
      assert TracksKey(boundaries, grouped, rejected, key);
      if key == b.key {
        StatusStep(At(boundaries, key), b);
      }
    }
  }

  lemma StatusStep(observations: seq<Boundary>, b: Boundary)
    ensures StatusOf(observations + [b]) == Observe(StatusOf(observations), b)
  {
  }

  lemma TracksNothing()
    ensures Tracks([], map[], {})
  {
  }

  /** The kept boundaries, in the order of their first observations. */
  method CollectCovered(keys: seq<Key>, grouped: map<Key, Boundary>, successful: Coverage, before: seq<Warning>,
                        ghost boundaries: seq<Boundary>, ghost rejected: set<Key>)
    returns (values: seq<Boundary>, warnings: seq<Warning>)
    requires Tracks(boundaries, grouped, rejected)
    ensures values == Values(boundaries, successful, keys)
    ensures warnings == CoverageWarnings(boundaries, successful, keys, before)
  {
    hide StatusOf, Covered, Warn;
    values, warnings := [], before;
    for i := 0 to |keys|
      invariant values == Values(boundaries, successful, keys[..i])
      invariant warnings == CoverageWarnings(boundaries, successful, keys[..i], before)
    {
      assert keys[..i + 1][..i] == keys[..i];
      assert TracksKey(boundaries, grouped, rejected, keys[i]);
      if keys[i] in grouped {
        if Covered(grouped[keys[i]], successful) {
          values := values + [grouped[keys[i]]];
        } else {
          warnings := Warn(warnings, Incomplete, grouped[keys[i]]);
        }
      }
    }
    assert keys[..|keys|] == keys;
  }

  method WarnConditional(values: seq<Boundary>, before: seq<Warning>) returns (warnings: seq<Warning>)
    ensures warnings == PreprocessorWarnings(values, before)
  {
    hide Warn;
    warnings := before;
    for i := 0 to |values|
      invariant warnings == PreprocessorWarnings(values[..i], before)
    {
      assert values[..i + 1][..i] == values[..i];
      if values[i].conditional {
        warnings := Warn(warnings, Preprocessor, values[i]);
      }
    }
    assert values[..|values|] == values;
  }

  method MergeBoundaries(boundaries: seq<Boundary>, successful: Coverage)
    returns (ordered: seq<Boundary>, warnings: seq<Warning>)
    ensures ordered == Merged(boundaries, successful)
    ensures warnings == Warnings(boundaries, successful)
  {
    hide Tracks, TracksKey, StatusOf, At, Absorb, Values, Warn;
    warnings := [];
    var keys: seq<Key> := [];
    var grouped: map<Key, Boundary> := map[];
    var rejected: set<Key> := {};
    TracksNothing();
    for i := 0 to |boundaries|
      invariant Tracks(boundaries[..i], grouped, rejected) && keys == KeysOf(boundaries[..i])
      invariant warnings == GroupingWarnings(boundaries[..i])
    {
      var boundary := boundaries[i];
      var key := boundary.key;
      ghost var before, was, refused := boundaries[..i], grouped, rejected;
      assert boundaries[..i + 1] == before + [boundary] && boundaries[..i + 1][..i] == before;
      StatusIn(before, grouped, rejected, key);
      KeyKnown(before, key);
      if key in rejected {
        TracksStep(before, boundary, was, refused, grouped, rejected);
        continue;
      }
      if key !in grouped {
        keys := keys + [key];
        grouped := grouped[key := boundary];
        TracksStep(before, boundary, was, refused, grouped, rejected);
        continue;
      }
      var existing := grouped[key];
      if existing.shape != boundary.shape {
        warnings := Warn(warnings, Scope, boundary);
        grouped := grouped - {key};
        rejected := rejected + {key};
        TracksStep(before, boundary, was, refused, grouped, rejected);
        continue;
      }
      var absorbed := AbsorbBoundary(existing, boundary);
      if absorbed.variant {
        warnings := Warn(warnings, Metrics, boundary);
      }
      grouped := grouped[key := absorbed];
      TracksStep(before, boundary, was, refused, grouped, rejected);
    }
    assert boundaries[..|boundaries|] == boundaries;
    var values;
    values, warnings := CollectCovered(keys, grouped, successful, warnings, boundaries, rejected);
    warnings := WarnConditional(values, warnings);
    ordered := SortByKey(SortKeyOf, SortKeyLess, values);
  }

  lemma StatusIn(boundaries: seq<Boundary>, grouped: map<Key, Boundary>, rejected: set<Key>, key: Key)
    requires Tracks(boundaries, grouped, rejected)
    ensures key in rejected ==> key !in grouped
    ensures StatusOf(At(boundaries, key))
      == if key in rejected then Rejected else if key in grouped then Grouped(grouped[key]) else Unseen
  {
    hide StatusOf, At;
    assert TracksKey(boundaries, grouped, rejected, key);
  }

  /** A location is listed exactly when it was observed. */
  lemma {:induction false} KeyKnown(boundaries: seq<Boundary>, key: Key)
    ensures key in KeysOf(boundaries) <==> StatusOf(At(boundaries, key)) != Unseen
  {
    KeysObserved(boundaries, key);
    if At(boundaries, key) != [] {
      StatusSeen(At(boundaries, key));
    }
  }

  lemma {:induction false} KeysObserved(boundaries: seq<Boundary>, key: Key)
    ensures key in KeysOf(boundaries) <==> At(boundaries, key) != []
  {
    if boundaries != [] {
      KeysObserved(boundaries[..|boundaries| - 1], key);
    }
  }

  lemma StatusSeen(observations: seq<Boundary>)
    requires observations != []
    ensures StatusOf(observations) != Unseen
  {
  }
}
