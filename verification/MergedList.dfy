/** What the list of merged boundaries says in its own terms: the order of its entries and of what each holds. */
module MergedList {
  import opened Basics
  import opened Orders
  import opened BoundaryMerge
  import opened MergeOrder

  function ColumnOrZero(b: Boundary): nat {
    match b.key.startColumn
    case None => 0
    case Some(column) => column
  }

  /** By path, then first line, then first column, a missing one counting as 0, then name. */
  ghost predicate BoundaryEarlier(a: Boundary, b: Boundary) {
    || ComesFirst(a.key.filePath, b.key.filePath)
    || (a.key.filePath == b.key.filePath
        && (a.key.startLine < b.key.startLine
            || (a.key.startLine == b.key.startLine
                && (ColumnOrZero(a) < ColumnOrZero(b)
                    || (ColumnOrZero(a) == ColumnOrZero(b) && ComesFirst(a.shape.name, b.shape.name))))))
  }

  ghost predicate BoundaryTied(a: Boundary, b: Boundary) {
    && a.key.filePath == b.key.filePath && a.key.startLine == b.key.startLine
    && ColumnOrZero(a) == ColumnOrZero(b) && a.shape.name == b.shape.name
  }

  /** By configuration, then lines, then statements, then parameters. */
  ghost predicate MetricEarlier(a: Metric, b: Metric) {
    || ComesFirst(a.configuration, b.configuration)
    || (a.configuration == b.configuration
        && (a.lines < b.lines
            || (a.lines == b.lines
                && (a.statements < b.statements || (a.statements == b.statements && a.parameters < b.parameters)))))
  }

  /** Two configurations measured different lines, statements or parameters. */
  ghost predicate MeasuredApart(observations: seq<Boundary>) {
    exists o, p, a, b ::
      o in observations && p in observations && a in o.metrics && b in p.metrics && DifferentValues(a, b)
  }

  predicate DifferentValues(a: Metric, b: Metric) {
    a.lines != b.lines || a.statements != b.statements || a.parameters != b.parameters
  }

  lemma MetricOrder(a: Metric, b: Metric)
    ensures MetricLess(a, b) <==> MetricEarlier(a, b)
    ensures MetricTriple(a) != MetricTriple(b) <==> DifferentValues(a, b)
  {
    hide StringLess, ComesFirst;
    StringLessMeans(a.configuration, b.configuration);
  }

  lemma BoundaryOrder(a: Boundary, b: Boundary)
    ensures SortKeyLess(SortKeyOf(a), SortKeyOf(b)) <==> BoundaryEarlier(a, b)
    ensures SortKeyOf(a) == SortKeyOf(b) <==> BoundaryTied(a, b)
  {
    hide StringLess, ComesFirst;
    StringLessMeans(a.key.filePath, b.key.filePath);
    StringLessMeans(a.shape.name, b.shape.name);
  }

  /** The returned list is in that order. */
  lemma MergedInOrder(boundaries: seq<Boundary>, successful: Coverage, i: nat, j: nat)
    requires i < j < |Merged(boundaries, successful)|
    ensures var a, b := Merged(boundaries, successful)[i], Merged(boundaries, successful)[j];
      BoundaryEarlier(a, b) || BoundaryTied(a, b)
  {
    hide Merged, SortKeyLess, SortKeyOf, BoundaryEarlier, BoundaryTied;
    var list := Merged(boundaries, successful);
    MergedMembers(boundaries, successful);
    SortKeyLessIsTotal();
    BoundaryOrder(list[i], list[j]);
    BoundaryOrder(list[j], list[i]);
    assert !SortKeyLess(SortKeyOf(list[j]), SortKeyOf(list[i]));
  }

  /** What a returned boundary holds when two or more observations were merged into it. */
  lemma MergedHolds(boundaries: seq<Boundary>, successful: Coverage, b: Boundary)
    requires b in Merged(boundaries, successful) && |At(boundaries, b.key)| > 1
    ensures var observations := At(boundaries, b.key);
      && (forall i, j | 0 <= i < j < |b.configurations| :: ComesFirst(b.configurations[i], b.configurations[j]))
      && (forall c :: c in b.configurations <==> exists o :: o in observations && c in o.configurations)
      && (forall i, j | 0 <= i < j < |b.metrics| :: MetricEarlier(b.metrics[i], b.metrics[j]))
      && (forall m :: m in b.metrics <==> exists o :: o in observations && m in o.metrics)
      && (b.variant <==> (exists o :: o in observations && o.variant) || MeasuredApart(observations))
      && (b.conditional <==> exists o :: o in observations && o.conditional)
  {
    hide Merged;
    MergedMembers(boundaries, successful);
    KeptIff(boundaries, successful, b.key);
    hide KeptAt, Maxima, At;
    var observations := At(boundaries, b.key);
    assert IsMerge(observations, b);
    forall i, j | 0 <= i < j < |b.configurations|
      ensures ComesFirst(b.configurations[i], b.configurations[j])
    {
      hide StringLess, ComesFirst;
      StringLessMeans(b.configurations[i], b.configurations[j]);
    }
    forall i, j | 0 <= i < j < |b.metrics|
      ensures MetricEarlier(b.metrics[i], b.metrics[j])
    {
      hide MetricLess, MetricEarlier;
      MetricOrder(b.metrics[i], b.metrics[j]);
    }
    hide StringLess, MetricLess, MetricEarlier, ComesFirst, Ascending;
    CollectedMembers(observations, b);
    VariesApart(observations);
  }

  lemma CollectedMembers(observations: seq<Boundary>, b: Boundary)
    requires Elements(b.configurations) == AllConfigurations(observations)
    requires Elements(b.metrics) == AllMetrics(observations)
    ensures forall c :: c in b.configurations <==> exists o :: o in observations && c in o.configurations
    ensures forall m :: m in b.metrics <==> exists o :: o in observations && m in o.metrics
  {
    assert forall c :: c in b.configurations <==> c in Elements(b.configurations);
    assert forall m :: m in b.metrics <==> m in Elements(b.metrics);
  }

  lemma VariesApart(observations: seq<Boundary>)
    ensures VariesIn(AllMetrics(observations)) <==> MeasuredApart(observations)
  {
    hide MetricTriple, DifferentValues;
    forall a, b
      ensures MetricTriple(a) != MetricTriple(b) <==> DifferentValues(a, b)
    {
      MetricOrder(a, b);
    }
  }
}
