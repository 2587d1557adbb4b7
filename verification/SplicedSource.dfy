/** Line splicing of C++ source with provenance: every character of the spliced text knows the
  physical line it came from. */
module SplicedSource {
  import opened Basics

  datatype Spliced = Spliced(text: string, physicalLineStarts: seq<nat>, lastPhysicalSourceLine: nat)

  // ------------------------------------------------------------------ what is meant

  /** Character `p` belongs to a backslash directly followed by a newline. */
  predicate InSplice(text: string, p: nat)
    requires p < |text|
  {
    || (text[p] == '\\' && p + 1 < |text| && text[p + 1] == '\n')
    || (text[p] == '\n' && p > 0 && text[p - 1] == '\\')
  }

  /** How many characters before `p` survive splicing. */
  function KeptBefore(text: string, p: nat): (n: nat)
    requires p <= |text|
    ensures n <= p
  {
    if p == 0 then 0 else KeptBefore(text, p - 1) + if InSplice(text, p - 1) then 0 else 1
  }

  function NewlinesBefore(text: string, p: nat): (n: nat)
    requires p <= |text|
    ensures n <= p
  {
    if p == 0 then 0 else NewlinesBefore(text, p - 1) + if text[p - 1] == '\n' then 1 else 0
  }

  /** Physical character `p` is logical character `k` of the spliced text. */
  predicate Originates(text: string, k: nat, p: nat) {
    p < |text| && !InSplice(text, p) && KeptBefore(text, p) == k
  }

  // -------------------------------------------------------------------- the splicing

  /** `text.replace` of backslash-newline pairs by nothing. */
  function WithoutSplices(text: string): string {
    if text == [] then []
    else if |text| > 1 && text[0] == '\\' && text[1] == '\n' then WithoutSplices(text[2..])
    else [text[0]] + WithoutSplices(text[1..])
  }

  /** The logical offset at which each physical line up to `p` starts. */
  function StartsUpTo(text: string, p: nat): (s: seq<nat>)
    requires p <= |text|
    ensures |s| == 1 + NewlinesBefore(text, p)
  {
    if p == 0 then [0]
    else StartsUpTo(text, p - 1) + if text[p - 1] == '\n' then [KeptBefore(text, p)] else []
  }

  /** Position `p` does not cut a pair. */
  predicate Uncut(text: string, p: nat) {
    p <= |text| && (0 < p < |text| && text[p] == '\n' ==> text[p - 1] != '\\')
  }

  predicate PairAt(text: string, p: nat) {
    p + 1 < |text| && text[p] == '\\' && text[p + 1] == '\n'
  }

  /** What one step of the splicing adds. */
  lemma StartsStep(text: string, p: nat)
    requires Uncut(text, p) && p < |text|
    ensures PairAt(text, p) ==>
      && Uncut(text, p + 2)
      && KeptBefore(text, p + 2) == KeptBefore(text, p)
      && StartsUpTo(text, p + 2) == StartsUpTo(text, p) + [KeptBefore(text, p)]
    ensures !PairAt(text, p) ==>
      && Uncut(text, p + 1)
      && KeptBefore(text, p + 1) == KeptBefore(text, p) + 1
      && StartsUpTo(text, p + 1) == StartsUpTo(text, p) + if text[p] == '\n' then [KeptBefore(text, p + 1)] else []
  {
    if PairAt(text, p) {
      assert StartsUpTo(text, p + 1) == StartsUpTo(text, p);
      assert KeptBefore(text, p + 2) == KeptBefore(text, p + 1) == KeptBefore(text, p);
    }
  }

  method SpliceCppSource(text: string) returns (spliced: Spliced)
    ensures spliced.text == WithoutSplices(text)
    ensures spliced.physicalLineStarts == StartsUpTo(text, |text|)
    ensures spliced.lastPhysicalSourceLine
            == NewlinesBefore(text, |text|) + if text != [] && text[|text| - 1] != '\n' then 1 else 0
  {
    var starts: seq<nat> := [0];
    var removed, p: nat := 0, 0;
    assert starts == StartsUpTo(text, 0) && KeptBefore(text, 0) == 0;
    hide StartsUpTo, KeptBefore, InSplice, WithoutSplices;
    while p < |text|
      invariant Uncut(text, p) && removed == p - KeptBefore(text, p)
      invariant starts == StartsUpTo(text, p)
    {
      StartsStep(text, p);
      if text[p] == '\\' && p + 1 < |text| && text[p + 1] == '\n' {
        var offset: nat := p - removed;
        removed := removed + 2;
        starts := starts + [offset];
        p := p + 2;
      } else {
        if text[p] == '\n' {
          starts := starts + [p + 1 - removed];
        }
        p := p + 1;
      }
    }
    var last := 0;
    if text != [] {
      last := |starts| - 1 + if text[|text| - 1] == '\n' then 0 else 1;
    }
    spliced := Spliced(WithoutSplices(text), starts, last);
  }

  /** Bisection to the right. */
  function BisectRight(starts: seq<nat>, offset: nat): (n: nat)
    ensures n <= |starts|
    ensures forall k | 0 <= k < n :: starts[k] <= offset
    ensures n < |starts| ==> offset < starts[n]
  {
    if starts == [] || offset < starts[0] then 0 else 1 + BisectRight(starts[1..], offset)
  }

  /** `line_at`: None where the source raises an index error. */
  function LineAt(spliced: Spliced, offset: int): Option<nat> {
    if offset < 0 || offset >= |spliced.text| then None
    else Some(BisectRight(spliced.physicalLineStarts, offset))
  }

  // ---------------------------------------------------------------- the logical text

  lemma SpliceStep(text: string, p: nat)
    requires Uncut(text, p) && p < |text|
    ensures PairAt(text, p) ==>
      && Uncut(text, p + 2)
      && WithoutSplices(text[p..]) == WithoutSplices(text[p + 2..])
      && InSplice(text, p) && InSplice(text, p + 1)
      && KeptBefore(text, p + 2) == KeptBefore(text, p)
    ensures !PairAt(text, p) ==>
      && Uncut(text, p + 1)
      && WithoutSplices(text[p..]) == [text[p]] + WithoutSplices(text[p + 1..])
      && !InSplice(text, p)
  {
  }

  lemma {:induction false} LogicalLength(text: string, p: nat)
    requires Uncut(text, p)
    ensures |WithoutSplices(text[p..])| == KeptBefore(text, |text|) - KeptBefore(text, p)
    decreases |text| - p
  {
    if p < |text| {
      SpliceStep(text, p);
      LogicalLength(text, if PairAt(text, p) then p + 2 else p + 1);
    }
  }

  /** The spliced text from `p` on holds each surviving character at its place. */
  lemma {:induction false} LogicalAt(text: string, p: nat, q: nat)
    requires Uncut(text, p) && p <= q < |text| && !InSplice(text, q)
    ensures var k := KeptBefore(text, q) - KeptBefore(text, p);
      0 <= k < |WithoutSplices(text[p..])| && WithoutSplices(text[p..])[k] == text[q]
    decreases |text| - p
  {
    hide WithoutSplices, InSplice;
    SpliceStep(text, p);
    if PairAt(text, p) {
      LogicalAt(text, p + 2, q);
    } else if p < q {
      LogicalAt(text, p + 1, q);
    }
  }

  /** Every logical character has exactly one physical character, and it is the same character. */
  lemma OriginIsUnique(text: string, k: nat)
    requires k < |WithoutSplices(text)|
    ensures exists p: nat :: Originates(text, k, p) && text[p] == WithoutSplices(text)[k]
    ensures forall p, q | Originates(text, k, p) && Originates(text, k, q) :: p == q
  {
    assert text[0..] == text;
    LogicalLength(text, 0);
    var p := OriginFrom(text, k, |text|);
    LogicalAt(text, 0, p);
    hide WithoutSplices, InSplice, KeptBefore;
    forall p, q | Originates(text, k, p) && Originates(text, k, q)
      ensures p == q
    {
      if p < q {
        KeptGrows(text, p, q);
      } else if q < p {
        KeptGrows(text, q, p);
      }
    }
  }

  lemma {:induction false} OriginFrom(text: string, k: nat, n: nat) returns (p: nat)
    requires n <= |text| && k < KeptBefore(text, n)
    ensures Originates(text, k, p) && p < n
    decreases n
  {
    if KeptBefore(text, n - 1) == k {
      p := n - 1;
    } else {
      p := OriginFrom(text, k, n - 1);
    }
  }

  lemma {:induction false} KeptGrows(text: string, p: nat, q: nat)
    requires p <= q <= |text|
    ensures KeptBefore(text, p) <= KeptBefore(text, q)
    ensures p < q && !InSplice(text, p) ==> KeptBefore(text, p) < KeptBefore(text, q)
    decreases q - p
  {
    if p < q {
      KeptGrows(text, p, q - 1);
    }
  }

  // ------------------------------------------------------------------------ the lines

  /** The first `n` starts lie at or before offset `k`, the others behind it. */
  predicate SplitAt(starts: seq<nat>, n: nat, k: nat) {
    && (forall i | 0 <= i < |starts| && i < n :: starts[i] <= k)
    && (forall i | n <= i < |starts| :: k < starts[i])
  }

  lemma SplitStep(starts: seq<nat>, n: nat, k: nat, next: nat)
    requires SplitAt(starts, n, k)
    requires if |starts| < n then next <= k else k < next
    ensures SplitAt(starts + [next], n, k)
  {
  }

  /** The line starts at or before offset `k` are those of the newlines before its origin. */
  lemma {:induction false} StartsCounted(text: string, k: nat, p: nat, n: nat)
    requires Originates(text, k, p) && n <= |text|
    ensures SplitAt(StartsUpTo(text, n), 1 + NewlinesBefore(text, p), k)
    decreases n
  {
    hide InSplice, SplitAt;
    if n == 0 {
      SplitNothing(1 + NewlinesBefore(text, p), k);
      SplitStep([], 1 + NewlinesBefore(text, p), k, 0);
      assert [] + [0 as nat] == StartsUpTo(text, 0);
    } else {
      StartsCounted(text, k, p, n - 1);
      if n <= p {
        KeptGrows(text, n, p);
        NewlinesGrow(text, n, p);
      } else {
        KeptGrows(text, p, n);
        NewlinesGrow(text, p, n - 1);
      }
      if text[n - 1] == '\n' {
        SplitStep(StartsUpTo(text, n - 1), 1 + NewlinesBefore(text, p), k, KeptBefore(text, n));
      } else {
        assert StartsUpTo(text, n) == StartsUpTo(text, n - 1);
      }
    }
  }

  lemma SplitNothing(n: nat, k: nat)
    ensures SplitAt([], n, k)
  {
  }

  lemma {:induction false} NewlinesGrow(text: string, p: nat, q: nat)
    requires p <= q <= |text|
    ensures NewlinesBefore(text, p) <= NewlinesBefore(text, q)
    decreases q - p
  {
    if p < q {
      NewlinesGrow(text, p, q - 1);
    }
  }

  /** The main theorem: the line of a logical offset is one more than the newlines before the physical
    character it comes from, whatever splices stand before, between or around. */
  lemma LineOfOrigin(text: string, spliced: Spliced, k: nat, p: nat)
    requires spliced.text == WithoutSplices(text) && spliced.physicalLineStarts == StartsUpTo(text, |text|)
    requires Originates(text, k, p)
    ensures LineAt(spliced, k) == Some(1 + NewlinesBefore(text, p))
  {
    assert text[0..] == text;
    LogicalAt(text, 0, p);
    StartsCounted(text, k, p, |text|);
    NewlinesGrow(text, p, |text|);
    var n := BisectRight(spliced.physicalLineStarts, k);
    hide BisectRight;
    var lines := NewlinesBefore(text, p);
    assert lines + 1 < |spliced.physicalLineStarts| ==> k < spliced.physicalLineStarts[lines + 1];
  }

  /** An offset has a line exactly when some physical character became the one at that offset. */
  lemma LineOnlyOfOrigin(text: string, spliced: Spliced, offset: int)
    requires spliced.text == WithoutSplices(text)
    ensures LineAt(spliced, offset).Some? <==> offset >= 0 && exists p: nat :: Originates(text, offset, p)
  {
    hide BisectRight, KeptBefore, InSplice, WithoutSplices;
    assert text[0..] == text;
    if offset >= 0 {
      if offset < |spliced.text| {
        OriginIsUnique(text, offset);
      }
      if p: nat :| Originates(text, offset, p) {
        LogicalAt(text, 0, p);
        assert KeptBefore(text, 0) == 0 by { NothingKept(text); }
      }
    }
  }

  lemma NothingKept(text: string)
    ensures KeptBefore(text, 0) == 0
  {
  }
}
