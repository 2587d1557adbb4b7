/** Assignment of observed findings to expected-finding slots by augmenting paths.

  Models `_match_expected_findings` of the quality-zoo report contract.  The
  predicate that decides whether a finding meets an expectation is a parameter,
  so everything below holds for every candidate relation.
*/
module ExpectedMatching {

  /** One expectation: the engine named in its failure, its predicate and its multiplicity. */
  datatype Expectation<P> = Expectation(engine: string, rule: P, count: int)

  /** A `finding-missing` failure for the expectation at `expectation`. */
  datatype ContractFailure = ContractFailure(engine: string, kind: string, expectation: nat)

  datatype MatchResult =
    | InvalidCount(expectation: nat)
    | Matched(count: nat, failures: seq<ContractFailure>)

  /** The candidate findings of every slot, as lists of finding indices. */
  type Candidates = seq<seq<nat>>

  /** Finding index to slot index, as the search stores it. */
  type Holders = map<nat, nat>

  /** Slot index to finding index. */
  type Service = map<nat, nat>

  // ---------------------------------------------------------------- matchings

  ghost predicate IsMatching(candidates: Candidates, n: Service) {
    && (forall s <- n :: s < |candidates| && n[s] in candidates[s])
    && (forall s, t | s in n && t in n && n[s] == n[t] :: s == t)
  }

  /** `holders` and `service` are the two directions of one matching. */
  ghost predicate Consistent(candidates: Candidates, holders: Holders, service: Service) {
    && (forall s <- service ::
          s < |candidates| && service[s] in candidates[s] && service[s] in holders && holders[service[s]] == s)
    && (forall f <- holders :: holders[f] in service && service[holders[f]] == f)
  }

  /** Every candidate of `slot` lies in `w`. */
  ghost predicate Confined(candidates: Candidates, slot: nat, w: set<nat>) {
    slot < |candidates| && forall f <- candidates[slot] :: f in w
  }

  /** All findings in `w` are taken, and only by slots that can use nothing outside `w`. */
  ghost predicate Closed(candidates: Candidates, holders: Holders, w: set<nat>) {
    forall f <- w :: f in holders && Confined(candidates, holders[f], w)
  }

  /** `n` serves `slot` together with every slot before it that `m` serves. */
  ghost predicate Serves(n: Service, m: Service, slot: nat) {
    slot in n && forall s <- m | s < slot :: s in n
  }

  /** No matching serves `slot` together with the earlier served slots. */
  ghost predicate Unservable(candidates: Candidates, m: Service, slot: nat) {
    forall n: Service | IsMatching(candidates, n) :: !Serves(n, m, slot)
  }

  /** A matching of the first `slots` slots that leaves out only unservable ones. */
  ghost predicate IsGreedy(candidates: Candidates, m: Service, slots: nat) {
    && IsMatching(candidates, m)
    && (forall s <- m :: s < slots)
    && forall s: nat | s < slots && s !in m :: Unservable(candidates, m, s)
  }

  /** An injective map cannot go from a larger set into a smaller one. */
  lemma {:induction false} InjectionBound(phi: map<nat, nat>, target: set<nat>)
    requires forall x <- phi :: phi[x] in target
    requires forall x, y | x in phi && y in phi && phi[x] == phi[y] :: x == y
    ensures |phi| <= |target|
    decreases |phi|
  {
    if x :| x in phi {
      var rest := phi - {x};
      assert phi.Keys == rest.Keys + {x};
      InjectionBound(rest, target - {phi[x]});
      assert target == (target - {phi[x]}) + {phi[x]};
    }
  }

  /** A matching can serve new slots confined to a closed set only in exchange for old ones. */
  lemma ClosedSetBound(candidates: Candidates, holders: Holders, service: Service, w: set<nat>, n: Service)
    requires Consistent(candidates, holders, service) && Closed(candidates, holders, w)
    requires IsMatching(candidates, n)
    requires forall s <- n | s !in service :: Confined(candidates, s, w)
    ensures |n| <= |service|
  {
    // A slot that `n` serves from `w` pays with the holder of that finding, any other with itself.
    var phi := map s | s in n :: if n[s] in w then holders[n[s]] else s;
    forall s | s in n && n[s] !in w
      ensures s in service && service[s] !in w
    {
      assert n[s] in candidates[s];
    }
    forall s, t | s in phi && t in phi && phi[s] == phi[t]
      ensures s == t
    {
      if n[s] in w && n[t] in w {
        assert service[holders[n[s]]] == n[s] && service[holders[n[t]]] == n[t];
      }
    }
    assert phi.Keys == n.Keys;
    InjectionBound(phi, service.Keys);
  }

  lemma OneMore(service0: Service, service1: Service, slot: nat)
    requires slot !in service0 && service1.Keys == service0.Keys + {slot}
    ensures |service1| == |service0| + 1
  {
    assert |service1.Keys| == |service1| && |service0.Keys| == |service0|;
  }

  /** A slot confined to a closed set cannot be served beside the slots already matched. */
  lemma ConfinedSlotUnservable(candidates: Candidates, holders: Holders, service: Service, w: set<nat>, slot: nat)
    requires Consistent(candidates, holders, service) && Closed(candidates, holders, w)
    requires Confined(candidates, slot, w) && slot !in service
    requires forall s <- service :: s < slot
    ensures Unservable(candidates, service, slot)
  {
    hide Consistent, Closed, Confined, IsMatching, Serves;
    forall n: Service | IsMatching(candidates, n)
      ensures !Serves(n, service, slot)
    {
      ConfinedNotServed(candidates, holders, service, w, slot, n);
    }
  }

  /** The matching on some of its slots only. */
  ghost function Restricted(n: Service, slots: set<nat>): Service {
    map s | s in n && s in slots :: n[s]
  }

  lemma RestrictedMatches(candidates: Candidates, n: Service, slots: set<nat>)
    requires IsMatching(candidates, n) && slots <= n.Keys
    ensures IsMatching(candidates, Restricted(n, slots)) && Restricted(n, slots).Keys == slots
  {
  }

  lemma ConfinedNotServed(candidates: Candidates, holders: Holders, service: Service, w: set<nat>, slot: nat,
                          n: Service)
    requires Consistent(candidates, holders, service) && Closed(candidates, holders, w)
    requires Confined(candidates, slot, w) && slot !in service && IsMatching(candidates, n)
    requires forall s <- service :: s < slot
    ensures !Serves(n, service, slot)
  {
    hide Consistent, Closed, IsMatching, Restricted, Confined;
    if Serves(n, service, slot) {
      RestrictedMatches(candidates, n, service.Keys + {slot});
      var both := Restricted(n, service.Keys + {slot});
      OneMore(service, both, slot);
      ClosedSetBound(candidates, holders, service, w, both);
    }
  }

  /** The slots a greedy matching leaves out do not depend on how it was found. */
  lemma GreedyVerdictUnique(candidates: Candidates, m: Service, n: Service, slots: nat)
    requires IsGreedy(candidates, m, slots) && IsGreedy(candidates, n, slots)
    ensures m.Keys == n.Keys
  {
    forall s: nat
      ensures s in m <==> s in n
    {
      if s < slots {
        SameVerdict(candidates, m, n, slots, s);
      }
    }
  }

  lemma {:induction false} SameVerdict(candidates: Candidates, m: Service, n: Service, slots: nat, s: nat)
    requires IsGreedy(candidates, m, slots) && IsGreedy(candidates, n, slots)
    requires s < slots
    ensures s in m <==> s in n
    decreases s
  {
    forall t: nat | t < s
      ensures t in m <==> t in n
    {
      SameVerdict(candidates, m, n, slots, t);
    }
    assert s in m && (forall t <- n | t < s :: t in m) ==> Serves(m, n, s);
    assert s in n && (forall t <- m | t < s :: t in n) ==> Serves(n, m, s);
  }

  // ---------------------------------------------------------- augmenting paths

  /** `holders1`/`service1` serve `slot` on top of `service0`, touching nothing in `visited`.

    Only `slot` may still be held twice: by its old finding, which is in `visited`, and its new one. */
  ghost predicate Augmented(candidates: Candidates, holders0: Holders, service0: Service,
                            holders1: Holders, service1: Service, visited: set<nat>, slot: nat)
  {
    && service1.Keys == service0.Keys + {slot}
    && (forall s <- service1 ::
          s < |candidates| && service1[s] in candidates[s] && service1[s] in holders1 && holders1[service1[s]] == s)
    && service1[slot] !in visited
    && (forall f <- visited :: (f in holders1 <==> f in holders0) && (f in holders0 ==> holders1[f] == holders0[f]))
    && (forall f <- holders1 ::
          holders1[f] in service1 && (service1[holders1[f]] == f || (holders1[f] == slot && f in visited)))
  }

  /** Once the holder of `f` moved elsewhere, `f` may be handed to `slot`. */
  lemma AugmentShift(candidates: Candidates, holders0: Holders, service0: Service,
                     holders1: Holders, service1: Service, wide: set<nat>, visited: set<nat>, slot: nat, f: nat)
    requires Consistent(candidates, holders0, service0) && f in holders0 && f !in visited
    requires slot < |candidates| && f in candidates[slot]
    requires visited <= wide && f in wide
    requires Augmented(candidates, holders0, service0, holders1, service1, wide, holders0[f])
    requires slot in service0 ==> service0[slot] in visited
    ensures Augmented(candidates, holders0, service0, holders1[f := slot], service1[slot := f], visited, slot)
  {
    var previous := holders0[f];
    assert service0[previous] == f && slot != previous;
    // The only finding of `previous` inside `wide` is `f` itself.
    assert forall g <- wide | g in holders0 && holders0[g] == previous :: g == f;
    if slot in service0 {
      var root := service0[slot];
      assert holders0[root] == slot && root in wide;
      assert service1[slot] == root;
    }
  }

  /** The candidate lists hold indices of findings. */
  ghost predicate InRange(candidates: Candidates, findings: nat) {
    forall s | 0 <= s < |candidates| :: forall f <- candidates[s] :: f < findings
  }

  /** The mutable state shared by all calls of the recursive `assign`. */
  class Matcher {
    const candidates: Candidates
    const findings: nat
    var matchedSlotByFinding: Holders
    var visited: set<nat>
    ghost var service: Service

    constructor (candidates: Candidates, findings: nat)
      ensures this.candidates == candidates && this.findings == findings
      ensures matchedSlotByFinding == map[] && visited == {} && service == map[]
      ensures InRange(candidates, findings) ==> Valid()
    {
      this.candidates := candidates;
      this.findings := findings;
      matchedSlotByFinding := map[];
      visited := {};
      service := map[];
    }

    ghost predicate Valid()
      reads this
    {
      && InRange(candidates, findings)
      && Consistent(candidates, matchedSlotByFinding, service)
      && (forall f <- visited :: f < findings)
    }

    ghost function Unvisited(): set<nat>
      reads this
    {
      set f: nat | f < findings && f !in visited
    }

    /** Everything visited since `before` is taken by a slot that sees only visited findings. */
    ghost predicate ExhaustedSince(before: set<nat>)
      reads this
    {
      forall f | f in visited && f !in before ::
        f in matchedSlotByFinding && Confined(candidates, matchedSlotByFinding[f], visited)
    }

    /** Serves `slot`, moving other slots along an augmenting path when needed.

      `frozen` is any closed set: no call ever changes who holds its findings.  Failure leaves
      the assignment untouched and shows a closed set that confines `slot`. */
    method Assign(slot: nat, ghost frozen: set<nat>) returns (ok: bool)
      requires Valid() && slot < |candidates|
      requires Closed(candidates, matchedSlotByFinding, frozen)
      requires slot in service ==> service[slot] in visited
      modifies this
      ensures old(visited) <= visited && forall f <- visited :: f < findings
      ensures ok ==> Augmented(candidates, old(matchedSlotByFinding), old(service),
                               matchedSlotByFinding, service, old(visited), slot)
      ensures forall f <- frozen ::
        f in matchedSlotByFinding && matchedSlotByFinding[f] == old(matchedSlotByFinding)[f]
      ensures Confined(candidates, slot, frozen) ==> !ok
      ensures !ok ==> matchedSlotByFinding == old(matchedSlotByFinding) && service == old(service)
      ensures !ok ==> Confined(candidates, slot, visited) && ExhaustedSince(old(visited))
      decreases Unvisited()
    {
      var i := 0;
      while i < |candidates[slot]|
        invariant 0 <= i <= |candidates[slot]|
        invariant matchedSlotByFinding == old(matchedSlotByFinding) && service == old(service)
        invariant old(visited) <= visited && forall f <- visited :: f < findings
        invariant forall k | 0 <= k < i :: candidates[slot][k] in visited
        invariant ExhaustedSince(old(visited))
      {
        var f := candidates[slot][i];
        assert f in candidates[slot];
        i := i + 1;
        if f in visited {
          continue;
        }
        visited := visited + {f};
        if f !in matchedSlotByFinding {
          matchedSlotByFinding := matchedSlotByFinding[f := slot];
          service := service[slot := f];
          return true;
        }
        var previous := matchedSlotByFinding[f];
        assert f in old(Unvisited());
        ghost var entry := visited;
        var moved := Assign(previous, frozen);
        if moved {
          AugmentShift(candidates, old(matchedSlotByFinding), old(service),
                       matchedSlotByFinding, service, entry, old(visited), slot, f);
          matchedSlotByFinding := matchedSlotByFinding[f := slot];
          service := service[slot := f];
          return true;
        }
      }
      return false;
    }
  }

  // ------------------------------------------------------------------- driver

  /** The expectation index behind every slot, in order. */
  function Slots<P>(expected: seq<Expectation<P>>): (slots: seq<nat>)
    ensures forall i | 0 <= i < |slots| :: slots[i] < |expected|
  {
    if expected == [] then []
    else
      var last := |expected| - 1;
      Slots(expected[..last]) + Repeat(last, expected[last].count)
  }

  function Repeat(index: nat, count: int): seq<nat> {
    if count <= 0 then [] else seq(count, _ => index)
  }

  predicate ValidCounts<P>(expected: seq<Expectation<P>>) {
    forall i | 0 <= i < |expected| :: expected[i].count >= 1
  }

  /** How many slots the counts ask for. */
  function TotalCount<P>(expected: seq<Expectation<P>>): int {
    if expected == [] then 0 else TotalCount(expected[..|expected| - 1]) + expected[|expected| - 1].count
  }

  ghost predicate NonDecreasing(list: seq<nat>) {
    forall i, j | 0 <= i < j < |list| :: list[i] <= list[j]
  }

  /** Every expectation has as many slots as it counts, all of them in the order of the expectations. */
  ghost predicate SlotsByCount<P>(expected: seq<Expectation<P>>, slots: seq<nat>) {
    && (forall i | 0 <= i < |expected| :: multiset(slots)[i] == expected[i].count)
    && (forall s | 0 <= s < |slots| :: slots[s] < |expected|)
    && NonDecreasing(slots)
  }

  lemma {:induction false} SlotsFollowCounts<P>(expected: seq<Expectation<P>>)
    requires ValidCounts(expected)
    ensures SlotsByCount(expected, Slots(expected)) && |Slots(expected)| == TotalCount(expected)
  {
    if expected != [] {
      var last := |expected| - 1;
      SlotsFollowCounts(expected[..last]);
      RepeatCounts(last, expected[last].count);
      hide Slots, Repeat;
      MoreSlots(expected, Slots(expected[..last]), Repeat(last, expected[last].count));
      assert Slots(expected) == Slots(expected[..last]) + Repeat(last, expected[last].count) by {
        SlotsUnfold(expected);
      }
    }
  }

  lemma SlotsUnfold<P>(expected: seq<Expectation<P>>)
    requires expected != []
    ensures var last := |expected| - 1;
      Slots(expected) == Slots(expected[..last]) + Repeat(last, expected[last].count)
  {
  }

  lemma MoreSlots<P>(expected: seq<Expectation<P>>, head: seq<nat>, more: seq<nat>)
    requires expected != [] && SlotsByCount(expected[..|expected| - 1], head)
    requires var last := |expected| - 1;
      (forall s | 0 <= s < |more| :: more[s] == last) && expected[last].count >= 0
      && multiset(more) == multiset{}[last := expected[last].count]
    ensures SlotsByCount(expected, head + more)
  {
    var last := |expected| - 1;
    assert last !in head;
    forall i | 0 <= i < |expected|
      ensures multiset(head + more)[i] == expected[i].count
    {
      assert multiset(head + more)[i] == multiset(head)[i] + multiset(more)[i];
      assert i < last ==> expected[..last][i] == expected[i];
    }
  }

  lemma {:induction false} RepeatCounts(index: nat, count: nat)
    ensures var more := Repeat(index, count);
      |more| == count && (forall s | 0 <= s < count :: more[s] == index) && multiset(more) == multiset{}[index := count]
    decreases count
  {
    if count > 0 {
      RepeatCounts(index, count - 1);
      assert Repeat(index, count) == Repeat(index, count - 1) + [index];
    }
  }

  /** The slots of expectation `i` among those served. */
  function ServedSlots(slots: seq<nat>, served: set<nat>, upTo: nat, i: nat): set<nat>
    requires upTo <= |slots|
  {
    set s | s in served && s < upTo && slots[s] == i
  }

  /** How many failures name expectation `i`. */
  function FailuresOf(failures: seq<ContractFailure>, i: nat): nat {
    if failures == [] then 0
    else
      FailuresOf(failures[..|failures| - 1], i) + if failures[|failures| - 1].expectation == i then 1 else 0
  }

  /** The served slots of an expectation and its failures add up to its slots. */
  lemma {:induction false} FailuresPerExpectation<P>(expected: seq<Expectation<P>>, slots: seq<nat>, served: set<nat>,
                                                     upTo: nat, i: nat)
    requires upTo <= |slots| && forall s | 0 <= s < |slots| :: slots[s] < |expected|
    ensures |ServedSlots(slots, served, upTo, i)| + FailuresOf(MissingFailures(expected, slots, served, upTo), i)
            == multiset(slots[..upTo])[i]
  {
    if upTo > 0 {
      var last := upTo - 1;
      FailuresPerExpectation(expected, slots, served, last, i);
      OneMoreServed(slots, served, last, i);
      OneMoreFailure(MissingFailures(expected, slots, served, last), i);
      assert slots[..upTo] == slots[..last] + [slots[last]];
      hide ServedSlots, FailuresOf;
    }
  }

  lemma OneMoreServed(slots: seq<nat>, served: set<nat>, last: nat, i: nat)
    requires last < |slots|
    ensures |ServedSlots(slots, served, last + 1, i)|
            == |ServedSlots(slots, served, last, i)| + if last in served && slots[last] == i then 1 else 0
  {
    var before, after := ServedSlots(slots, served, last, i), ServedSlots(slots, served, last + 1, i);
    assert after == if last in served && slots[last] == i then before + {last} else before;
  }

  lemma OneMoreFailure(failures: seq<ContractFailure>, i: nat)
    ensures forall f: ContractFailure ::
      FailuresOf(failures + [f], i) == FailuresOf(failures, i) + if f.expectation == i then 1 else 0
  {
    forall f: ContractFailure
      ensures FailuresOf(failures + [f], i) == FailuresOf(failures, i) + if f.expectation == i then 1 else 0
    {
      assert (failures + [f])[..|failures|] == failures;
    }
  }

  /** A one-to-one assignment of slots to observed findings that meet their expectation. */
  ghost predicate IsSlotMatching<F, P>(observed: seq<F>, expected: seq<Expectation<P>>,
                                       meets: (F, P) -> bool, n: Service)
  {
    var slots := Slots(expected);
    && (forall s <- n :: s < |slots| && n[s] < |observed| && meets(observed[n[s]], expected[slots[s]].rule))
    && (forall s, t | s in n && t in n && n[s] == n[t] :: s == t)
  }

  function MissingFailures<P>(expected: seq<Expectation<P>>, slots: seq<nat>, served: set<nat>, upTo: nat)
    : seq<ContractFailure>
    requires upTo <= |slots| && forall i | 0 <= i < |slots| :: slots[i] < |expected|
  {
    if upTo == 0 then []
    else
      var head := MissingFailures(expected, slots, served, upTo - 1);
      if upTo - 1 in served then head
      else head + [ContractFailure(expected[slots[upTo - 1]].engine, "finding-missing", slots[upTo - 1])]
  }

  lemma {:induction false} FailuresIgnoreLaterSlots<P>(expected: seq<Expectation<P>>, slots: seq<nat>,
                                                       served: set<nat>, later: nat, upTo: nat)
    requires upTo <= later && upTo <= |slots| && forall i | 0 <= i < |slots| :: slots[i] < |expected|
    ensures MissingFailures(expected, slots, served + {later}, upTo) == MissingFailures(expected, slots, served, upTo)
  {
    if upTo > 0 {
      FailuresIgnoreLaterSlots(expected, slots, served, later, upTo - 1);
    }
  }

  lemma {:induction false} FailuresCount<P>(expected: seq<Expectation<P>>, slots: seq<nat>, served: set<nat>, upTo: nat)
    requires upTo <= |slots| && forall i | 0 <= i < |slots| :: slots[i] < |expected|
    ensures MissingFailures(expected, slots, served, upTo) == [] <==> forall s: nat | s < upTo :: s in served
  {
    if upTo > 0 {
      FailuresCount(expected, slots, served, upTo - 1);
    }
  }

  method ExpandSlots<P>(expected: seq<Expectation<P>>) returns (slots: seq<nat>, invalid: int)
    ensures invalid < 0 <==> ValidCounts(expected)
    ensures invalid < 0 ==>
      slots == Slots(expected) && SlotsByCount(expected, slots) && |slots| == TotalCount(expected)
    ensures invalid >= 0 ==> invalid < |expected| && expected[invalid].count < 1 && ValidCounts(expected[..invalid])
  {
    slots, invalid := [], -1;
    for i := 0 to |expected|
      invariant slots == Slots(expected[..i]) && ValidCounts(expected[..i])
    {
      if expected[i].count < 1 {
        return slots, i;
      }
      assert expected[..i + 1][..i] == expected[..i];
      slots := slots + Repeat(i, expected[i].count);
    }
    assert expected[..|expected|] == expected;
    SlotsFollowCounts(expected);
  }

  /** In ascending order, each index once. */
  ghost predicate Increasing(list: seq<nat>) {
    forall i, j | 0 <= i < j < |list| :: list[i] < list[j]
  }

  method CandidatesFor<F, P>(observed: seq<F>, meets: (F, P) -> bool, p: P) returns (list: seq<nat>)
    ensures forall f: nat :: f in list <==> f < |observed| && meets(observed[f], p)
    ensures Increasing(list)
  {
    list := [];
    for f := 0 to |observed|
      invariant Increasing(list) && forall i | 0 <= i < |list| :: list[i] < f
      invariant forall g: nat :: g in list <==> g < f && meets(observed[g], p)
    {
      if meets(observed[f], p) {
        list := list + [f];
      }
    }
  }

  ghost predicate CandidatesOf<F, P>(observed: seq<F>, expected: seq<Expectation<P>>,
                                     meets: (F, P) -> bool, candidates: Candidates)
  {
    var slots := Slots(expected);
    && |candidates| == |slots|
    && (forall s | 0 <= s < |slots| :: Increasing(candidates[s]))
    && forall s | 0 <= s < |slots| ::
         forall f: nat :: f in candidates[s] <==> f < |observed| && meets(observed[f], expected[slots[s]].rule)
  }

  method BuildCandidates<F, P>(observed: seq<F>, expected: seq<Expectation<P>>, meets: (F, P) -> bool, slots: seq<nat>)
    returns (candidates: Candidates)
    requires slots == Slots(expected)
    ensures CandidatesOf(observed, expected, meets, candidates)
  {
    hide Increasing;
    candidates := [];
    for s := 0 to |slots|
      invariant |candidates| == s
      invariant forall k | 0 <= k < s :: Increasing(candidates[k])
      invariant forall k | 0 <= k < s ::
        forall f: nat :: f in candidates[k] <==> f < |observed| && meets(observed[f], expected[slots[k]].rule)
    {
      var list := CandidatesFor(observed, meets, expected[slots[s]].rule);
      candidates := candidates + [list];
    }
  }

  lemma SlotMatchingIsMatching<F, P>(observed: seq<F>, expected: seq<Expectation<P>>, meets: (F, P) -> bool,
                                     candidates: Candidates, n: Service)
    requires CandidatesOf(observed, expected, meets, candidates)
    ensures IsSlotMatching(observed, expected, meets, n) <==> IsMatching(candidates, n)
  {
  }

  /** What holds after the first `slots` slots: `frozen` certifies every failure so far. */
  ghost predicate Progress(candidates: Candidates, holders: Holders, service: Service, frozen: set<nat>, slots: nat) {
    && Consistent(candidates, holders, service)
    && IsGreedy(candidates, service, slots)
    && (forall s <- service :: s < slots)
    && Closed(candidates, holders, frozen)
    && forall s: nat | s < slots && s !in service :: Confined(candidates, s, frozen)
  }

  lemma GreedyStep(candidates: Candidates, before: Service, after: Service, slot: nat)
    requires IsGreedy(candidates, before, slot) && IsMatching(candidates, after)
    requires after.Keys == before.Keys + {slot}
    ensures IsGreedy(candidates, after, slot + 1)
  {
    forall s: nat | s < slot + 1 && s !in after
      ensures Unservable(candidates, after, s)
    {
      assert Unservable(candidates, before, s);
      forall n: Service | IsMatching(candidates, n)
        ensures !Serves(n, after, s)
      {
        assert !Serves(n, before, s);
      }
    }
  }

  lemma ProgressServed(candidates: Candidates, holders0: Holders, service0: Service,
                       holders1: Holders, service1: Service, frozen: set<nat>, slot: nat)
    requires Progress(candidates, holders0, service0, frozen, slot)
    requires Augmented(candidates, holders0, service0, holders1, service1, {}, slot)
    requires forall f <- frozen :: f in holders1 && holders1[f] == holders0[f]
    ensures Progress(candidates, holders1, service1, frozen, slot + 1)
    ensures slot !in service0 && service1.Keys == service0.Keys + {slot}
  {
    AugmentedAtRoot(candidates, holders0, service0, holders1, service1, slot);
    GreedyStep(candidates, service0, service1, slot);
    hide IsGreedy;
  }

  lemma AugmentedAtRoot(candidates: Candidates, holders0: Holders, service0: Service,
                        holders1: Holders, service1: Service, slot: nat)
    requires Augmented(candidates, holders0, service0, holders1, service1, {}, slot)
    ensures Consistent(candidates, holders1, service1) && IsMatching(candidates, service1)
  {
  }

  lemma ProgressStart(candidates: Candidates)
    ensures Progress(candidates, map[], map[], {}, 0) && Consistent(candidates, map[], map[])
  {
  }

  lemma ProgressFailed(candidates: Candidates, holders: Holders, service: Service,
                       frozen: set<nat>, visited: set<nat>, slot: nat)
    requires Progress(candidates, holders, service, frozen, slot)
    requires Closed(candidates, holders, visited) && Confined(candidates, slot, visited)
    ensures Progress(candidates, holders, service, frozen + visited, slot + 1)
    ensures slot !in service
  {
    ConfinedSlotUnservable(candidates, holders, service, visited, slot);
    assert IsGreedy(candidates, service, slot + 1);
  }

  /** What a failed search from scratch visited is a closed set. */
  lemma VisitedClosed(matcher: Matcher)
    requires matcher.ExhaustedSince({})
    ensures Closed(matcher.candidates, matcher.matchedSlotByFinding, matcher.visited)
  {
  }

  function Failure<P>(expected: seq<Expectation<P>>, slots: seq<nat>, slot: nat): ContractFailure
    requires slot < |slots| && slots[slot] < |expected|
  {
    ContractFailure(expected[slots[slot]].engine, "finding-missing", slots[slot])
  }

  ghost predicate ValidSlots<P>(expected: seq<Expectation<P>>, slots: seq<nat>) {
    forall i | 0 <= i < |slots| :: slots[i] < |expected|
  }

  /** The totals of the driver after the first `slot` slots. */
  ghost predicate Totals<P>(expected: seq<Expectation<P>>, slots: seq<nat>, candidates: Candidates, holders: Holders,
                            service: Service, frozen: set<nat>, slot: nat, matched: nat, failures: seq<ContractFailure>)
    requires ValidSlots(expected, slots)
  {
    && slot <= |slots|
    && Progress(candidates, holders, service, frozen, slot)
    && matched == |service| && matched + |failures| == slot
    && failures == MissingFailures(expected, slots, service.Keys, slot)
  }

  lemma TotalsStart<P>(expected: seq<Expectation<P>>, slots: seq<nat>, candidates: Candidates)
    requires ValidSlots(expected, slots)
    ensures Totals(expected, slots, candidates, map[], map[], {}, 0, 0, [])
  {
    ProgressStart(candidates);
  }

  /** What a served slot changes in the totals. */
  lemma ServedBranch<P>(expected: seq<Expectation<P>>, slots: seq<nat>, candidates: Candidates, holders0: Holders,
                        service0: Service, holders1: Holders, service1: Service, frozen: set<nat>, slot: nat,
                        matched: nat, failures: seq<ContractFailure>)
    requires ValidSlots(expected, slots) && slot < |slots|
    requires Totals(expected, slots, candidates, holders0, service0, frozen, slot, matched, failures)
    requires Augmented(candidates, holders0, service0, holders1, service1, {}, slot)
    requires forall f <- frozen :: f in holders1 && holders1[f] == holders0[f]
    ensures Consistent(candidates, holders1, service1)
    ensures Totals(expected, slots, candidates, holders1, service1, frozen, slot + 1, matched + 1, failures)
  {
    hide Augmented, Consistent, IsGreedy, Closed, Confined;
    ProgressServed(candidates, holders0, service0, holders1, service1, frozen, slot);
    OneMore(service0, service1, slot);
    FailuresIgnoreLaterSlots(expected, slots, service0.Keys, slot, slot);
  }

  /** What a slot that cannot be served changes. */
  lemma FailedBranch<P>(expected: seq<Expectation<P>>, slots: seq<nat>, candidates: Candidates, holders: Holders,
                        service: Service, frozen: set<nat>, visited: set<nat>, slot: nat, matched: nat,
                        failures: seq<ContractFailure>)
    requires ValidSlots(expected, slots) && slot < |slots|
    requires Totals(expected, slots, candidates, holders, service, frozen, slot, matched, failures)
    requires Closed(candidates, holders, visited) && Confined(candidates, slot, visited)
    ensures Totals(expected, slots, candidates, holders, service, frozen + visited, slot + 1, matched,
                   failures + [Failure(expected, slots, slot)])
  {
    hide Progress, Closed, Confined;
    ProgressFailed(candidates, holders, service, frozen, visited, slot);
  }

  lemma TotalsGive<P>(expected: seq<Expectation<P>>, slots: seq<nat>, candidates: Candidates, holders: Holders,
                      service: Service, frozen: set<nat>, slot: nat, matched: nat, failures: seq<ContractFailure>)
    requires ValidSlots(expected, slots)
    requires Totals(expected, slots, candidates, holders, service, frozen, slot, matched, failures)
    ensures Closed(candidates, holders, frozen) && slot !in service
  {
  }

  lemma TotalsEnd<P>(expected: seq<Expectation<P>>, slots: seq<nat>, candidates: Candidates, holders: Holders,
                     service: Service, frozen: set<nat>, slot: nat, matched: nat, failures: seq<ContractFailure>)
    requires ValidSlots(expected, slots)
    requires Totals(expected, slots, candidates, holders, service, frozen, slot, matched, failures)
    ensures slot <= |slots| && Progress(candidates, holders, service, frozen, slot)
    ensures matched == |service| && matched + |failures| == slot
    ensures failures == MissingFailures(expected, slots, service.Keys, slot)
  {
  }

  /** The search for one slot; what it could not reach joins the certificate. */
  method AssignSlot<P>(matcher: Matcher, ghost expected: seq<Expectation<P>>, ghost slots: seq<nat>, slot: nat,
                       ghost frozen: set<nat>, ghost matched: nat, ghost failures: seq<ContractFailure>)
    returns (ok: bool, ghost grown: set<nat>)
    requires matcher.Valid() && slot < |slots| == |matcher.candidates| && ValidSlots(expected, slots)
    requires Totals(expected, slots, matcher.candidates, matcher.matchedSlotByFinding, matcher.service, frozen, slot,
                    matched, failures)
    modifies matcher
    ensures matcher.Valid()
    ensures ok ==>
      Totals(expected, slots, matcher.candidates, matcher.matchedSlotByFinding, matcher.service, grown, slot + 1,
             matched + 1, failures)
    ensures !ok ==>
      Totals(expected, slots, matcher.candidates, matcher.matchedSlotByFinding, matcher.service, grown, slot + 1,
             matched, failures + [Failure(expected, slots, slot)])
  {
    hide Consistent, Closed, Confined, Augmented, Totals;
    ghost var candidates, holders0, before := matcher.candidates, matcher.matchedSlotByFinding, matcher.service;
    TotalsGive(expected, slots, candidates, holders0, before, frozen, slot, matched, failures);
    matcher.visited := {};
    ok := matcher.Assign(slot, frozen);
    grown := frozen;
    if ok {
      ServedBranch(expected, slots, candidates, holders0, before, matcher.matchedSlotByFinding, matcher.service, frozen,
                   slot, matched, failures);
    } else {
      VisitedClosed(matcher);
      FailedBranch(expected, slots, candidates, holders0, before, frozen, matcher.visited, slot, matched, failures);
      grown := frozen + matcher.visited;
    }
  }

  /** Runs the augmenting-path search slot by slot over fixed candidate lists. */
  method AssignSlots<P>(expected: seq<Expectation<P>>, slots: seq<nat>, candidates: Candidates, findings: nat)
    returns (matched: nat, failures: seq<ContractFailure>,
             ghost m: Service, ghost holders: Holders, ghost frozen: set<nat>)
    requires ValidSlots(expected, slots) && |candidates| == |slots| && InRange(candidates, findings)
    ensures Progress(candidates, holders, m, frozen, |slots|)
    ensures matched == |m| && matched + |failures| == |slots|
    ensures failures == MissingFailures(expected, slots, m.Keys, |slots|)
  {
    var matcher := new Matcher(candidates, findings);
    matched, failures, frozen := 0, [], {};
    TotalsStart(expected, slots, candidates);
    hide Totals, InRange, Consistent;
    for slot := 0 to |slots|
      invariant matcher.candidates == candidates && matcher.Valid()
      invariant Totals(expected, slots, candidates, matcher.matchedSlotByFinding, matcher.service, frozen, slot,
                       matched, failures)
    {
      var ok;
      ok, frozen := AssignSlot(matcher, expected, slots, slot, frozen, matched, failures);
      if ok {
        matched := matched + 1;
      } else {
        failures := failures + [Failure(expected, slots, slot)];
      }
    }
    m, holders := matcher.service, matcher.matchedSlotByFinding;
    TotalsEnd(expected, slots, candidates, holders, m, frozen, |slots|, matched, failures);
  }

  /** No failure is reported exactly when some matching serves every slot. */
  lemma AllServed<F, P>(observed: seq<F>, expected: seq<Expectation<P>>, meets: (F, P) -> bool,
                        candidates: Candidates, m: Service)
    requires CandidatesOf(observed, expected, meets, candidates)
    requires IsGreedy(candidates, m, |Slots(expected)|)
    ensures MissingFailures(expected, Slots(expected), m.Keys, |Slots(expected)|) == [] <==>
            exists n :: IsSlotMatching(observed, expected, meets, n) && ServesAll(n, |Slots(expected)|)
  {
    var slots := Slots(expected);
    FailuresCount(expected, slots, m.Keys, |slots|);
    SlotMatchingIsMatching(observed, expected, meets, candidates, m);
    if n :| IsSlotMatching(observed, expected, meets, n) && ServesAll(n, |slots|) {
      SlotMatchingIsMatching(observed, expected, meets, candidates, n);
      forall s: nat | s < |slots|
        ensures s in m
      {
        assert Serves(n, m, s);
      }
    }
  }

  ghost predicate ServesAll(n: Service, slots: nat) {
    forall s: nat | s < slots :: s in n
  }

  /** Each expectation has its count of slots, served or failed. */
  lemma CountsMet<P>(expected: seq<Expectation<P>>, slots: seq<nat>, served: set<nat>)
    requires SlotsByCount(expected, slots)
    ensures ValidSlots(expected, slots)
    ensures forall i | 0 <= i < |expected| ::
      |ServedSlots(slots, served, |slots|, i)| + FailuresOf(MissingFailures(expected, slots, served, |slots|), i)
      == expected[i].count
  {
    assert slots[..|slots|] == slots;
    forall i | 0 <= i < |expected|
      ensures |ServedSlots(slots, served, |slots|, i)|
              + FailuresOf(MissingFailures(expected, slots, served, |slots|), i) == expected[i].count
    {
      FailuresPerExpectation(expected, slots, served, |slots|, i);
    }
  }

  /** Counts the expectations that the observed findings can meet at once.

    The count is that of a maximum matching, the failures name exactly the slots left over, and
    which slots those are is fixed by `IsGreedy` (see GreedyVerdictUnique). */
  method MatchExpectedFindings<F, P>(observed: seq<F>, expected: seq<Expectation<P>>, meets: (F, P) -> bool)
    returns (result: MatchResult, ghost m: Service, ghost candidates: Candidates)
    ensures result.InvalidCount? <==> !ValidCounts(expected)
    ensures result.InvalidCount? ==>
      && result.expectation < |expected|
      && expected[result.expectation].count < 1
      && ValidCounts(expected[..result.expectation])
    ensures result.Matched? ==>
      && IsSlotMatching(observed, expected, meets, m)
      && result.count == |m|
      && (forall n | IsSlotMatching(observed, expected, meets, n) :: |n| <= result.count)
    ensures result.Matched? ==>
      && result.failures == MissingFailures(expected, Slots(expected), m.Keys, |Slots(expected)|)
      && result.count + |result.failures| == |Slots(expected)| == TotalCount(expected)
    ensures result.Matched? ==>
      && SlotsByCount(expected, Slots(expected))
      && forall i | 0 <= i < |expected| ::
           |ServedSlots(Slots(expected), m.Keys, |Slots(expected)|, i)| + FailuresOf(result.failures, i)
           == expected[i].count
    ensures result.Matched? ==>
      && CandidatesOf(observed, expected, meets, candidates)
      && IsGreedy(candidates, m, |Slots(expected)|)
    ensures result.Matched? ==>
      (result.failures == [] <==>
       exists n :: IsSlotMatching(observed, expected, meets, n) && ServesAll(n, |Slots(expected)|))
  {
    m, candidates := map[], [];
    var slots, invalid := ExpandSlots(expected);
    if invalid >= 0 {
      return InvalidCount(invalid), m, candidates;
    }
    var lists := BuildCandidates(observed, expected, meets, slots);
    candidates := lists;
    var matched, failures;
    ghost var holders, frozen;
    matched, failures, m, holders, frozen := AssignSlots(expected, slots, lists, |observed|);
    result := Matched(matched, failures);
    CountsMet(expected, slots, m.Keys);
    hide SlotsByCount, FailuresOf, ServedSlots;
    SlotMatchingIsMatching(observed, expected, meets, lists, m);
    forall n | IsSlotMatching(observed, expected, meets, n)
      ensures |n| <= matched
    {
      SlotMatchingIsMatching(observed, expected, meets, lists, n);
      ClosedSetBound(lists, holders, m, frozen, n);
    }
    AllServed(observed, expected, meets, lists, m);
  }
}
