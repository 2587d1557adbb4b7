/** The signal requirement on duplicate windows, decided from prefix sums. */
module DuplicateSignal {

  /** How many of the flagged lines carry signal. */
  function Count(flags: seq<bool>): (n: nat)
    ensures n <= |flags|
  {
    if flags == [] then 0
    else Count(flags[..|flags| - 1]) + if flags[|flags| - 1] then 1 else 0
  }

  lemma {:induction false} CountSplit(a: seq<bool>, b: seq<bool>)
    ensures Count(a + b) == Count(a) + Count(b)
  {
    if b == [] {
      assert a + b == a;
    } else {
      assert (a + b)[..|a + b| - 1] == a + b[..|b| - 1];
      CountSplit(a, b[..|b| - 1]);
    }
  }

  /** At least one signal line, at least a quarter of the lines, and from six lines on at least two. */
  predicate Enough(signalLines: nat, size: nat) {
    signalLines >= 1 && 4 * signalLines >= size && (size >= 6 ==> signalLines >= 2)
  }

  /** What a window must hold, counted directly. */
  predicate WindowHasSignal(flags: seq<bool>, start: int, size: int) {
    size > 0 && start >= 0 && start + size <= |flags| && Enough(Count(flags[start..start + size]), size)
  }

  predicate IsPrefixSums(prefix: seq<nat>, flags: seq<bool>) {
    |prefix| == |flags| + 1 && forall i | 0 <= i <= |flags| :: prefix[i] == Count(flags[..i])
  }

  method DuplicateSignalPrefix(flags: seq<bool>) returns (prefix: seq<nat>)
    ensures IsPrefixSums(prefix, flags)
  {
    prefix := [0];
    for i := 0 to |flags|
      invariant |prefix| == i + 1
      invariant forall k | 0 <= k <= i :: prefix[k] == Count(flags[..k])
    {
      assert flags[..i + 1][..i] == flags[..i];
      prefix := prefix + [prefix[i] + if flags[i] then 1 else 0];
    }
  }

  lemma PrefixDifference(flags: seq<bool>, start: nat, end: nat)
    requires start <= end <= |flags|
    ensures Count(flags[start..end]) == Count(flags[..end]) - Count(flags[..start])
  {
    CountSplit(flags[..start], flags[start..end]);
    assert flags[..start] + flags[start..end] == flags[..end];
  }

  method HasDuplicateSignal(prefix: seq<nat>, start: int, size: int, ghost flags: seq<bool>) returns (signal: bool)
    requires IsPrefixSums(prefix, flags)
    ensures signal <==> WindowHasSignal(flags, start, size)
  {
    if size <= 0 || start < 0 || start + size >= |prefix| {
      return false;
    }
    var signalLines: int := prefix[start + size] as int - prefix[start] as int;
    var minimum: int := if (size + 3) / 4 > 1 then (size + 3) / 4 else 1;
    if size >= 6 {
      minimum := if minimum > 2 then minimum else 2;
    }
    PrefixDifference(flags, start, start + size);
    return signalLines >= minimum;
  }
}
