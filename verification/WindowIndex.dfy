/** The index from window digests to the windows that may start a duplicate. */
module WindowIndex {
  import opened Basics
  import opened DuplicateRuns
  import DuplicateSignal
  import Orders
  import RollingHash

  datatype Key = Key(language: string, digest: int)

  datatype Occurrence = Occurrence(file: nat, position: nat)

  type WindowMap = map<Key, seq<Occurrence>>

  /** The fixed inputs of one search; the record hash and the signal test are arbitrary. */
  datatype Setup = Setup(files: seq<FileData>, window: nat, recordHash: string -> int, signal: string -> bool)

  ghost predicate ValidSetup(s: Setup) {
    ValidFiles(s.files) && s.window > 0
  }

  /** `o` is a window that belongs under `key`. */
  predicate Belongs(s: Setup, key: Key, o: Occurrence)
    requires forall f | 0 <= f < |s.files| :: |s.files[f].regions| == |s.files[f].indexed|
  {
    && o.file < |s.files|
    && Seeded(s.files[o.file], s.signal, o.position, s.window)
    && key == Key(s.files[o.file].language, WindowDigest(s.files[o.file], s.recordHash, o.position, s.window))
  }

  predicate Before(o: Occurrence, file: nat, position: nat) {
    o.file < file || (o.file == file && o.position < position)
  }

  ghost predicate Ordered(list: seq<Occurrence>) {
    forall i, j | 0 <= i < j < |list| :: Before(list[i], list[j].file, list[j].position)
  }

  ghost predicate Listed(m: WindowMap, key: Key, o: Occurrence) {
    key in m && o in m[key]
  }

  /** The map lists exactly the seeds before `position` of `file`, in order. */
  ghost predicate IndexedUpTo(s: Setup, m: WindowMap, file: nat, position: nat)
    requires ValidSetup(s)
  {
    && (forall key <- m :: Ordered(m[key]))
    && forall key, o :: Listed(m, key, o) <==> Belongs(s, key, o) && Before(o, file, position)
  }

  /** More seeds under one key than the limit allows. */
  ghost predicate Crowded(s: Setup, key: Key, list: seq<Occurrence>, limit: nat)
    requires ValidSetup(s)
  {
    |list| == limit + 1 && Ordered(list) && forall o <- list :: Belongs(s, key, o)
  }

  /** No key has more seeds than the limit allows. */
  predicate Spacious(m: WindowMap, limit: nat) {
    forall key <- m :: |m[key]| <= limit
  }

  ghost predicate NoneCrowded(s: Setup, limit: nat)
    requires ValidSetup(s)
  {
    forall key, list :: !Crowded(s, key, list, limit)
  }

  /** Within its limit, the index shows that no digest has too many seeds. */
  lemma SpaciousIsUncrowded(s: Setup, m: WindowMap, limit: nat)
    requires ValidSetup(s) && IndexedUpTo(s, m, |s.files|, 0) && Spacious(m, limit)
    ensures NoneCrowded(s, limit)
  {
    hide Belongs;
    forall key, list | Crowded(s, key, list, limit)
      ensures false
    {
      SeedIsListed(s, m, key, list[0]);
      forall o | o in list
        ensures o in m[key]
      {
        SeedIsListed(s, m, key, o);
      }
      Orders.ElementsSize(list);
      Orders.ElementsSize(m[key]);
      SubsetSize(Orders.Elements(list), Orders.Elements(m[key]));
    }
  }

  lemma SeedIsListed(s: Setup, m: WindowMap, key: Key, o: Occurrence)
    requires ValidSetup(s) && IndexedUpTo(s, m, |s.files|, 0) && Belongs(s, key, o)
    ensures key in m && o in m[key]
  {
    assert Before(o, |s.files|, 0);
    assert Listed(m, key, o);
  }

  lemma SkipWindow(s: Setup, m: WindowMap, file: nat, position: nat)
    requires ValidSetup(s) && file < |s.files| && IndexedUpTo(s, m, file, position)
    requires !Seeded(s.files[file], s.signal, position, s.window)
    ensures IndexedUpTo(s, m, file, position + 1)
  {
  }

  lemma AddWindow(s: Setup, m: WindowMap, file: nat, position: nat, key: Key)
    requires ValidSetup(s) && file < |s.files| && IndexedUpTo(s, m, file, position)
    requires Belongs(s, key, Occurrence(file, position))
    ensures var list := if key in m then m[key] else [];
      IndexedUpTo(s, m[key := list + [Occurrence(file, position)]], file, position + 1)
      && Ordered(list + [Occurrence(file, position)])
      && forall o <- list :: Belongs(s, key, o)
  {
    var o := Occurrence(file, position);
    var list := if key in m then m[key] else [];
    var m' := m[key := list + [o]];
    forall x | x in list
      ensures Belongs(s, key, x) && Before(x, file, position)
    {
      assert Listed(m, key, x);
    }
    hide Belongs, ValidSetup;
    assert Ordered(list + [o]) by {
      forall i, j | 0 <= i < j < |list + [o]|
        ensures Before((list + [o])[i], (list + [o])[j].file, (list + [o])[j].position)
      {
        assert list[i] in list;
      }
    }
    hide Ordered;
    forall k, x
      ensures Listed(m', k, x) <==> Belongs(s, k, x) && Before(x, file, position + 1)
    {
      assert Listed(m', k, x) <==> Listed(m, k, x) || (k == key && x == o);
      assert Before(x, file, position + 1) <==> Before(x, file, position) || x == o;
      if x == o && Belongs(s, k, x) {
        OneKey(s, k, key, o);
      }
    }
  }

  lemma OneKey(s: Setup, a: Key, b: Key, o: Occurrence)
    requires ValidSetup(s) && Belongs(s, a, o) && Belongs(s, b, o)
    ensures a == b
  {
  }

  /** No seed starts after the last full window. */
  lemma FileDone(s: Setup, m: WindowMap, file: nat, position: nat)
    requires ValidSetup(s) && file < |s.files| && IndexedUpTo(s, m, file, position)
    requires position + s.window > |s.files[file].indexed|
    ensures IndexedUpTo(s, m, file + 1, 0)
  {
  }

  method RecordHashes(file: FileData, recordHash: string -> int) returns (records: seq<int>)
    ensures |records| == |file.indexed|
    ensures forall i | 0 <= i < |records| :: records[i] == recordHash(file.indexed[i].normalized)
  {
    records := [];
    for i := 0 to |file.indexed|
      invariant |records| == i
      invariant forall k | 0 <= k < i :: records[k] == recordHash(file.indexed[k].normalized)
    {
      records := records + [recordHash(file.indexed[i].normalized)];
    }
  }

  method WindowDigests(file: FileData, recordHash: string -> int, window: nat) returns (digests: seq<nat>)
    requires 0 < window <= |file.indexed|
    ensures |digests| == |file.indexed| - window + 1
    ensures forall p | 0 <= p < |digests| :: digests[p] == WindowDigest(file, recordHash, p, window)
  {
    var records := RecordHashes(file, recordHash);
    var hashes := RollingHash.ComputeWindowHashes(records, window);
    digests := hashes.digests;
    forall p | 0 <= p < |digests|
      ensures digests[p] == WindowDigest(file, recordHash, p, window)
    {
      assert records[p..p + window] == WindowRecords(file, recordHash, p, window);
    }
  }

  /** The last position of the region run that `position` lies in. */
  method RegionEnd(file: FileData, position: nat) returns (end: nat)
    requires |file.regions| == |file.indexed| && position < |file.indexed|
    ensures RunEndsAt(file, position, end)
  {
    end := position;
    while end + 1 < |file.indexed| && file.regions[end + 1] == file.regions[position]
      invariant position <= end < |file.indexed|
      invariant forall i | position <= i <= end :: file.regions[i] == file.regions[position]
    {
      end := end + 1;
    }
  }

  predicate RunEndsAt(file: FileData, position: nat, end: nat) {
    && position <= end < |file.regions|
    && (forall i | position <= i <= end :: file.regions[i] == file.regions[position])
    && (end + 1 < |file.regions| ==> file.regions[end + 1] != file.regions[position])
  }

  lemma RunEndDecides(file: FileData, position: nat, end: nat, window: nat)
    requires RunEndsAt(file, position, end) && window > 0 && position + window <= |file.regions|
    ensures OneRegion(file, position, window) <==> position + window - 1 <= end
  {
  }

  /** Adds the seeds of one file; `end` caches the end of the current region run. */
  method IndexFileWindows(s: Setup, m: WindowMap, file: nat, limit: nat)
    returns (ok: bool, r: WindowMap, ghost crowdKey: Key, ghost crowd: seq<Occurrence>)
    requires ValidSetup(s) && file < |s.files| && IndexedUpTo(s, m, file, 0) && Spacious(m, limit)
    ensures ok ==> IndexedUpTo(s, r, file + 1, 0) && Spacious(r, limit)
    ensures !ok ==> Crowded(s, crowdKey, crowd, limit)
  {
    hide IndexedUpTo, Belongs, Seeded, OneRegion;
    var data := s.files[file];
    r := m;
    crowdKey, crowd := Key("", 0), [];
    if |data.indexed| < s.window {
      FileDone(s, r, file, 0);
      return true, r, crowdKey, crowd;
    }
    var prefix := DuplicateSignal.DuplicateSignalPrefix(Flags(data, s.signal));
    var digests := WindowDigests(data, s.recordHash, s.window);
    var end := -1;
    for position := 0 to |digests|
      invariant IndexedUpTo(s, r, file, position) && Spacious(r, limit)
      invariant -1 <= end && (position <= end ==> RunEndsAt(data, position, end))
    {
      var signal := DuplicateSignal.HasDuplicateSignal(prefix, position, s.window, Flags(data, s.signal));
      if !signal {
        NotSeeded(s, file, position);
        SkipWindow(s, r, file, position);
        continue;
      }
      if position > end {
        end := RegionEnd(data, position);
      }
      RunEndDecides(data, position, end, s.window);
      if end < position + s.window - 1 {
        NotSeeded(s, file, position);
        SkipWindow(s, r, file, position);
        continue;
      }
      var key := Key(data.language, digests[position]);
      var occurrences := if key in r then r[key] else [];
      NowSeeded(s, file, position, key);
      AddWindow(s, r, file, position, key);
      if |occurrences| >= limit {
        crowdKey, crowd := key, Crowd(occurrences, Occurrence(file, position), limit);
        CrowdIsCrowded(s, key, occurrences, Occurrence(file, position), limit);
        return false, r, crowdKey, crowd;
      }
      r := r[key := occurrences + [Occurrence(file, position)]];
    }
    FileDone(s, r, file, |digests|);
    return true, r, crowdKey, crowd;
  }

  ghost function Crowd(list: seq<Occurrence>, o: Occurrence, limit: nat): seq<Occurrence>
    requires limit <= |list|
  {
    list[|list| - limit..] + [o]
  }

  lemma CrowdIsCrowded(s: Setup, key: Key, list: seq<Occurrence>, o: Occurrence, limit: nat)
    requires ValidSetup(s) && limit <= |list| && Ordered(list + [o])
    requires Belongs(s, key, o) && forall x <- list :: Belongs(s, key, x)
    ensures Crowded(s, key, Crowd(list, o, limit), limit)
  {
    hide Belongs, Before;
    var c, shift := Crowd(list, o, limit), |list| - limit;
    assert forall i | 0 <= i < |c| :: c[i] == (list + [o])[shift + i];
    assert forall x <- list[shift..] :: x in list;
  }

  lemma NotSeeded(s: Setup, file: nat, position: nat)
    requires ValidSetup(s) && file < |s.files|
    requires !HasSignal(s.files[file], s.signal, position, s.window) || !OneRegion(s.files[file], position, s.window)
    ensures !Seeded(s.files[file], s.signal, position, s.window)
  {
  }

  lemma NowSeeded(s: Setup, file: nat, position: nat, key: Key)
    requires ValidSetup(s) && file < |s.files| && position + s.window <= |s.files[file].indexed|
    requires HasSignal(s.files[file], s.signal, position, s.window) && OneRegion(s.files[file], position, s.window)
    requires key == Key(s.files[file].language, WindowDigest(s.files[file], s.recordHash, position, s.window))
    ensures Belongs(s, key, Occurrence(file, position))
  {
  }

  method BuildWindowMap(s: Setup, limit: nat)
    returns (ok: bool, m: WindowMap, ghost crowdKey: Key, ghost crowd: seq<Occurrence>)
    requires ValidSetup(s)
    ensures ok ==> IndexedUpTo(s, m, |s.files|, 0) && Spacious(m, limit) && NoneCrowded(s, limit)
    ensures !ok ==> Crowded(s, crowdKey, crowd, limit)
  {
    ok, m, crowdKey, crowd := true, map[], Key("", 0), [];
    hide Belongs;
    for file := 0 to |s.files|
      invariant ok && IndexedUpTo(s, m, file, 0) && Spacious(m, limit)
    {
      ok, m, crowdKey, crowd := IndexFileWindows(s, m, file, limit);
      if !ok {
        return;
      }
    }
    SpaciousIsUncrowded(s, m, limit);
  }
}
