/** A record of the seed pairs a search has visited, in the order of the visits. */
module SeedLog {
  import opened DuplicateRuns
  import opened WindowIndex
  import Orders

  /** Two seeds of one bucket, the first one earlier in the index. */
  datatype Visit = Visit(key: Key, first: Occurrence, second: Occurrence)

  /** Pairs within one file, pairs across files, and for every reported span the pair it was grown from. */
  datatype Log = Log(same: seq<Visit>, cross: seq<Visit>, origins: seq<Visit>)

  /** Two lines compared: their alignment and the position of the first. */
  datatype Comparison = Comparison(alignment: Alignment, position: nat)

  function VisitAlignment(v: Visit): Alignment {
    Alignment(v.first.file, v.second.file, v.second.position as int - v.first.position as int)
  }

  // --------------------------------------------------------------- the visiting order

  predicate OccurrenceLess(a: Occurrence, b: Occurrence) {
    Before(a, b.file, b.position)
  }

  /** Tuple order of the index keys: by language, then by digest. */
  predicate KeyLess(a: Key, b: Key) {
    Orders.StringLess(a.language, b.language) || (a.language == b.language && a.digest < b.digest)
  }

  lemma KeyLessIsTotal()
    ensures Orders.StrictTotalOrder(KeyLess)
  {
    Orders.StringLessIsTotal();
    hide Orders.StringLess;
    forall a, b, c | KeyLess(a, b) && KeyLess(b, c)
      ensures KeyLess(a, c)
    {
    }
    forall a: Key, b: Key | a != b
      ensures KeyLess(a, b) || KeyLess(b, a)
    {
    }
  }

  predicate VisitLess(a: Visit, b: Visit) {
    || KeyLess(a.key, b.key)
    || (a.key == b.key
        && (OccurrenceLess(a.first, b.first) || (a.first == b.first && OccurrenceLess(a.second, b.second))))
  }

  /** By language, then digest, then the place of the first seed, then that of the second one. */
  ghost predicate VisitedEarlier(a: Visit, b: Visit) {
    || Orders.ComesFirst(a.key.language, b.key.language)
    || (a.key.language == b.key.language
        && (a.key.digest < b.key.digest
            || (a.key.digest == b.key.digest
                && (PlacedEarlier(a.first, b.first) || (a.first == b.first && PlacedEarlier(a.second, b.second))))))
  }

  predicate PlacedEarlier(a: Occurrence, b: Occurrence) {
    a.file < b.file || (a.file == b.file && a.position < b.position)
  }

  lemma VisitOrder(a: Visit, b: Visit)
    ensures VisitLess(a, b) <==> VisitedEarlier(a, b)
  {
    hide Orders.StringLess, Orders.ComesFirst;
    Orders.StringLessMeans(a.key.language, b.key.language);
  }

  /** `v` pairs two seeds that the index lists under one key. */
  ghost predicate IsVisit(s: Setup, v: Visit)
    requires ValidSetup(s)
  {
    Belongs(s, v.key, v.first) && Belongs(s, v.key, v.second) && OccurrenceLess(v.first, v.second)
  }

  ghost predicate SoundVisits(s: Setup, list: seq<Visit>)
    requires ValidSetup(s)
  {
    Orders.Ascending(VisitLess, list) && forall v <- list :: IsVisit(s, v)
  }

  /** Every visit is one of the index, none is recorded twice, and all are in the visiting order. */
  ghost predicate SoundLog(s: Setup, log: Log)
    requires ValidSetup(s)
  {
    && SoundVisits(s, log.same) && SoundVisits(s, log.cross) && SoundVisits(s, log.origins)
    && (forall v <- log.same :: v.first.file == v.second.file)
    && (forall v <- log.cross :: v.first.file != v.second.file)
  }

  lemma NoneTwice(list: seq<Visit>)
    requires Orders.Ascending(VisitLess, list)
    ensures Orders.NoRepeats(list)
  {
    forall i, j | 0 <= i < j < |list|
      ensures list[i] != list[j]
    {
      VisitLessIsStrict(list[i]);
    }
  }

  lemma VisitLessIsStrict(v: Visit)
    ensures !VisitLess(v, v)
  {
    if VisitLess(v, v) {
      UnderOneKey(v, v);
    }
  }

  lemma InOrder(list: seq<Visit>, i: nat, j: nat)
    requires Orders.Ascending(VisitLess, list) && i < j < |list|
    ensures VisitLess(list[i], list[j])
  {
    hide VisitLess;
  }

  /** Under one key the pairs come in the order of their first members. */
  lemma UnderOneKey(a: Visit, b: Visit)
    requires a.key == b.key && VisitLess(a, b)
    ensures OccurrenceLess(a.first, b.first) || (a.first == b.first && OccurrenceLess(a.second, b.second))
  {
    KeyLessIsTotal();
    hide KeyLess;
  }

  // -------------------------------------------------------------------- the frontier

  /** All visits recorded so far come before the pair at `left` and `right` of the bucket under `key`. */
  ghost predicate Upto(list: seq<Visit>, key: Key, bucket: seq<Occurrence>, left: nat, right: nat)
    requires left <= |bucket| && right <= |bucket|
  {
    forall x <- list :: KeyLess(x.key, key) || (x.key == key && SeenIn(x, bucket, left, right))
  }

  predicate SeenIn(x: Visit, bucket: seq<Occurrence>, left: nat, right: nat)
    requires left <= |bucket| && right <= |bucket|
  {
    x.first in bucket[..left] || (left < |bucket| && x.first == bucket[left] && x.second in bucket[..right])
  }

  ghost predicate LogUpto(log: Log, key: Key, bucket: seq<Occurrence>, left: nat, right: nat)
    requires left <= |bucket| && right <= |bucket|
  {
    && Upto(log.same, key, bucket, left, right)
    && Upto(log.cross, key, bucket, left, right)
    && Upto(log.origins, key, bucket, left, right)
  }

  lemma UptoIsBefore(list: seq<Visit>, key: Key, bucket: seq<Occurrence>, left: nat, right: nat)
    requires left < right < |bucket| && Ordered(bucket) && Upto(list, key, bucket, left, right)
    ensures forall x <- list :: VisitLess(x, Visit(key, bucket[left], bucket[right]))
  {
    hide KeyLess;
    forall x | x in list
      ensures VisitLess(x, Visit(key, bucket[left], bucket[right]))
    {
      if x.key == key && x.first in bucket[..left] {
        var i :| 0 <= i < left && bucket[i] == x.first;
      } else if x.key == key && SeenIn(x, bucket, left, right) {
        var j :| 0 <= j < right && bucket[j] == x.second;
      }
    }
  }

  /** A visit later than all recorded ones extends a sound list. */
  lemma AppendVisit(s: Setup, list: seq<Visit>, v: Visit)
    requires ValidSetup(s) && SoundVisits(s, list) && IsVisit(s, v) && forall x <- list :: VisitLess(x, v)
    ensures SoundVisits(s, list + [v])
  {
    hide VisitLess, IsVisit;
  }

  lemma UptoLater(list: seq<Visit>, key: Key, bucket: seq<Occurrence>, left: nat, right: nat)
    requires left < |bucket| && right < |bucket| && Upto(list, key, bucket, left, right)
    ensures Upto(list, key, bucket, left, right + 1)
  {
    hide KeyLess;
    forall x | x in list
      ensures KeyLess(x.key, key) || (x.key == key && SeenIn(x, bucket, left, right + 1))
    {
      assert bucket[..right + 1] == bucket[..right] + [bucket[right]];
    }
  }

  lemma UptoWith(list: seq<Visit>, key: Key, bucket: seq<Occurrence>, left: nat, right: nat)
    requires left < |bucket| && right < |bucket| && Upto(list, key, bucket, left, right)
    ensures Upto(list + [Visit(key, bucket[left], bucket[right])], key, bucket, left, right + 1)
  {
    hide KeyLess;
    UptoLater(list, key, bucket, left, right);
    assert bucket[right] in bucket[..right + 1] by {
      assert bucket[..right + 1][right] == bucket[right];
    }
  }

  lemma UptoNextLeft(list: seq<Visit>, key: Key, bucket: seq<Occurrence>, left: nat)
    requires left < |bucket| && Upto(list, key, bucket, left, |bucket|)
    ensures Upto(list, key, bucket, left + 1, 0)
  {
    hide KeyLess;
    assert bucket[..left + 1] == bucket[..left] + [bucket[left]];
  }

  /** The second member of a pair stands behind the first one in the bucket. */
  lemma UptoSkip(list: seq<Visit>, key: Key, bucket: seq<Occurrence>, left: nat)
    requires left < |bucket| && Upto(list, key, bucket, left, 0)
    ensures Upto(list, key, bucket, left, left + 1)
  {
    hide KeyLess;
  }

  lemma UptoNextKey(list: seq<Visit>, key: Key, bucket: seq<Occurrence>, next: Key, other: seq<Occurrence>)
    requires Upto(list, key, bucket, |bucket|, 0) && KeyLess(key, next)
    ensures Upto(list, next, other, 0, 0)
  {
    KeyLessIsTotal();
    hide KeyLess;
  }

  lemma LogUptoNextKey(log: Log, key: Key, bucket: seq<Occurrence>, next: Key, other: seq<Occurrence>)
    requires LogUpto(log, key, bucket, |bucket|, 0) && KeyLess(key, next)
    ensures LogUpto(log, next, other, 0, 0)
  {
    hide Upto, KeyLess;
    UptoNextKey(log.same, key, bucket, next, other);
    UptoNextKey(log.cross, key, bucket, next, other);
    UptoNextKey(log.origins, key, bucket, next, other);
  }

  lemma LogUptoNextLeft(log: Log, key: Key, bucket: seq<Occurrence>, left: nat)
    requires left < |bucket| && LogUpto(log, key, bucket, left, |bucket|)
    ensures LogUpto(log, key, bucket, left + 1, 0)
  {
    hide Upto;
    UptoNextLeft(log.same, key, bucket, left);
    UptoNextLeft(log.cross, key, bucket, left);
    UptoNextLeft(log.origins, key, bucket, left);
  }

  lemma LogUptoSkip(log: Log, key: Key, bucket: seq<Occurrence>, left: nat)
    requires left < |bucket| && LogUpto(log, key, bucket, left, 0)
    ensures LogUpto(log, key, bucket, left, left + 1)
  {
    hide Upto;
    UptoSkip(log.same, key, bucket, left);
    UptoSkip(log.cross, key, bucket, left);
    UptoSkip(log.origins, key, bucket, left);
  }

  // ------------------------------------------------------------------ recording visits

  /** The pair is recorded by its kind. */
  function Noted(log: Log, v: Visit): Log {
    if v.first.file == v.second.file then log.(same := log.same + [v]) else log.(cross := log.cross + [v])
  }

  /** The pair at `left` and `right` joins a log that reaches up to it. */
  lemma RecordVisit(s: Setup, log: Log, key: Key, bucket: seq<Occurrence>, left: nat, right: nat)
    requires ValidSetup(s) && SoundLog(s, log) && left < right < |bucket| && Ordered(bucket)
    requires LogUpto(log, key, bucket, left, right) && IsVisit(s, Visit(key, bucket[left], bucket[right]))
    ensures var v := Visit(key, bucket[left], bucket[right]);
      && SoundLog(s, Noted(log, v))
      && LogUpto(Noted(log, v), key, bucket, left, right + 1)
      && LogUpto(Noted(log, v).(origins := log.origins + [v]), key, bucket, left, right + 1)
      && forall x <- log.origins :: VisitLess(x, v)
  {
    hide Upto, SoundVisits, IsVisit, VisitLess;
    var v := Visit(key, bucket[left], bucket[right]);
    var list := if v.first.file == v.second.file then log.same else log.cross;
    UptoIsBefore(list, key, bucket, left, right);
    UptoIsBefore(log.origins, key, bucket, left, right);
    AppendVisit(s, list, v);
    UptoWith(list, key, bucket, left, right);
    UptoWith(log.origins, key, bucket, left, right);
    UptoLater(log.same, key, bucket, left, right);
    UptoLater(log.cross, key, bucket, left, right);
    UptoLater(log.origins, key, bucket, left, right);
  }

  // ----------------------------------------------------------------- spans and comparisons

  function FilePairs(list: seq<Visit>): set<(nat, nat)> {
    set v | v in list :: (v.first.file, v.second.file)
  }

  /** Span `i` was grown from its origin, which no earlier span reached. */
  ghost predicate FromOrigin(found: seq<Span>, origins: seq<Visit>, i: nat)
    requires i < |found| && i < |origins|
  {
    && Includes(found[i], VisitAlignment(origins[i]), origins[i].first.position)
    && !Reached(found[..i], VisitAlignment(origins[i]), origins[i].first.position)
  }

  ghost predicate Originated(found: seq<Span>, origins: seq<Visit>) {
    |origins| == |found| && forall i: nat | i < |found| :: FromOrigin(found, origins, i)
  }

  lemma AppendOrigin(found: seq<Span>, origins: seq<Visit>, span: Span, v: Visit)
    requires Originated(found, origins)
    requires Includes(span, VisitAlignment(v), v.first.position) && !Reached(found, VisitAlignment(v), v.first.position)
    ensures Originated(found + [span], origins + [v])
  {
    hide Includes, Reached, VisitAlignment;
    var more, all := found + [span], origins + [v];
    forall i: nat | i < |more|
      ensures FromOrigin(more, all, i)
    {
      if i < |found| {
        assert FromOrigin(found, origins, i);
        assert more[..i] == found[..i];
      } else {
        assert more[..i] == found;
      }
    }
  }

  /** Every comparison was made for a visited pair: it lies on the alignment of one. */
  ghost predicate Warranted(log: Log, compared: seq<Comparison>) {
    forall c <- compared :: WarrantedOne(log, c)
  }

  ghost predicate WarrantedOne(log: Log, c: Comparison) {
    exists v :: (v in log.same || v in log.cross) && VisitAlignment(v) == c.alignment
  }

  /** All comparisons since `before` were on one alignment. */
  ghost predicate OnlyOn(before: seq<Comparison>, after: seq<Comparison>, al: Alignment) {
    before <= after && forall k | |before| <= k < |after| :: after[k].alignment == al
  }

  /** The lines from `lo` up to `hi` have been compared on the alignment. */
  ghost predicate Seen(compared: seq<Comparison>, al: Alignment, lo: nat, hi: nat) {
    forall p: nat | lo <= p < hi :: Comparison(al, p) in compared
  }

  lemma MoreWarranted(log: Log, before: seq<Comparison>, after: seq<Comparison>, v: Visit)
    requires Warranted(log, before) && OnlyOn(before, after, VisitAlignment(v)) && (v in log.same || v in log.cross)
    ensures Warranted(log, after)
  {
    hide VisitAlignment;
    forall c | c in after
      ensures WarrantedOne(log, c)
    {
      var k :| 0 <= k < |after| && after[k] == c;
      if k < |before| {
        assert before[k] == after[k];
      }
    }
  }

  lemma StillWarranted(log: Log, v: Visit, compared: seq<Comparison>)
    requires Warranted(log, compared)
    ensures Warranted(Noted(log, v), compared)
  {
    hide VisitAlignment;
    forall c | c in compared
      ensures WarrantedOne(Noted(log, v), c)
    {
      assert WarrantedOne(log, c);
    }
  }
}
