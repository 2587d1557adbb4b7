/** Publishing one payload under several names: all of them or none, whatever step fails. */
module AssemblyTransaction {
  import opened Basics
  import opened Publication

  const ATTEMPTS := 32

  datatype Creation = Created | Occupied | Refused

  /** The directories, with a schedule that decides which steps fail. */
  class Disk {
    var links: Links
    var contents: Contents
    var step: nat
    var drawn: nat
    const faults: nat -> bool
    const names: nat -> string

    constructor (links: Links, contents: Contents, faults: nat -> bool, names: nat -> string)
      ensures this.links == links && this.contents == contents && this.faults == faults && this.names == names
      ensures step == 0 && drawn == 0
    {
      this.links, this.contents, this.faults, this.names, step, drawn := links, contents, faults, names, 0, 0;
    }

    /** Whether the next step fails. */
    method NextFails() returns (fails: bool)
      modifies this`step
      ensures fails == faults(old(step)) && step == old(step) + 1
    {
      fails := faults(step);
      step := step + 1;
    }

    /** The next generated name. */
    method DrawName() returns (name: string)
      modifies this`drawn
      ensures name == names(old(drawn)) && drawn == old(drawn) + 1
    {
      name := names(drawn);
      drawn := drawn + 1;
    }

    /** `open(O_CREAT | O_EXCL)`: a new, empty file. */
    method CreateExclusive(p: Place) returns (r: Creation)
      modifies this`links, this`contents, this`step
      ensures step == old(step) + 1
      ensures r == Created ==> p !in old(links) && exists n: nat ::
        n !in old(contents) && links == old(links)[p := n] && contents == old(contents)[n := []]
      ensures r != Created ==> links == old(links) && contents == old(contents)
      ensures r == Occupied ==> p in links
      ensures r == Refused <==> faults(old(step))
    {
      var fails := NextFails();
      if fails {
        return Refused;
      }
      if p in links {
        return Occupied;
      }
      var inode := Unused(contents.Keys);
      links := links[p := inode];
      contents := contents[inode := []];
      return Created;
    }

    /** Writing, setting the mode, flushing and closing; a failure may leave anything written. */
    method Fill(p: Place, payload: seq<int>) returns (ok: bool)
      requires p in links
      modifies this`contents, this`step
      ensures step == old(step) + 1
      ensures ok ==> contents == old(contents)[links[p] := payload]
      ensures links[p] in contents && contents == old(contents)[links[p] := contents[links[p]]]
      ensures ok <==> !faults(old(step))
    {
      var fails := NextFails();
      var part := if fails then payload[..|payload| / 2] else payload;
      contents := contents[links[p] := part];
      ok := !fails;
    }

    /** `link(src, dst)`. */
    method Link(src: Place, dst: Place) returns (r: Creation)
      modifies this`links, this`step
      ensures step == old(step) + 1
      ensures r == Created ==> src in old(links) && dst !in old(links) && links == old(links)[dst := old(links)[src]]
      ensures r != Created ==> links == old(links)
      ensures r == Occupied ==> dst in links
      ensures r == Refused <==> src !in old(links) || faults(old(step))
    {
      var fails := NextFails();
      if fails || src !in links {
        return Refused;
      }
      if dst in links {
        return Occupied;
      }
      links := links[dst := links[src]];
      return Created;
    }

    /** `unlink(p)` where a missing entry is no error. */
    method UnlinkIfPresent(p: Place) returns (ok: bool)
      modifies this`links, this`step
      ensures step == old(step) + 1
      ensures ok ==> links == old(links) - {p}
      ensures ok <==> !faults(old(step))
      ensures !ok ==> links == old(links)
    {
      var fails := NextFails();
      if fails {
        return false;
      }
      links := links - {p};
      return true;
    }

    /** `unlink(p)` where a missing entry is an error. */
    method Unlink(p: Place) returns (ok: bool)
      modifies this`links, this`step
      ensures step == old(step) + 1
      ensures ok <==> p in old(links) && !faults(old(step))
      ensures links == if ok then old(links) - {p} else old(links)
    {
      var fails := NextFails();
      if fails || p !in links {
        return false;
      }
      links := links - {p};
      return true;
    }

    /** `rename(src, dst)`, which does nothing when both name the same file. */
    method Replace(src: Place, dst: Place) returns (ok: bool)
      modifies this`links, this`step
      ensures step == old(step) + 1
      ensures ok <==> src in old(links) && !faults(old(step))
      ensures ok ==> links == (if dst in old(links) && old(links)[dst] == old(links)[src] then old(links)
                               else Renamed(old(links), src, dst))
      ensures !ok ==> links == old(links)
    {
      var fails := NextFails();
      if fails || src !in links {
        return false;
      }
      if !(dst in links && links[dst] == links[src]) {
        links := Renamed(links, src, dst);
      }
      return true;
    }

    /** A check that `condition` holds; the check itself may fail. */
    method Check(condition: bool) returns (ok: bool)
      modifies this`step
      ensures step == old(step) + 1
      ensures ok <==> condition && !faults(old(step))
    {
      var fails := NextFails();
      ok := condition && !fails;
    }
  }

  /** An inode number not in use. */
  method Unused(used: set<nat>) returns (n: nat)
    ensures n !in used
  {
    n := 0;
    var rest := used;
    while rest != {}
      invariant rest <= used && forall x | x in used && x !in rest :: x < n
      decreases rest
    {
      var x :| x in rest;
      rest := rest - {x};
      if x >= n {
        n := x + 1;
      }
    }
  }

  /** Publication state of one output, private to one transaction. */
  class OutputState {
    const place: Place
    const previous: Option<nat>
    var temporary: Option<Place>
    var backup: Option<Place>
    var published: bool
    ghost var recovery: Option<Place>

    constructor (place: Place, previous: Option<nat>)
      ensures this.place == place && this.previous == previous
      ensures temporary == None && backup == None && !published && recovery == None
    {
      this.place, this.previous := place, previous;
      temporary, backup, published, recovery := None, None, false, None;
    }

    ghost function ToView(): View
      reads this
    {
      View(place, previous, temporary, backup, published, recovery)
    }
  }

  ghost function Views(states: seq<OutputState>): (views: seq<View>)
    reads states
    ensures |views| == |states| && forall i | 0 <= i < |states| :: views[i] == states[i].ToView()
  {
    seq(|states|, i requires 0 <= i < |states| reads states => states[i].ToView())
  }

  ghost predicate DistinctStates(states: seq<OutputState>) {
    forall i, j | 0 <= i < j < |states| :: states[i] != states[j]
  }

  /** A step between `lo` and `hi` failed. */
  ghost predicate FaultIn(faults: nat -> bool, lo: nat, hi: nat) {
    exists k: nat :: lo <= k < hi && faults(k)
  }

  /** More than one step of the schedule fails. */
  ghost predicate SeveralFaults(faults: nat -> bool) {
    exists j: nat, k: nat :: j < k && faults(j) && faults(k)
  }

  /** Among two steps, none fails exactly when neither does. */
  lemma TwoSteps(faults: nat -> bool, lo: nat)
    ensures !FaultIn(faults, lo, lo) && (FaultIn(faults, lo, lo + 1) <==> faults(lo))
    ensures FaultIn(faults, lo, lo + 2) <==> faults(lo) || faults(lo + 1)
    ensures forall hi: nat :: (hi > lo && faults(lo)) || (hi > lo + 1 && faults(lo + 1)) ==> FaultIn(faults, lo, hi)
  {
    assert faults(lo) ==> FaultIn(faults, lo, lo + 1);
  }

  /** A stretch of steps and the steps behind it. */
  lemma StepsJoin(faults: nat -> bool, lo: nat, mid: nat, hi: nat)
    requires lo <= mid <= hi
    ensures FaultIn(faults, lo, hi) <==> FaultIn(faults, lo, mid) || FaultIn(faults, mid, hi)
  {
  }

  /** What the steps from `start` on add to those before, of which none failed. */
  lemma FaultsSoFar(faults: nat -> bool, lo: nat, start: nat, step: nat, next: nat, hi: nat)
    requires lo <= start <= step && start <= next && !FaultIn(faults, lo, start)
    ensures FaultIn(faults, lo, step) <==> FaultIn(faults, start, step)
    ensures FaultIn(faults, lo, next) <==> FaultIn(faults, start, next)
    ensures next <= hi && FaultIn(faults, start, next) ==> FaultIn(faults, lo, hi)
  {
  }

  lemma FaultsApart(faults: nat -> bool, lo: nat, mid: nat, hi: nat)
    requires FaultIn(faults, lo, mid) && FaultIn(faults, mid, hi)
    ensures SeveralFaults(faults)
  {
  }

  /** No name still to be drawn is taken, and names do not repeat. */
  ghost predicate NamesAhead(disk: Disk)
    reads disk
  {
    Ahead(disk.names, disk.drawn, disk.links)
  }

  ghost predicate Ahead(names: nat -> string, drawn: nat, links: Links) {
    && (forall k: nat, l: nat | k != l :: names(k) != names(l))
    && (forall k: nat, d: nat | k >= drawn :: Place(d, names(k)) !in links)
  }

  /** The next name is free, and with it taken the later ones still are. */
  lemma NextName(names: nat -> string, drawn: nat, links: Links, directory: nat)
    ensures Ahead(names, drawn, links) ==> Place(directory, names(drawn)) !in links
    ensures forall links': Links
      | Ahead(names, drawn, links) && links'.Keys == links.Keys + {Place(directory, names(drawn))} ::
      Ahead(names, drawn + 1, links')
  {
  }

  /** The invariant of a transaction up to and including the rollback. */
  ghost predicate Running(run: Run, disk: Disk, states: seq<OutputState>)
    reads disk, states
  {
    && run.names == disk.names && DistinctStates(states)
    && Ready(run, disk.links, disk.contents, Views(states))
  }

  lemma MoreContents(run: Run, links: Links, contents: Contents, contents': Contents, views: seq<View>)
    requires Ready(run, links, contents, views)
    requires forall n <- contents :: n in contents' && contents'[n] == contents[n]
    ensures Ready(run, links, contents', views)
  {
    hide Settled, Supported, Separate, ValidRun, OthersKept;
    forall i | 0 <= i < |views|
      ensures Settled(run, links, contents', views[i]) && Supported(run, links, contents', views[i])
    {
      Unaffected(run, links, links, contents, contents', views[i]);
    }
  }

  lemma NameIsAuxiliary(run: Run, directory: nat, k: nat)
    ensures IsAuxiliary(run, Place(directory, run.names(k)))
  {
  }

  /** Free for use by one of the outputs. */
  ghost predicate FreeAuxiliary(run: Run, views: seq<View>, p: Place) {
    IsAuxiliary(run, p) && p !in run.links && forall i | 0 <= i < |views| :: !Uses(views[i], p)
  }

  lemma NewFile(run: Run, links: Links, contents: Contents, views: seq<View>, p: Place, inode: nat, bytes: seq<int>)
    requires Ready(run, links, contents, views) && IsAuxiliary(run, p) && p !in links && inode !in contents
    ensures Ready(run, links[p := inode], contents[inode := bytes], views)
    ensures Ready(run, links, contents[inode := bytes], views)
    ensures FreeAuxiliary(run, views, p)
    ensures bytes == run.payload ==> HoldsPayload(run, links[p := inode], contents[inode := bytes], p)
  {
    AddAuxiliary(run, links, contents, views, p, inode, contents[inode := bytes]);
    MoreContents(run, links, contents, contents[inode := bytes], views);
    assert ContentsKept(run, contents);
  }

  /** Writes the payload to the new file `p`, or removes it. */
  method FillNew(disk: Disk, p: Place, payload: seq<int>, ghost run: Run, ghost views: seq<View>,
                 ghost links: Links, ghost contents: Contents)
    returns (ok: bool)
    requires run.payload == payload && Ready(run, links, contents, views) && IsAuxiliary(run, p)
    requires p in disk.links && p !in links && disk.links == links[p := disk.links[p]]
    requires disk.links[p] !in contents && disk.contents == contents[disk.links[p] := []]
    modifies disk`links, disk`contents, disk`step
    ensures Ready(run, disk.links, disk.contents, views) && FreeAuxiliary(run, views, p)
    ensures ok ==> HoldsPayload(run, disk.links, disk.contents, p) && disk.links == old(disk.links)
    ensures !ok ==> disk.links == links || SeveralFaults(disk.faults)
    ensures disk.step > old(disk.step) && (ok <==> !disk.faults(old(disk.step)))
    ensures ok ==> disk.step == old(disk.step) + 1
  {
    hide Ready, IsAuxiliary, HoldsPayload, FreeAuxiliary;
    ghost var inode := disk.links[p];
    ok := disk.Fill(p, payload);
    NewFile(run, links, contents, views, p, inode, disk.contents[inode]);
    assert disk.contents == contents[inode := disk.contents[inode]];
    if !ok {
      var removed := disk.UnlinkIfPresent(p);
      assert removed ==> disk.links == links;
    }
  }

  /** All names drawn between `lo` and `hi` are taken in the directory. */
  ghost predicate AllTaken(names: nat -> string, directory: nat, lo: nat, hi: nat, links: Links) {
    forall k: nat | lo <= k < hi :: Place(directory, names(k)) in links
  }

  lemma OneMoreTaken(names: nat -> string, directory: nat, lo: nat, hi: nat, links: Links)
    requires lo <= hi
    ensures AllTaken(names, directory, lo, lo, links)
    ensures AllTaken(names, directory, lo, hi, links) && Place(directory, names(hi)) in links ==>
      AllTaken(names, directory, lo, hi + 1, links)
  {
  }

  /** One attempt at a temporary: a new file `p` with the payload. */
  method FillAt(disk: Disk, p: Place, payload: seq<int>, ghost run: Run, ghost views: seq<View>)
    returns (created: Creation, ok: bool)
    requires run.payload == payload && IsAuxiliary(run, p) && Ready(run, disk.links, disk.contents, views)
    modifies disk`links, disk`contents, disk`step
    ensures Ready(run, disk.links, disk.contents, views) && disk.step > old(disk.step)
    ensures created == Refused <==> disk.faults(old(disk.step))
    ensures created != Created ==>
      !ok && disk.links == old(disk.links) && disk.contents == old(disk.contents) && disk.step == old(disk.step) + 1
    ensures created == Occupied ==> p in old(disk.links)
    ensures created == Created ==> (ok <==> !disk.faults(old(disk.step) + 1)) && disk.step > old(disk.step) + 1
    ensures ok ==>
      && FreeAuxiliary(run, views, p) && HoldsPayload(run, disk.links, disk.contents, p)
      && disk.links.Keys == old(disk.links.Keys) + {p} && disk.step == old(disk.step) + 2
    ensures !ok ==> disk.links == old(disk.links) || SeveralFaults(disk.faults)
  {
    hide Ready, IsAuxiliary, HoldsPayload, FreeAuxiliary, SeveralFaults;
    ok := false;
    created := disk.CreateExclusive(p);
    if created == Created {
      ok := FillNew(disk, p, payload, run, views, old(disk.links), old(disk.contents));
    }
  }

  /** A new file with the payload under a fresh name; None if a step fails or no name is free. */
  method CreateTemp(disk: Disk, directory: nat, payload: seq<int>, ghost run: Run, ghost views: seq<View>)
    returns (temporary: Option<Place>)
    requires run.names == disk.names && run.payload == payload
    requires Ready(run, disk.links, disk.contents, views)
    modifies disk
    ensures Ready(run, disk.links, disk.contents, views)
    ensures temporary.Some? ==>
      && FreeAuxiliary(run, views, temporary.value)
      && HoldsPayload(run, disk.links, disk.contents, temporary.value)
      && disk.links.Keys == old(disk.links.Keys) + {temporary.value}
    ensures temporary.None? ==> disk.links == old(disk.links) || SeveralFaults(disk.faults)
    ensures disk.step >= old(disk.step)
    ensures temporary.Some? ==> !FaultIn(disk.faults, old(disk.step), disk.step)
    ensures temporary.None? && !FaultIn(disk.faults, old(disk.step), disk.step) ==>
      disk.drawn == old(disk.drawn) + 32
      && AllTaken(disk.names, directory, old(disk.drawn), disk.drawn, old(disk.links))
    ensures old(NamesAhead(disk)) ==>
      && (temporary.Some? <==> !FaultIn(disk.faults, old(disk.step), old(disk.step) + 2))
      && if temporary.Some? then NamesAhead(disk) && disk.step == old(disk.step) + 2
         else FaultIn(disk.faults, old(disk.step), disk.step)
  {
    hide Ready, IsAuxiliary, HoldsPayload, FreeAuxiliary, FaultIn, SeveralFaults, Ahead, AllTaken;
    TwoSteps(disk.faults, disk.step);
    OneMoreTaken(disk.names, directory, disk.drawn, disk.drawn, disk.links);
    var attempt := 0;
    while attempt < ATTEMPTS
      invariant 0 <= attempt <= ATTEMPTS
      invariant disk.links == old(disk.links) && disk.contents == old(disk.contents) && disk.step >= old(disk.step)
      invariant !FaultIn(disk.faults, old(disk.step), disk.step)
      invariant old(NamesAhead(disk)) ==> attempt == 0 && disk.drawn == old(disk.drawn) && disk.step == old(disk.step)
      invariant disk.drawn == old(disk.drawn) + attempt
      invariant AllTaken(disk.names, directory, old(disk.drawn), disk.drawn, old(disk.links))
    {
      ghost var k, start := disk.drawn, disk.step;
      var name := disk.DrawName();
      var p := Place(directory, name);
      NameIsAuxiliary(run, directory, k);
      NextName(disk.names, k, old(disk.links), directory);
      OneMoreTaken(disk.names, directory, old(disk.drawn), k, old(disk.links));
      var created, ok := FillAt(disk, p, payload, run, views);
      TwoSteps(disk.faults, start);
      StepsJoin(disk.faults, old(disk.step), start, disk.step);
      if created == Created {
        return if ok then Some(p) else None;
      }
      if created == Refused {
        return None;
      }
      attempt := attempt + 1;
    }
    return None;
  }

  /** One attempt at a backup: a second link `p` to the present output. */
  method LinkAt(disk: Disk, place: Place, previous: nat, p: Place, ghost run: Run, ghost views: seq<View>)
    returns (created: Creation, ok: bool)
    requires IsAuxiliary(run, p) && Ready(run, disk.links, disk.contents, views)
    modifies disk`links, disk`step
    ensures Ready(run, disk.links, disk.contents, views) && disk.step > old(disk.step)
    ensures created != Created ==> !ok && disk.links == old(disk.links) && disk.step == old(disk.step) + 1
    ensures created == Occupied ==> p in old(disk.links)
    ensures created == Refused <==> place !in old(disk.links) || disk.faults(old(disk.step))
    ensures created == Created ==> disk.step > old(disk.step) + 1
    ensures ok ==>
      && !disk.faults(old(disk.step) + 1) && disk.step == old(disk.step) + 2
      && FreeAuxiliary(run, views, p) && Lookup(disk.links, p) == Some(previous)
      && disk.links.Keys == old(disk.links.Keys) + {p}
    ensures created == Created && !ok && old(Lookup(disk.links, place)) == Some(previous) ==>
      disk.faults(old(disk.step) + 1) && (disk.links == old(disk.links) || SeveralFaults(disk.faults))
  {
    ReadyParts(run, disk.links, disk.contents, views);
    hide Ready, IsAuxiliary, ValidRun, Separate, Places, OthersKept, ContentsKept, Settled, Supported, FreeAuxiliary;
    hide SeveralFaults;
    ok := false;
    created := disk.Link(place, p);
    if created == Created {
      NewLink(run, old(disk.links), disk.contents, views, p, disk.links[p]);
      ok := ConfirmBackup(disk, place, previous, p, old(disk.links));
    }
  }

  /** A second link to the present output; None if a step fails, no name is free or the output changed. */
  method CreateBackup(disk: Disk, place: Place, previous: nat, ghost run: Run, ghost views: seq<View>)
    returns (backup: Option<Place>)
    requires run.names == disk.names && Ready(run, disk.links, disk.contents, views)
    modifies disk`links, disk`step, disk`drawn
    ensures Ready(run, disk.links, disk.contents, views)
    ensures backup.Some? ==>
      && FreeAuxiliary(run, views, backup.value)
      && Lookup(disk.links, backup.value) == Some(previous)
      && disk.links.Keys == old(disk.links.Keys) + {backup.value}
    ensures disk.step >= old(disk.step)
    ensures backup.None? && old(Lookup(disk.links, place)) == Some(previous) ==>
      disk.links == old(disk.links) || SeveralFaults(disk.faults)
    ensures backup.Some? ==> !FaultIn(disk.faults, old(disk.step), disk.step)
    ensures
      (&& backup.None? && !FaultIn(disk.faults, old(disk.step), disk.step)
       && old(Lookup(disk.links, place)) == Some(previous)) ==>
      && disk.drawn == old(disk.drawn) + 32
      && AllTaken(disk.names, place.directory, old(disk.drawn), disk.drawn, old(disk.links))
    ensures old(NamesAhead(disk)) && old(Lookup(disk.links, place)) == Some(previous) ==>
      && (backup.Some? <==> !FaultIn(disk.faults, old(disk.step), old(disk.step) + 2))
      && if backup.Some? then NamesAhead(disk) && disk.step == old(disk.step) + 2
         else FaultIn(disk.faults, old(disk.step), disk.step)
  {
    hide Ready, IsAuxiliary, FreeAuxiliary, FaultIn, SeveralFaults, Ahead, AllTaken;
    TwoSteps(disk.faults, disk.step);
    OneMoreTaken(disk.names, place.directory, disk.drawn, disk.drawn, disk.links);
    var attempt := 0;
    while attempt < ATTEMPTS
      invariant 0 <= attempt <= ATTEMPTS
      invariant disk.links == old(disk.links) && disk.step >= old(disk.step)
      invariant Ready(run, disk.links, disk.contents, views)
      invariant !FaultIn(disk.faults, old(disk.step), disk.step)
      invariant old(NamesAhead(disk)) ==> attempt == 0 && disk.drawn == old(disk.drawn) && disk.step == old(disk.step)
      invariant disk.drawn == old(disk.drawn) + attempt
      invariant AllTaken(disk.names, place.directory, old(disk.drawn), disk.drawn, old(disk.links))
    {
      ghost var k, start := disk.drawn, disk.step;
      var name := disk.DrawName();
      var p := Place(place.directory, name);
      NameIsAuxiliary(run, place.directory, k);
      NextName(disk.names, k, old(disk.links), place.directory);
      OneMoreTaken(disk.names, place.directory, old(disk.drawn), k, old(disk.links));
      var created, ok := LinkAt(disk, place, previous, p, run, views);
      TwoSteps(disk.faults, start);
      StepsJoin(disk.faults, old(disk.step), start, disk.step);
      if created == Created {
        return if ok then Some(p) else None;
      }
      if created == Refused {
        return None;
      }
      attempt := attempt + 1;
    }
    return None;
  }

  lemma NewLink(run: Run, links: Links, contents: Contents, views: seq<View>, p: Place, inode: nat)
    requires Ready(run, links, contents, views) && IsAuxiliary(run, p) && p !in links && inode in contents
    ensures Ready(run, links[p := inode], contents, views) && FreeAuxiliary(run, views, p)
  {
    hide Ready, IsAuxiliary;
    AddAuxiliary(run, links, contents, views, p, inode, contents);
  }

  /** Checks that the new link `p` and the output are the file expected, and removes `p` otherwise. */
  method ConfirmBackup(disk: Disk, place: Place, previous: nat, p: Place, ghost before: Links) returns (ok: bool)
    requires p in disk.links && p !in before && disk.links == before[p := disk.links[p]]
    modifies disk`links, disk`step
    ensures ok ==> disk.links == old(disk.links) && disk.links[p] == previous
    ensures !ok ==> disk.links == old(disk.links) || disk.links == before
    ensures disk.step > old(disk.step)
    ensures ok ==> disk.step == old(disk.step) + 1 && !disk.faults(old(disk.step))
    ensures !ok && place in before && before[place] == previous && old(disk.links[p]) == previous ==>
      disk.faults(old(disk.step)) && (disk.links == before || SeveralFaults(disk.faults))
  {
    ok := disk.Check(place in disk.links && disk.links[place] == disk.links[p] && disk.links[p] == previous);
    if !ok {
      var removed := disk.UnlinkIfPresent(p);
      assert removed ==> disk.links == before;
    }
  }

  // ------------------------------------------------------------------ the phases

  /** Like Running, with no output replaced yet and no recovery copies. */
  ghost predicate Preparing(run: Run, disk: Disk, states: seq<OutputState>)
    reads disk, states
  {
    && Running(run, disk, states)
    && forall i | 0 <= i < |states| :: !states[i].published && states[i].recovery.None?
  }

  ghost predicate Untouched(run: Run, links: Links) {
    forall p <- run.outputs :: Lookup(links, p) == Lookup(run.links, p)
  }

  ghost predicate AllNew(run: Run, links: Links, contents: Contents) {
    forall p <- run.outputs :: HoldsPayload(run, links, contents, p)
  }

  function StartView(run: Run, p: Place): View {
    View(p, Lookup(run.links, p), None, None, false, None)
  }

  method OpenOutputs(disk: Disk, outputs: seq<Place>, ghost run: Run) returns (ok: bool, states: seq<OutputState>)
    requires ValidRun(run) && run.outputs == outputs && run.names == disk.names
    requires disk.links == run.links && disk.contents == run.contents
    modifies disk`step
    ensures fresh(states)
    ensures ok ==> Preparing(run, disk, states)
    ensures ok ==> forall i | 0 <= i < |states| :: states[i].temporary.None? && states[i].backup.None?
    ensures disk.step >= old(disk.step)
    ensures !ok ==> FaultIn(disk.faults, old(disk.step), disk.step)
    ensures ok <==> !FaultIn(disk.faults, old(disk.step), old(disk.step) + 2 * |outputs|)
    ensures ok ==> disk.step == old(disk.step) + 2 * |outputs|
  {
    states := [];
    for i := 0 to |outputs|
      invariant fresh(states) && |states| == i && DistinctStates(states)
      invariant disk.step == old(disk.step) + 2 * i && !FaultIn(disk.faults, old(disk.step), disk.step)
      invariant forall k | 0 <= k < i :: states[k].ToView() == StartView(run, outputs[k])
    {
      ok := disk.Check(true);
      if !ok {
        return;
      }
      ok := disk.Check(true);
      if !ok {
        return;
      }
      var state := new OutputState(outputs[i], Lookup(disk.links, outputs[i]));
      states := states + [state];
    }
    ok := true;
    StartReady(run, Views(states));
  }

  lemma StartReady(run: Run, views: seq<View>)
    requires ValidRun(run) && |views| == |run.outputs|
    requires forall k | 0 <= k < |views| :: views[k] == StartView(run, run.outputs[k])
    ensures Ready(run, run.links, run.contents, views)
  {
    hide IsAuxiliary;
  }

  method MakeTemporaries(disk: Disk, states: seq<OutputState>, payload: seq<int>, ghost run: Run) returns (ok: bool)
    requires Preparing(run, disk, states) && run.payload == payload
    requires forall i | 0 <= i < |states| :: states[i].temporary.None? && states[i].backup.None?
    requires Tidy(run, disk.links, Views(states))
    modifies disk, set s <- states :: s`temporary
    ensures Preparing(run, disk, states) && disk.step >= old(disk.step)
    ensures ok || !SeveralFaults(disk.faults) ==> Tidy(run, disk.links, Views(states))
    ensures ok ==> forall i | 0 <= i < |states| :: states[i].temporary.Some?
    ensures ok ==> !FaultIn(disk.faults, old(disk.step), disk.step)
    ensures old(NamesAhead(disk)) ==>
      && (ok <==> !FaultIn(disk.faults, old(disk.step), old(disk.step) + 2 * |states|))
      && if ok then NamesAhead(disk) && disk.step == old(disk.step) + 2 * |states|
         else FaultIn(disk.faults, old(disk.step), disk.step)
  {
    hide Ready, Tidy, Views, FreeAuxiliary, HoldsPayload, NamesAhead, SeveralFaults, FaultIn;
    TwoSteps(disk.faults, disk.step);
    for i := 0 to |states|
      invariant !FaultIn(disk.faults, old(disk.step), disk.step)
      invariant old(NamesAhead(disk)) ==> disk.step == old(disk.step) + 2 * i
      invariant Preparing(run, disk, states) && Tidy(run, disk.links, Views(states)) && disk.step >= old(disk.step)
      invariant forall k | 0 <= k < |states| :: states[k].temporary.Some? <==> k < i
      invariant old(NamesAhead(disk)) ==> NamesAhead(disk)
    {
      ghost var views, links := Views(states), disk.links;
      ghost var start := disk.step;
      var temporary := CreateTemp(disk, states[i].place.directory, payload, run, views);
      FaultsSoFar(disk.faults, old(disk.step), start, disk.step, start + 2, old(disk.step) + 2 * |states|);
      if temporary.None? {
        return false;
      }
      NewTemporary(run, links, disk.links, disk.contents, views, i, temporary.value);
      assert states[i] in states;
      states[i].temporary := temporary;
      assert Views(states) == views[i := views[i].(temporary := temporary)];
    }
    return true;
  }

  lemma NewTemporary(run: Run, links: Links, links': Links, contents: Contents, views: seq<View>, i: nat, p: Place)
    requires Ready(run, links', contents, views) && i < |views| && Tidy(run, links, views)
    requires FreeAuxiliary(run, views, p) && HoldsPayload(run, links', contents, p)
    requires views[i].temporary.None? && !views[i].published && links'.Keys == links.Keys + {p}
    ensures Ready(run, links', contents, views[i := views[i].(temporary := Some(p))])
    ensures Tidy(run, links', views[i := views[i].(temporary := Some(p))])
  {
    RecordTemporary(run, links', contents, views, i, p);
    hide Ready, HoldsPayload, IsAuxiliary;
    TidyMore(run, links, links', views, i, views[i].(temporary := Some(p)), p);
  }

  lemma TidyMore(run: Run, links: Links, links': Links, views: seq<View>, i: nat, v: View, p: Place)
    requires Tidy(run, links, views) && i < |views| && Uses(v, p) && forall q | Uses(views[i], q) :: Uses(v, q)
    requires links'.Keys == links.Keys + {p}
    ensures Tidy(run, links', views[i := v])
  {
    hide Uses;
    var views' := views[i := v];
    forall q | q in links' && q !in run.links && q !in run.outputs
      ensures exists j :: 0 <= j < |views'| && Uses(views'[j], q)
    {
      if q == p {
        assert Uses(views'[i], p);
      } else {
        var j :| 0 <= j < |views| && Uses(views[j], q);
        assert Uses(views'[j], q);
      }
    }
  }

  /** How many of the first `n` outputs existed before. */
  ghost function Existing(run: Run, n: nat): nat
    requires n <= |run.outputs|
  {
    if n == 0 then 0 else Existing(run, n - 1) + if run.outputs[n - 1] in run.links then 1 else 0
  }

  lemma {:induction false} ExistingGrows(run: Run, m: nat, n: nat)
    requires m <= n <= |run.outputs|
    ensures Existing(run, m) <= Existing(run, n)
  {
    if m < n {
      ExistingGrows(run, m, n - 1);
    }
  }

  lemma OnePerOutput(run: Run, links: Links, contents: Contents, views: seq<View>)
    requires Sound(run, links, contents, views) || Ready(run, links, contents, views)
    ensures |views| == |run.outputs|
  {
  }

  lemma PreviousIs(run: Run, links: Links, contents: Contents, views: seq<View>, i: nat)
    requires Sound(run, links, contents, views) || Ready(run, links, contents, views)
    requires i < |views|
    ensures |views| == |run.outputs| && (views[i].previous.Some? <==> run.outputs[i] in run.links)
  {
  }

  method MakeBackups(disk: Disk, states: seq<OutputState>, ghost run: Run) returns (ok: bool)
    requires Preparing(run, disk, states) && Tidy(run, disk.links, Views(states))
    requires forall i | 0 <= i < |states| :: states[i].temporary.Some? && states[i].backup.None?
    modifies disk`links, disk`step, disk`drawn, set s <- states :: s`backup
    ensures Preparing(run, disk, states)
    ensures forall i | 0 <= i < |states| :: states[i].temporary.Some?
    ensures disk.step >= old(disk.step)
    ensures ok || !SeveralFaults(disk.faults) ==> Tidy(run, disk.links, Views(states))
    ensures ok ==> forall i | 0 <= i < |states| :: states[i].previous.Some? ==> states[i].backup.Some?
    ensures |states| == |run.outputs| && (ok ==> !FaultIn(disk.faults, old(disk.step), disk.step))
    ensures old(NamesAhead(disk)) ==>
      && (ok <==> !FaultIn(disk.faults, old(disk.step), old(disk.step) + 2 * Existing(run, |states|)))
      && if ok then NamesAhead(disk) && disk.step == old(disk.step) + 2 * Existing(run, |states|)
         else FaultIn(disk.faults, old(disk.step), disk.step)
  {
    hide Ready, Tidy, Views, FreeAuxiliary, NamesAhead, SeveralFaults, FaultIn;
    TwoSteps(disk.faults, disk.step);
    OnePerOutput(run, disk.links, disk.contents, Views(states));
    for i := 0 to |states|
      invariant !FaultIn(disk.faults, old(disk.step), disk.step)
      invariant old(NamesAhead(disk)) ==> disk.step == old(disk.step) + 2 * Existing(run, i)
      invariant Preparing(run, disk, states) && Tidy(run, disk.links, Views(states)) && disk.step >= old(disk.step)
      invariant forall k | 0 <= k < |states| :: states[k].temporary.Some?
      invariant forall k | 0 <= k < |states| :: states[k].backup.Some? <==> k < i && states[k].previous.Some?
      invariant old(NamesAhead(disk)) ==> NamesAhead(disk)
    {
      PreviousIs(run, disk.links, disk.contents, Views(states), i);
      ExistingGrows(run, i + 1, |states|);
      if states[i].previous.Some? {
        ghost var start := disk.step;
        assert states[i] in states;
        ok := BackUp(disk, states, i, states[i], run);
        FaultsSoFar(disk.faults, old(disk.step), start, disk.step, start + 2,
                    old(disk.step) + 2 * Existing(run, |states|));
        if !ok {
          return;
        }
      }
    }
    return true;
  }

  /** A backup for one output that existed. */
  method BackUp(disk: Disk, ghost states: seq<OutputState>, ghost i: nat, state: OutputState, ghost run: Run)
    returns (ok: bool)
    requires Preparing(run, disk, states) && Tidy(run, disk.links, Views(states))
    requires i < |states| && states[i] == state && state.previous.Some? && state.backup.None?
    modifies disk`links, disk`step, disk`drawn, state`backup
    ensures Preparing(run, disk, states) && (ok <==> state.backup.Some?)
    ensures disk.step >= old(disk.step)
    ensures ok || !SeveralFaults(disk.faults) ==> Tidy(run, disk.links, Views(states))
    ensures ok ==> !FaultIn(disk.faults, old(disk.step), disk.step)
    ensures old(NamesAhead(disk)) ==>
      && (ok <==> !FaultIn(disk.faults, old(disk.step), old(disk.step) + 2))
      && if ok then NamesAhead(disk) && disk.step == old(disk.step) + 2
         else FaultIn(disk.faults, old(disk.step), disk.step)
  {
    hide Ready, Tidy, Views, FreeAuxiliary, Ahead, SeveralFaults, FaultIn;
    ghost var views, links := Views(states), disk.links;
    Unpublished(run, links, disk.contents, views, i);
    var backup := CreateBackup(disk, state.place, state.previous.value, run, views);
    if backup.None? {
      assert Views(states) == views;
      return false;
    }
    NewBackup(run, links, disk.links, disk.contents, views, i, backup.value);
    state.backup := backup;
    assert Views(states) == views[i := views[i].(backup := backup)];
    return true;
  }

  lemma Unpublished(run: Run, links: Links, contents: Contents, views: seq<View>, i: nat)
    requires Ready(run, links, contents, views) && i < |views| && !views[i].published
    ensures Lookup(links, views[i].place) == views[i].previous
  {
  }

  lemma NewBackup(run: Run, links: Links, links': Links, contents: Contents, views: seq<View>, i: nat, p: Place)
    requires Ready(run, links', contents, views) && i < |views| && Tidy(run, links, views)
    requires FreeAuxiliary(run, views, p) && Lookup(links', p) == views[i].previous && views[i].previous.Some?
    requires views[i].backup.None? && links'.Keys == links.Keys + {p}
    ensures Ready(run, links', contents, views[i := views[i].(backup := Some(p))])
    ensures Tidy(run, links', views[i := views[i].(backup := Some(p))])
  {
    RecordBackup(run, links', contents, views, i, p);
    hide Ready, IsAuxiliary;
    TidyMore(run, links, links', views, i, views[i].(backup := Some(p)), p);
  }

  /** Confirms that publication replaces exactly what was backed up. */
  method AssertPreviousOutput(disk: Disk, state: OutputState) returns (ok: bool)
    modifies disk`step
    ensures ok && state.place !in disk.links ==> state.previous.None?
    ensures ok && state.place in disk.links ==>
      && state.previous.Some? && state.backup.Some?
      && Lookup(disk.links, state.backup.value) == Lookup(disk.links, state.place)
    ensures disk.step >= old(disk.step)
    ensures ok ==> !disk.faults(old(disk.step)) && disk.step == old(disk.step) + 1
    ensures
      (&& !ok && Lookup(disk.links, state.place) == state.previous
       && (state.previous.Some? ==> state.backup.Some? && Lookup(disk.links, state.backup.value) == state.previous)) ==>
      disk.faults(old(disk.step)) && disk.step == old(disk.step) + 1
  {
    if state.place !in disk.links {
      ok := disk.Check(state.previous.None?);
      return;
    }
    if state.previous.None? || state.backup.None? {
      return false;
    }
    ok := disk.Check(state.backup.value in disk.links && disk.links[state.backup.value] == disk.links[state.place]);
  }

  method CheckPrevious(disk: Disk, states: seq<OutputState>, ghost run: Run) returns (ok: bool)
    requires Preparing(run, disk, states)
    requires forall i | 0 <= i < |states| :: states[i].previous.Some? ==> states[i].backup.Some?
    modifies disk`step
    ensures disk.step >= old(disk.step)
    ensures !ok ==> FaultIn(disk.faults, old(disk.step), disk.step)
    ensures ok <==> !FaultIn(disk.faults, old(disk.step), old(disk.step) + |states|)
    ensures ok ==> disk.step == old(disk.step) + |states|
  {
    hide Ready, Views;
    for i := 0 to |states|
      invariant disk.step == old(disk.step) + i && !FaultIn(disk.faults, old(disk.step), disk.step)
    {
      Unpublished(run, disk.links, disk.contents, Views(states), i);
      if states[i].backup.Some? {
        BackedUp(run, disk.links, disk.contents, Views(states), i);
      }
      ok := AssertPreviousOutput(disk, states[i]);
      if !ok {
        return;
      }
    }
    ok := true;
  }

  lemma BackedUp(run: Run, links: Links, contents: Contents, views: seq<View>, i: nat)
    requires Ready(run, links, contents, views) && i < |views| && views[i].backup.Some?
    ensures Lookup(links, views[i].backup.value) == views[i].previous && views[i].previous.Some?
  {
  }

  /** Reads a published name back before its backup may be discarded. */
  method VerifyPublished(disk: Disk, place: Place, payload: seq<int>) returns (ok: bool)
    modifies disk`step
    ensures disk.step == old(disk.step) + 1
    ensures ok
      <==> place in disk.links && disk.links[place] in disk.contents && disk.contents[disk.links[place]] == payload
           && !disk.faults(old(disk.step))
  {
    ok := disk.Check(Holds(disk.links, disk.contents, place, payload));
  }

  predicate Holds(links: Links, contents: Contents, place: Place, payload: seq<int>) {
    place in links && links[place] in contents && contents[links[place]] == payload
  }

  /** The invariant of publication: backups are there for whatever existed, nothing is stranded. */
  ghost predicate Publishing(run: Run, disk: Disk, states: seq<OutputState>)
    reads disk, states
  {
    && Running(run, disk, states)
    && (forall i | 0 <= i < |states| :: states[i].recovery.None?)
    && (forall i | 0 <= i < |states| :: states[i].previous.Some? ==> states[i].backup.Some?)
  }

  /** Replaces one output and reads it back. */
  method PublishOne(disk: Disk, ghost states: seq<OutputState>, ghost i: nat, state: OutputState, payload: seq<int>,
                    ghost run: Run) returns (ok: bool)
    requires Publishing(run, disk, states) && run.payload == payload && Tidy(run, disk.links, Views(states))
    requires i < |states| && states[i] == state && state.temporary.Some? && !state.published
    modifies disk`links, disk`step, state`temporary, state`published
    ensures Publishing(run, disk, states) && Tidy(run, disk.links, Views(states))
    ensures ok ==> state.published && state.temporary.None?
    ensures disk.step >= old(disk.step)
    ensures ok <==> !FaultIn(disk.faults, old(disk.step), disk.step)
    ensures ok <==> !FaultIn(disk.faults, old(disk.step), old(disk.step) + 2)
    ensures ok ==> disk.step == old(disk.step) + 2
  {
    hide Ready, Tidy, HoldsPayload;
    ghost var views, links := Views(states), disk.links;
    PublishStep(run, links, disk.contents, views, i);
    ok := disk.Replace(state.temporary.value, state.place);
    if !ok {
      assert Views(states) == views;
      return;
    }
    state.temporary := None;
    state.published := true;
    assert Views(states) == views[i := views[i].(temporary := None, published := true)];
    ok := VerifyPublished(disk, state.place, payload);
    assert Views(states) == views[i := views[i].(temporary := None, published := true)];
  }

  method PublishAll(disk: Disk, states: seq<OutputState>, payload: seq<int>, directories: seq<nat>, ghost run: Run)
    returns (ok: bool)
    requires Publishing(run, disk, states) && run.payload == payload && Tidy(run, disk.links, Views(states))
    requires forall i | 0 <= i < |states| :: states[i].temporary.Some? && !states[i].published
    modifies disk`links, disk`step, set s <- states :: s`temporary, set s <- states :: s`published
    ensures Publishing(run, disk, states) && Tidy(run, disk.links, Views(states))
    ensures ok ==> forall i | 0 <= i < |states| :: states[i].published && states[i].temporary.None?
    ensures disk.step >= old(disk.step)
    ensures ok <==> !FaultIn(disk.faults, old(disk.step), disk.step)
    ensures ok <==> !FaultIn(disk.faults, old(disk.step), old(disk.step) + 2 * |states| + |directories|)
    ensures ok ==> disk.step == old(disk.step) + 2 * |states| + |directories|
  {
    hide Ready, Tidy, Views;
    for i := 0 to |states|
      invariant disk.step == old(disk.step) + 2 * i && !FaultIn(disk.faults, old(disk.step), disk.step)
      invariant Publishing(run, disk, states) && Tidy(run, disk.links, Views(states)) && DistinctStates(states)
      invariant forall k | i <= k < |states| :: states[k].temporary.Some? && !states[k].published
      invariant forall k | 0 <= k < i :: states[k].published && states[k].temporary.None?
    {
      assert states[i] in states;
      ok := PublishOne(disk, states, i, states[i], payload, run);
      if !ok {
        return;
      }
    }
    ok := Flush(disk, directories);
  }

  /** Flushes every directory and looks at it again. */
  method Flush(disk: Disk, directories: seq<nat>) returns (ok: bool)
    modifies disk`step
    ensures disk.step >= old(disk.step)
    ensures ok <==> !FaultIn(disk.faults, old(disk.step), disk.step)
    ensures ok <==> !FaultIn(disk.faults, old(disk.step), old(disk.step) + |directories|)
    ensures ok ==> disk.step == old(disk.step) + |directories|
  {
    for d := 0 to |directories|
      invariant disk.step == old(disk.step) + d && !FaultIn(disk.faults, old(disk.step), disk.step)
    {
      ok := disk.Check(true);
      if !ok {
        return;
      }
    }
    ok := true;
  }

  /** Publishing output `i`: the temporary is a file of its own, and the replaced name verifies. */
  lemma PublishStep(run: Run, links: Links, contents: Contents, views: seq<View>, i: nat)
    requires Ready(run, links, contents, views) && i < |views| && Tidy(run, links, views)
    requires views[i].temporary.Some? && !views[i].published && (views[i].previous.Some? ==> views[i].backup.Some?)
    ensures var t, p := views[i].temporary.value, views[i].place;
      var views' := views[i := views[i].(temporary := None, published := true)];
      && t in links && !(p in links && links[p] == links[t])
      && Ready(run, Renamed(links, t, p), contents, views') && Tidy(run, Renamed(links, t, p), views')
      && Holds(Renamed(links, t, p), contents, p, run.payload)
  {
    Publish(run, links, contents, views, i);
    var t, p := views[i].temporary.value, views[i].place;
    TemporaryDiffers(run, links, contents, views[i]) by {
      assert ContentsKept(run, contents);
    }
    PlaceIsOutput(run, views, i);
    hide Ready;
    TidyRenamed(run, links, t, p, views, i, views[i].(temporary := None, published := true));
  }

  lemma TemporaryDiffers(run: Run, links: Links, contents: Contents, v: View)
    requires ValidRun(run) && Settled(run, links, contents, v) && Supported(run, links, contents, v)
    requires v.temporary.Some? && !v.published
    ensures v.temporary.value in links && !(v.place in links && links[v.place] == links[v.temporary.value])
    ensures Holds(Renamed(links, v.temporary.value, v.place), contents, v.place, run.payload)
  {
  }

  /** After renaming the auxiliary `p` over an output, `p` need no longer be recorded. */
  lemma TidyRenamed(run: Run, links: Links, p: Place, dst: Place, views: seq<View>, i: nat, v: View)
    requires Tidy(run, links, views) && i < |views| && p in links && dst in run.outputs
    requires forall q | q != p && Uses(views[i], q) :: Uses(v, q)
    ensures Tidy(run, Renamed(links, p, dst), views[i := v])
  {
    hide Uses;
    var views', links' := views[i := v], Renamed(links, p, dst);
    forall q | q in links' && q !in run.links && q !in run.outputs
      ensures exists j :: 0 <= j < |views'| && Uses(views'[j], q)
    {
      assert q in links && q != p;
      var j :| 0 <= j < |views| && Uses(views[j], q);
      assert Uses(views'[j], q);
    }
  }

  // -------------------------------------------------------------------- rollback

  /** An output whose restoration failed, and where its previous file is kept. */
  datatype Failure = Failure(place: Place, recovery: Option<Place>)

  /** The outputs from `i` on are restored, or recorded with the place of their previous file. */
  ghost predicate RestoredFrom(views: seq<View>, i: nat, failures: seq<Failure>) {
    forall k | i <= k < |views| && views[k].published ::
      && Failure(views[k].place, views[k].recovery) in failures
      && (views[k].previous.Some? ==> views[k].recovery.Some?)
  }

  ghost predicate FailureOf(views: seq<View>, k: nat, f: Failure) {
    k < |views| && views[k].published && f == Failure(views[k].place, views[k].recovery)
  }

  /** Every recorded failure is one of an output from `i` on that is still published. */
  ghost predicate FailuresReal(views: seq<View>, i: nat, failures: seq<Failure>) {
    forall f <- failures :: exists k: nat :: k >= i && FailureOf(views, k, f)
  }

  /** The outputs before `i` are as publication left them. */
  ghost predicate Waiting(views: seq<View>, i: nat) {
    forall k | 0 <= k < i && k < |views| ::
      views[k].recovery.None? && (views[k].previous.Some? ==> views[k].backup.Some?)
  }

  ghost predicate Undone(views: seq<View>, i: nat, failures: seq<Failure>) {
    RestoredFrom(views, i, failures) && FailuresReal(views, i, failures) && Waiting(views, i)
  }

  /** Output `i` is dealt with as well. */
  lemma UndoneStep(views: seq<View>, i: nat, failures: seq<Failure>, v: View, failed: seq<Failure>)
    requires Undone(views, i + 1, failures) && i < |views|
    requires v.published ==> failed == [Failure(v.place, v.recovery)] && (v.previous.Some? ==> v.recovery.Some?)
    requires !v.published ==> failed == []
    ensures Undone(views[i := v], i, failures + failed)
  {
    var after := views[i := v];
    forall f | f in failures + failed
      ensures exists k: nat :: k >= i && FailureOf(after, k, f)
    {
      if f in failures {
        var k: nat :| k >= i + 1 && FailureOf(views, k, f);
        assert FailureOf(after, k, f);
      } else {
        assert FailureOf(after, i, f);
      }
    }
  }

  /** Undoes the publication of one output; on failure keeps its backup and says where. */
  method RestoreOne(disk: Disk, states: seq<OutputState>, i: nat, ghost run: Run) returns (failed: seq<Failure>)
    requires Running(run, disk, states) && i < |states| && states[i].published && states[i].recovery.None?
    requires states[i].previous.Some? ==> states[i].backup.Some?
    requires Tidy(run, disk.links, Views(states))
    modifies disk`links, disk`step, states[i]
    ensures Running(run, disk, states) && Tidy(run, disk.links, Views(states))
    ensures disk.step == old(disk.step) + 1 && (states[i].published <==> disk.faults(old(disk.step)))
    ensures !states[i].published ==> failed == []
    ensures states[i].published ==>
      && failed == [Failure(states[i].place, states[i].recovery)]
      && (states[i].previous.Some? ==> states[i].recovery.Some?)
    ensures Views(states) == old(Views(states))[i := states[i].ToView()]
  {
    hide Ready, Views, Tidy;
    var state := states[i];
    ghost var views, links := Views(states), disk.links;
    StillTidy(run, links, disk.contents, views, i);
    if state.backup.None? {
      RestoreAbsence(run, links, disk.contents, views, i);
      var ok := disk.Unlink(state.place);
      if !ok {
        return [Failure(state.place, None)];
      }
      state.published := false;
      assert Views(states) == views[i := views[i].(published := false)];
      return [];
    }
    RestoreBackup(run, links, disk.contents, views, i);
    Strand(run, links, disk.contents, views, i);
    var backup := state.backup.value;
    var ok := disk.Replace(backup, state.place);
    state.backup := None;
    if !ok {
      // Giving up the field keeps the cleanup from destroying the only recovery copy.
      state.recovery := Some(backup);
      assert Views(states) == views[i := views[i].(backup := None, recovery := Some(backup))];
      return [Failure(state.place, Some(backup))];
    }
    state.published := false;
    assert Views(states) == views[i := views[i].(backup := None, published := false)];
    return [];
  }

  /** Restoring or giving up one output leaves nothing unrecorded. */
  lemma StillTidy(run: Run, links: Links, contents: Contents, views: seq<View>, i: nat)
    requires Ready(run, links, contents, views) && Tidy(run, links, views) && i < |views| && views[i].recovery.None?
    ensures Tidy(run, links - {views[i].place}, views[i := views[i].(published := false)])
    ensures views[i].backup.Some? ==>
      && Tidy(run, links, views[i := views[i].(backup := None, recovery := views[i].backup)])
      && views[i].backup.value in links
      && Tidy(run, Renamed(links, views[i].backup.value, views[i].place),
              views[i := views[i].(backup := None, published := false)])
  {
    PlaceIsOutput(run, views, i);
    Recorded(run, links, views, i, views[i].place, views[i].(published := false));
    if views[i].backup.Some? {
      BackedUp(run, links, contents, views, i);
      hide Ready;
      Recorded(run, links, views, i, views[i].place, views[i].(backup := None, recovery := views[i].backup));
      TidyRenamed(run, links, views[i].backup.value, views[i].place, views, i,
                  views[i].(backup := None, published := false));
    }
  }

  /** Bookkeeping of the same places covers the same entries. */
  lemma Recorded(run: Run, links: Links, views: seq<View>, i: nat, gone: Place, v: View)
    requires Tidy(run, links, views) && i < |views| && forall q | Uses(views[i], q) :: Uses(v, q)
    ensures Tidy(run, links, views[i := v]) && Tidy(run, links - {gone}, views[i := v])
  {
    hide Uses;
    var views' := views[i := v];
    forall q | q in links && q !in run.links && q !in run.outputs
      ensures exists j :: 0 <= j < |views'| && Uses(views'[j], q)
    {
      var j :| 0 <= j < |views| && Uses(views[j], q);
      assert Uses(views'[j], q);
    }
  }

  method Rollback(disk: Disk, states: seq<OutputState>, ghost run: Run) returns (failures: seq<Failure>)
    requires Publishing(run, disk, states) && Tidy(run, disk.links, Views(states))
    modifies disk`links, disk`step, states
    ensures Running(run, disk, states) && Tidy(run, disk.links, Views(states))
    ensures RestoredFrom(Views(states), 0, failures) && FailuresReal(Views(states), 0, failures)
    ensures disk.step >= old(disk.step)
    ensures failures != [] <==> FaultIn(disk.faults, old(disk.step), disk.step)
  {
    hide Ready, Views, Tidy, RestoredFrom, FailuresReal, Waiting;
    failures := [];
    var i := |states|;
    NothingUndone(run, disk, states);
    while i > 0
      invariant 0 <= i <= |states| && Running(run, disk, states) && Tidy(run, disk.links, Views(states))
      invariant disk.step >= old(disk.step)
      invariant failures != [] <==> FaultIn(disk.faults, old(disk.step), disk.step)
      invariant Undone(Views(states), i, failures)
    {
      i := i - 1;
      ghost var views := Views(states);
      if !states[i].published {
        UndoneStep(views, i, failures, views[i], []);
        assert views[i := views[i]] == views && failures + [] == failures;
        continue;
      }
      NextWaits(views, i, failures);
      assert states[i] in states;
      var failed := RestoreOne(disk, states, i, run);
      UndoneStep(views, i, failures, states[i].ToView(), failed);
      failures := failures + failed;
    }
  }

  lemma NothingUndone(run: Run, disk: Disk, states: seq<OutputState>)
    requires Publishing(run, disk, states)
    ensures Undone(Views(states), |states|, [])
  {
  }

  lemma NextWaits(views: seq<View>, i: nat, failures: seq<Failure>)
    requires Undone(views, i + 1, failures) && i < |views|
    ensures views[i].recovery.None? && (views[i].previous.Some? ==> views[i].backup.Some?)
  {
  }

  // ------------------------------------------------------- commit and clean-up

  /** From the commit on, only the outputs and the recovery copies matter. */
  ghost predicate Settling(run: Run, disk: Disk, states: seq<OutputState>)
    reads disk, states
  {
    DistinctStates(states) && Sound(run, disk.links, disk.contents, Views(states))
  }

  /** Exactly the outputs that existed have a backup. */
  ghost predicate BackedUpAll(states: seq<OutputState>)
    reads states
  {
    forall i | 0 <= i < |states| :: states[i].backup.Some? <==> states[i].previous.Some?
  }

  method RemoveBackups(disk: Disk, states: seq<OutputState>, directories: seq<nat>, ghost run: Run) returns (ok: bool)
    requires Settling(run, disk, states) && Tidy(run, disk.links, Views(states))
    modifies disk`links, disk`step, set s <- states :: s`backup
    ensures Settling(run, disk, states) && Tidy(run, disk.links, Views(states))
    ensures ok ==> forall i | 0 <= i < |states| :: states[i].backup.None?
    ensures disk.step >= old(disk.step) && |states| == |run.outputs|
    ensures ok <==> !FaultIn(disk.faults, old(disk.step), disk.step)
    ensures old(BackedUpAll(states)) ==>
      && (ok <==> !FaultIn(disk.faults, old(disk.step), old(disk.step) + Existing(run, |states|) + |directories|))
      && (ok ==> disk.step == old(disk.step) + Existing(run, |states|) + |directories|)
  {
    hide Sound, Tidy, Views, FaultIn;
    ok := DropBackups(disk, states, run);
    ghost var middle, dropped := disk.step, old(disk.step) + Existing(run, |states|);
    StepsJoin(disk.faults, old(disk.step), dropped, dropped + |directories|);
    if !ok {
      return;
    }
    ok := Flush(disk, directories);
    StepsJoin(disk.faults, old(disk.step), middle, disk.step);
  }

  /** Removes the backup of every output that has one. */
  method DropBackups(disk: Disk, states: seq<OutputState>, ghost run: Run) returns (ok: bool)
    requires Settling(run, disk, states) && Tidy(run, disk.links, Views(states))
    modifies disk`links, disk`step, set s <- states :: s`backup
    ensures Settling(run, disk, states) && Tidy(run, disk.links, Views(states))
    ensures ok ==> forall i | 0 <= i < |states| :: states[i].backup.None?
    ensures disk.step >= old(disk.step) && |states| == |run.outputs|
    ensures ok <==> !FaultIn(disk.faults, old(disk.step), disk.step)
    ensures old(BackedUpAll(states)) ==>
      && (ok <==> !FaultIn(disk.faults, old(disk.step), old(disk.step) + Existing(run, |states|)))
      && (ok ==> disk.step == old(disk.step) + Existing(run, |states|))
  {
    hide Sound, Tidy, Views, FaultIn;
    OnePerOutput(run, disk.links, disk.contents, Views(states));
    TwoSteps(disk.faults, disk.step);
    for i := 0 to |states|
      invariant Settling(run, disk, states) && Tidy(run, disk.links, Views(states)) && disk.step >= old(disk.step)
      invariant forall k | 0 <= k < i :: states[k].backup.None?
      invariant forall k | i <= k < |states| :: states[k].backup == old(states[k].backup)
      invariant !FaultIn(disk.faults, old(disk.step), disk.step)
      invariant old(BackedUpAll(states)) ==> disk.step == old(disk.step) + Existing(run, i)
    {
      PreviousIs(run, disk.links, disk.contents, Views(states), i);
      ghost var start := disk.step;
      TwoSteps(disk.faults, start);
      ExistingGrows(run, i + 1, |states|);
      FaultsSoFar(disk.faults, old(disk.step), start, start + 1, start + 1, old(disk.step) + Existing(run, |states|));
      assert states[i] in states;
      ok := DropOne(disk, states, i, states[i], run);
      if !ok {
        return;
      }
    }
    ok := true;
  }

  method DropOne(disk: Disk, ghost states: seq<OutputState>, ghost i: nat, state: OutputState, ghost run: Run)
    returns (ok: bool)
    requires Settling(run, disk, states) && Tidy(run, disk.links, Views(states)) && i < |states|
    requires states[i] == state
    modifies disk`links, disk`step, state`backup
    ensures Settling(run, disk, states) && Tidy(run, disk.links, Views(states))
    ensures ok <==> old(state.backup).None? || !disk.faults(old(disk.step))
    ensures ok ==> state.backup.None?
    ensures disk.step == old(disk.step) + if old(state.backup).Some? then 1 else 0
  {
    hide Sound, Tidy, Views;
    ok := true;
    if state.backup.Some? {
      ghost var views, links := Views(states), disk.links;
      var backup := state.backup.value;
      BackupGone(run, links, disk.contents, views, i);
      ok := disk.UnlinkIfPresent(backup);
      if !ok {
        assert Views(states) == views;
        return;
      }
      state.backup := None;
      assert Views(states) == views[i := views[i].(backup := None)];
    }
  }

  lemma BackupGone(run: Run, links: Links, contents: Contents, views: seq<View>, i: nat)
    requires Sound(run, links, contents, views) && i < |views| && views[i].backup.Some?
    requires Tidy(run, links, views)
    ensures Sound(run, links - {views[i].backup.value}, contents, views[i := views[i].(backup := None)])
    ensures Tidy(run, links - {views[i].backup.value}, views[i := views[i].(backup := None)])
  {
    var b := views[i].backup.value;
    RemoveAuxiliary(run, links, contents, views, i, b);
    ForgetBackup(run, links - {b}, contents, views, i);
    hide Sound, Uses;
    var views', links' := views[i := views[i].(backup := None)], links - {b};
    forall q | q in links' && q !in run.links && q !in run.outputs
      ensures exists j :: 0 <= j < |views'| && Uses(views'[j], q)
    {
      var j :| 0 <= j < |views| && Uses(views[j], q);
      StillUsed(views[i], b, q);
      assert Uses(views'[j], q);
    }
  }

  lemma StillUsed(v: View, b: Place, q: Place)
    requires v.backup == Some(b) && q != b
    ensures Uses(v, q) ==> Uses(v.(backup := None), q)
  {
  }

  /** The temporaries and backups on record. */
  ghost function Leftovers(views: seq<View>): set<Place> {
    LeftBefore(views, |views|)
  }

  ghost function LeftBefore(views: seq<View>, n: nat): set<Place>
    requires n <= |views|
  {
    if n == 0 then {} else LeftBefore(views, n - 1) + LeftOf(views[n - 1])
  }

  function LeftOf(v: View): set<Place> {
    (if v.temporary.Some? then {v.temporary.value} else {}) + if v.backup.Some? then {v.backup.value} else {}
  }

  /** Removes what is left of temporaries and backups, and nothing else; stops at the first step that
    fails. */
  method CleanUp(disk: Disk, states: seq<OutputState>, ghost run: Run) returns (ok: bool)
    requires Settling(run, disk, states)
    modifies disk`links, disk`step
    ensures Settling(run, disk, states) && disk.links.Keys <= old(disk.links.Keys)
    ensures ok ==> disk.links == old(disk.links) - Leftovers(Views(states))
    ensures disk.step >= old(disk.step)
    ensures ok <==> !FaultIn(disk.faults, old(disk.step), disk.step)
    ensures (forall i | 0 <= i < |states| :: states[i].temporary.None? && states[i].backup.None?) ==>
      disk.step == old(disk.step)
  {
    hide Sound, Views;
    for i := 0 to |states|
      invariant Settling(run, disk, states)
      invariant disk.links == old(disk.links) - LeftBefore(Views(states), i) && disk.step >= old(disk.step)
      invariant !FaultIn(disk.faults, old(disk.step), disk.step)
      invariant (forall k | 0 <= k < |states| :: states[k].temporary.None? && states[k].backup.None?) ==>
        disk.step == old(disk.step)
    {
      ok := CleanOne(disk, states, i, run);
      if !ok {
        return;
      }
    }
    ok := true;
  }

  method CleanOne(disk: Disk, states: seq<OutputState>, i: nat, ghost run: Run) returns (ok: bool)
    requires Settling(run, disk, states) && i < |states|
    modifies disk`links, disk`step
    ensures Settling(run, disk, states) && disk.links.Keys <= old(disk.links.Keys)
    ensures ok ==> disk.links == old(disk.links) - LeftOf(states[i].ToView())
    ensures disk.step >= old(disk.step)
    ensures ok <==> !FaultIn(disk.faults, old(disk.step), disk.step)
    ensures states[i].temporary.None? && states[i].backup.None? ==> disk.step == old(disk.step)
  {
    hide Sound, Views;
    ghost var views := Views(states);
    ok := true;
    if states[i].temporary.Some? {
      RemoveAuxiliary(run, disk.links, disk.contents, views, i, states[i].temporary.value);
      ok := disk.UnlinkIfPresent(states[i].temporary.value);
    }
    if ok && states[i].backup.Some? {
      RemoveAuxiliary(run, disk.links, disk.contents, views, i, states[i].backup.value);
      ok := disk.UnlinkIfPresent(states[i].backup.value);
    }
    assert Views(states) == views;
    assert !ok ==> disk.faults(disk.step - 1);
  }

  // --------------------------------------------------------------------- driver

  datatype Outcome =
    | NoOutputs
    | DuplicateOutputs
    | NotPublished
    | RolledBack(failures: seq<Failure>)
    | PublishedUncleanly
    | Completed

  /** The output could not be restored: it is new, and what it replaced is still linked as recorded. */
  predicate Stranded(run: Run, links: Links, contents: Contents, f: Failure) {
    && HoldsPayload(run, links, contents, f.place)
    && (f.place in run.links ==> f.recovery.Some? && Lookup(links, f.recovery.value) == Some(run.links[f.place]))
  }

  /** After a rollback every output is untouched, or stranded and recorded. */
  ghost predicate RestoredOrStranded(run: Run, links: Links, contents: Contents, failures: seq<Failure>) {
    && (forall f <- failures :: f.place in run.outputs && Stranded(run, links, contents, f))
    && (forall p <- run.outputs :: Lookup(links, p) == Lookup(run.links, p)
                                   || exists k :: 0 <= k < |failures| && failures[k].place == p)
  }

  lemma AllUntouched(run: Run, disk: Disk, states: seq<OutputState>)
    requires Settling(run, disk, states) && forall i | 0 <= i < |states| :: !states[i].published
    ensures Untouched(run, disk.links)
  {
  }

  lemma AllPublished(run: Run, disk: Disk, states: seq<OutputState>)
    requires Settling(run, disk, states) && forall i | 0 <= i < |states| :: states[i].published
    ensures AllNew(run, disk.links, disk.contents)
  {
  }

  lemma RollbackResult(run: Run, disk: Disk, states: seq<OutputState>, failures: seq<Failure>)
    requires Settling(run, disk, states)
    requires RestoredFrom(Views(states), 0, failures) && FailuresReal(Views(states), 0, failures)
    ensures RestoredOrStranded(run, disk.links, disk.contents, failures)
  {
  }

  predicate HasDuplicates(outputs: seq<Place>) {
    |set p | p in outputs| != |outputs|
  }

  /** Fewer different outputs than outputs: some output is listed twice. */
  lemma {:induction false} DuplicatesMean(outputs: seq<Place>)
    ensures HasDuplicates(outputs) <==> exists i, j :: 0 <= i < j < |outputs| && outputs[i] == outputs[j]
    ensures |set p | p in outputs| <= |outputs|
  {
    if outputs != [] {
      var last := |outputs| - 1;
      var head := outputs[..last];
      DuplicatesMean(head);
      assert forall k | 0 <= k < last :: head[k] == outputs[k];
      var before, after := set p | p in head, set p | p in outputs;
      assert after == before + {outputs[last]};
      if outputs[last] in head {
        assert after == before;
      }
    }
  }

  /** What a finished run guarantees about the directories. */
  ghost predicate Guarantee(run: Run, outcome: Outcome, links: Links, contents: Contents) {
    match outcome
    case NoOutputs => run.outputs == [] && links == run.links
    case DuplicateOutputs => HasDuplicates(run.outputs) && links == run.links
    case NotPublished => Untouched(run, links)
    case RolledBack(failures) => RestoredOrStranded(run, links, contents, failures)
    case PublishedUncleanly => AllNew(run, links, contents)
    case Completed => AllNew(run, links, contents) && NothingAdded(run, links)
  }

  function DirectoriesOf(outputs: seq<Place>): set<nat> {
    set p | p in outputs :: p.directory
  }

  /** The directories of the outputs, each listed once. */
  method Directories(outputs: seq<Place>) returns (directories: seq<nat>)
    ensures forall d :: d in directories <==> exists p :: p in outputs && p.directory == d
    ensures |directories| == |DirectoriesOf(outputs)|
  {
    directories := [];
    ghost var seen: set<nat> := {};
    for i := 0 to |outputs|
      invariant forall d <- directories :: exists p :: p in outputs[..i] && p.directory == d
      invariant forall p <- outputs[..i] :: p.directory in directories
      invariant (forall d :: d in seen <==> d in directories) && |seen| == |directories|
    {
      assert outputs[..i + 1] == outputs[..i] + [outputs[i]];
      if outputs[i].directory !in directories {
        directories := directories + [outputs[i].directory];
        seen := seen + {outputs[i].directory};
      }
    }
    assert outputs[..|outputs|] == outputs;
    assert seen == DirectoriesOf(outputs);
  }

  /** Temporaries and backups for all opened outputs, and a last look at them. */
  method Furnish(disk: Disk, states: seq<OutputState>, payload: seq<int>, ghost run: Run) returns (ok: bool)
    requires Preparing(run, disk, states) && run.payload == payload && Tidy(run, disk.links, Views(states))
    requires forall i | 0 <= i < |states| :: states[i].temporary.None? && states[i].backup.None?
    modifies disk, set s <- states :: s`temporary, set s <- states :: s`backup
    ensures Preparing(run, disk, states) && disk.step >= old(disk.step) && |states| == |run.outputs|
    ensures ok || !SeveralFaults(disk.faults) ==> Tidy(run, disk.links, Views(states))
    ensures ok ==> forall i | 0 <= i < |states| ::
      states[i].temporary.Some? && (states[i].previous.Some? ==> states[i].backup.Some?)
    ensures ok ==> !FaultIn(disk.faults, old(disk.step), disk.step)
    ensures old(NamesAhead(disk)) && !ok ==> FaultIn(disk.faults, old(disk.step), disk.step)
    ensures old(NamesAhead(disk)) ==>
      && (ok <==> !FaultIn(disk.faults, old(disk.step), old(disk.step) + 3 * |states| + 2 * Existing(run, |states|)))
      && (ok ==> disk.step == old(disk.step) + 3 * |states| + 2 * Existing(run, |states|))
  {
    hide Ready, Tidy, Views, ValidRun, SeveralFaults, FaultIn, Ahead, Existing;
    OnePerOutput(run, disk.links, disk.contents, Views(states));
    ghost var lo, last := disk.step, disk.step + 3 * |states| + 2 * Existing(run, |states|);
    ok := MakeTemporaries(disk, states, payload, run);
    ghost var start := lo + 2 * |states|;
    StepsJoin(disk.faults, lo, start, last);
    if !ok {
      return;
    }
    start := disk.step;
    ok := MakeBackups(disk, states, run);
    FaultsSoFar(disk.faults, lo, start, disk.step, start + 2 * Existing(run, |states|), last);
    if !ok {
      return;
    }
    start := disk.step;
    ok := CheckPrevious(disk, states, run);
    FaultsSoFar(disk.faults, lo, start, disk.step, start + |states|, last);
  }

  /** Temporaries and backups for all outputs; nothing is replaced yet. */
  method Prepare(disk: Disk, outputs: seq<Place>, payload: seq<int>, ghost run: Run)
    returns (found: bool, ok: bool, states: seq<OutputState>)
    requires ValidRun(run) && run.outputs == outputs && run.names == disk.names && run.payload == payload
    requires disk.links == run.links && disk.contents == run.contents
    modifies disk
    ensures fresh(states) && disk.step >= old(disk.step)
    ensures !found ==> !ok && disk.links == run.links && disk.contents == run.contents
    ensures found ==> Preparing(run, disk, states) && |states| == |outputs|
    ensures ok ==> found
    ensures found && (ok || !SeveralFaults(disk.faults)) ==> Tidy(run, disk.links, Views(states))
    ensures ok ==> forall i | 0 <= i < |states| ::
      states[i].temporary.Some? && (states[i].previous.Some? ==> states[i].backup.Some?)
    ensures ok ==> !FaultIn(disk.faults, old(disk.step), disk.step)
    ensures old(NamesAhead(disk)) && !ok ==> FaultIn(disk.faults, old(disk.step), disk.step)
    ensures old(NamesAhead(disk)) ==>
      && (ok <==> !FaultIn(disk.faults, old(disk.step), old(disk.step) + Preparation(run)))
      && (ok ==> disk.step == old(disk.step) + Preparation(run))
  {
    hide Ready, Tidy, Views, ValidRun, SeveralFaults, FaultIn, Ahead, Existing;
    ghost var lo, last := disk.step, disk.step + Preparation(run);
    found, states := OpenOutputs(disk, outputs, run);
    StepsJoin(disk.faults, lo, lo + 2 * |outputs|, last);
    ok := found;
    if !found {
      return;
    }
    StartTidy(run, disk.links, Views(states));
    ghost var start := disk.step;
    ok := Furnish(disk, states, payload, run);
    FaultsSoFar(disk.faults, lo, start, disk.step, last, last);
  }

  /** How many steps precede the first replacement when none of them fails: opening each output, a temporary
    for each, a backup for each that existed, and a last look at each. */
  ghost function Preparation(run: Run): nat {
    5 * |run.outputs| + 2 * Existing(run, |run.outputs|)
  }

  /** The steps that replace and read back all outputs and flush their directories. */
  ghost function Replacement(run: Run): nat {
    2 * |run.outputs| + |DirectoriesOf(run.outputs)|
  }

  /** The steps that discard the backups and flush the directories. */
  ghost function Discarding(run: Run): nat {
    Existing(run, |run.outputs|) + |DirectoriesOf(run.outputs)|
  }

  /** Which outcome the schedule of failing steps leads to: the first one decides by where it falls. */
  ghost predicate OutcomeOf(run: Run, faults: nat -> bool, start: nat, outcome: Outcome) {
    var prepared := start + Preparation(run);
    var published := prepared + Replacement(run);
    var done := published + Discarding(run);
    && (outcome.NotPublished? <==> FaultIn(faults, start, prepared))
    && (outcome.RolledBack? <==> !FaultIn(faults, start, prepared) && FaultIn(faults, prepared, published))
    && (outcome.PublishedUncleanly? <==> !FaultIn(faults, start, published) && FaultIn(faults, published, done))
    && (outcome.Completed? <==> !FaultIn(faults, start, done))
  }

  lemma StartTidy(run: Run, links: Links, views: seq<View>)
    requires links == run.links
    ensures Tidy(run, links, views)
  {
  }

  lemma Settle(run: Run, disk: Disk, states: seq<OutputState>)
    requires Running(run, disk, states)
    ensures Settling(run, disk, states)
  {
  }

  /** No entry beyond those from before and the outputs. */
  ghost predicate NothingAdded(run: Run, links: Links) {
    forall p <- links :: p in run.links || p in run.outputs
  }

  /** Without recovery copies, removing what is on record leaves nothing behind. */
  lemma NothingLeft(run: Run, links: Links, views: seq<View>)
    requires Tidy(run, links, views) && forall i | 0 <= i < |views| :: views[i].recovery.None?
    ensures NothingAdded(run, links - Leftovers(views))
  {
    hide Uses;
    forall p | p in links && p !in Leftovers(views) && p !in run.links && p !in run.outputs
      ensures false
    {
      var i :| 0 <= i < |views| && Uses(views[i], p);
      UsedIsLeft(views, i, |views|, p);
    }
  }

  lemma {:induction false} UsedIsLeft(views: seq<View>, i: nat, n: nat, p: Place)
    requires i < n <= |views| && Uses(views[i], p) && views[i].recovery.None?
    ensures p in LeftBefore(views, n)
  {
    if i < n - 1 {
      UsedIsLeft(views, i, n - 1, p);
    }
  }

  lemma {:induction false} NoneOnRecord(views: seq<View>, n: nat)
    requires n <= |views| && forall i | 0 <= i < |views| :: views[i].temporary.None? && views[i].backup.None?
    ensures LeftBefore(views, n) == {}
  {
    if n > 0 {
      NoneOnRecord(views, n - 1);
    }
  }

  lemma FewerLinks(run: Run, links: Links, links': Links)
    requires NothingAdded(run, links) && links'.Keys <= links.Keys
    ensures NothingAdded(run, links')
  {
  }

  lemma SameLinks(run: Run, links: Links)
    requires NothingAdded(run, links) && OthersKept(run, links) && Untouched(run, links)
    ensures links == run.links
  {
    forall p
      ensures Lookup(links, p) == Lookup(run.links, p)
    {
    }
    forall p
      ensures p in links <==> p in run.links
      ensures p in links && p in run.links ==> links[p] == run.links[p]
    {
      assert Lookup(links, p) == Lookup(run.links, p);
    }
  }

  lemma Frame(run: Run, disk: Disk, states: seq<OutputState>)
    requires Settling(run, disk, states)
    ensures OthersKept(run, disk.links) && ContentsKept(run, disk.contents)
  {
  }

  /** The recovery copies belong to outputs that are still published. */
  lemma NoRecovery(run: Run, disk: Disk, states: seq<OutputState>)
    requires Settling(run, disk, states) && forall i | 0 <= i < |states| :: !states[i].published
    ensures forall i | 0 <= i < |states| :: Views(states)[i].recovery.None?
  {
    assert forall i | 0 <= i < |states| :: Settled(run, disk.links, disk.contents, Views(states)[i]);
  }

  lemma FailedEarly(run: Run, faults: nat -> bool, start: nat)
    requires FaultIn(faults, start, start + Preparation(run))
    ensures OutcomeOf(run, faults, start, NotPublished)
  {
  }

  lemma OutcomeDecided(run: Run, faults: nat -> bool, start: nat, outcome: Outcome)
    requires var prepared := start + Preparation(run);
      var published := prepared + Replacement(run);
      && !FaultIn(faults, start, prepared)
      && (outcome.RolledBack? || outcome.PublishedUncleanly? || outcome.Completed?)
      && (outcome.RolledBack? <==> FaultIn(faults, prepared, published))
      && (outcome.Completed? <==> !FaultIn(faults, prepared, published + Discarding(run)))
    ensures OutcomeOf(run, faults, start, outcome)
  {
    var prepared := start + Preparation(run);
    var published := prepared + Replacement(run);
    StepsJoin(faults, start, prepared, published);
    StepsJoin(faults, start, published, published + Discarding(run));
    StepsJoin(faults, prepared, published, published + Discarding(run));
  }

  /** Gives up before anything has been replaced. */
  method Abandon(disk: Disk, states: seq<OutputState>, ghost run: Run, ghost start: nat)
    requires Settling(run, disk, states) && forall i | 0 <= i < |states| :: !states[i].published
    requires !SeveralFaults(disk.faults) ==> Tidy(run, disk.links, Views(states))
    modifies disk`links, disk`step
    ensures Untouched(run, disk.links) && OthersKept(run, disk.links) && ContentsKept(run, disk.contents)
    ensures FaultIn(disk.faults, start, old(disk.step)) && !SeveralFaults(disk.faults) ==>
      NothingAdded(run, disk.links) && disk.links == run.links
  {
    hide Sound, Tidy, Views, Untouched, OthersKept, ContentsKept, NothingAdded, SeveralFaults;
    ghost var middle, views := disk.step, Views(states);
    NoRecovery(run, disk, states);
    if !SeveralFaults(disk.faults) {
      NothingLeft(run, disk.links, views);
    }
    var cleaned := CleanUp(disk, states, run);
    AllUntouched(run, disk, states);
    Frame(run, disk, states);
    if FaultIn(disk.faults, start, middle) && !cleaned {
      FaultsApart(disk.faults, start, middle, disk.step);
    }
    if FaultIn(disk.faults, start, middle) && !SeveralFaults(disk.faults) {
      SameLinks(run, disk.links);
    }
  }

  /** Replaces all outputs; undoes the replacements when a step fails; discards the backups otherwise. */
  method PublishOrRollBack(disk: Disk, states: seq<OutputState>, payload: seq<int>, directories: seq<nat>,
                           ghost run: Run)
    returns (outcome: Outcome)
    requires Publishing(run, disk, states) && run.payload == payload && Tidy(run, disk.links, Views(states))
    requires forall i | 0 <= i < |states| :: states[i].temporary.Some? && !states[i].published
    modifies disk`links, disk`step, states
    ensures Guarantee(run, outcome, disk.links, disk.contents)
    ensures OthersKept(run, disk.links) && ContentsKept(run, disk.contents)
    ensures outcome.RolledBack? || outcome.PublishedUncleanly? || outcome.Completed?
    ensures outcome.RolledBack? && outcome.failures != [] ==> SeveralFaults(disk.faults)
    ensures !SeveralFaults(disk.faults) ==> NothingAdded(run, disk.links)
    ensures !SeveralFaults(disk.faults) && outcome.RolledBack? ==> disk.links == run.links
    ensures disk.step >= old(disk.step) && |states| == |run.outputs|
    ensures outcome == Completed ==> !FaultIn(disk.faults, old(disk.step), disk.step)
    ensures var published := old(disk.step) + 2 * |states| + |directories|;
      && (outcome.RolledBack? <==> FaultIn(disk.faults, old(disk.step), published))
      && (outcome.Completed? <==>
          !FaultIn(disk.faults, old(disk.step), published + Existing(run, |states|) + |directories|))
  {
    hide Ready, Sound, Tidy, Views, AllNew, Untouched, RestoredOrStranded, OthersKept, ContentsKept, NothingAdded;
    hide SeveralFaults;
    hide FaultIn;
    OnePerOutput(run, disk.links, disk.contents, Views(states));
    ghost var start := disk.step;
    ghost var last := start + 2 * |states| + |directories|;
    ghost var end := last + Existing(run, |states|) + |directories|;
    var published := PublishAll(disk, states, payload, directories, run);
    StepsJoin(disk.faults, start, last, end);
    if !published {
      var failures := Undo(disk, states, run, start);
      return RolledBack(failures);
    }
    Settle(run, disk, states);
    AllBackedUp(run, disk, states);
    var clean := Commit(disk, states, directories, run);
    StepsJoin(disk.faults, start, last, disk.step);
    outcome := if clean then Completed else PublishedUncleanly;
  }

  lemma AllBackedUp(run: Run, disk: Disk, states: seq<OutputState>)
    requires Publishing(run, disk, states)
    ensures BackedUpAll(states)
  {
    assert forall i | 0 <= i < |states| :: Supported(run, disk.links, disk.contents, Views(states)[i]);
  }

  /** Rolls back after a failing step and cleans up. */
  method Undo(disk: Disk, states: seq<OutputState>, ghost run: Run, ghost start: nat) returns (failures: seq<Failure>)
    requires Publishing(run, disk, states) && Tidy(run, disk.links, Views(states))
    requires FaultIn(disk.faults, start, disk.step)
    modifies disk`links, disk`step, states
    ensures RestoredOrStranded(run, disk.links, disk.contents, failures) && disk.step >= old(disk.step)
    ensures OthersKept(run, disk.links) && ContentsKept(run, disk.contents)
    ensures failures != [] ==> SeveralFaults(disk.faults)
    ensures !SeveralFaults(disk.faults) ==> NothingAdded(run, disk.links) && disk.links == run.links
  {
    hide Ready, Sound, Tidy, Views, Untouched, RestoredOrStranded, RestoredFrom, FailuresReal, OthersKept, ContentsKept;
    hide NothingAdded, SeveralFaults;
    ghost var middle := disk.step;
    failures := Rollback(disk, states, run);
    if failures != [] {
      FaultsApart(disk.faults, start, middle, disk.step);
    }
    Settle(run, disk, states);
    ghost var end, views := disk.step, Views(states);
    if failures == [] {
      NoneFailed(states);
      NoRecovery(run, disk, states);
      NothingLeft(run, disk.links, views);
    }
    var cleaned := CleanUp(disk, states, run);
    RollbackResult(run, disk, states, failures);
    Frame(run, disk, states);
    if !cleaned {
      FaultsApart(disk.faults, start, end, disk.step);
    } else if failures == [] {
      AllUntouched(run, disk, states);
      SameLinks(run, disk.links);
    }
  }

  lemma NoneFailed(states: seq<OutputState>)
    requires RestoredFrom(Views(states), 0, [])
    ensures forall i | 0 <= i < |states| :: !states[i].published
  {
    assert forall i | 0 <= i < |states| :: !Views(states)[i].published;
  }

  /** Discards the backups and cleans up. */
  method Commit(disk: Disk, states: seq<OutputState>, directories: seq<nat>, ghost run: Run) returns (clean: bool)
    requires Settling(run, disk, states) && Tidy(run, disk.links, Views(states))
    requires BackedUpAll(states) && forall i | 0 <= i < |states| ::
      states[i].published && states[i].temporary.None? && states[i].recovery.None?
    modifies disk`links, disk`step, states
    ensures disk.step >= old(disk.step) && |states| == |run.outputs|
    ensures clean <==> !FaultIn(disk.faults, old(disk.step), disk.step)
    ensures clean <==>
      !FaultIn(disk.faults, old(disk.step), old(disk.step) + Existing(run, |states|) + |directories|)
    ensures AllNew(run, disk.links, disk.contents)
    ensures OthersKept(run, disk.links) && ContentsKept(run, disk.contents)
    ensures clean || !SeveralFaults(disk.faults) ==> NothingAdded(run, disk.links)
  {
    hide Sound, Tidy, Views, AllNew, OthersKept, ContentsKept, NothingAdded, SeveralFaults;
    ghost var start := disk.step;
    var removed := RemoveBackups(disk, states, directories, run);
    ghost var middle, views := disk.step, Views(states);
    NothingLeft(run, disk.links, views);
    ghost var links := disk.links;
    var cleaned := CleanUp(disk, states, run);
    if removed {
      NoneOnRecord(views, |views|);
      assert links - {} == links;
      FewerLinks(run, links, disk.links);
    }
    AllPublished(run, disk, states);
    Frame(run, disk, states);
    if !removed && !cleaned {
      FaultsApart(disk.faults, start, middle, disk.step);
    }
    StepsJoin(disk.faults, start, middle, disk.step);
    clean := removed && cleaned;
  }

  lemma NothingChanged(run: Run)
    ensures Untouched(run, run.links) && OthersKept(run, run.links) && ContentsKept(run, run.contents)
    ensures NothingAdded(run, run.links)
  {
  }

  /** Prepares, publishes and discards, with distinct outputs. */
  method Transact(disk: Disk, outputs: seq<Place>, payload: seq<int>, ghost run: Run) returns (outcome: Outcome)
    requires ValidRun(run) && run == Run(disk.links, disk.contents, payload, outputs, disk.names)
    modifies disk
    ensures Guarantee(run, outcome, disk.links, disk.contents)
    ensures outcome.NotPublished? || outcome.RolledBack? || outcome.PublishedUncleanly? || outcome.Completed?
    ensures OthersKept(run, disk.links) && ContentsKept(run, disk.contents)
    ensures outcome.RolledBack? && outcome.failures != [] ==> SeveralFaults(disk.faults)
    ensures old(NamesAhead(disk)) && !SeveralFaults(disk.faults) ==> NothingAdded(run, disk.links)
    ensures old(NamesAhead(disk)) && !SeveralFaults(disk.faults) && (outcome.NotPublished? || outcome.RolledBack?) ==>
      disk.links == run.links
    ensures outcome.Completed? ==> !FaultIn(disk.faults, old(disk.step), disk.step)
    ensures old(NamesAhead(disk)) ==> OutcomeOf(run, disk.faults, old(disk.step), outcome)
  {
    hide Ready, Sound, Tidy, Views, ValidRun, IsAuxiliary, HasDuplicates, AllNew, Untouched, RestoredOrStranded;
    hide OthersKept, ContentsKept, Ahead, NothingAdded, SeveralFaults, FaultIn, OutcomeOf;
    hide Preparation, Existing, DirectoriesOf;
    var directories := Directories(outputs);
    ghost var start := disk.step;
    var found, ok, states := Prepare(disk, outputs, payload, run);
    ghost var middle := disk.step;
    if !ok {
      outcome := GiveUp(disk, states, found, run, start);
      if old(NamesAhead(disk)) {
        FailedEarly(run, disk.faults, start);
      }
      return;
    }
    outcome := PublishOrRollBack(disk, states, payload, directories, run);
    StepsJoin(disk.faults, start, middle, disk.step);
    if old(NamesAhead(disk)) {
      OutcomeDecided(run, disk.faults, start, outcome);
    }
  }

  method GiveUp(disk: Disk, states: seq<OutputState>, found: bool, ghost run: Run, ghost start: nat)
    returns (outcome: Outcome)
    requires found ==> Preparing(run, disk, states)
    requires found && !SeveralFaults(disk.faults) ==> Tidy(run, disk.links, Views(states))
    requires !found ==> disk.links == run.links && disk.contents == run.contents
    modifies disk`links, disk`step
    ensures outcome.NotPublished? && Untouched(run, disk.links)
    ensures OthersKept(run, disk.links) && ContentsKept(run, disk.contents)
    ensures FaultIn(disk.faults, start, old(disk.step)) && !SeveralFaults(disk.faults) ==>
      NothingAdded(run, disk.links) && disk.links == run.links
  {
    hide Ready, Sound, Tidy, Views, Untouched, OthersKept, ContentsKept, NothingAdded, SeveralFaults, FaultIn;
    if found {
      Settle(run, disk, states);
      Abandon(disk, states, run, start);
    } else {
      NothingChanged(run);
    }
    return NotPublished;
  }

  /** Publishes the payload under all outputs, or under none.

    For every schedule of failing steps the result is one of the outcomes of Guarantee, and completion only
    if no step failed. With unused names at hand the first failing step decides the outcome, and at most one
    failing step leaves no auxiliary name behind. */
  method Assemble(disk: Disk, outputs: seq<Place>, payload: seq<int>, ghost run: Run) returns (outcome: Outcome)
    requires run == Run(disk.links, disk.contents, payload, outputs, disk.names)
    requires forall p <- disk.links :: disk.links[p] in disk.contents
    requires forall p <- outputs :: !IsAuxiliary(run, p)
    modifies disk
    ensures Guarantee(run, outcome, disk.links, disk.contents)
    ensures OthersKept(run, disk.links) && ContentsKept(run, disk.contents)
    ensures outcome.RolledBack? && outcome.failures != [] ==> SeveralFaults(disk.faults)
    ensures old(NamesAhead(disk)) && !SeveralFaults(disk.faults) ==> NothingAdded(run, disk.links)
    ensures old(NamesAhead(disk)) && !SeveralFaults(disk.faults) && (outcome.NotPublished? || outcome.RolledBack?) ==>
      disk.links == run.links
    ensures outcome.NoOutputs? <==> outputs == []
    ensures outcome.DuplicateOutputs? <==> exists i, j :: 0 <= i < j < |outputs| && outputs[i] == outputs[j]
    ensures outcome.Completed? ==> !FaultIn(disk.faults, old(disk.step), disk.step)
    ensures old(NamesAhead(disk)) && outputs != [] && !HasDuplicates(outputs) ==>
      OutcomeOf(run, disk.faults, old(disk.step), outcome)
  {
    hide Ready, Sound, IsAuxiliary, AllNew, Untouched, RestoredOrStranded, SeveralFaults, FaultIn, OutcomeOf, Ahead;
    NothingChanged(run);
    DuplicatesMean(outputs);
    if outputs == [] {
      return NoOutputs;
    }
    if HasDuplicates(outputs) {
      return DuplicateOutputs;
    }
    assert ValidRun(run);
    hide ValidRun, OthersKept, ContentsKept, NothingAdded, HasDuplicates;
    outcome := Transact(disk, outputs, payload, run);
  }
}
