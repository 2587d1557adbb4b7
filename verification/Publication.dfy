/** Directory states of one publication and what each step of it keeps.

  A directory entry is a `Place`, a file an inode number.  `View` is the bookkeeping of one output;
  the predicates relate the bookkeeping of all outputs to the directories and to the state before.
*/
module Publication {
  import opened Basics

  datatype Place = Place(directory: nat, name: string)

  type Links = map<Place, nat>

  type Contents = map<nat, seq<int>>

  /** One output: what it was, its temporary, its backup, and whether it has been replaced.
    `recovery` is the backup left in place for an output that could not be restored. */
  datatype View = View(place: Place, previous: Option<nat>, temporary: Option<Place>,
                       backup: Option<Place>, published: bool, recovery: Option<Place>)

  /** The fixed part of a run: the state before it, the new payload, and the auxiliary names. */
  datatype Run = Run(links: Links, contents: Contents, payload: seq<int>, outputs: seq<Place>, names: nat -> string)

  ghost predicate IsAuxiliary(run: Run, p: Place) {
    exists k: nat :: p.name == run.names(k)
  }

  /** Files have contents, outputs are distinct, and no generated name is that of an output. */
  ghost predicate ValidRun(run: Run) {
    && (forall p <- run.links :: run.links[p] in run.contents)
    && (forall i, j | 0 <= i < j < |run.outputs| :: run.outputs[i] != run.outputs[j])
    && (forall p <- run.outputs :: !IsAuxiliary(run, p))
  }

  function Lookup(links: Links, p: Place): Option<nat> {
    if p in links then Some(links[p]) else None
  }

  /** The file at `p` is new and holds the payload. */
  predicate HoldsPayload(run: Run, links: Links, contents: Contents, p: Place) {
    p in links && links[p] !in run.contents && links[p] in contents && contents[links[p]] == run.payload
  }

  /** The output is as before, or new; a failed restoration has kept the previous file elsewhere. */
  predicate Settled(run: Run, links: Links, contents: Contents, v: View) {
    && v.previous == Lookup(run.links, v.place)
    && (if v.published then HoldsPayload(run, links, contents, v.place) else Lookup(links, v.place) == v.previous)
    && (v.recovery.Some? ==> v.published && v.previous.Some? && Lookup(links, v.recovery.value) == v.previous)
  }

  /** The temporary holds the payload, the backup the previous file. */
  predicate Supported(run: Run, links: Links, contents: Contents, v: View) {
    && (v.temporary.Some? ==> !v.published && HoldsPayload(run, links, contents, v.temporary.value))
    && (v.backup.Some? ==> v.previous.Some? && Lookup(links, v.backup.value) == v.previous)
    && (v.published && v.previous.Some? ==> v.backup.Some? || v.recovery.Some?)
  }

  predicate Uses(v: View, p: Place) {
    v.temporary == Some(p) || v.backup == Some(p) || v.recovery == Some(p)
  }

  /** Auxiliary places carry generated names, were free before, and serve one purpose each. */
  ghost predicate Separate(run: Run, views: seq<View>) {
    && (forall i | 0 <= i < |views| :: OwnSeparate(views[i]))
    && (forall i, p | 0 <= i < |views| && Uses(views[i], p) :: IsAuxiliary(run, p) && p !in run.links)
    && (forall i, j, p | 0 <= i < |views| && 0 <= j < |views| && i != j && Uses(views[i], p) :: !Uses(views[j], p))
  }

  predicate OwnSeparate(v: View) {
    && (v.temporary.Some? ==> v.temporary != v.backup && v.temporary != v.recovery)
    && (v.backup.Some? ==> v.backup != v.recovery)
  }

  /** Everything else in the directories is as before, apart from generated names. */
  ghost predicate OthersKept(run: Run, links: Links) {
    && (forall p | p in run.links && p !in run.outputs :: p in links && links[p] == run.links[p])
    && (forall p | p in links && p !in run.links :: p in run.outputs || IsAuxiliary(run, p))
  }

  predicate ContentsKept(run: Run, contents: Contents) {
    forall inode <- run.contents :: inode in contents && contents[inode] == run.contents[inode]
  }

  ghost predicate Places(run: Run, views: seq<View>) {
    |views| == |run.outputs| && forall i | 0 <= i < |views| :: views[i].place == run.outputs[i]
  }

  /** What holds throughout: no output is in any state but its old or its new one. */
  ghost predicate Sound(run: Run, links: Links, contents: Contents, views: seq<View>) {
    && ValidRun(run) && Places(run, views) && Separate(run, views)
    && OthersKept(run, links) && ContentsKept(run, contents)
    && (forall p <- links :: links[p] in contents)
    && forall i | 0 <= i < |views| :: Settled(run, links, contents, views[i])
  }

  /** Sound, and every recorded temporary and backup is in place. */
  ghost predicate Ready(run: Run, links: Links, contents: Contents, views: seq<View>) {
    Sound(run, links, contents, views) && forall i | 0 <= i < |views| :: Supported(run, links, contents, views[i])
  }

  /** Nothing is in the directories beyond the old entries, the outputs and recorded auxiliaries. */
  ghost predicate Tidy(run: Run, links: Links, views: seq<View>) {
    forall p | p in links && p !in run.links && p !in run.outputs :: exists i :: 0 <= i < |views| && Uses(views[i], p)
  }

  // ----------------------------------------------------------- steps on the state

  lemma PlaceIsOutput(run: Run, views: seq<View>, i: nat)
    requires Places(run, views) && i < |views|
    ensures views[i].place in run.outputs
  {
    assert run.outputs[i] in run.outputs;
  }

  lemma NotOutput(run: Run, p: Place)
    requires ValidRun(run) && IsAuxiliary(run, p)
    ensures p !in run.outputs
  {
  }

  lemma UseIsAuxiliary(run: Run, views: seq<View>, i: nat, p: Place)
    requires Separate(run, views) && i < |views| && Uses(views[i], p)
    ensures IsAuxiliary(run, p) && p !in run.links
  {
  }

  /** A view depends on the directories only at its own places. */
  lemma Unaffected(run: Run, links: Links, links': Links, contents: Contents, contents': Contents, v: View)
    requires forall p | p == v.place || Uses(v, p) :: Lookup(links', p) == Lookup(links, p)
    requires forall n <- contents :: n in contents' && contents'[n] == contents[n]
    ensures Settled(run, links, contents, v) ==> Settled(run, links', contents', v)
    ensures Supported(run, links, contents, v) ==> Supported(run, links', contents', v)
  {
    assert Lookup(links', v.place) == Lookup(links, v.place);
    assert v.temporary.Some? ==> Lookup(links', v.temporary.value) == Lookup(links, v.temporary.value);
    assert v.backup.Some? ==> Lookup(links', v.backup.value) == Lookup(links, v.backup.value);
    assert v.recovery.Some? ==> Lookup(links', v.recovery.value) == Lookup(links, v.recovery.value);
  }

  /** What a view relies on is in the directories. */
  lemma UsesPresent(run: Run, links: Links, contents: Contents, v: View)
    requires Settled(run, links, contents, v) && Supported(run, links, contents, v)
    ensures forall p | Uses(v, p) :: p in links
  {
  }

  /** A change at `p` and `q`, places of output `i` only, leaves all other outputs as they are. */
  lemma OthersUnaffected(run: Run, links: Links, links': Links, contents: Contents, views: seq<View>, i: nat,
                         aux: Place)
    requires ValidRun(run) && Places(run, views) && Separate(run, views) && i < |views| && Uses(views[i], aux)
    requires forall p | p != views[i].place && p != aux :: Lookup(links', p) == Lookup(links, p)
    ensures forall j | 0 <= j < |views| && j != i ::
      (Settled(run, links, contents, views[j]) ==> Settled(run, links', contents, views[j]))
      && (Supported(run, links, contents, views[j]) ==> Supported(run, links', contents, views[j]))
  {
    UseIsAuxiliary(run, views, i, aux);
    PlaceIsOutput(run, views, i);
    hide Settled, Supported;
    forall j | 0 <= j < |views| && j != i
      ensures (Settled(run, links, contents, views[j]) ==> Settled(run, links', contents, views[j]))
      ensures (Supported(run, links, contents, views[j]) ==> Supported(run, links', contents, views[j]))
    {
      PlaceIsOutput(run, views, j);
      forall p | p == views[j].place || Uses(views[j], p)
        ensures p != views[i].place && p != aux
      {
        if Uses(views[j], p) {
          UseIsAuxiliary(run, views, j, p);
        } else {
          assert run.outputs[i] != run.outputs[j];
        }
      }
      Unaffected(run, links, links', contents, contents, views[j]);
    }
  }

  /** Bookkeeping that gives up places, or trades one purpose for another, stays separate. */
  lemma SeparateLess(run: Run, views: seq<View>, i: nat, v: View)
    requires Separate(run, views) && i < |views| && OwnSeparate(v)
    requires forall p | Uses(v, p) :: Uses(views[i], p)
    ensures Separate(run, views[i := v])
  {
    hide IsAuxiliary, OwnSeparate;
  }

  lemma SeparateMore(run: Run, views: seq<View>, i: nat, v: View, p: Place)
    requires Separate(run, views) && i < |views| && OwnSeparate(v)
    requires IsAuxiliary(run, p) && p !in run.links && forall j | 0 <= j < |views| :: !Uses(views[j], p)
    requires forall q | Uses(v, q) :: q == p || Uses(views[i], q)
    ensures Separate(run, views[i := v])
  {
    hide IsAuxiliary, OwnSeparate;
  }

  /** Creating a file under a free generated name changes nothing recorded. */
  lemma AddAuxiliary(run: Run, links: Links, contents: Contents, views: seq<View>, p: Place, inode: nat,
                     contents': Contents)
    requires Ready(run, links, contents, views)
    requires IsAuxiliary(run, p) && p !in links
    requires forall n <- contents :: n in contents' && contents'[n] == contents[n]
    requires inode in contents'
    ensures Ready(run, links[p := inode], contents', views)
    ensures p !in run.links
    ensures forall i | 0 <= i < |views| :: !Uses(views[i], p)
  {
    NotOutput(run, p);
    hide IsAuxiliary, Separate, Settled, Supported, Uses;
    assert p !in run.links;
    forall i | 0 <= i < |views|
      ensures Settled(run, links[p := inode], contents', views[i])
      ensures Supported(run, links[p := inode], contents', views[i])
      ensures !Uses(views[i], p)
    {
      PlaceIsOutput(run, views, i);
      UsesPresent(run, links, contents, views[i]);
      Unaffected(run, links, links[p := inode], contents, contents', views[i]);
    }
  }

  /** Ready is a matter of the outputs one by one. */
  lemma ReadyWith(run: Run, links: Links, contents: Contents, views: seq<View>, i: nat, v: View)
    requires ValidRun(run) && Places(run, views) && i < |views| && v.place == views[i].place
    requires Separate(run, views[i := v]) && OthersKept(run, links) && ContentsKept(run, contents)
    requires forall p <- links :: links[p] in contents
    requires forall j | 0 <= j < |views| && j != i ::
      Settled(run, links, contents, views[j]) && Supported(run, links, contents, views[j])
    requires Settled(run, links, contents, v) && Supported(run, links, contents, v)
    ensures Ready(run, links, contents, views[i := v])
  {
    hide ValidRun, Separate, OthersKept, ContentsKept, Settled, Supported;
  }

  lemma ReadyParts(run: Run, links: Links, contents: Contents, views: seq<View>)
    requires Ready(run, links, contents, views)
    ensures ValidRun(run) && Places(run, views) && Separate(run, views)
    ensures OthersKept(run, links) && ContentsKept(run, contents)
    ensures forall p <- links :: links[p] in contents
    ensures forall j | 0 <= j < |views| ::
      Settled(run, links, contents, views[j]) && Supported(run, links, contents, views[j])
  {
    hide ValidRun, Separate, OthersKept, ContentsKept, Settled, Supported;
  }

  lemma RecordTemporary(run: Run, links: Links, contents: Contents, views: seq<View>, i: nat, p: Place)
    requires Ready(run, links, contents, views) && i < |views|
    requires IsAuxiliary(run, p) && p !in run.links && forall j | 0 <= j < |views| :: !Uses(views[j], p)
    requires views[i].temporary.None? && !views[i].published && HoldsPayload(run, links, contents, p)
    ensures Ready(run, links, contents, views[i := views[i].(temporary := Some(p))])
  {
    ReadyParts(run, links, contents, views);
    hide Ready, Sound, IsAuxiliary, ValidRun, Separate;
    var v := views[i].(temporary := Some(p));
    assert !Uses(views[i], p);
    SeparateMore(run, views, i, v, p);
    ReadyWith(run, links, contents, views, i, v);
  }

  lemma RecordBackup(run: Run, links: Links, contents: Contents, views: seq<View>, i: nat, p: Place)
    requires Ready(run, links, contents, views) && i < |views|
    requires IsAuxiliary(run, p) && p !in run.links && forall j | 0 <= j < |views| :: !Uses(views[j], p)
    requires views[i].backup.None? && views[i].previous.Some? && Lookup(links, p) == views[i].previous
    ensures Ready(run, links, contents, views[i := views[i].(backup := Some(p))])
  {
    ReadyParts(run, links, contents, views);
    hide Ready, Sound, IsAuxiliary, ValidRun, Separate;
    var v := views[i].(backup := Some(p));
    assert !Uses(views[i], p);
    SeparateMore(run, views, i, v, p);
    ReadyWith(run, links, contents, views, i, v);
  }

  /** `rename(src, dst)` on different files. */
  function Renamed(links: Links, src: Place, dst: Place): Links
    requires src in links
  {
    (links - {src})[dst := links[src]]
  }

  lemma RenameKeepsOthers(run: Run, links: Links, src: Place, dst: Place)
    requires OthersKept(run, links) && src in links && src !in run.links && dst in run.outputs
    ensures OthersKept(run, Renamed(links, src, dst))
  {
    hide IsAuxiliary;
  }

  lemma PublishedView(run: Run, links: Links, contents: Contents, v: View)
    requires Settled(run, links, contents, v) && Supported(run, links, contents, v)
    requires v.temporary.Some? && v.temporary != v.backup && (v.previous.Some? ==> v.backup.Some?)
    requires v.temporary != Some(v.place) && v.backup != Some(v.place)
    ensures v.temporary.value in links
    ensures var links' := Renamed(links, v.temporary.value, v.place);
      var v' := v.(temporary := None, published := true);
      Settled(run, links', contents, v') && Supported(run, links', contents, v')
  {
  }

  /** Replacing an output by its temporary. */
  lemma Publish(run: Run, links: Links, contents: Contents, views: seq<View>, i: nat)
    requires Ready(run, links, contents, views) && i < |views|
    requires views[i].temporary.Some? && (views[i].previous.Some? ==> views[i].backup.Some?)
    ensures views[i].temporary.value in links
    ensures Ready(run, Renamed(links, views[i].temporary.value, views[i].place), contents,
                  views[i := views[i].(temporary := None, published := true)])
  {
    ReadyParts(run, links, contents, views);
    hide Ready, Sound, IsAuxiliary;
    var v, t := views[i], views[i].temporary.value;
    var links' := Renamed(links, t, v.place);
    PublishedView(run, links, contents, v);
    assert Uses(v, t);
    UseIsAuxiliary(run, views, i, t);
    PlaceIsOutput(run, views, i);
    assert v.backup.Some? ==> Uses(v, v.backup.value);
    if v.backup.Some? {
      UseIsAuxiliary(run, views, i, v.backup.value);
    }
    NotOutput(run, t);
    hide Settled, Supported, ValidRun;
    SeparateLess(run, views, i, v.(temporary := None, published := true));
    RenameKeepsOthers(run, links, t, v.place);
    OthersUnaffected(run, links, links', contents, views, i, t);
    hide Separate, OthersKept, ContentsKept;
    ReadyWith(run, links', contents, views, i, v.(temporary := None, published := true));
  }

  /** A backup and the output it is for are different files once the output is published. */
  lemma BackupDiffers(run: Run, links: Links, contents: Contents, v: View)
    requires ValidRun(run) && Settled(run, links, contents, v) && Supported(run, links, contents, v)
    requires v.published && v.backup.Some?
    ensures v.backup.value in links && v.place in links && links[v.backup.value] != links[v.place]
    ensures v.temporary.None? && v.previous == Some(links[v.backup.value])
  {
    assert v.place in run.links && run.links[v.place] in run.contents;
  }

  lemma RestoredView(run: Run, links: Links, contents: Contents, v: View)
    requires v.previous == Lookup(run.links, v.place) && v.recovery.None? && v.temporary.None?
    requires Lookup(links, v.place) == v.previous
    ensures Settled(run, links, contents, v.(backup := None, published := false))
    ensures Supported(run, links, contents, v.(backup := None, published := false))
  {
  }

  /** Putting the backup back over a published output. */
  lemma RestoreBackup(run: Run, links: Links, contents: Contents, views: seq<View>, i: nat)
    requires Ready(run, links, contents, views) && i < |views|
    requires views[i].published && views[i].backup.Some? && views[i].recovery.None?
    ensures views[i].backup.value in links && views[i].place in links
    ensures links[views[i].backup.value] != links[views[i].place]
    ensures Ready(run, Renamed(links, views[i].backup.value, views[i].place), contents,
                  views[i := views[i].(backup := None, published := false)])
  {
    ReadyParts(run, links, contents, views);
    hide Ready, Sound, IsAuxiliary, HoldsPayload;
    var v, b := views[i], views[i].backup.value;
    BackupDiffers(run, links, contents, v);
    assert v.previous == Lookup(run.links, v.place);
    hide Supported, Settled, ValidRun;
    var links' := Renamed(links, b, v.place);
    assert Uses(v, b);
    UseIsAuxiliary(run, views, i, b);
    PlaceIsOutput(run, views, i);
    SeparateLess(run, views, i, v.(backup := None, published := false));
    RenameKeepsOthers(run, links, b, v.place);
    OthersUnaffected(run, links, links', contents, views, i, b);
    hide Separate, OthersKept, ContentsKept;
    RestoredView(run, links', contents, v);
    ReadyWith(run, links', contents, views, i, v.(backup := None, published := false));
  }

  lemma AbsentView(run: Run, links: Links, contents: Contents, v: View)
    requires v.previous == Lookup(run.links, v.place) && v.previous.None?
    requires v.temporary.None? && v.backup.None? && v.recovery.None? && Lookup(links, v.place) == None
    ensures Settled(run, links, contents, v.(published := false))
    ensures Supported(run, links, contents, v.(published := false))
  {
  }

  /** Removing a published output that did not exist before. */
  lemma RestoreAbsence(run: Run, links: Links, contents: Contents, views: seq<View>, i: nat)
    requires Ready(run, links, contents, views) && i < |views|
    requires views[i].published && views[i].backup.None? && views[i].recovery.None?
    ensures views[i].previous.None? && views[i].place in links
    ensures Ready(run, links - {views[i].place}, contents, views[i := views[i].(published := false)])
  {
    ReadyParts(run, links, contents, views);
    hide Ready, Sound, IsAuxiliary;
    var v := views[i];
    var v' := v.(published := false);
    var links' := links - {v.place};
    assert v.previous.None? && v.temporary.None? && v.place in links;
    PlaceIsOutput(run, views, i);
    SeparateLess(run, views, i, v');
    hide Settled, Supported, HoldsPayload;
    forall j | 0 <= j < |views| && j != i
      ensures Settled(run, links', contents, views[j]) && Supported(run, links', contents, views[j])
    {
      assert run.outputs[i] != run.outputs[j];
      forall p | p == views[j].place || Uses(views[j], p)
        ensures p != v.place
      {
        if Uses(views[j], p) {
          UseIsAuxiliary(run, views, j, p);
        }
      }
      Unaffected(run, links, links', contents, contents, views[j]);
    }
    hide Separate, ValidRun;
    AbsentView(run, links', contents, v);
    ReadyWith(run, links', contents, views, i, v');
  }

  /** Giving up on a restoration, but not on the backup. */
  lemma Strand(run: Run, links: Links, contents: Contents, views: seq<View>, i: nat)
    requires Ready(run, links, contents, views) && i < |views|
    requires views[i].published && views[i].backup.Some? && views[i].recovery.None?
    ensures Ready(run, links, contents, views[i := views[i].(backup := None, recovery := views[i].backup)])
  {
    ReadyParts(run, links, contents, views);
    hide Ready, Sound, IsAuxiliary, ValidRun;
    var v := views[i].(backup := None, recovery := views[i].backup);
    SeparateLess(run, views, i, v);
    hide Separate;
    ReadyWith(run, links, contents, views, i, v);
  }

  /** Removing a temporary or a backup touches no output and no recovery copy. */
  lemma RemoveAuxiliary(run: Run, links: Links, contents: Contents, views: seq<View>, i: nat, p: Place)
    requires Sound(run, links, contents, views) && i < |views|
    requires views[i].temporary == Some(p) || views[i].backup == Some(p)
    ensures Sound(run, links - {p}, contents, views)
  {
    var links' := links - {p};
    assert Uses(views[i], p);
    UseIsAuxiliary(run, views, i, p);
    NotOutput(run, p);
    OthersUnaffected(run, links, links', contents, views, i, p);
    PlaceIsOutput(run, views, i);
    assert OwnSeparate(views[i]);
    assert Settled(run, links', contents, views[i]);
    hide IsAuxiliary, Separate, Settled;
  }

  lemma ForgetBackup(run: Run, links: Links, contents: Contents, views: seq<View>, i: nat)
    requires Sound(run, links, contents, views) && i < |views|
    ensures Sound(run, links, contents, views[i := views[i].(backup := None)])
  {
    var v' := views[i].(backup := None);
    SeparateLess(run, views, i, v');
    hide IsAuxiliary, Separate;
  }
}
