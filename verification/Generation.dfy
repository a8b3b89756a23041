/** Writing generated files: everything is checked before anything is written, and only owned, unedited output is
    touched. The output directory is a map from relative path to content, with the ownership list kept beside it as
    text. */
module Generation {
  import opened Basics

  type Path = string

  datatype Generated = Generated(path: Path, content: string, plugin: string, capability: string)
  datatype Owned = Owned(path: Path, plugin: string, capability: string, hash: string)
  datatype Disk = Disk(files: map<Path, string>, manifest: Option<string>)

  datatype Outcome = Done | InvalidFile | Conflict | InvalidOwnership | Modified

  /** What the engine relies on and this model does not spell out. */
  datatype Host = Host(safe: Path -> bool, lower: string -> string, hash: string -> string,
                       render: seq<Owned> -> string, parse: string -> Option<seq<Owned>>)
  {
    /** The ownership list can be read back. */
    ghost predicate Faithful() {
      forall files {:trigger render(files)} :: parse(render(files)) == Some(files)
    }

    predicate Name(path: Path) {
      safe(path) && lower(path) != ".engine-files.json" && lower(path) != ".engine-output.lock"
    }

    /** Two outputs that cannot be there at once, ignoring case: the same file, or one inside the other. */
    predicate Clash(a: Path, b: Path) {
      lower(a) == lower(b) || lower(b) + "/" <= lower(a) || lower(a) + "/" <= lower(b)
    }

    function Own(g: Generated): Owned {
      Owned(g.path, g.plugin, g.capability, hash(g.content))
    }

    function List(files: seq<Generated>): seq<Owned> {
      seq(|files|, i requires 0 <= i < |files| => Own(files[i]))
    }
  }

  predicate Produces(files: seq<Generated>, path: Path) {
    exists i :: 0 <= i < |files| && files[i].path == path
  }

  predicate Owns(previous: seq<Owned>, path: Path) {
    exists i :: 0 <= i < |previous| && previous[i].path == path
  }

  /** The content a path is given; of several files with one path the last. */
  function ContentOf(files: seq<Generated>, path: Path): string
    requires Produces(files, path)
  {
    var last := |files| - 1;
    if files[last].path == path then files[last].content else ContentOf(files[..last], path)
  }

  function HashOf(previous: seq<Owned>, path: Path): string
    requires Owns(previous, path)
  {
    if previous[0].path == path then previous[0].hash else HashOf(previous[1..], path)
  }

  // ---- When a generation is accepted ----

  ghost predicate Distinct(h: Host, files: seq<Generated>) {
    forall i, j :: 0 <= i < j < |files| ==> !h.Clash(files[i].path, files[j].path)
  }

  ghost predicate Named(h: Host, files: seq<Generated>) {
    forall i :: 0 <= i < |files| ==> h.Name(files[i].path)
  }

  ghost predicate Sound(h: Host, files: seq<Generated>) {
    Named(h, files) && Distinct(h, files)
  }

  predicate AllNamed(h: Host, previous: seq<Owned>) {
    forall i :: 0 <= i < |previous| ==> h.Name(previous[i].path)
  }

  /** The ownership list on disk: none yet is an empty one, and an unreadable one is no list. */
  function Ownership(h: Host, manifest: Option<string>): Option<seq<Owned>> {
    if manifest.None? then Some([])
    else if h.parse(manifest.value).Some? && AllNamed(h, h.parse(manifest.value).value) then h.parse(manifest.value)
    else None
  }

  /** A new file would differ from an owned one in case only. */
  predicate Recased(h: Host, previous: seq<Owned>, files: seq<Generated>) {
    exists i, j :: 0 <= i < |files| && 0 <= j < |previous| && RecasedPair(h, previous[j].path, files[i].path)
  }

  predicate RecasedPair(h: Host, owned: Path, path: Path) {
    owned != path && h.lower(owned) == h.lower(path)
  }

  /** What is at a path may be replaced or removed: nothing, or owned output as it was written. */
  predicate Unedited(h: Host, disk: map<Path, string>, previous: seq<Owned>, path: Path) {
    path in disk ==> Owns(previous, path) && h.hash(disk[path]) == HashOf(previous, path)
  }

  ghost predicate AllUnedited(h: Host, disk: map<Path, string>, previous: seq<Owned>, files: seq<Generated>) {
    && (forall i :: 0 <= i < |previous| ==> Unedited(h, disk, previous, previous[i].path))
    && (forall i :: 0 <= i < |files| ==> Unedited(h, disk, previous, files[i].path))
  }

  ghost predicate OwnershipOk(h: Host, disk: Disk, files: seq<Generated>) {
    Ownership(h, disk.manifest).Some? && !Recased(h, Ownership(h, disk.manifest).value, files)
  }

  /** Exactly when a generation succeeds. */
  ghost predicate Accepted(h: Host, disk: Disk, files: seq<Generated>) {
    && Sound(h, files) && OwnershipOk(h, disk, files)
    && AllUnedited(h, disk.files, Ownership(h, disk.manifest).value, files)
  }

  /** The same, path by path: generated names are safe and not reserved, no two of them are alike but for case or one
      inside the other, the ownership list is absent or readable and of such names, no owned name is respelled, and
      every file on disk at an owned or generated path is owned and as it was written. */
  lemma AcceptedMeans(h: Host, disk: Disk, files: seq<Generated>)
    ensures Accepted(h, disk, files) <==>
              && (forall i | 0 <= i < |files| :: Proper(h, files[i].path))
              && (forall i, j | 0 <= i < j < |files| :: !Alike(h, files[i].path, files[j].path))
              && (disk.manifest.Some? ==> h.parse(disk.manifest.value).Some?)
              && var owned := if disk.manifest.Some? then h.parse(disk.manifest.value).value else [];
                 && (forall k | 0 <= k < |owned| :: Proper(h, owned[k].path))
                 && (forall i, k | 0 <= i < |files| && 0 <= k < |owned| ::
                       h.lower(files[i].path) == h.lower(owned[k].path) ==> files[i].path == owned[k].path)
                 && (forall p | p in disk.files && ((exists i :: 0 <= i < |files| && files[i].path == p)
                                                     || exists k :: 0 <= k < |owned| && owned[k].path == p) ::
                       Untouched(h, disk.files[p], owned, p))
  {
    var owned := if disk.manifest.Some? && h.parse(disk.manifest.value).Some? then h.parse(disk.manifest.value).value
        else [];
    UneditedMeans(h, disk.files, owned);
  }

  /** The first entry of the list for this path has the hash of this content. */
  predicate Untouched(h: Host, content: string, owned: seq<Owned>, path: Path) {
    exists k :: 0 <= k < |owned| && owned[k].path == path && owned[k].hash == h.hash(content)
                && forall j | 0 <= j < k :: owned[j].path != path
  }

  predicate Proper(h: Host, path: Path) {
    h.safe(path) && h.lower(path) != ".engine-files.json" && h.lower(path) != ".engine-output.lock"
  }

  /** Equal, or one inside the other, ignoring case. */
  predicate Alike(h: Host, a: Path, b: Path) {
    h.lower(a) == h.lower(b) || h.lower(a) + "/" <= h.lower(b) || h.lower(b) + "/" <= h.lower(a)
  }

  lemma {:induction false} HashOfFirst(previous: seq<Owned>, k: nat)
    requires k < |previous| && forall j | 0 <= j < k :: previous[j].path != previous[k].path
    ensures Owns(previous, previous[k].path) && HashOf(previous, previous[k].path) == previous[k].hash
    decreases k
  {
    if k > 0 {
      assert previous[1..][k - 1] == previous[k];
      HashOfFirst(previous[1..], k - 1);
    }
  }

  lemma {:induction false} OwnsFirst(previous: seq<Owned>, path: Path)
    requires Owns(previous, path)
    ensures exists k :: 0 <= k < |previous| && previous[k].path == path && HashOf(previous, path) == previous[k].hash
                        && forall j | 0 <= j < k :: previous[j].path != path
    decreases |previous|
  {
    if previous[0].path != path {
      var i :| 0 <= i < |previous| && previous[i].path == path;
      assert previous[1..][i - 1].path == path;
      OwnsFirst(previous[1..], path);
      var k :| 0 <= k < |previous[1..]| && previous[1..][k].path == path
               && HashOf(previous[1..], path) == previous[1..][k].hash
               && forall j | 0 <= j < k :: previous[1..][j].path != path;
      assert previous[k + 1] == previous[1..][k];
      assert forall j | 0 < j < k + 1 :: previous[j] == previous[1..][j - 1];
    }
  }

  lemma UneditedMeans(h: Host, disk: map<Path, string>, owned: seq<Owned>)
    ensures forall p :: Unedited(h, disk, owned, p) <==> (p in disk ==> Untouched(h, disk[p], owned, p))
  {
    forall p ensures Unedited(h, disk, owned, p) <==> (p in disk ==> Untouched(h, disk[p], owned, p)) {
      if p in disk && Owns(owned, p) { OwnsFirst(owned, p); }
      if p in disk && Untouched(h, disk[p], owned, p) {
        var k :| 0 <= k < |owned| && owned[k].path == p && owned[k].hash == h.hash(disk[p])
                 && forall j | 0 <= j < k :: owned[j].path != p;
        HashOfFirst(owned, k);
      }
    }
  }

  // ---- What a successful one leaves ----

  /** Every produced path has its content, owned paths no longer produced are gone, the rest is as before. */
  ghost predicate Rewritten(before: map<Path, string>, after: map<Path, string>, previous: seq<Owned>,
      files: seq<Generated>)
  {
    && (forall p :: p in after <==> Produces(files, p) || (p in before && !Owns(previous, p)))
    && (forall p | p in after :: after[p] == if Produces(files, p) then ContentOf(files, p) else before[p])
  }

  lemma {:induction false} DistinctContent(h: Host, files: seq<Generated>, i: nat)
    requires Distinct(h, files) && i < |files|
    ensures Produces(files, files[i].path) && ContentOf(files, files[i].path) == files[i].content
    decreases |files|
  {
    var last := |files| - 1;
    if i < last {
      assert !h.Clash(files[i].path, files[last].path);
      DistinctContent(h, files[..last], i);
      assert files[..last][i] == files[i];
    }
  }

  lemma {:induction false} HashAt(h: Host, files: seq<Generated>, i: nat)
    requires Distinct(h, files) && i < |files|
    ensures Owns(h.List(files), files[i].path) && HashOf(h.List(files), files[i].path) == h.hash(files[i].content)
    decreases |files|
  {
    var list := h.List(files);
    assert list[i].path == files[i].path;
    if i > 0 {
      assert !h.Clash(files[0].path, files[i].path);
      assert list[1..] == h.List(files[1..]);
      HashAt(h, files[1..], i - 1);
      assert files[1..][i - 1] == files[i];
    }
  }

  lemma OwnsProduced(h: Host, files: seq<Generated>, p: Path)
    ensures Owns(h.List(files), p) <==> Produces(files, p)
  {
    if Produces(files, p) {
      var i :| 0 <= i < |files| && files[i].path == p;
      assert h.List(files)[i].path == p;
    }
    if Owns(h.List(files), p) {
      var i :| 0 <= i < |files| && h.List(files)[i].path == p;
      assert files[i].path == p;
    }
  }

  /** The disk a successful generation leaves. */
  ghost predicate Leaves(h: Host, disk: Disk, files: seq<Generated>, after: Disk) {
    && Ownership(h, disk.manifest).Some?
    && Rewritten(disk.files, after.files, Ownership(h, disk.manifest).value, files)
    && after.manifest == Some(h.render(h.List(files)))
  }

  /** Owned files on disk are exactly the produced ones, nothing owned lies inside or over another, and generating the
      same files once more is accepted and changes nothing. */
  lemma {:induction false} RepeatChangesNothing(h: Host, disk: Disk, files: seq<Generated>, after: Disk)
    requires h.Faithful() && Accepted(h, disk, files) && Leaves(h, disk, files, after)
    ensures Ownership(h, after.manifest) == Some(h.List(files))
    ensures Accepted(h, after, files) && Leaves(h, after, files, after)
    ensures forall p | Produces(files, p) :: p in after.files && after.files[p] == ContentOf(files, p)
  {
    var list := h.List(files);
    assert h.parse(h.render(list)) == Some(list);
    assert AllNamed(h, list) by {
      forall i | 0 <= i < |list| ensures h.Name(list[i].path) { assert h.Name(files[i].path); }
    }
    NoneRecased(h, files);
    forall i | 0 <= i < |files|
      ensures Unedited(h, after.files, list, files[i].path) && Unedited(h, after.files, list, list[i].path)
    {
      DistinctContent(h, files, i);
      HashAt(h, files, i);
    }
    forall p ensures Owns(list, p) <==> Produces(files, p) { OwnsProduced(h, files, p); }
  }

  lemma NoneRecased(h: Host, files: seq<Generated>)
    requires Distinct(h, files)
    ensures !Recased(h, h.List(files), files)
  {
    forall i, j | 0 <= i < |files| && 0 <= j < |files| ensures !RecasedPair(h, h.List(files)[j].path, files[i].path) {
      if i < j { assert !h.Clash(files[i].path, files[j].path); }
      if j < i { assert !h.Clash(files[j].path, files[i].path); }
    }
  }

  class Output {
    const host: Host
    var files: map<Path, string>
    var manifest: Option<string>
    /** Paths written or removed, in order; the ownership list counts under its own name. */
    ghost var changes: seq<Path>

    ghost function Now(): Disk
      reads this
    {
      Disk(files, manifest)
    }

    constructor (host: Host, files: map<Path, string>, manifest: Option<string>)
      ensures this.host == host && Now() == Disk(files, manifest) && changes == []
    {
      this.host, this.files, this.manifest, changes := host, files, manifest, [];
    }

    /** Collects the generators' files, each named properly and clear of all before it. */
    method Collect(generated: seq<Generated>) returns (outcome: Outcome)
      ensures outcome == Done || outcome == InvalidFile || outcome == Conflict
      ensures outcome == Done <==> Sound(host, generated)
      ensures outcome == InvalidFile ==>
                exists i :: 0 <= i < |generated| && Sound(host, generated[..i]) && !Proper(host, generated[i].path)
      ensures outcome == Conflict ==>
                exists i :: 0 <= i < |generated| && Sound(host, generated[..i]) && Proper(host, generated[i].path)
                            && exists j :: 0 <= j < i && Alike(host, generated[j].path, generated[i].path)
    {
      var i := 0;
      while i < |generated|
        invariant 0 <= i <= |generated| && Sound(host, generated[..i])
      {
        if !host.Name(generated[i].path) { return InvalidFile; }
        var j := 0;
        while j < i
          invariant 0 <= j <= i && forall k :: 0 <= k < j ==> !host.Clash(generated[k].path, generated[i].path)
        {
          if host.Clash(generated[j].path, generated[i].path) {
            assert Alike(host, generated[j].path, generated[i].path);
            return Conflict;
          }
          j := j + 1;
        }
        i := i + 1;
      }
      assert generated[..i] == generated;
      outcome := Done;
    }

    /** The first hash the ownership list gives for a path. */
    method FindOwned(previous: seq<Owned>, path: Path) returns (owned: Option<string>)
      ensures owned.Some? <==> Owns(previous, path)
      ensures owned.Some? ==> owned.value == HashOf(previous, path)
    {
      var i := 0;
      while i < |previous|
        invariant 0 <= i <= |previous| && !Owns(previous[..i], path)
        invariant Owns(previous, path) <==> Owns(previous[i..], path)
        invariant Owns(previous, path) ==> HashOf(previous, path) == HashOf(previous[i..], path)
      {
        if previous[i].path == path { return Some(previous[i].hash); }
        SkipsOther(previous[i..], path);
        assert previous[i..][1..] == previous[i + 1..];
        assert forall k :: 0 <= k < i + 1 ==> previous[..i + 1][k] == if k < i then previous[..i][k] else previous[i];
        i := i + 1;
      }
      owned := None;
    }

    method CheckOne(previous: seq<Owned>, path: Path) returns (ok: bool)
      ensures ok <==> Unedited(host, files, previous, path)
    {
      if path !in files { return true; }
      var owned := FindOwned(previous, path);
      ok := owned.Some? && host.hash(files[path]) == owned.value;
    }

    /** Looks at every old and new output before any of them is written. */
    method Check(previous: seq<Owned>, generated: seq<Generated>) returns (ok: bool)
      ensures ok <==> AllUnedited(host, files, previous, generated)
    {
      var i := 0;
      while i < |previous|
        invariant 0 <= i <= |previous| && forall k :: 0 <= k < i ==> Unedited(host, files, previous, previous[k].path)
      {
        var one := CheckOne(previous, previous[i].path);
        if !one { return false; }
        i := i + 1;
      }
      i := 0;
      while i < |generated|
        invariant 0 <= i <= |generated| && forall k :: 0 <= k < i ==> Unedited(host, files, previous, generated[k].path)
      {
        var one := CheckOne(previous, generated[i].path);
        if !one { return false; }
        i := i + 1;
      }
      ok := true;
    }

    method WriteAll(generated: seq<Generated>)
      modifies this`files, this`changes
      ensures forall p :: p in files <==> p in old(files) || Produces(generated, p)
      ensures forall p | p in files :: files[p] == if Produces(generated, p) then ContentOf(generated, p)
              else old(files)[p]
      ensures (forall i | 0 <= i < |generated| ::
                 generated[i].path in old(files) && old(files)[generated[i].path] == generated[i].content) ==>
                changes == old(changes)
    {
      var i := 0;
      while i < |generated|
        invariant 0 <= i <= |generated|
        invariant forall p :: p in files <==> p in old(files) || Produces(generated[..i], p)
        invariant forall p | p in files ::
                    files[p] == if Produces(generated[..i], p) then ContentOf(generated[..i], p) else old(files)[p]
        invariant (forall k :: 0 <= k < |generated| ==> Holds(old(files), generated[k])) ==>
                    changes == old(changes) && files == old(files)
      {
        var g := generated[i];
        ProducesOneMore(generated, i);
        if g.path !in files || files[g.path] != g.content {
          files := files[g.path := g.content];
          changes := changes + [g.path];
        }
        i := i + 1;
      }
      assert generated[..i] == generated;
    }

    /** Unlinks owned files that are no longer produced. */
    method RemoveObsolete(previous: seq<Owned>, generated: seq<Generated>)
      modifies this`files, this`changes
      ensures forall p :: p in files <==> p in old(files) && (Owns(previous, p) ==> Produces(generated, p))
      ensures forall p | p in files :: files[p] == old(files)[p]
      ensures (forall i :: 0 <= i < |previous| ==>
                 Produces(generated, previous[i].path) || previous[i].path !in old(files)) ==>
                changes == old(changes)
    {
      var i := 0;
      while i < |previous|
        invariant 0 <= i <= |previous|
        invariant forall p :: p in files <==> p in old(files) && (Owns(previous[..i], p) ==> Produces(generated, p))
        invariant forall p | p in files :: files[p] == old(files)[p]
        invariant (forall k :: 0 <= k < |previous| ==>
                     Produces(generated, previous[k].path) || previous[k].path !in old(files)) ==>
                    changes == old(changes)
      {
        var path := previous[i].path;
        OwnsOneMore(previous, i);
        if !Produces(generated, path) && path in files {
          files := files - {path};
          changes := changes + [path];
        }
        i := i + 1;
      }
      assert previous[..i] == previous;
    }

    method WriteManifest(generated: seq<Generated>)
      modifies this`manifest, this`changes
      ensures manifest == Some(host.render(host.List(generated)))
      ensures old(manifest) == manifest ==> changes == old(changes)
    {
      var content := host.render(host.List(generated));
      if manifest != Some(content) {
        manifest := Some(content);
        changes := changes + [".engine-files.json"];
      }
    }

    method ReadOwnership(generated: seq<Generated>) returns (previous: Option<seq<Owned>>)
      ensures previous.Some? <==> OwnershipOk(host, Now(), generated)
      ensures previous.Some? ==> previous == Ownership(host, manifest)
    {
      if manifest.None? {
        return Some([]);
      }
      var loaded := host.parse(manifest.value);
      if loaded.None? || !AllNamed(host, loaded.value) { return None; }
      var i := 0;
      while i < |generated|
        invariant 0 <= i <= |generated|
        invariant forall k, j :: 0 <= k < i && 0 <= j < |loaded.value| ==>
                    !RecasedPair(host, loaded.value[j].path, generated[k].path)
      {
        var j := 0;
        while j < |loaded.value|
          invariant 0 <= j <= |loaded.value|
          invariant forall k :: 0 <= k < j ==> !RecasedPair(host, loaded.value[k].path, generated[i].path)
        {
          if RecasedPair(host, loaded.value[j].path, generated[i].path) { return None; }
          j := j + 1;
        }
        i := i + 1;
      }
      previous := loaded;
    }

    /** The whole stage. It succeeds exactly on accepted input; refused, it has changed nothing; and when everything is
        already there it writes nothing. */
    method Generate(generated: seq<Generated>) returns (outcome: Outcome)
      modifies this`files, this`manifest, this`changes
      ensures outcome == Done <==> Accepted(host, old(Now()), generated)
      ensures outcome == Done ==> Leaves(host, old(Now()), generated, Now())
      ensures outcome == Done ==> forall i | 0 <= i < |generated| ::
                generated[i].path in files && files[generated[i].path] == generated[i].content
      ensures outcome == Done ==> forall p ::
                p in files <==> (exists i :: 0 <= i < |generated| && generated[i].path == p)
                                || (p in old(files) && !OwnedBy(host, old(manifest), p))
      ensures outcome == Done ==> forall p | p in files
              && (forall i | 0 <= i < |generated| :: generated[i].path != p) ::
                files[p] == old(files)[p]
      ensures outcome == Done ==> manifest.Some? && manifest.value == host.render(host.List(generated))
      ensures outcome != Done ==> Now() == old(Now()) && changes == old(changes)
      ensures outcome == InvalidFile || outcome == Conflict <==> !Sound(host, generated)
      ensures outcome == InvalidOwnership <==> Sound(host, generated) && !OwnershipOk(host, old(Now()), generated)
      ensures Accepted(host, old(Now()), generated) && Leaves(host, old(Now()), generated, old(Now())) ==>
              changes == old(changes)
    {
      outcome := Collect(generated);
      if outcome != Done { return; }
      var previous := ReadOwnership(generated);
      if previous.None? { return InvalidOwnership; }
      var ok := Check(previous.value, generated);
      if !ok { return Modified; }
      SettledHolds(host, Now(), generated);
      WriteAll(generated);
      RemoveObsolete(previous.value, generated);
      WriteManifest(generated);
      LeavesMeans(host, old(Now()), generated, Now());
      outcome := Done;
    }
  }

  /** The ownership list on disk has an entry of this path. */
  predicate OwnedBy(h: Host, manifest: Option<string>, path: Path) {
    manifest.Some? && h.parse(manifest.value).Some?
    && exists k :: 0 <= k < |h.parse(manifest.value).value| && h.parse(manifest.value).value[k].path == path
  }

  /** The disk a success leaves, path by path: what was generated is there, owned files that were not are gone, and what
      nobody owns is as it was. */
  lemma LeavesMeans(h: Host, disk: Disk, files: seq<Generated>, after: Disk)
    requires Sound(h, files) && Leaves(h, disk, files, after)
    ensures forall i | 0 <= i < |files| ::
              files[i].path in after.files && after.files[files[i].path] == files[i].content
    ensures forall p :: p in after.files <==>
              (exists i :: 0 <= i < |files| && files[i].path == p) || (p in disk.files && !OwnedBy(h, disk.manifest, p))
    ensures forall p | p in after.files && (forall i | 0 <= i < |files| :: files[i].path != p) ::
              after.files[p] == disk.files[p]
  {
    forall i | 0 <= i < |files| ensures files[i].path in after.files && after.files[files[i].path] == files[i].content {
      DistinctContent(h, files, i);
    }
  }

  /** On a disk already in its final state every file is there, and every owned one is still produced. */
  lemma SettledHolds(h: Host, disk: Disk, files: seq<Generated>)
    requires Accepted(h, disk, files)
    ensures Leaves(h, disk, files, disk) ==>
              && (forall i :: 0 <= i < |files| ==> Holds(disk.files, files[i]))
              && disk.manifest == Some(h.render(h.List(files)))
    ensures Leaves(h, disk, files, disk) ==>
              var previous := Ownership(h, disk.manifest).value;
              forall i :: 0 <= i < |previous| ==> Produces(files, previous[i].path) || previous[i].path !in disk.files
  {
    forall i | 0 <= i < |files| && Leaves(h, disk, files, disk) ensures Holds(disk.files, files[i]) {
      DistinctContent(h, files, i);
    }
  }

  predicate Holds(files: map<Path, string>, g: Generated) {
    g.path in files && files[g.path] == g.content
  }

  lemma {:induction false} SkipsOther(previous: seq<Owned>, path: Path)
    requires previous != [] && previous[0].path != path
    ensures Owns(previous, path) <==> Owns(previous[1..], path)
    ensures Owns(previous, path) ==> HashOf(previous, path) == HashOf(previous[1..], path)
  {
    if Owns(previous, path) {
      var i :| 0 <= i < |previous| && previous[i].path == path;
      assert previous[1..][i - 1].path == path;
    }
  }

  lemma OwnsOneMore(previous: seq<Owned>, i: nat)
    requires i < |previous|
    ensures forall p :: Owns(previous[..i + 1], p) <==> Owns(previous[..i], p) || p == previous[i].path
  {
    var more := previous[..i + 1];
    forall p ensures Owns(more, p) <==> Owns(previous[..i], p) || p == previous[i].path {
      if Owns(previous[..i], p) {
        var k :| 0 <= k < i && previous[..i][k].path == p;
        assert more[k].path == p;
      }
      if Owns(more, p) {
        var k :| 0 <= k < |more| && more[k].path == p;
        if k < i { assert previous[..i][k].path == p; }
      }
      if p == previous[i].path { assert more[i].path == p; }
    }
  }

  lemma ProducesOneMore(files: seq<Generated>, i: nat)
    requires i < |files|
    ensures forall p :: Produces(files[..i + 1], p) <==> Produces(files[..i], p) || p == files[i].path
    ensures ContentOf(files[..i + 1], files[i].path) == files[i].content
    ensures forall p | p != files[i].path && Produces(files[..i], p) ::
            ContentOf(files[..i + 1], p) == ContentOf(files[..i], p)
  {
    var more := files[..i + 1];
    assert more[..i] == files[..i] && more[i] == files[i];
    forall p ensures Produces(more, p) <==> Produces(files[..i], p) || p == files[i].path {
      if Produces(files[..i], p) {
        var k :| 0 <= k < i && files[..i][k].path == p;
        assert more[k].path == p;
      }
      if Produces(more, p) {
        var k :| 0 <= k < |more| && more[k].path == p;
        if k < i { assert files[..i][k].path == p; }
      }
    }
    assert Produces(more, files[i].path);
  }
}
