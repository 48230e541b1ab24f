/** The migration procedure over a disk whose operations may fail or never
    return. A crash is a run that stops at the operation it reached, without the
    deferred cleanup. */
module MigrationRun {
  import opened Migration
  import opened Text
  import opened Wrappers

  /** What becomes of one file operation; `left` names the files that an
      interrupted removal leaves behind. */
  datatype Fault = Done | Fails(left: set<Name>) | Crashes(left: set<Name>)

  datatype Status = Ok | Err | Dead

  class Disk {
    var legacy: Option<Json>
    var dir: Option<Dir>
    var workspace: Option<Dir>
    var migrated: Option<Json>
    var stale: multiset<Json>
    /** The fates of the coming operations; past its end every one succeeds. */
    var faults: seq<Fault>

    ghost function State(): Files
      reads this
    {
      Files(legacy, dir, workspace, migrated, stale)
    }

    constructor (f: Files)
      ensures State() == f && faults == []
    {
      legacy, dir, workspace, migrated, stale := f.legacy, f.dir, f.workspace, f.migrated, f.stale;
      faults := [];
    }

    method Next() returns (f: Fault)
      modifies this`faults
      ensures old(faults) == [] ==> f == Done && faults == []
    {
      f := Done;
      if faults != [] {
        f := faults[0];
        faults := faults[1..];
      }
    }

    static function StatusOf(f: Fault): Status {
      match f case Done => Ok case Fails(_) => Err case Crashes(_) => Dead
    }

    method Read() returns (st: Status)
      modifies this`faults
      ensures old(faults) == [] ==> st == Ok && faults == []
    {
      var f := Next();
      st := StatusOf(f);
    }

    method RemoveWorkspace() returns (st: Status)
      modifies this`workspace, this`faults
      ensures st == Ok ==> workspace.None?
      ensures old(workspace).None? ==> workspace.None?
      ensures old(faults) == [] ==> st == Ok && faults == []
    {
      var f := Next();
      st := StatusOf(f);
      if workspace.Some? {
        var d := workspace.value;
        workspace := if f.Done? then None else Some(map n | n in d && n in f.left :: d[n]);
      }
    }

    method MakeWorkspace() returns (st: Status)
      requires workspace.None?
      modifies this`workspace, this`faults
      ensures st == Ok ==> workspace == Some(map[])
      ensures st == Err ==> workspace.None?
      ensures old(faults) == [] ==> st == Ok && faults == []
    {
      var f := Next();
      st := StatusOf(f);
      if f.Done? {
        workspace := Some(map[]);
      }
    }

    method WriteFile(name: Name, c: Content) returns (st: Status)
      requires workspace.Some?
      modifies this`workspace, this`faults
      ensures workspace.Some?
      ensures st == Ok ==> workspace == Some(old(workspace).value[name := c])
      ensures old(faults) == [] ==> st == Ok && faults == []
    {
      var f := Next();
      st := StatusOf(f);
      workspace := Some(workspace.value[name := if f.Done? then c else Torn]);
    }

    /** The entries of the per-ticket directory, in some order. */
    method ReadDir() returns (st: Status, names: seq<Name>)
      modifies this`faults
      ensures st == Ok ==> dir.Some? && (forall n :: n in names <==> n in dir.value)
      ensures old(faults) == [] ==> faults == [] && (st == Ok <==> dir.Some?) && st != Dead
    {
      var f := Next();
      st, names := StatusOf(f), [];
      if f.Done? {
        if dir.None? {
          st := Err;
        } else {
          names := ListNames(dir.value.Keys);
        }
      }
    }

    /** Removes the per-ticket directory, which must be empty. */
    method RemoveDir() returns (st: Status)
      requires dir == Some(map[])
      modifies this`dir, this`faults
      ensures st == Ok ==> dir.None?
      ensures st != Ok ==> dir == old(dir)
      ensures old(faults) == [] ==> st == Ok && faults == []
    {
      var f := Next();
      st := StatusOf(f);
      if f.Done? {
        dir := None;
      }
    }

    /** Renames the workspace to the per-ticket directory; a directory that has
        entries is not replaced. */
    method Promote() returns (st: Status)
      requires workspace.Some?
      modifies this`dir, this`workspace, this`faults
      ensures st == Ok ==> Bare(old(dir)) && dir == old(workspace) && workspace.None?
      ensures st != Ok ==> dir == old(dir) && workspace == old(workspace)
      ensures old(faults) == [] ==> faults == [] && st != Dead && (st == Ok <==> Bare(old(dir)))
    {
      var f := Next();
      st := StatusOf(f);
      if f.Done? && !(dir.None? || dir.value == map[]) {
        st := Err;
      } else if f.Done? {
        dir, workspace := workspace, None;
      }
    }

    method RenameLegacy(toStale: bool) returns (st: Status)
      requires legacy.Some?
      modifies this`legacy, this`migrated, this`stale, this`faults
      ensures st == Ok && toStale ==>
        legacy.None? && migrated == old(migrated) && stale == old(stale) + multiset{old(legacy).value}
      ensures st == Ok && !toStale ==> legacy.None? && migrated == old(legacy) && stale == old(stale)
      ensures st != Ok ==> legacy == old(legacy) && migrated == old(migrated) && stale == old(stale)
      ensures old(faults) == [] ==> st == Ok && faults == []
    {
      var f := Next();
      st := StatusOf(f);
      if f.Done? {
        if toStale {
          stale := stale + multiset{legacy.value};
        } else {
          migrated := legacy;
        }
        legacy := None;
      }
    }
  }

  method ListNames(keys: set<Name>) returns (names: seq<Name>)
    ensures forall n :: n in names <==> n in keys
  {
    names := [];
    var rest := keys;
    while rest != {}
      invariant rest <= keys
      invariant forall n :: n in names <==> n in keys && n !in rest
    {
      var n :| n in rest;
      names, rest := names + [n], rest - {n};
    }
  }

  /** What a positive staleness verdict guarantees. */
  predicate StaleFor(dir: Option<Dir>, store: Json) {
    dir.Some? && Covers(dir.value, store)
  }

  predicate MarkdownFile(d: Dir, f: Name)
    requires f in d
  {
    d[f] != Folder && HasSuffix(f, ".md")
  }

  /** When the verdict is certainly positive: every Markdown file parses, and
      every file of every ticket is at least as new as the legacy record. */
  predicate ClearlyStale(dir: Option<Dir>, store: Json)
    requires store.Store?
  {
    && dir.Some? && (store.tickets == map[] ==> dir.value != map[])
    && (forall f :: f in dir.value && MarkdownFile(dir.value, f) ==> Parse(dir.value[f]).Some?)
    && StaleFor(dir, store)
    && (forall f, id :: f in dir.value && MarkdownFile(dir.value, f) && id in Live(store) ==>
          Parse(dir.value[f]).value.id == id ==> Parse(dir.value[f]).value.updatedAt >= OldCopy(store, id))
  }

  method IsStaleSnapshot(disk: Disk, store: Json) returns (st: Status, stale: bool)
    requires store.Store?
    modifies disk`faults
    ensures st == Ok && stale ==> StaleFor(disk.dir, store)
    ensures st != Err
    ensures old(disk.faults) == [] ==> st == Ok && disk.faults == []
    ensures old(disk.faults) == [] && ClearlyStale(disk.dir, store) ==> stale
  {
    var names;
    st, names := disk.ReadDir();
    if st != Ok {
      return if st == Dead then Dead else Ok, false;
    }
    if store.tickets == map[] {
      if names != [] {
        assert names[0] in names;
      }
      return Ok, names != [];
    }
    var dirState: map<string, int> := map[];
    ghost var d := disk.dir.value;
    for i := 0 to |names|
      invariant old(disk.faults) == [] ==> disk.faults == []
      invariant disk.dir == Some(d)
      invariant forall id :: id in dirState ==> exists f :: f in d && IsExactCopy(d, f, id, dirState[id])
      invariant forall j :: 0 <= j < i && MarkdownFile(d, names[j]) ==>
        Parse(d[names[j]]).Some? && Parse(d[names[j]]).value.id in dirState
    {
      assert names[i] in names;
      var c := disk.dir.value[names[i]];
      if c == Folder || !HasSuffix(names[i], ".md") {
        continue;
      }
      var r := disk.Read();
      if r != Ok {
        return if r == Dead then Dead else Ok, false;
      }
      var t := Parse(c);
      if t.None? {
        return Ok, false;
      }
      assert IsExactCopy(d, names[i], t.value.id, t.value.updatedAt);
      dirState := dirState[t.value.id := t.value.updatedAt];
    }
    var todo := store.tickets.Keys;
    while todo != {}
      invariant todo <= store.tickets.Keys
      invariant forall id :: id in Live(store) && id !in todo ==>
        exists f :: f in d && IsCopy(d, f, id, OldCopy(store, id))
    {
      var id :| id in todo;
      var lt := store.tickets[id];
      if lt.Some? {
        if id !in dirState || dirState[id] < lt.value.updatedAt {
          NotClearlyStale(d, store, id, dirState, names);
          return Ok, false;
        }
        ghost var f :| f in d && IsExactCopy(d, f, id, dirState[id]);
        assert IsCopy(d, f, id, OldCopy(store, id));
      }
      todo := todo - {id};
    }
    return Ok, true;
  }

  predicate IsExactCopy(d: Dir, f: Name, id: string, updatedAt: int)
    requires f in d
  {
    MarkdownFile(d, f) && Parse(d[f]).Some? && Parse(d[f]).value.id == id && Parse(d[f]).value.updatedAt == updatedAt
  }

  lemma NotClearlyStale(d: Dir, store: Json, id: string, dirState: map<string, int>, names: seq<Name>)
    requires store.Store? && id in Live(store)
    requires forall n :: n in names <==> n in d
    requires forall i :: i in dirState ==> exists f :: f in d && IsExactCopy(d, f, i, dirState[i])
    requires forall j :: 0 <= j < |names| && MarkdownFile(d, names[j]) ==>
      Parse(d[names[j]]).Some? && Parse(d[names[j]]).value.id in dirState
    requires id !in dirState || dirState[id] < OldCopy(store, id)
    ensures !ClearlyStale(Some(d), store)
  {
  }

  // ---- The procedure ----

  /** How an uninterrupted run ends, from a legacy store that parses. */
  predicate RunsThrough(a: Files, b: Files, st: Status, n: nat)
    requires a.legacy.Some? && a.legacy.value.Store?
  {
    var store := a.legacy.value;
    && b.workspace.None?
    && ((st == Ok && n == 0 && b == a.(legacy := None, workspace := None, stale := a.stale + multiset{store})
       && StaleFor(a.dir, store))
        || (st == Ok && n == |Live(store)| && Sound(store) && Bare(a.dir)
            && b.dir.Some? && FullyWritten(b.dir.value, store)
            && b == a.(legacy := None, dir := b.dir, workspace := None, migrated := a.legacy))
        || (st == Err && b == a.(workspace := None) && !ClearlyStale(a.dir, store) && (!Sound(store) || !Bare(a.dir))))
  }

  /** Writes one ticket, reads it back and validates it. */
  method WriteTicket(disk: Disk, store: Json, id: string, ghost ids: set<string>) returns (st: Status)
    requires store.Store? && id in Live(store) && ids <= Live(store)
    requires disk.workspace.Some? && Written(disk.workspace.value, store, ids)
    modifies disk`workspace, disk`faults
    ensures disk.workspace.Some?
    ensures st == Ok ==>
      Written(disk.workspace.value, store, ids + {id}) && Filled(store, id).marshals && Filled(store, id).survives
    ensures old(disk.faults) == [] ==>
      disk.faults == [] && (st == if Filled(store, id).marshals && Filled(store, id).survives then Ok else Err)
  {
    hide NameOf, Filled, Written, Live;
    var ticket := Filled(store, id);
    if !ticket.marshals {
      return Err;
    }
    ghost var before := disk.workspace.value;
    st := disk.WriteFile(NameOf(store, id), Markdown(ticket));
    if st != Ok {
      return;
    }
    st := disk.Read();
    if st != Ok {
      return;
    }
    if Parse(Markdown(ticket)).None? {
      return Err;
    }
    WrittenMore(before, store, ids, id);
  }

  /** Writes every live ticket into the workspace. */
  method WriteTickets(disk: Disk, store: Json) returns (st: Status, n: nat)
    requires store.Store? && disk.workspace == Some(map[])
    modifies disk`workspace, disk`faults
    ensures st == Ok ==>
      disk.workspace.Some? && FullyWritten(disk.workspace.value, store) && n == |Live(store)| && Sound(store)
    ensures old(disk.faults) == [] ==> disk.faults == [] && st != Dead && (st == Ok <==> Sound(store))
  {
    hide NameOf, Filled, Written, Live;
    n := 0;
    var todo := Live(store);
    ghost var ids: set<string> := {};
    WrittenNothing(store);
    while todo != {}
      invariant old(disk.faults) == [] ==> disk.faults == []
      invariant disk.workspace.Some? && todo <= Live(store) && ids == Live(store) - todo
      invariant Written(disk.workspace.value, store, ids)
      invariant n == |Live(store)| - |todo|
      invariant forall id :: id in ids ==> Filled(store, id).marshals && Filled(store, id).survives
    {
      var id :| id in todo;
      st := WriteTicket(disk, store, id, ids);
      if st != Ok {
        return;
      }
      todo, ids := todo - {id}, ids + {id};
      n := n + 1;
    }
    assert ids == Live(store);
    return Ok, n;
  }

  /** What a run that wrote the directory achieved: there are tickets of the store in it
      and nothing else, and with distinct file names all of them. */
  ghost predicate Wrote(d: Option<Dir>, legacy: Option<Json>, n: nat) {
    && d.Some? && legacy.Some? && legacy.value.Store? && n == |Live(legacy.value)|
    && HoldsOnly(d.value, legacy.value)
    && (DistinctNames(legacy.value) ==> HoldsAll(d.value, legacy.value))
  }

  lemma FullyWrote(d: Dir, store: Json)
    requires store.Store? && FullyWritten(d, store)
    ensures Wrote(Some(d), Some(store), |Live(store)|)
  {
    hide FullyWritten;
    WrittenHolds(d, store);
  }

  method RunMigration(disk: Disk) returns (st: Status, n: nat)
    requires disk.workspace.None?
    modifies disk
    ensures Evolves(old(disk.State()), disk.State())
    ensures st == Ok && (n > 0 || disk.dir != old(disk.dir)) ==> Wrote(disk.dir, old(disk.legacy), n)
    ensures old(disk.faults) == [] ==> disk.faults == [] && st != Dead
    ensures old(disk.faults) == [] && old(disk.legacy).Some? && old(disk.legacy).value.Store? ==>
            RunsThrough(old(disk.State()), disk.State(), st, n)
  {
    hide Covers, FullyWritten, Sound, ClearlyStale, Wrote;
    n := 0;
    st := disk.Read();
    if st != Ok {
      return;
    }
    if disk.legacy.None? || disk.legacy.value.Corrupt? {
      return Err, 0;
    }
    var store := disk.legacy.value;
    var isStale;
    st, isStale := IsStaleSnapshot(disk, store);
    if st != Ok {
      return;
    }
    if isStale {
      st := disk.RenameLegacy(true);
      return;
    }
    st := disk.MakeWorkspace();
    if st != Ok {
      return;
    }
    st, n := WriteTickets(disk, store);
    if st == Ok {
      st := PromoteWorkspace(disk);
    }
    if st != Ok {
      n := 0;
      if st == Err {
        // the deferred cleanup
        var removed := disk.RemoveWorkspace();
        if removed == Dead {
          st := Dead;
        }
      }
      return;
    }
    FullyWrote(disk.dir.value, store);
    var renamed := disk.RenameLegacy(false);
    if renamed == Dead {
      st := Dead;
    }
  }

  /** Puts the finished workspace in place of an absent or empty directory. */
  method PromoteWorkspace(disk: Disk) returns (st: Status)
    requires disk.workspace.Some?
    modifies disk`dir, disk`workspace, disk`faults
    ensures st == Ok ==> Bare(old(disk.dir)) && disk.dir == old(disk.workspace) && disk.workspace.None?
    ensures st != Ok ==>
      disk.workspace == old(disk.workspace) && (disk.dir == old(disk.dir) || (Bare(old(disk.dir)) && disk.dir.None?))
    ensures old(disk.faults) == [] ==> disk.faults == [] && st != Dead && (st == Ok <==> Bare(old(disk.dir)))
    ensures old(disk.faults) == [] && st != Ok ==> disk.dir == old(disk.dir)
  {
    var names;
    st, names := disk.ReadDir();
    if st == Dead {
      return;
    }
    if st == Ok {
      if names != [] {
        assert names[0] in disk.dir.value;
        return Err;
      }
      assert disk.dir.value == map[] by {
        assert forall f :: f in disk.dir.value ==> f in names;
      }
      st := disk.RemoveDir();
      if st != Ok {
        return;
      }
    }
    st := disk.Promote();
  }

  method MigrateProject(disk: Disk) returns (st: Status, n: nat)
    modifies disk
    ensures Evolves(old(disk.State()), disk.State())
    ensures st == Ok && (n > 0 || disk.dir != old(disk.dir)) ==> Wrote(disk.dir, old(disk.legacy), n)
    ensures old(disk.faults) == [] ==> disk.faults == [] && st != Dead
    ensures old(disk.faults) == [] && old(disk.legacy).None? ==>
            st == Ok && n == 0 && disk.State() == old(disk.State()).(workspace := None)
    ensures old(disk.faults) == [] && old(disk.legacy).Some? && old(disk.legacy).value.Store? ==>
            RunsThrough(old(disk.State()), disk.State(), st, n)
  {
    hide Covers, FullyWritten, RunsThrough, Wrote;
    var phase := PhaseOf(Files(disk.legacy, disk.dir, disk.workspace, disk.migrated, disk.stale));
    if phase == Complete || phase == NotNeeded {
      assert disk.State() == disk.State().(workspace := None);
      return Ok, 0;
    }
    if phase == Orphan {
      st := disk.RemoveWorkspace();
      if st != Ok {
        return st, 0;
      }
      if PhaseOf(Files(disk.legacy, disk.dir, disk.workspace, disk.migrated, disk.stale)) != Pending {
        return Ok, 0;
      }
    }
    RunsThroughIgnoresOrphan(old(disk.State()), disk.State());
    st, n := RunMigration(disk);
  }

  lemma RunsThroughIgnoresOrphan(a: Files, a': Files)
    requires a' == a.(workspace := None)
    ensures a.legacy.Some? && a.legacy.value.Store? ==>
      forall b, st, n: nat :: RunsThrough(a', b, st, n) == RunsThrough(a, b, st, n)
  {
  }

  // ---- Crashes and reruns ----

  /** A legacy store that can be migrated, beside no directory, an empty one, or
      the one an earlier run already put in place. */
  predicate Recoverable(f: Files, store: Json) {
    && store.Store? && f.legacy == Some(store) && Sound(store) && Keyed(store) && DistinctNames(store)
    && (Bare(f.dir) || FullyWritten(f.dir.value, store))
  }

  /** The directory holds precisely the tickets, as they were stored, and the legacy
      bytes are kept elsewhere. */
  predicate Settled(f: Files, store: Json) {
    && f.legacy.None? && f.dir.Some? && HoldsAll(f.dir.value, store)
    && (f.migrated == Some(store) || store in f.stale)
  }

  lemma CrashStates(a: Files, b: Files, store: Json)
    requires Recoverable(a, store) && Evolves(a, b)
    ensures Recoverable(b, store) || Settled(b, store)
  {
    hide Covers, FullyWritten, HoldsAll, Sound, Keyed, DistinctNames;
    if b.legacy.None? {
      if FullyWritten(b.dir.value, store) {
        HoldsAllIffDistinct(b.dir.value, store);
      } else {
        NothingToHold(b.dir.value, store);
      }
    }
  }

  /** An empty directory covers only a store without tickets, and holds all of that. */
  lemma NothingToHold(d: Dir, store: Json)
    requires d == map[] && Covers(d, store)
    ensures HoldsAll(d, store) && DistinctNames(store)
  {
    hide NameOf;
  }

  lemma SettledStays(a: Files, b: Files, store: Json)
    requires Settled(a, store) && Evolves(a, b)
    ensures Settled(b, store)
  {
  }

  /** A directory that a migration put in place makes its store clearly stale. */
  lemma FinishedIsStale(d: Dir, store: Json)
    requires store.Store? && Keyed(store) && DistinctNames(store) && FullyWritten(d, store) && d != map[]
    ensures ClearlyStale(Some(d), store)
  {
    hide FullyWritten, Live, NameOf, Filled, HasSuffix, Keyed, DistinctNames, Covers;
    CoversIffDistinct(d, store);
    forall f | f in d
      ensures Parse(d[f]).Some?
      ensures forall id :: id in Live(store) && Parse(d[f]).value.id == id ==>
        Parse(d[f]).value.updatedAt >= OldCopy(store, id)
    {
      var owner := OwnerOf(d, store, f);
      KeyedId(store, owner);
    }
  }

  /** An uninterrupted run from a recoverable state settles it. */
  lemma RunSettles(a: Files, b: Files, st: Status, n: nat, store: Json)
    requires Recoverable(a, store) && RunsThrough(a, b, st, n)
    ensures st == Ok && Settled(b, store) && PhaseOf(b) == Complete
    ensures FullyWritten(b.dir.value, store) || b.dir == a.dir
  {
    hide Covers, FullyWritten, HoldsAll, Sound, Keyed, DistinctNames, ClearlyStale;
    if a.dir.Some? && a.dir.value != map[] {
      FinishedIsStale(a.dir.value, store);
    }
    if FullyWritten(b.dir.value, store) {
      HoldsAllIffDistinct(b.dir.value, store);
    } else {
      NothingToHold(b.dir.value, store);
    }
  }

  /** An uninterrupted migration of valid tickets into a bare directory always reports
      success and retires the legacy file, but keeps every ticket if and only if no
      two of them share a file name. */
  lemma MigrationKeepsAllIff(a: Files, b: Files, st: Status, n: nat, store: Json)
    requires store.Store? && a.legacy == Some(store) && Sound(store) && Keyed(store) && Bare(a.dir)
    requires RunsThrough(a, b, st, n)
    ensures st == Ok && b.legacy.None? && b.dir.Some?
    ensures HoldsAll(b.dir.value, store) <==> DistinctNames(store)
    ensures Covers(b.dir.value, store) <==> DistinctNames(store)
  {
    hide Sound, Keyed, ClearlyStale, FullyWritten, HoldsAll, Covers, DistinctNames;
    if FullyWritten(b.dir.value, store) {
      HoldsAllIffDistinct(b.dir.value, store);
    } else {
      NothingToHold(b.dir.value, store);
    }
  }

  /** Two tickets of one title whose ids share their first eight characters. */
  function Colliding(): Json {
    Store("p", map[
      "7f3a9b2c-1" := Some(Ticket("7f3a9b2c-1", "p", 1, "fix", true, true)),
      "7f3a9b2c-2" := Some(Ticket("7f3a9b2c-2", "p", 2, "fix", true, true))])
  }

  lemma CollidingShape()
    ensures var s := Colliding();
            Sound(s) && Keyed(s) && !DistinctNames(s) && Live(s) == {"7f3a9b2c-1", "7f3a9b2c-2"}
  {
    var s := Colliding();
    var a, b := "7f3a9b2c-1", "7f3a9b2c-2";
    assert a[..8] == b[..8] && a[9] != b[9];
    assert a in Live(s) && b in Live(s) && NameOf(s, a) == NameOf(s, b);
  }

  /** Such a store loses a ticket in a run in which nothing fails. */
  method MigrateColliding() returns (disk: Disk)
    ensures disk.legacy.None? && disk.migrated == Some(Colliding())
    ensures disk.dir.Some? && !Covers(disk.dir.value, Colliding())
  {
    hide Sound, Keyed, DistinctNames, Live, HoldsAll, Covers, FullyWritten, ClearlyStale, Evolves, Colliding, Wrote;
    ghost var start := Files(Some(Colliding()), None, None, None, multiset{});
    CollidingShape();
    disk := new Disk(Files(Some(Colliding()), None, None, None, multiset{}));
    var st, n := MigrateProject(disk);
    MigrationKeepsAllIff(start, disk.State(), st, n, Colliding());
  }

  /** Any number of runs, each cut short or failing anywhere, keep every ticket
      safe; one uninterrupted run afterwards completes the migration. */
  method CrashAndRecover(disk: Disk, runs: seq<seq<Fault>>, ghost store: Json)
    requires Recoverable(disk.State(), store)
    modifies disk
    ensures Evolves(old(disk.State()), disk.State())
    ensures Settled(disk.State(), store) && PhaseOf(disk.State()) == Complete
  {
    hide Evolves, Recoverable, Settled, RunsThrough;
    ghost var start := disk.State();
    NothingHappens(start);
    for i := 0 to |runs|
      invariant Evolves(start, disk.State())
      invariant Recoverable(disk.State(), store) || Settled(disk.State(), store)
    {
      disk.faults := runs[i];
      var _, _ := Rerun(disk, start, store);
    }
    disk.faults := [];
    ghost var last := disk.State();
    Shape(last, store);
    var st, n := Rerun(disk, start, store);
    if Recoverable(last, store) {
      RunSettles(last, disk.State(), st, n, store);
    } else {
      Shape(disk.State(), store);
    }
  }

  lemma NothingHappens(f: Files)
    ensures Evolves(f, f)
  {
  }

  lemma Shape(f: Files, store: Json)
    ensures Recoverable(f, store) ==> f.legacy == Some(store) && store.Store?
    ensures Settled(f, store) ==> f.legacy.None? && f.dir.Some?
  {
  }

  method Rerun(disk: Disk, ghost start: Files, ghost store: Json) returns (st: Status, n: nat)
    requires Evolves(start, disk.State())
    requires Recoverable(disk.State(), store) || Settled(disk.State(), store)
    modifies disk
    ensures Evolves(start, disk.State())
    ensures Recoverable(disk.State(), store) || Settled(disk.State(), store)
    ensures old(disk.faults) == [] && old(disk.legacy).None? ==>
            disk.State() == old(disk.State()).(workspace := None) &&
              (Settled(old(disk.State()), store) ==> Settled(disk.State(), store))
    ensures old(disk.faults) == [] && old(disk.legacy).Some? && old(disk.legacy).value.Store? ==>
            RunsThrough(old(disk.State()), disk.State(), st, n)
  {
    hide Evolves, Recoverable, Settled, RunsThrough;
    ghost var before := disk.State();
    st, n := MigrateProject(disk);
    EvolvesTransitive(start, before, disk.State());
    if Recoverable(before, store) {
      CrashStates(before, disk.State(), store);
    }
    if Settled(before, store) {
      SettledStays(before, disk.State(), store);
    }
  }
}
