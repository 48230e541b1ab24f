/** The move from one JSON file to one Markdown file per ticket
    (internal/project/migration.go), as file operations of which any may fail or
    be cut short by a crash. */
module Migration {
  import opened Text
  import opened Wrappers

  type Name = string

  /** What the migration uses of a ticket. `slug` is its slugified title;
      `marshals` and `survives` say whether it can be written as Markdown and
      whether reading that file back passes the validation. */
  datatype Ticket = Ticket(id: string, project: string, updatedAt: int, slug: string, marshals: bool, survives: bool)

  /** The parsed legacy store; a ticket pointer may be nil. */
  datatype Json = Corrupt | Store(project: string, tickets: map<string, Option<Ticket>>)

  datatype Content = Torn | Markdown(ticket: Ticket) | Junk | Folder
  type Dir = map<Name, Content>

  datatype Phase = NotNeeded | Pending | Orphan | Complete

  datatype Files = Files(legacy: Option<Json>, dir: Option<Dir>, workspace: Option<Dir>,
                         migrated: Option<Json>, stale: multiset<Json>)

  function PhaseOf(f: Files): Phase {
    if f.workspace.Some? then Orphan
    else if f.dir.Some? && f.legacy.None? then Complete
    else if f.legacy.Some? then Pending
    else NotNeeded
  }

  function TicketFilename(t: Ticket): Name {
    var slug := if t.slug == "" then "untitled" else t.slug;
    var tail := if |t.id| > 8 then t.id[..8] else t.id;
    slug + "-" + tail + ".md"
  }

  function Parse(c: Content): Option<Ticket> {
    if c.Markdown? && c.ticket.survives then Some(c.ticket) else None
  }

  function Live(store: Json): set<string>
    requires store.Store?
  {
    set id | id in store.tickets && store.tickets[id].Some?
  }

  /** The ticket as written: a missing project id comes from the store. */
  function Filled(store: Json, id: string): Ticket
    requires store.Store? && id in Live(store)
  {
    var t := store.tickets[id].value;
    if t.project == "" then t.(project := store.project) else t
  }

  function NameOf(store: Json, id: string): Name
    requires store.Store? && id in Live(store)
  {
    TicketFilename(Filled(store, id))
  }

  predicate Sound(store: Json) {
    store.Store? && forall id :: id in Live(store) ==> Filled(store, id).marshals && Filled(store, id).survives
  }

  predicate Keyed(store: Json)
    requires store.Store?
  {
    forall id :: id in Live(store) ==> store.tickets[id].value.id == id
  }

  /** No two tickets are written to the same file. */
  predicate DistinctNames(store: Json)
    requires store.Store?
  {
    forall a, b :: a in Live(store) && b in Live(store) && NameOf(store, a) == NameOf(store, b) ==> a == b
  }

  /** d holds what writing exactly the tickets in ids leaves behind. */
  predicate Written(d: Dir, store: Json, ids: set<string>)
    requires store.Store? && ids <= Live(store)
  {
    && (forall id :: id in ids ==> NameOf(store, id) in d)
    && (forall f :: f in d ==> exists id :: id in ids && IsFileOf(d, f, store, id))
  }

  predicate IsFileOf(d: Dir, f: Name, store: Json, id: string)
    requires store.Store? && id in Live(store) && f in d
  {
    f == NameOf(store, id) && d[f] == Markdown(Filled(store, id)) && Filled(store, id).survives
  }

  predicate FullyWritten(d: Dir, store: Json) {
    store.Store? && Written(d, store, Live(store))
  }

  /** t is the stored ticket, but that a missing project id is the store's. */
  predicate Backfilled(t: Ticket, store: Json, id: string)
    requires store.Store? && id in Live(store)
  {
    var stored := store.tickets[id].value;
    && t == stored.(project := t.project)
    && t.project == if stored.project == "" then store.project else stored.project
  }

  /** The file can be read back as that ticket. */
  predicate Carries(d: Dir, f: Name, store: Json, id: string)
    requires store.Store? && id in Live(store) && f in d
  {
    HasSuffix(f, ".md") && Parse(d[f]).Some? && Backfilled(Parse(d[f]).value, store, id)
  }

  /** Every ticket of the store is in a file of d, and d holds nothing else. */
  predicate HoldsAll(d: Dir, store: Json) {
    && store.Store? && HoldsOnly(d, store)
    && forall id :: id in Live(store) ==> exists f :: f in d && Carries(d, f, store, id)
  }

  predicate HoldsOnly(d: Dir, store: Json) {
    store.Store? && forall f :: f in d ==> exists id :: id in Live(store) && Carries(d, f, store, id)
  }

  /** Every ticket of the store has a copy in d that is at least as new. */
  predicate Covers(d: Dir, store: Json) {
    store.Store? && forall id :: id in Live(store) ==> exists f :: f in d && IsCopy(d, f, id, OldCopy(store, id))
  }

  function OldCopy(store: Json, id: string): int
    requires store.Store? && id in Live(store)
  {
    store.tickets[id].value.updatedAt
  }

  predicate IsCopy(d: Dir, f: Name, id: string, updatedAt: int)
    requires f in d
  {
    HasSuffix(f, ".md") && Parse(d[f]).Some? && Parse(d[f]).value.id == id && Parse(d[f]).value.updatedAt >= updatedAt
  }

  predicate Bare(d: Option<Dir>) {
    d.None? || d.value == map[]
  }

  /** How the files may change, whatever fails or crashes: the directory goes
      from bare to complete in one step, and the legacy file leaves its name only
      for one that keeps its bytes, when the directory already holds its tickets. */
  predicate Evolves(a: Files, b: Files) {
    && (b.dir == a.dir ||
        (Bare(a.dir) && a.legacy.Some? && (b.dir.None? || FullyWritten(b.dir.value, a.legacy.value))))
    && ((b.legacy == a.legacy && b.migrated == a.migrated && b.stale == a.stale) ||
        (a.legacy.Some? && b.legacy.None?
         && (b.migrated == a.legacy || a.legacy.value in b.stale)
         && b.dir.Some? && (FullyWritten(b.dir.value, a.legacy.value) || Covers(b.dir.value, a.legacy.value))))
  }

  lemma EvolvesTransitive(a: Files, b: Files, c: Files)
    requires Evolves(a, b) && Evolves(b, c)
    ensures Evolves(a, c)
  {
  }

  lemma NamedAsMarkdown(store: Json, id: string)
    requires store.Store? && id in Live(store)
    ensures HasSuffix(NameOf(store, id), ".md")
  {
  }

  lemma SameName(store: Json, a: string, b: string)
    requires store.Store? && DistinctNames(store) && a in Live(store) && b in Live(store)
    requires NameOf(store, a) == NameOf(store, b)
    ensures a == b
  {
    hide NameOf, Live;
  }

  lemma OwnerOf(d: Dir, store: Json, f: Name) returns (id: string)
    requires FullyWritten(d, store) && f in d
    ensures id in Live(store) && IsFileOf(d, f, store, id)
  {
    hide NameOf, Live, IsFileOf;
    id :| id in Live(store) && IsFileOf(d, f, store, id);
  }

  lemma NamePresent(d: Dir, store: Json, id: string)
    requires FullyWritten(d, store) && id in Live(store)
    ensures NameOf(store, id) in d
  {
    hide NameOf, Live, IsFileOf;
  }

  lemma FileCarries(d: Dir, f: Name, store: Json, id: string)
    requires store.Store? && id in Live(store) && f in d && IsFileOf(d, f, store, id)
    ensures Carries(d, f, store, id)
  {
    NamedAsMarkdown(store, id);
  }

  /** What is completely written holds tickets of the store and nothing else, and with
      distinct file names all of them. */
  lemma WrittenHolds(d: Dir, store: Json)
    requires store.Store? && FullyWritten(d, store)
    ensures HoldsOnly(d, store) && (DistinctNames(store) ==> HoldsAll(d, store))
  {
    hide FullyWritten, NameOf, Live, IsFileOf, Carries, DistinctNames;
    forall f | f in d ensures exists id :: id in Live(store) && Carries(d, f, store, id) {
      var id := OwnerOf(d, store, f);
      FileCarries(d, f, store, id);
    }
    if DistinctNames(store) {
      forall id | id in Live(store) ensures exists f :: f in d && Carries(d, f, store, id) {
        NamePresent(d, store, id);
        var owner := OwnerOf(d, store, NameOf(store, id));
        FileNamed(d, NameOf(store, id), store, owner);
        SameName(store, owner, id);
        FileCarries(d, NameOf(store, id), store, id);
      }
    }
  }

  lemma FileNamed(d: Dir, f: Name, store: Json, id: string)
    requires store.Store? && id in Live(store) && f in d && IsFileOf(d, f, store, id)
    ensures f == NameOf(store, id)
  {
  }

  lemma CarriedIsCopy(d: Dir, f: Name, store: Json, id: string)
    requires store.Store? && Keyed(store) && id in Live(store) && f in d && Carries(d, f, store, id)
    ensures IsCopy(d, f, id, OldCopy(store, id))
  {
  }

  lemma HoldingCovers(d: Dir, store: Json)
    requires HoldsAll(d, store) && Keyed(store)
    ensures Covers(d, store)
  {
    hide HoldsOnly, Live, Carries, IsCopy, Keyed, OldCopy;
    forall id | id in Live(store) ensures exists f :: f in d && IsCopy(d, f, id, OldCopy(store, id)) {
      var f :| f in d && Carries(d, f, store, id);
      CarriedIsCopy(d, f, store, id);
    }
  }

  /** A completely written directory holds every ticket, as it was stored, exactly when
      no two tickets share a file name; otherwise one of them was overwritten. */
  lemma HoldsAllIffDistinct(d: Dir, store: Json)
    requires store.Store? && FullyWritten(d, store) && Keyed(store)
    ensures HoldsAll(d, store) <==> DistinctNames(store)
    ensures Covers(d, store) <==> DistinctNames(store)
  {
    hide FullyWritten, Keyed, DistinctNames, Covers, HoldsAll;
    WrittenHolds(d, store);
    CoversIffDistinct(d, store);
    if HoldsAll(d, store) {
      HoldingCovers(d, store);
    }
  }

  /** With ids of at least eight characters two tickets share a file name exactly when
      their slugs agree, "untitled" standing for an empty one, and the first eight
      characters of their ids. */
  lemma SameFilenameIff(a: Ticket, b: Ticket)
    requires |a.id| >= 8 && |b.id| >= 8
    ensures TicketFilename(a) == TicketFilename(b) <==>
      && a.id[..8] == b.id[..8]
      && (a.slug == b.slug || (a.slug == "" && b.slug == "untitled") || (a.slug == "untitled" && b.slug == ""))
  {
    FilenameParts(a);
    FilenameParts(b);
    hide TicketFilename;
  }

  lemma FilenameParts(t: Ticket)
    requires |t.id| >= 8
    ensures var n := TicketFilename(t);
            && |n| == (if t.slug == "" then 8 else |t.slug|) + 12
            && n[..|n| - 12] == (if t.slug == "" then "untitled" else t.slug)
            && n[|n| - 12..] == "-" + t.id[..8] + ".md"
            && n[|n| - 12..][1..9] == t.id[..8]
  {
  }

  /** A shorter id is used whole. */
  lemma ShortIdFilename(t: Ticket)
    requires |t.id| <= 8
    ensures HasSuffix(TicketFilename(t), "-" + t.id + ".md")
  {
  }

  lemma CoversIffDistinct(d: Dir, store: Json)
    requires store.Store? && FullyWritten(d, store) && Keyed(store)
    ensures Covers(d, store) <==> DistinctNames(store)
  {
    hide Live, NameOf, FullyWritten, IsCopy, Filled;
    if DistinctNames(store) {
      forall id | id in Live(store)
        ensures exists f :: f in d && IsCopy(d, f, id, OldCopy(store, id))
      {
        DistinctCopy(d, store, id);
        assert IsCopy(d, NameOf(store, id), id, OldCopy(store, id));
      }
    }
    if Covers(d, store) {
      forall a, b | a in Live(store) && b in Live(store) && NameOf(store, a) == NameOf(store, b)
        ensures a == b
      {
        OwnFile(d, store, a);
        OwnFile(d, store, b);
        KeyedId(store, a);
        KeyedId(store, b);
      }
    }
  }

  lemma KeyedId(store: Json, id: string)
    requires store.Store? && Keyed(store) && id in Live(store)
    ensures Filled(store, id).id == id && Filled(store, id).updatedAt == OldCopy(store, id)
  {
  }

  lemma DistinctCopy(d: Dir, store: Json, id: string)
    requires store.Store? && FullyWritten(d, store) && Keyed(store) && DistinctNames(store) && id in Live(store)
    ensures NameOf(store, id) in d && IsCopy(d, NameOf(store, id), id, OldCopy(store, id))
  {
    hide Live, NameOf, FullyWritten, HasSuffix, Filled, DistinctNames, Keyed, OldCopy;
    var f := NameOf(store, id);
    NamePresent(d, store, id);
    var owner := OwnerOf(d, store, f);
    SameName(store, owner, id);
    KeyedId(store, id);
    NamedAsMarkdown(store, id);
  }

  /** A covered ticket's copy can only be in the file named after it. */
  lemma OwnFile(d: Dir, store: Json, id: string)
    requires store.Store? && FullyWritten(d, store) && Keyed(store) && Covers(d, store) && id in Live(store)
    ensures NameOf(store, id) in d && d[NameOf(store, id)] == Markdown(Filled(store, id))
  {
    hide Live, NameOf, FullyWritten, HasSuffix, Filled, Keyed, OldCopy;
    var f :| f in d && IsCopy(d, f, id, OldCopy(store, id));
    var owner := OwnerOf(d, store, f);
    KeyedId(store, owner);
  }

  lemma WrittenNothing(store: Json)
    requires store.Store?
    ensures Written(map[], store, {})
  {
  }

  /** Writing one more file, over an older one of the same name if there is one. */
  lemma WrittenMore(d: Dir, store: Json, ids: set<string>, id: string)
    requires store.Store? && ids <= Live(store) && Written(d, store, ids)
    requires id in Live(store) && Filled(store, id).survives
    ensures Written(d[NameOf(store, id) := Markdown(Filled(store, id))], store, ids + {id})
  {
    hide Live, NameOf, Filled;
    var d' := d[NameOf(store, id) := Markdown(Filled(store, id))];
    forall f | f in d' ensures exists i :: i in ids + {id} && IsFileOf(d', f, store, i) {
      if f == NameOf(store, id) {
        assert IsFileOf(d', f, store, id);
      } else {
        var i :| i in ids && IsFileOf(d, f, store, i);
        assert IsFileOf(d', f, store, i);
      }
    }
  }
}
