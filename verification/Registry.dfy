/** The daemon's copy-on-write session registry (internal/daemon/registry.go). */
module Registry {
  import opened Wrappers

  /** A session as the registry sees it; `ptr` is its identity in memory. */
  datatype Session = Session(ptr: nat, id: string, ticketID: string)

  type Reg = map<string, Session>

  function Lookup(m: Reg, id: string): Option<Session> {
    if id in m then Some(m[id]) else None
  }

  predicate Registered(m: Reg, s: Session) {
    s.id in m && m[s.id] == s
  }

  predicate Owns(m: Reg, ticket: string, s: Session) {
    Registered(m, s) && s.ticketID == ticket
  }

  predicate Unowned(m: Reg, ticket: string) {
    forall id :: id in m ==> m[id].ticketID != ticket
  }

  /** Every entry is stored under its session's id. */
  predicate Keyed(m: Reg) {
    forall id :: id in m ==> m[id].id == id
  }

  function Without(m: Reg, id: string): Reg {
    map k | k in m && k != id :: m[k]
  }

  function WithoutExactly(m: Reg, id: string, want: Session): Reg {
    if id in m && m[id] == want then Without(m, id) else m
  }

  /** One published map. Once a reader can see it, it is never written again. */
  class MapCell {
    var m: Reg

    constructor (m: Reg)
      ensures this.m == m
    {
      this.m := m;
    }
  }

  class SessionRegistry {
    var v: MapCell

    ghost function Map(): Reg
      reads this, v
    {
      v.m
    }

    constructor ()
      ensures fresh(v) && Map() == map[]
    {
      v := new MapCell(map[]);
    }

    method Get(id: string) returns (s: Option<Session>)
      ensures s == if id in Map() then Some(Map()[id]) else None
    {
      var m := v.m;
      s := if id in m then Some(m[id]) else None;
    }

    /** Scans in map order; with several owners any of them may be returned. */
    method FindByTicket(ticketID: string) returns (s: Option<Session>)
      requires Keyed(Map())
      ensures s.None? <==> ticketID == "" || Unowned(Map(), ticketID)
      ensures s.Some? ==> Owns(Map(), ticketID, s.value)
    {
      if ticketID == "" {
        return None;
      }
      s := ScanFor(v.m, ticketID);
    }

    /** Copies the current map into a cell of its own. */
    method CloneLocked() returns (next: MapCell)
      ensures fresh(next) && next.m == Map()
    {
      var cur := v.m;
      next := new MapCell(map[]);
      var rest := cur.Keys;
      while rest != {}
        invariant rest <= cur.Keys
        invariant next.m == map k | k in cur && k !in rest :: cur[k]
      {
        var k :| k in rest;
        next.m := next.m[k := cur[k]];
        rest := rest - {k};
      }
    }

    method Delete(id: string)
      modifies this
      ensures fresh(v) && Map() == Without(old(Map()), id)
    {
      var next := CloneLocked();
      next.m := Without(next.m, id);
      v := next;
    }

    /** Removes id only while it still names exactly this session. */
    method DeleteIf(id: string, want: Session) returns (deleted: bool)
      modifies this
      ensures deleted <==> id in old(Map()) && old(Map())[id] == want
      ensures Map() == WithoutExactly(old(Map()), id, want)
      ensures if deleted then fresh(v) else v == old(v)
    {
      var cur := v.m;
      if id !in cur || cur[id] != want {
        return false;
      }
      var next := CloneLocked();
      next.m := Without(next.m, id);
      v := next;
      return true;
    }

    /** Stores sess unless its ticket has an owner, who is then returned. */
    method StoreIfNoTicket(ticketID: string, id: string, sess: Session) returns (winner: Session, stored: bool)
      requires Keyed(Map())
      modifies this
      ensures stored <==> ticketID == "" || Unowned(old(Map()), ticketID)
      ensures stored ==> winner == sess && fresh(v) && Map() == old(Map())[id := sess]
      ensures !stored ==> Owns(old(Map()), ticketID, winner) && v == old(v) && Map() == old(Map())
    {
      if ticketID != "" {
        var existing := ScanFor(v.m, ticketID);
        if existing.Some? {
          return existing.value, false;
        }
      }
      var next := CloneLocked();
      next.m := next.m[id := sess];
      v := next;
      return sess, true;
    }

    /** Empties the registry and hands over what it held. */
    method Drain() returns (live: set<Session>)
      modifies this
      ensures live == old(Map()).Values
      ensures fresh(v) && Map() == map[]
    {
      var cur := v.m;
      live := {};
      var rest := cur.Keys;
      while rest != {}
        invariant rest <= cur.Keys
        invariant live == set k | k in cur && k !in rest :: cur[k]
      {
        var k :| k in rest;
        live, rest := live + {cur[k]}, rest - {k};
      }
      assert live == cur.Values;
      v := new MapCell(map[]);
    }
  }

  method ScanFor(m: Reg, ticketID: string) returns (s: Option<Session>)
    requires Keyed(m)
    ensures s.None? <==> Unowned(m, ticketID)
    ensures s.Some? ==> Owns(m, ticketID, s.value)
  {
    var rest := m.Keys;
    while rest != {}
      invariant rest <= m.Keys
      invariant forall k :: k in m && k !in rest ==> m[k].ticketID != ticketID
    {
      var k :| k in rest;
      if m[k].ticketID == ticketID {
        return Some(m[k]);
      }
      rest := rest - {k};
    }
    return None;
  }

  /** One call of a writer; a session is stored under its own id. */
  datatype Write = Put(sess: Session) | Remove(id: string) | RemoveIf(id: string, want: Session) | Empty

  function Applied(m: Reg, w: Write): Reg {
    match w
    case Put(s) => if s.ticketID == "" || Unowned(m, s.ticketID) then m[s.id := s] else m
    case Remove(id) => Without(m, id)
    case RemoveIf(id, want) => WithoutExactly(m, id, want)
    case Empty => map[]
  }

  function AllApplied(m: Reg, writes: seq<Write>): Reg {
    if writes == [] then m else Applied(AllApplied(m, writes[..|writes| - 1]), writes[|writes| - 1])
  }

  /** Readers are never disturbed: whatever writes follow, a map taken before them
      still reads the same, and the registry holds what the writes make of it. */
  method SnapshotOutlivesWrites(r: SessionRegistry, writes: seq<Write>) returns (before: MapCell)
    requires Keyed(r.Map())
    modifies r
    ensures before == old(r.v) && before.m == old(r.v.m)
    ensures r.Map() == AllApplied(old(r.Map()), writes) && Keyed(r.Map())
  {
    before := r.v;
    ghost var start := r.Map();
    for i := 0 to |writes|
      invariant before == old(r.v) && before.m == old(r.v.m)
      invariant Keyed(r.Map()) && r.Map() == AllApplied(start, writes[..i])
    {
      assert writes[..i + 1][..i] == writes[..i];
      match writes[i]
      case Put(s) => var _, _ := r.StoreIfNoTicket(s.ticketID, s.id, s);
      case Remove(id) => r.Delete(id);
      case RemoveIf(id, want) => var _ := r.DeleteIf(id, want);
      case Empty => var _ := r.Drain();
    }
    assert writes[..|writes|] == writes;
  }
}
