/** Tickets as Markdown files with YAML frontmatter (internal/project/ticket_md.go).
    Times are points on a line with Go's zero time at 0; a field that may be nil is
    an Option. */
module TicketMd {
  import opened Text
  import opened Wrappers

  type Time = int
  const ZERO_TIME: Time := 0

  datatype Ticket = Ticket(
    id: string, projectID: string, title: string, description: string, status: string, kind: string,
    useWorktree: bool, worktreePath: string, branchName: string, baseBranch: string,
    agentType: string, agentStatus: string, agentSpawnedAt: Option<Time>, agentPort: int,
    agentSessionID: string, createdBySession: string,
    createdAt: Time, updatedAt: Time, startedAt: Option<Time>, completedAt: Option<Time>,
    statusChangedAt: Option<Time>,
    labels: Option<seq<string>>, priority: int, meta: Option<map<string, string>>,
    blockedBy: Option<seq<string>>)

  /** ticketFrontmatter: everything but the description, and one dormant field. */
  datatype Frontmatter = Frontmatter(
    id: string, projectID: string, title: string, status: string, kind: string, priority: int,
    labels: Option<seq<string>>,
    createdAt: Time, updatedAt: Time, startedAt: Option<Time>, completedAt: Option<Time>,
    statusChangedAt: Option<Time>,
    useWorktree: bool, worktreePath: string, branchName: string, baseBranch: string,
    agentType: string, agentStatus: string, agentSpawnedAt: Option<Time>, agentPort: int,
    agentSessionID: string, sessionOwned: bool, createdBySession: string,
    blockedBy: Option<seq<string>>, meta: Option<map<string, string>>)

  datatype Error =
    | NilTicket | BadMarshal | NoOpening | NoClosing | BadYaml
    | EmptyID | EmptyTitle | BadStatus | BadAgentStatus | BadAgentType | BadType

  datatype Result<+T> = Ok(value: T) | Err(error: Error)

  const OPENING := "---\n"
  const CLOSING := "\n---\n"

  const STATUSES := {"backlog", "next", "in_progress", "in_review", "done", "archived"}
  const AGENT_STATUSES := {"none", "idle", "working", "waiting", "subagents", "completed", "error"}
  const AGENT_TYPES := {"", "claude", "claude-custom", "claude-lean", "claude-research", "claude-spec",
                        "claude-review", "opencode", "aider", "gemini", "codex"}
  const TYPES := {"", "research", "spec", "implement", "review", "freeform"}

  function Or<T>(o: Option<T>, default: T): T {
    if o.Some? then o.value else default
  }

  // ---- Ticket to frontmatter and back ----

  /** The dormant field is never set. */
  function ToFrontmatter(t: Ticket): (fm: Frontmatter)
    ensures !fm.sessionOwned
  {
    Frontmatter(
      t.id, t.projectID, t.title, t.status, t.kind, t.priority,
      Some(Or(t.labels, [])),
      t.createdAt, t.updatedAt, t.startedAt, t.completedAt, t.statusChangedAt,
      t.useWorktree, t.worktreePath, t.branchName, t.baseBranch,
      t.agentType, t.agentStatus, t.agentSpawnedAt, t.agentPort,
      t.agentSessionID, false, t.createdBySession,
      Some(Or(t.blockedBy, [])), Some(Or(t.meta, map[])))
  }

  function FromFrontmatter(fm: Frontmatter, body: string): Ticket {
    Ticket(
      fm.id, fm.projectID, fm.title, body, fm.status, fm.kind,
      fm.useWorktree, fm.worktreePath, fm.branchName, fm.baseBranch,
      fm.agentType, fm.agentStatus, fm.agentSpawnedAt, fm.agentPort,
      fm.agentSessionID, fm.createdBySession,
      fm.createdAt, fm.updatedAt, fm.startedAt, fm.completedAt, fm.statusChangedAt,
      Some(Or(fm.labels, [])), fm.priority, Some(Or(fm.meta, map[])),
      Some(Or(fm.blockedBy, [])))
  }

  /** The first check that fails, in the order they are made. */
  function Fault(fm: Frontmatter): Option<Error> {
    if TrimSpace(fm.id) == "" then Some(EmptyID)
    else if TrimSpace(fm.title) == "" then Some(EmptyTitle)
    else if fm.status != "" && fm.status !in STATUSES then Some(BadStatus)
    else if fm.agentStatus != "" && fm.agentStatus !in AGENT_STATUSES then Some(BadAgentStatus)
    else if fm.agentType !in AGENT_TYPES then Some(BadAgentType)
    else if fm.kind !in TYPES then Some(BadType)
    else None
  }

  function Backfilled(fm: Frontmatter, now: Time): Frontmatter {
    var updated := if fm.updatedAt == ZERO_TIME then now else fm.updatedAt;
    fm.(status := if fm.status == "" then "backlog" else fm.status,
        agentStatus := if fm.agentStatus == "" then "none" else fm.agentStatus,
        createdAt := if fm.createdAt == ZERO_TIME then now else fm.createdAt,
        updatedAt := updated,
        statusChangedAt := Some(Or(fm.statusChangedAt, updated)),
        priority := if fm.priority == 0 then 3 else fm.priority)
  }

  /** The frontmatter being parsed; validation fills its gaps in place. */
  class Cell {
    var fm: Frontmatter

    constructor (fm: Frontmatter)
      ensures this.fm == fm
    {
      this.fm := fm;
    }

    /** The backfills after the last check. */
    method FillTimes(now: Time)
      modifies this
      ensures fm == Backfilled(old(fm), now).(status := old(fm.status), agentStatus := old(fm.agentStatus))
    {
      if fm.createdAt == ZERO_TIME {
        fm := fm.(createdAt := now);
      }
      if fm.updatedAt == ZERO_TIME {
        fm := fm.(updatedAt := now);
      }
      if fm.statusChangedAt == None {
        fm := fm.(statusChangedAt := Some(fm.updatedAt));
      }
      if fm.priority == 0 {
        fm := fm.(priority := 3);
      }
    }

    /** A failed check leaves only the backfills made before it: the checks are of the
        id, the title, the status, the agent's status and type, and the kind. */
    method ValidateFrontmatter(now: Time) returns (fault: Option<Error>)
      modifies this
      ensures fault == Fault(old(fm))
      ensures TrimSpace(old(fm).id) == "" <==> fault == Some(EmptyID)
      ensures fault == Some(EmptyTitle) <==> TrimSpace(old(fm).id) != "" && TrimSpace(old(fm).title) == ""
      ensures fault in {None, Some(BadAgentStatus), Some(BadAgentType), Some(BadType)} <==>
        TrimSpace(old(fm).id) != "" && TrimSpace(old(fm).title) != "" && old(fm).status in STATUSES + {""}
      ensures fault in {None, Some(BadAgentType), Some(BadType)} <==>
        fault !in {Some(EmptyID), Some(EmptyTitle), Some(BadStatus)} && old(fm).agentStatus in AGENT_STATUSES + {""}
      ensures fault in {None, Some(BadType)} <==>
        fault !in {Some(EmptyID), Some(EmptyTitle), Some(BadStatus), Some(BadAgentStatus)} &&
          old(fm).agentType in AGENT_TYPES
      ensures fault == None ==> old(fm).kind in TYPES
      ensures fault == Some(BadType) ==> old(fm).kind !in TYPES
      ensures fault == None ==> fm == Backfilled(old(fm), now)
      ensures fault.Some? ==>
        fm == var full := Backfilled(old(fm), now);
              match fault.value
              case BadAgentStatus => old(fm).(status := full.status)
              case BadAgentType => old(fm).(status := full.status, agentStatus := full.agentStatus)
              case BadType => old(fm).(status := full.status, agentStatus := full.agentStatus)
              case _ => old(fm)
    {
      hide TrimSpace;
      if TrimSpace(fm.id) == "" {
        return Some(EmptyID);
      }
      if TrimSpace(fm.title) == "" {
        return Some(EmptyTitle);
      }
      if fm.status == "" {
        fm := fm.(status := "backlog");
      } else if fm.status !in STATUSES {
        return Some(BadStatus);
      }
      if fm.agentStatus == "" {
        fm := fm.(agentStatus := "none");
      } else if fm.agentStatus !in AGENT_STATUSES {
        return Some(BadAgentStatus);
      }
      if fm.agentType !in AGENT_TYPES {
        return Some(BadAgentType);
      }
      if fm.kind !in TYPES {
        return Some(BadType);
      }
      FillTimes(now);
      return None;
    }
  }

  // ---- Printing and parsing ----

  predicate IsNewline(c: char) {
    c == '\n'
  }

  function FileText(yml: string, description: string): string {
    OPENING + yml + "---\n\n" + TrimRight(description, IsNewline) + "\n"
  }

  /** The YAML text and the raw body of a file. */
  function Split(data: string): (r: Result<(string, string)>)
    ensures r.Ok? ==> r.value.0 != "" && data == OPENING + r.value.0 + CLOSING[1..] + r.value.1
  {
    if !HasPrefix(data, OPENING) then Err(NoOpening)
    else
      var rest := data[|OPENING|..];
      var end := Index(rest, CLOSING);
      if end.None? then Err(NoClosing)
      else
        var e := end.value;
        assert rest[e..e + |CLOSING|] == CLOSING;
        assert rest == rest[..e + 1] + CLOSING[1..] + rest[e + |CLOSING|..];
        assert data == OPENING + rest;
        Ok((rest[..e + 1], rest[e + |CLOSING|..]))
  }

  /** data begins with the fence, then yml up to the first closing fence, then body. */
  ghost predicate Parted(data: string, yml: string, body: string) {
    && yml != "" && yml[|yml| - 1] == '\n'
    && var rest := yml + ("---\n" + body);
       data == "---\n" + rest && forall i: nat :: i < |yml| - 1 ==> !At(rest, i, CLOSING)
  }

  lemma PartedSplits(data: string, yml: string, body: string)
    requires Parted(data, yml, body)
    ensures Split(data) == Ok((yml, body))
  {
    var rest, n := yml + ("---\n" + body), |yml| - 1;
    assert data[..4] == OPENING && data[4..] == rest;
    assert rest[n..n + 5] == [yml[n]] + "---\n";
    FirstIndex(rest, n);
    assert rest[..n + 1] == yml && rest[n + 5..] == body;
    hide Index, At;
  }

  lemma FirstIndex(s: string, n: nat)
    requires At(s, n, CLOSING) && forall i: nat :: i < n ==> !At(s, i, CLOSING)
    ensures Index(s, CLOSING) == Some(n)
  {
    hide IndexFrom, Index, At;
    var r := Index(s, CLOSING);
    assert r.Some?;
  }

  lemma SplitParts(data: string, yml: string, body: string)
    requires Split(data) == Ok((yml, body))
    ensures Parted(data, yml, body)
  {
    hide IndexFrom, Index;
    var rest := data[4..];
    var e := Index(rest, CLOSING).value;
    assert rest[e..e + 5] == CLOSING && rest[e] == CLOSING[0];
    assert rest == yml + ("---\n" + body);
    assert data == "---\n" + rest;
  }

  /** A file's parts are what stands between the opening fence and the first closing
      one, and what follows that; the errors say which of the fences is missing. */
  lemma SplitIff(data: string, yml: string, body: string)
    ensures Split(data) == Ok((yml, body)) <==> Parted(data, yml, body)
    ensures Split(data) == Err(NoOpening) <==> !HasPrefix(data, "---\n")
    ensures Split(data) == Err(NoClosing) <==>
      HasPrefix(data, "---\n") && forall i: nat :: !At(data[4..], i, "\n---\n")
    ensures Split(data).Err? ==> Split(data).error in {NoOpening, NoClosing}
  {
    if Parted(data, yml, body) {
      PartedSplits(data, yml, body);
    }
    if Split(data) == Ok((yml, body)) {
      SplitParts(data, yml, body);
    }
    hide IndexFrom, Index, At, Parted;
  }

  lemma SplitErrors(data: string)
    ensures !HasPrefix(data, "---\n") ==> Split(data) == Err(NoOpening)
    ensures HasPrefix(data, "---\n") && (forall i: nat :: !At(data[4..], i, "\n---\n")) ==>
              Split(data) == Err(NoClosing)
  {
    SplitIff(data, "", "");
  }

  /** In the file the description has no newlines at its end but one. */
  lemma FileTextIs(yml: string, text: string, newlines: string)
    requires All(newlines, IsNewline) && (text != "" ==> text[|text| - 1] != '\n')
    ensures FileText(yml, text + newlines) == "---\n" + yml + "---\n\n" + text + "\n"
  {
    TrimRightOf(text, newlines, IsNewline);
  }

  function Unmarshal(decode: string -> Option<Frontmatter>, data: string, now: Time): Result<Ticket> {
    var parts := Split(data);
    if parts.Err? then Err(parts.error)
    else
      var fm := decode(parts.value.0);
      if fm.None? then Err(BadYaml)
      else if Fault(fm.value).Some? then Err(Fault(fm.value).value)
      else Ok(FromFrontmatter(Backfilled(fm.value, now), Trim(parts.value.1, IsNewline)))
  }

  method MarshalTicket(encode: Frontmatter -> Option<string>, t: Option<Ticket>) returns (r: Result<string>)
    ensures t.None? ==> r == Err(NilTicket)
    ensures t.Some? && encode(ToFrontmatter(t.value)).None? ==> r == Err(BadMarshal)
    ensures t.Some? && encode(ToFrontmatter(t.value)).Some? ==>
      r == Ok(FileText(encode(ToFrontmatter(t.value)).value, t.value.description))
  {
    hide TrimRight;
    if t.None? {
      return Err(NilTicket);
    }
    var yml := encode(ToFrontmatter(t.value));
    if yml.None? {
      return Err(BadMarshal);
    }
    var body := TrimRight(t.value.description, IsNewline);
    var buf := OPENING;
    buf := buf + yml.value;
    buf := buf + "---\n\n";
    buf := buf + body;
    buf := buf + "\n";
    return Ok(buf);
  }

  method UnmarshalTicket(decode: string -> Option<Frontmatter>, data: string, now: Time) returns (r: Result<Ticket>)
    ensures r == Unmarshal(decode, data, now)
    ensures !HasPrefix(data, "---\n") ==> r == Err(NoOpening)
    ensures HasPrefix(data, "---\n") && (forall i: nat :: !At(data[4..], i, "\n---\n")) ==> r == Err(NoClosing)
    ensures forall yml, body :: Parted(data, yml, body) ==>
              match decode(yml)
              case None => r == Err(BadYaml)
              case Some(fm) => if Fault(fm).Some? then r == Err(Fault(fm).value)
                               else r.Ok? && r.value.description == Trim(body, IsNewline)
  {
    hide Trim, Index, IndexFrom, Parted, At, HasPrefix, Split, Fault;
    SplitErrors(data);
    forall yml, body ensures Parted(data, yml, body) ==> Split(data) == Ok((yml, body)) {
      SplitIff(data, yml, body);
    }
    var parts := Split(data);
    if parts.Err? {
      return Err(parts.error);
    }
    var fm := decode(parts.value.0);
    if fm.None? {
      return Err(BadYaml);
    }
    var cell := new Cell(fm.value);
    var fault := cell.ValidateFrontmatter(now);
    if fault.Some? {
      return Err(fault.value);
    }
    return Ok(FromFrontmatter(cell.fm, Trim(parts.value.1, IsNewline)));
  }

  // ---- Finding the fence ----

  /** No fence can begin inside a newline-terminated text and end after it, except
      at its very end. */
  lemma FenceStaysInside(yml: string, after: string, i: nat)
    requires yml != "" && yml[|yml| - 1] == '\n' && i < |yml| - 1
    ensures At(yml + after, i, CLOSING) <==> At(yml, i, CLOSING)
  {
    var s := yml + after;
    if i + 5 <= |yml| {
      assert s[i..i + 5] == yml[i..i + 5];
    } else {
      var k := |yml| - 1 - i;
      assert s[i + k] == '\n' && CLOSING[k] == '-';
      assert i + 5 <= |s| ==> s[i..i + 5][k] == s[i + k];
    }
  }

  /** The first fence after such a text is at its last newline, or inside it. */
  lemma FirstFence(yml: string, after: string)
    requires yml != "" && yml[|yml| - 1] == '\n' && At(after, 0, OPENING)
    ensures Index(yml + after, CLOSING).Some?
    ensures var e := Index(yml + after, CLOSING).value;
            e < |yml| && (e == |yml| - 1 <==> !Contains(yml, CLOSING))
  {
    hide IndexFrom;
    var rest, n := yml + after, |yml| - 1;
    assert rest[n..n + 5] == [rest[n]] + rest[n + 1..n + 5];
    assert rest[n + 1..n + 5] == after[..4];
    assert At(rest, n, CLOSING);
    hide At;
    var e := Index(rest, CLOSING).value;
    if e < n {
      FenceStaysInside(yml, after, e);
      assert Contains(yml, CLOSING);
    } else if Contains(yml, CLOSING) {
      var i :| 0 <= i <= |yml| && At(yml, i, CLOSING);
      AtFits(yml, i, CLOSING);
      FenceStaysInside(yml, after, i);
    }
  }

  lemma AtFits(s: string, i: nat, sub: string)
    requires At(s, i, sub)
    ensures i + |sub| <= |s|
  {
  }

  lemma FileParts(yml: string, description: string)
    ensures var after := "---\n\n" + TrimRight(description, IsNewline) + "\n";
            var data := FileText(yml, description);
            data == OPENING + (yml + after) && HasPrefix(data, OPENING) && data[4..] == yml + after
  {
    hide TrimRight;
  }

  /** For YAML text that ends in a newline, reading the file finds exactly that text
      if and only if the text holds no fence line; the description may hold any. */
  lemma SplitFindsYamlIff(yml: string, description: string)
    requires yml != "" && yml[|yml| - 1] == '\n'
    ensures Split(FileText(yml, description)).Ok?
    ensures Split(FileText(yml, description)).value.0 == yml <==> !Contains(yml, CLOSING)
    ensures !Contains(yml, CLOSING) ==>
      Split(FileText(yml, description)).value.1 == "\n" + TrimRight(description, IsNewline) + "\n"
  {
    var data, body := FileText(yml, description), TrimRight(description, IsNewline);
    var after := "---\n\n" + body + "\n";
    FileParts(yml, description);
    FirstFence(yml, after);
    SplitAt(data, yml + after);
    hide *;
    var e := Index(yml + after, CLOSING).value;
    if e == |yml| - 1 {
      assert (yml + after)[..e + 1] == yml;
      assert (yml + after)[e + 5..] == after[4..] == "\n" + body + "\n";
    } else {
      assert |(yml + after)[..e + 1]| < |yml|;
    }
  }

  lemma SplitAt(data: string, rest: string)
    requires HasPrefix(data, OPENING) && data[4..] == rest && Index(rest, CLOSING).Some?
    ensures var e := Index(rest, CLOSING).value;
            e + 5 <= |rest| && Split(data) == Ok((rest[..e + 1], rest[e + 5..]))
  {
    hide Index;
  }

  // ---- Round trips ----

  /** What the YAML library does for one frontmatter: it prints it as text that ends
      in a newline and holds no fence line, and reads that text back as it was. */
  ghost predicate Carries(encode: Frontmatter -> Option<string>, decode: string -> Option<Frontmatter>,
                          fm: Frontmatter) {
    && encode(fm).Some?
    && var yml := encode(fm).value;
       && yml != "" && yml[|yml| - 1] == '\n'
       && !Contains(yml, CLOSING)
       && decode(yml) == Some(fm)
  }

  predicate Loadable(t: Ticket) {
    && TrimSpace(t.id) != "" && TrimSpace(t.title) != ""
    && t.status in STATUSES + {""} && t.agentStatus in AGENT_STATUSES + {""}
    && t.agentType in AGENT_TYPES && t.kind in TYPES
  }

  /** A ticket as it comes back from disk: outer newlines gone from the description,
      nil collections empty, gaps backfilled, everything else as it was. */
  function Reloaded(t: Ticket, now: Time): Ticket {
    t.(description := Trim(t.description, IsNewline),
       labels := Some(Or(t.labels, [])),
       meta := Some(Or(t.meta, map[])),
       blockedBy := Some(Or(t.blockedBy, [])),
       status := if t.status == "" then "backlog" else t.status,
       agentStatus := if t.agentStatus == "" then "none" else t.agentStatus,
       createdAt := if t.createdAt == ZERO_TIME then now else t.createdAt,
       updatedAt := if t.updatedAt == ZERO_TIME then now else t.updatedAt,
       statusChangedAt := if t.statusChangedAt.Some? then t.statusChangedAt
                          else Some(if t.updatedAt == ZERO_TIME then now else t.updatedAt),
       priority := if t.priority == 0 then 3 else t.priority)
  }

  /** The file of a ticket reads back as that ticket, normalised; it is refused if
      and only if a field the ticket already had is not acceptable. */
  lemma RoundTrip(encode: Frontmatter -> Option<string>, decode: string -> Option<Frontmatter>, t: Ticket, now: Time)
    requires Carries(encode, decode, ToFrontmatter(t))
    ensures var r := Unmarshal(decode, FileText(encode(ToFrontmatter(t)).value, t.description), now);
            && (r.Ok? <==> Loadable(t))
            && (r.Ok? ==> r.value == Reloaded(t, now))
  {
    hide Trim, TrimRight, TrimSpace, Split, FileText;
    var yml := encode(ToFrontmatter(t)).value;
    SplitFindsYamlIff(yml, t.description);
    TrimSurvivesRewriting(t.description, IsNewline, "\n", "\n");
  }

  /** A second trip changes nothing, at whatever time it is made. */
  lemma SecondRoundTrip(encode: Frontmatter -> Option<string>, decode: string -> Option<Frontmatter>,
                        t: Ticket, now: Time, later: Time)
    requires Loadable(t) && now != ZERO_TIME
    requires Carries(encode, decode, ToFrontmatter(Reloaded(t, now)))
    ensures var u := Reloaded(t, now);
            Unmarshal(decode, FileText(encode(ToFrontmatter(u)).value, u.description), later) == Ok(u)
  {
    hide Trim, TrimRight, TrimSpace, Split, FileText, Unmarshal;
    var u := Reloaded(t, now);
    RoundTrip(encode, decode, u, later);
    TrimIdempotent(t.description, IsNewline);
  }

  /** Exactly the tickets without gaps and without outer newlines in their
      description come back unchanged. */
  lemma UnchangedIff(t: Ticket, now: Time)
    requires now != ZERO_TIME
    ensures Reloaded(t, now) == t <==>
      && Trimmed(t.description, IsNewline)
      && t.labels.Some? && t.meta.Some? && t.blockedBy.Some? && t.statusChangedAt.Some?
      && t.status != "" && t.agentStatus != "" && t.priority != 0
      && t.createdAt != ZERO_TIME && t.updatedAt != ZERO_TIME
  {
    hide Trim;
    var d := t.description;
    var a, b := TrimSplits(d, IsNewline);
    if Trimmed(d, IsNewline) {
      TrimOfPadded("", d, "", IsNewline);
      assert "" + d + "" == d;
    }
  }
}
