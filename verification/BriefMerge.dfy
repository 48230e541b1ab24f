/** Writing a ticket's brief into its worktree (internal/agent/brief.go). */
module BriefMerge {
  import opened Text
  import opened Template
  import opened Brief
  import opened BriefLaws
  import opened Wrappers

  datatype Ticket = Ticket(title: string, description: string, branchName: string)
  datatype File = Absent | Present(text: string) | Unreadable

  /** The step of the write that fails. */
  datatype Fault = NoFault | AtMkdir | AtCreate | AtWrite | AtClose | AtChmod | AtRename

  /** What PreviewBriefMerge returns. */
  datatype Preview = Preview(relPath: string, hasBrief: bool, wouldChange: bool, content: string, readError: bool)

  const NONE := Preview("", false, false, "", false)

  function BranchSlug(branchName: string): string {
    if HasPrefix(branchName, "task/") then branchName[5..] else branchName
  }

  /** The slug is the branch name, without a task/ in front. */
  lemma SlugOfBranch(name: string)
    ensures BranchSlug("task/" + name) == name
    ensures !HasPrefix(name, "task/") ==> BranchSlug(name) == name
  {
    assert ("task/" + name)[..5] == "task/";
  }

  function RelPath(t: Ticket): string {
    "tickets/" + BranchSlug(t.branchName) + ".md"
  }

  /** The file after a merge that succeeds. */
  function Merged(wide: char -> bool, file: File, t: Ticket): File {
    var desc := TrimSpace(t.description);
    match file
    case Unreadable => Unreadable
    case Absent => if desc == "" then Absent else Present(Initial(t.title, desc))
    case Present(text) => if desc == "" then file else Present(Upsert(wide, text, desc))
  }

  method InitialBriefContent(title: string, desc: string) returns (text: string)
    ensures text == Initial(title, desc)
  {
    hide TrimSpace, Start, End, Middle;
    text := "";
    var t := TrimSpace(title);
    if t != "" {
      text := text + "# ";
      text := text + t;
      text := text + "\n\n";
    }
    assert text == Heading(title);
    ghost var heading := text;
    text := text + Start();
    text := text + Middle();
    text := text + desc;
    text := text + "\n";
    text := text + End();
    assert text == heading + Block(desc);
    text := text + "\n";
  }

  /** A worktree's brief files; the temporary ones have no fixed name. */
  class Worktree {
    const wide: char -> bool
    const path: string
    var briefs: map<string, string>
    var unreadable: set<string>
    var temps: nat

    constructor (wide: char -> bool, path: string)
      ensures this.wide == wide && this.path == path && briefs == map[] && unreadable == {} && temps == 0
    {
      this.wide, this.path, briefs, unreadable, temps := wide, path, map[], {}, 0;
    }

    function FileAt(relPath: string): File
      reads this
    {
      if relPath in unreadable then Unreadable
      else if relPath in briefs then Present(briefs[relPath])
      else Absent
    }

    /** Says what a merge would write, and whether that differs from the file. */
    method PreviewBriefMerge(ticket: Option<Ticket>) returns (p: Preview)
      ensures ticket.None? || path == "" || BranchSlug(ticket.value.branchName) == "" ==> p == NONE
      ensures ticket.Some? && path != "" && BranchSlug(ticket.value.branchName) != "" ==>
        var rel := RelPath(ticket.value);
        var before, after := FileAt(rel), Merged(wide, FileAt(rel), ticket.value);
        && p.readError == before.Unreadable?
        && (p.wouldChange <==> after != before)
        && (p.hasBrief <==> after.Present?)
        && (after.Present? ==> p.content == after.text)
        && p.relPath == (if after.Absent? then "" else rel)
      ensures ticket.Some? && path != "" && BranchSlug(ticket.value.branchName) != "" ==>
        var desc, title := TrimSpace(ticket.value.description), ticket.value.title;
        var rel := "tickets/" + BranchSlug(ticket.value.branchName) + ".md";
        if rel in unreadable then p == Preview(rel, false, false, "", true)
        else if rel !in briefs then
          p == if desc == "" then NONE else Preview(rel, true, true, Heading(title) + Block(desc) + "\n", false)
        else
          var text := briefs[rel];
          p.hasBrief && !p.readError && p.relPath == rel &&
            if desc == "" then !p.wouldChange && p.content == text
            else if Matches(text) then p.content == ReplaceAll(wide, text, desc)
            else p.wouldChange && p.content == text + Separator(text) + Block(desc) + "\n"
    {
      hide TrimSpace, Block, Heading, Matches, ReplaceAll, Separator;
      if path == "" || ticket.None? {
        return NONE;
      }
      var t := ticket.value;
      if BranchSlug(t.branchName) == "" {
        return NONE;
      }
      var rel := RelPath(t);
      var desc := TrimSpace(t.description);
      match FileAt(rel)
      case Unreadable =>
        p := Preview(rel, false, false, "", true);
      case Absent =>
        if desc == "" {
          return NONE;
        }
        var content := InitialBriefContent(t.title, desc);
        p := Preview(rel, true, true, content, false);
      case Present(text) =>
        if desc == "" {
          return Preview(rel, true, false, text, false);
        }
        var updated := Upsert(wide, text, desc);
        p := Preview(rel, true, updated != text, updated, false);
    }

    /** Writes through a temporary file. Any step may fail; then the brief is as it
        was and no temporary file is left. */
    method MergeTicketBrief(ticket: Option<Ticket>, failing: Fault) returns (ok: bool)
      modifies this`briefs, this`temps
      ensures temps == old(temps)
      ensures ticket.None? || path == "" || BranchSlug(ticket.value.branchName) == "" ==> ok && briefs == old(briefs)
      ensures ticket.Some? && path != "" && BranchSlug(ticket.value.branchName) != "" ==>
        var rel := RelPath(ticket.value);
        var before, after := old(FileAt(rel)), Merged(wide, old(FileAt(rel)), ticket.value);
        && (ok <==> !before.Unreadable? && (after == before || failing == NoFault))
        && briefs == if ok && after != before then old(briefs)[rel := after.text] else old(briefs)
      ensures !ok ==> briefs == old(briefs)
      ensures ticket.Some? && path != "" && BranchSlug(ticket.value.branchName) != "" ==>
        var desc, title := TrimSpace(ticket.value.description), ticket.value.title;
        var rel := "tickets/" + BranchSlug(ticket.value.branchName) + ".md";
        if rel in unreadable then !ok
        else if desc == "" then ok && briefs == old(briefs)
        else if rel !in old(briefs) then
          (ok <==> failing == NoFault) &&
            (ok ==> briefs == old(briefs)[rel := Heading(title) + Block(desc) + "\n"])
        else
          var text := old(briefs)[rel];
          if Matches(text) then
            (ok <==> failing == NoFault || ReplaceAll(wide, text, desc) == text) &&
              (ok ==> briefs == old(briefs)[rel := ReplaceAll(wide, text, desc)])
          else
            (ok <==> failing == NoFault) &&
              (ok ==> briefs == old(briefs)[rel := text + Separator(text) + Block(desc) + "\n"])
    {
      hide TrimSpace, BranchSlug, Block, Heading, Matches, ReplaceAll, Separator;
      var p := PreviewBriefMerge(ticket);
      if p.readError {
        return false;
      }
      if !p.wouldChange {
        return true;
      }
      if failing == AtMkdir || failing == AtCreate {
        return false;
      }
      temps := temps + 1;
      if failing == AtWrite || failing == AtClose || failing == AtChmod || failing == AtRename {
        temps := temps - 1;
        return false;
      }
      temps := temps - 1;
      briefs := briefs[p.relPath := p.content];
      return true;
    }
  }

  /** A second merge of the same ticket finds nothing to change exactly when its
      description settles in the file the first one found. */
  lemma SecondMergeIdleIff(wide: char -> bool, file: File, t: Ticket)
    requires TrimSpace(t.description) != "" && !file.Unreadable?
    ensures var once := Merged(wide, file, t);
            Merged(wide, once, t) == once <==>
              var desc := TrimSpace(t.description);
              match file
              case Present(text) => Settles(wide, text, desc)
              case Absent =>
                && AllFixed(wide, Heading(t.title), desc)
                && !Contains(AfterMatches(Heading(t.title)), Start())
                && Appendable(wide, desc)
  {
    hide TrimSpace, Upsert, Initial, Settles, AllFixed, AfterMatches, Heading, Appendable, Contains;
    var desc := TrimSpace(t.description);
    if file.Present? {
      TwiceIsOnceIff(wide, file.text, desc);
    } else {
      InitialSettlesIff(wide, t.title, desc);
    }
  }
}
