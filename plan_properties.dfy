/** What a run of the script does, stated about the functions of module Plan:
    which issues get opened, what each migrated issue receives, what a
    dry-run leaves out, and how the paging loops walk the feeds. */
module PlanProperties {
  import opened Records
  import opened Translation
  import opened ClosedStatus
  import opened Effects
  import opened Plan

  // ------------------------------------------------ issues opened

  lemma CommentWriteOpensNothing(dryRun: bool, githubIssue: Option<nat>, c: Comment)
    requires !dryRun ==> githubIssue.Some?
    ensures Opens(CommentWrite(dryRun, githubIssue, c).events) == 0
  {
    var events := CommentWrite(dryRun, githubIssue, c).events;
    if events != [] {
      OpensOfOne(events[0]);
    }
  }

  lemma {:induction false} PageCommentsOpenNothing(dryRun: bool, githubIssue: Option<nat>, comments: seq<Comment>)
    requires !dryRun ==> githubIssue.Some?
    ensures Opens(PageComments(dryRun, githubIssue, comments).events) == 0
  {
    if comments != [] {
      var write := CommentWrite(dryRun, githubIssue, comments[0]);
      CommentWriteOpensNothing(dryRun, githubIssue, comments[0]);
      if write.failure.None? {
        var rest := PageComments(dryRun, githubIssue, comments[1..]);
        PageCommentsOpenNothing(dryRun, githubIssue, comments[1..]);
        OpensOfOne(Print(Dot));
        OpensAppend([Print(Dot)], rest.events);
        OpensAppend(write.events, [Print(Dot)] + rest.events);
      }
    }
  }

  lemma CommentPageOpensNothing(dryRun: bool, githubIssue: Option<nat>, id: string, pages: seq<seq<Comment>>, k: nat)
    requires !dryRun ==> githubIssue.Some?
    ensures Opens(CommentPage(dryRun, githubIssue, id, pages, k).events) == 0
  {
    hide PageComments;
    var fetch := [Fetch(CommentsPage(id, StartIndex(k), GoogleMaxResults))];
    OpensOfOne(fetch[0]);
    var comments := Kept(PageAt(pages, k));
    if comments != [] {
      var heading: seq<Event> := if StartIndex(k) == 1 then [Print(AddingComments)] else [];
      if heading != [] {
        OpensOfOne(heading[0]);
      }
      PageCommentsOpenNothing(dryRun, githubIssue, comments);
      OpensAppend(fetch, heading);
      OpensAppend(fetch + heading, PageComments(dryRun, githubIssue, comments).events);
    }
  }

  lemma {:induction false} CommentLoopOpensNothing(dryRun: bool, githubIssue: Option<nat>, id: string, pages: seq<seq<Comment>>, k: nat)
    requires !dryRun ==> githubIssue.Some?
    ensures Opens(CommentLoop(dryRun, githubIssue, id, pages, k).events) == 0
    decreases |pages| - k
  {
    hide CommentPage;
    var step := CommentPage(dryRun, githubIssue, id, pages, k);
    CommentPageOpensNothing(dryRun, githubIssue, id, pages, k);
    if Kept(PageAt(pages, k)) != [] && step.failure.None? {
      CommentLoopOpensNothing(dryRun, githubIssue, id, pages, k + 1);
      OpensAppend(step.events, CommentLoop(dryRun, githubIssue, id, pages, k + 1).events);
    }
  }

  lemma {:induction false} LabelStepsOpenNothing(dryRun: bool, githubIssue: Option<nat>, labels: seq<string>)
    requires !dryRun ==> githubIssue.Some?
    ensures Opens(LabelSteps(dryRun, githubIssue, labels)) == 0
  {
    if labels != [] {
      var write: seq<Event> := if dryRun then [] else [Write(AddLabel(githubIssue.value, labels[0]))];
      LabelStepsOpenNothing(dryRun, githubIssue, labels[1..]);
      if write != [] {
        OpensOfOne(write[0]);
      }
      OpensOfOne(Print(Dot));
      OpensAppend(write, [Print(Dot)]);
      OpensAppend(write + [Print(Dot)], LabelSteps(dryRun, githubIssue, labels[1..]));
    }
  }

  lemma OpeningOpens(dryRun: bool, n: NewIssue, number: nat)
    ensures Opens(Opening(dryRun, n, number)) == if dryRun then 0 else 1
  {
    var progress := Print(AddingIssue + n.id);
    OpensOfOne(progress);
    if !dryRun {
      var open := Write(Open(number, n.title, n.body));
      var imported := Write(AddLabel(number, ImportedLabel));
      OpensOfOne(open);
      OpensOfOne(imported);
      OpensAppend([open], [imported]);
      assert [open, imported] == [open] + [imported];
      OpensAppend([progress], [open, imported]);
    } else {
      assert Opening(dryRun, n, number) == [progress];
    }
  }

  lemma LabelSectionOpensNothing(dryRun: bool, githubIssue: Option<nat>, labels: seq<string>)
    requires !dryRun ==> githubIssue.Some?
    ensures Opens(LabelSection(dryRun, githubIssue, labels)) == 0
  {
    if |labels| > 0 {
      LabelStepsOpenNothing(dryRun, githubIssue, labels);
      OpensOfOne(Print(AddingLabels));
      OpensAppend([Print(AddingLabels)], LabelSteps(dryRun, githubIssue, labels));
    }
  }

  /** `add_issue_to_github` opens one issue on the destination, unless it is
      a dry-run or the issue fails to translate before anything is written. */
  lemma IssueRunOpens(dryRun: bool, t: Tracker, issue: Issue, number: nat)
    ensures Opens(IssueRun(dryRun, t, issue, number).events) == if !dryRun && TranslateIssue(issue).Ok? then 1 else 0
  {
    hide CommentLoop, LabelSection;
    match TranslateIssue(issue)
    case Err(_) =>
    case Ok(n) =>
      var githubIssue := if dryRun then None else Some(number);
      var opening := Opening(dryRun, n, number);
      OpeningOpens(dryRun, n, number);
      match issue.status
      case None =>
      case Some(status) =>
        var closing := Closing(dryRun, status, number);
        if closing != [] {
          OpensOfOne(closing[0]);
        }
        var labels := LabelSection(dryRun, githubIssue, issue.labels);
        LabelSectionOpensNothing(dryRun, githubIssue, issue.labels);
        var comments := CommentLoop(dryRun, githubIssue, n.id, CommentPages(t, n.id), 0);
        CommentLoopOpensNothing(dryRun, githubIssue, n.id, CommentPages(t, n.id), 0);
        OpensOfOne(Print(Newline));
        OpensAppend(opening, closing);
        OpensAppend(opening + closing, labels);
        OpensAppend(comments.events, [Print(Newline)]);
        OpensAppend(opening + closing + labels, comments.events);
        OpensAppend(opening + closing + labels, comments.events + [Print(Newline)]);
  }

  /** An issue that went through was translated. */
  lemma IssueRunTranslates(dryRun: bool, t: Tracker, issue: Issue, number: nat)
    ensures IssueRun(dryRun, t, issue, number).failure.None? ==> TranslateIssue(issue).Ok?
  {
  }

  lemma {:induction false} RunsOpen(dryRun: bool, t: Tracker, issues: seq<Issue>, number: nat, i: nat)
    requires i <= |issues|
    requires Chain(IssueRuns(dryRun, t, issues, number)[i..]).failure.None?
    ensures Opens(Chain(IssueRuns(dryRun, t, issues, number)[i..]).events) == Created(dryRun, |issues| - i)
    decreases |issues| - i
  {
    hide IssueRun;
    var runs := IssueRuns(dryRun, t, issues, number);
    if i == |issues| {
      assert runs[i..] == [];
    } else {
      ChainStep(runs, i);
      IssueRunOpens(dryRun, t, issues[i], number + Created(dryRun, i));
      IssueRunTranslates(dryRun, t, issues[i], number + Created(dryRun, i));
      RunsOpen(dryRun, t, issues, number, i + 1);
      OpensAppend(runs[i].events, Chain(runs[i + 1..]).events);
    }
  }

  /** A page whose issues all went through opens one destination issue per
      source issue (none in a dry-run). */
  lemma PageIssuesOpens(dryRun: bool, t: Tracker, issues: seq<Issue>, number: nat)
    requires PageIssues(dryRun, t, issues, number).failure.None?
    ensures Opens(PageIssues(dryRun, t, issues, number).events) == Created(dryRun, |issues|)
  {
    var runs := IssueRuns(dryRun, t, issues, number);
    assert runs[0..] == runs;
    RunsOpen(dryRun, t, issues, number, 0);
  }
}
