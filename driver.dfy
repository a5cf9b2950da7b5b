/** The script's own procedures, step by step, against a model of the two
    trackers and standard output. Each procedure is proved to leave exactly
    the log that module Plan describes. */
module Driver {
  import opened Records
  import opened Translation
  import opened ClosedStatus
  import opened Effects
  import opened Plan
  import opened PlanProperties

  /** The source tracker, the destination tracker and standard output, as the
      script sees them. Every call appends what it does to `log`; the
      destination numbers the issues it opens from `nextNumber` on. */
  class Services {
    const tracker: Tracker
    var log: seq<Event>
    var nextNumber: nat

    constructor (tracker: Tracker, firstNumber: nat)
      ensures this.tracker == tracker && log == [] && nextNumber == firstNumber
    {
      this.tracker := tracker;
      log := [];
      nextNumber := firstNumber;
    }

    /** `output(text)` */
    method Output(text: string)
      modifies this
      ensures log == old(log) + [Print(text)] && nextNumber == old(nextNumber)
    {
      log := log + [Print(text)];
    }

    /** `google.get_issues(...)`, returning the entries of the feed. */
    method GetIssues(startIndex: int, maxResults: int) returns (entries: seq<Issue>)
      modifies this
      ensures entries == Answer(tracker.issuePages, startIndex, maxResults)
      ensures log == old(log) + [Fetch(IssuesPage(startIndex, maxResults))] && nextNumber == old(nextNumber)
    {
      entries := Answer(tracker.issuePages, startIndex, maxResults);
      log := log + [Fetch(IssuesPage(startIndex, maxResults))];
    }

    /** `google.get_comments(...)`, returning the entries of the feed. */
    method GetComments(issueId: string, startIndex: int, maxResults: int) returns (entries: seq<Comment>)
      modifies this
      ensures entries == Answer(CommentPages(tracker, issueId), startIndex, maxResults)
      ensures log == old(log) + [Fetch(CommentsPage(issueId, startIndex, maxResults))] && nextNumber == old(nextNumber)
    {
      entries := Answer(CommentPages(tracker, issueId), startIndex, maxResults);
      log := log + [Fetch(CommentsPage(issueId, startIndex, maxResults))];
    }

    /** `github.issues.open(...)`, returning the new issue's number. */
    method Open(title: string, body: string) returns (number: nat)
      modifies this
      ensures number == old(nextNumber) && nextNumber == number + 1
      ensures log == old(log) + [Write(Effects.Open(number, title, body))]
    {
      number := nextNumber;
      nextNumber := nextNumber + 1;
      log := log + [Write(Effects.Open(number, title, body))];
    }

    /** `github.issues.add_label(...)` */
    method AddLabel(number: nat, name: string)
      modifies this
      ensures log == old(log) + [Write(Effects.AddLabel(number, name))] && nextNumber == old(nextNumber)
    {
      log := log + [Write(Effects.AddLabel(number, name))];
    }

    /** `github.issues.close(...)` */
    method Close(number: nat)
      modifies this
      ensures log == old(log) + [Write(Effects.Close(number))] && nextNumber == old(nextNumber)
    {
      log := log + [Write(Effects.Close(number))];
    }

    /** `github.issues.comment(...)` */
    method AddComment(number: nat, body: string)
      modifies this
      ensures log == old(log) + [Write(Effects.AddComment(number, body))] && nextNumber == old(nextNumber)
    {
      log := log + [Write(Effects.AddComment(number, body))];
    }
  }

  /** `add_comment_to_github` */
  method AddCommentToGithub(s: Services, dryRun: bool, comment: Comment, githubIssue: Option<nat>)
    returns (failure: Option<Error>)
    requires !dryRun ==> githubIssue.Some?
    modifies s
    ensures s.log == old(s.log) + CommentWrite(dryRun, githubIssue, comment).events
    ensures failure == CommentWrite(dryRun, githubIssue, comment).failure
    ensures s.nextNumber == old(s.nextNumber)
  {
    var id := ExtractId(comment.idText);
    if id.Err? {
      return Some(id.error);
    }
    if |comment.authors| == 0 {
      return Some(MissingAuthor);
    }
    var body := CommentBody(comment.authors[0], comment.date, comment.content);
    if !dryRun {
      s.AddComment(githubIssue.value, body);
    }
    return None;
  }

  lemma PageCommentsAt(dryRun: bool, githubIssue: Option<nat>, comments: seq<Comment>, j: nat)
    requires !dryRun ==> githubIssue.Some?
    requires j < |comments|
    ensures var write := CommentWrite(dryRun, githubIssue, comments[j]);
            write.failure.Some? ==> PageComments(dryRun, githubIssue, comments[j..]) == write
    ensures var write := CommentWrite(dryRun, githubIssue, comments[j]);
            var next := PageComments(dryRun, githubIssue, comments[j + 1..]);
            write.failure.None? ==>
              PageComments(dryRun, githubIssue, comments[j..]).events == write.events + [Print(Dot)] + next.events &&
              PageComments(dryRun, githubIssue, comments[j..]).failure == next.failure
  {
    assert comments[j..][1..] == comments[j + 1..];
  }

  /** The body of the comment loop of `add_issue_to_github`: the comments
      of one page, each added and followed by a dot. */
  method AddPageComments(s: Services, dryRun: bool, comments: seq<Comment>, githubIssue: Option<nat>)
    returns (failure: Option<Error>)
    requires !dryRun ==> githubIssue.Some?
    modifies s
    ensures s.log == old(s.log) + PageComments(dryRun, githubIssue, comments).events
    ensures failure == PageComments(dryRun, githubIssue, comments).failure
    ensures s.nextNumber == old(s.nextNumber)
  {
    hide CommentWrite;  // what a single comment writes plays no part here
    ghost var whole := PageComments(dryRun, githubIssue, comments);
    ghost var done: seq<Event> := [];
    var j := 0;
    assert comments[j..] == comments;
    assert whole.events == done + whole.events;
    while j < |comments|
      invariant 0 <= j <= |comments|
      invariant s.log == old(s.log) + done && s.nextNumber == old(s.nextNumber)
      invariant whole.events == done + PageComments(dryRun, githubIssue, comments[j..]).events
      invariant whole.failure == PageComments(dryRun, githubIssue, comments[j..]).failure
    {
      PageCommentsAt(dryRun, githubIssue, comments, j);
      ghost var write := CommentWrite(dryRun, githubIssue, comments[j]);
      ghost var next := PageComments(dryRun, githubIssue, comments[j + 1..]);
      failure := AddCommentToGithub(s, dryRun, comments[j], githubIssue);
      if failure.Some? {
        Assoc(old(s.log), done, write.events);
        return;
      }
      s.Output(Dot);
      Regroup(done, write.events, [Print(Dot)], next.events);
      Regroup(old(s.log), done, write.events, [Print(Dot)]);
      done := done + write.events + [Print(Dot)];
      j := j + 1;
    }
    assert comments[j..] == [];
    Assoc(done, [], []);
    return None;
  }

  /** The request of the comment loop of `add_issue_to_github` and the
      filter that drops the comments without content. */
  method FetchComments(s: Services, id: string, startIndex: int, ghost k: nat) returns (comments: seq<Comment>)
    requires startIndex == StartIndex(k)
    modifies s
    ensures comments == Kept(PageAt(CommentPages(s.tracker, id), k))
    ensures s.log == old(s.log) + [Fetch(CommentsPage(id, startIndex, GoogleMaxResults))]
    ensures s.nextNumber == old(s.nextNumber)
  {
    var entries := s.GetComments(id, startIndex, GoogleMaxResults);
    AnswerAt(CommentPages(s.tracker, id), k);
    comments := Kept(entries);
  }

  /** One pass of the comment loop of `add_issue_to_github`; `more` tells
      whether the loop goes on. */
  method AddCommentPage(s: Services, dryRun: bool, id: string, githubIssue: Option<nat>, startIndex: int, ghost k: nat)
    returns (more: bool, failure: Option<Error>)
    requires !dryRun ==> githubIssue.Some?
    requires startIndex == StartIndex(k)
    modifies s
    ensures more == (Kept(PageAt(CommentPages(s.tracker, id), k)) != [])
    ensures s.log == old(s.log) + CommentPage(dryRun, githubIssue, id, CommentPages(s.tracker, id), k).events
    ensures failure == CommentPage(dryRun, githubIssue, id, CommentPages(s.tracker, id), k).failure
    ensures s.nextNumber == old(s.nextNumber)
  {
    hide CommentWrite;  // what a single comment writes plays no part here
    var comments := FetchComments(s, id, startIndex, k);
    ghost var fetch := [Fetch(CommentsPage(id, startIndex, GoogleMaxResults))];
    if |comments| == 0 {
      return false, None;
    }
    ghost var heading: seq<Event> := [];
    if startIndex == 1 {
      s.Output(AddingComments);
      heading := [Print(AddingComments)];
    }
    Assoc(old(s.log), fetch, heading);
    ghost var page := PageComments(dryRun, githubIssue, comments);
    failure := AddPageComments(s, dryRun, comments, githubIssue);
    Assoc(old(s.log), fetch + heading, page.events);
    return true, failure;
  }

  /** The comment loop of `add_issue_to_github`. */
  method AddComments(s: Services, dryRun: bool, id: string, githubIssue: Option<nat>)
    returns (failure: Option<Error>)
    requires !dryRun ==> githubIssue.Some?
    modifies s
    ensures s.log == old(s.log) + CommentLoop(dryRun, githubIssue, id, CommentPages(s.tracker, id), 0).events
    ensures failure == CommentLoop(dryRun, githubIssue, id, CommentPages(s.tracker, id), 0).failure
    ensures s.nextNumber == old(s.nextNumber)
  {
    hide CommentWrite;  // what a single comment writes plays no part here
    ghost var pages := CommentPages(s.tracker, id);
    ghost var whole := CommentLoop(dryRun, githubIssue, id, pages, 0);
    ghost var done: seq<Event> := [];
    ghost var k: nat := 0;
    var startIndex := 1;
    var maxResults := GoogleMaxResults;
    assert whole.events == done + whole.events;
    while true
      invariant startIndex == StartIndex(k)
      invariant s.log == old(s.log) + done && s.nextNumber == old(s.nextNumber)
      invariant whole.events == done + CommentLoop(dryRun, githubIssue, id, pages, k).events
      invariant whole.failure == CommentLoop(dryRun, githubIssue, id, pages, k).failure
      decreases |pages| - k
    {
      ghost var step := CommentPage(dryRun, githubIssue, id, pages, k);
      ghost var rest := CommentLoop(dryRun, githubIssue, id, pages, k + 1);
      var more;
      more, failure := AddCommentPage(s, dryRun, id, githubIssue, startIndex, k);
      Assoc(old(s.log), done, step.events);
      if !more {
        done := done + step.events;
        break;
      }
      if failure.Some? {
        return;
      }
      Assoc(done, step.events, rest.events);
      done := done + step.events;
      startIndex := startIndex + maxResults;
      k := k + 1;
    }
    return None;
  }

  /** The label loop of `add_issue_to_github`. */
  method AddLabels(s: Services, dryRun: bool, githubIssue: Option<nat>, labels: seq<string>)
    requires !dryRun ==> githubIssue.Some?
    modifies s
    ensures s.log == old(s.log) + LabelSection(dryRun, githubIssue, labels)
    ensures s.nextNumber == old(s.nextNumber)
  {
    if |labels| == 0 {
      Assoc(s.log, [], []);
      return;
    }
    s.Output(AddingLabels);
    ghost var done: seq<Event> := [Print(AddingLabels)];
    var i := 0;
    assert LabelSection(dryRun, githubIssue, labels) == done + LabelSteps(dryRun, githubIssue, labels[i..]);
    while i < |labels|
      invariant 0 <= i <= |labels|
      invariant s.log == old(s.log) + done && s.nextNumber == old(s.nextNumber)
      invariant LabelSection(dryRun, githubIssue, labels) == done + LabelSteps(dryRun, githubIssue, labels[i..])
    {
      ghost var write: seq<Event> := [];
      if !dryRun {
        s.AddLabel(githubIssue.value, labels[i]);
        write := [Write(AddLabel(githubIssue.value, labels[i]))];
      }
      s.Output(Dot);
      assert labels[i..][1..] == labels[i + 1..];
      Regroup(done, write, [Print(Dot)], LabelSteps(dryRun, githubIssue, labels[i + 1..]));
      Regroup(old(s.log), done, write, [Print(Dot)]);
      done := done + write + [Print(Dot)];
      i := i + 1;
    }
    assert labels[i..] == [];
    Assoc(done, [], []);
  }

  /** The start of `add_issue_to_github`: the progress line, then the new
      issue and its "imported" label; `githubIssue` is the issue opened. */
  method OpenIssue(s: Services, dryRun: bool, n: NewIssue) returns (githubIssue: Option<nat>)
    modifies s
    ensures s.log == old(s.log) + Opening(dryRun, n, old(s.nextNumber))
    ensures githubIssue == if dryRun then None else Some(old(s.nextNumber))
    ensures s.nextNumber == old(s.nextNumber) + (if dryRun then 0 else 1)
  {
    s.Output(AddingIssue + n.id);
    githubIssue := None;
    if !dryRun {
      var created := s.Open(n.title, n.body);
      githubIssue := Some(created);
      s.AddLabel(created, ImportedLabel);
    }
  }

  /** The closed test of `add_issue_to_github`. */
  method CloseIfClosed(s: Services, dryRun: bool, status: string, githubIssue: Option<nat>)
    requires !dryRun ==> githubIssue.Some?
    modifies s
    ensures s.log == old(s.log) + Closing(dryRun, status, if dryRun then 0 else githubIssue.value)
    ensures s.nextNumber == old(s.nextNumber)
  {
    if IsClosed(status) {
      if !dryRun {
        s.Close(githubIssue.value);
      }
    }
    if !(IsClosed(status) && !dryRun) {
      Assoc(s.log, [], []);
    }
  }

  lemma IssueRunSteps(dryRun: bool, t: Tracker, issue: Issue, number: nat)
    requires TranslateIssue(issue).Ok? && issue.status.Some?
    ensures var n := TranslateIssue(issue).value;
            var githubIssue := if dryRun then None else Some(number);
            var head := Opening(dryRun, n, number) + Closing(dryRun, issue.status.value, number) + LabelSection(dryRun, githubIssue, issue.labels);
            var comments := CommentLoop(dryRun, githubIssue, n.id, CommentPages(t, n.id), 0);
            IssueRun(dryRun, t, issue, number)
            == if comments.failure.Some? then Outcome(head + comments.events, comments.failure)
               else Outcome(head + comments.events + [Print(Newline)], None)
  {
  }

  /** `add_issue_to_github` */
  method AddIssueToGithub(s: Services, dryRun: bool, issue: Issue) returns (failure: Option<Error>)
    modifies s
    ensures s.log == old(s.log) + IssueRun(dryRun, s.tracker, issue, old(s.nextNumber)).events
    ensures failure == IssueRun(dryRun, s.tracker, issue, old(s.nextNumber)).failure
    ensures s.nextNumber == old(s.nextNumber) + (if !dryRun && TranslateIssue(issue).Ok? then 1 else 0)
    ensures failure.None? ==> s.nextNumber == old(s.nextNumber) + Created(dryRun, 1)
  {
    hide CommentWrite;  // what a single comment writes plays no part here
    var translated := TranslateIssue(issue);
    if translated.Err? {
      Assoc(s.log, [], []);
      return Some(translated.error);
    }
    var n := translated.value;
    ghost var number := s.nextNumber;
    var githubIssue := OpenIssue(s, dryRun, n);
    if issue.status.None? {
      return Some(MissingStatus);
    }
    IssueRunSteps(dryRun, s.tracker, issue, number);
    ghost var opening := Opening(dryRun, n, number);
    ghost var closing := Closing(dryRun, issue.status.value, number);
    CloseIfClosed(s, dryRun, issue.status.value, githubIssue);
    Assoc(old(s.log), opening, closing);
    ghost var labels := LabelSection(dryRun, githubIssue, issue.labels);
    AddLabels(s, dryRun, githubIssue, issue.labels);
    Assoc(old(s.log), opening + closing, labels);
    ghost var head := opening + closing + labels;
    ghost var comments := CommentLoop(dryRun, githubIssue, n.id, CommentPages(s.tracker, n.id), 0);
    failure := AddComments(s, dryRun, n.id, githubIssue);
    Assoc(old(s.log), head, comments.events);
    if failure.Some? {
      return;
    }
    s.Output(Newline);
    Regroup(old(s.log), head, comments.events, [Print(Newline)]);
  }

  /** The issues before the i-th went through, logging `done` and opening
      one destination issue each (none in a dry run); the page's outcome is
      `done` followed by what the i-th issue on makes of the rest. */
  ghost predicate PageSoFar(dryRun: bool, t: Tracker, issues: seq<Issue>, number: nat, i: nat, done: seq<Event>)
    requires i <= |issues|
  {
    var runs := IssueRuns(dryRun, t, issues, number);
    var page := PageIssues(dryRun, t, issues, number);
    && Opens(done) == Created(dryRun, i)
    && page.events == done + Chain(runs[i..]).events
    && page.failure == Chain(runs[i..]).failure
  }

  lemma PageStart(dryRun: bool, t: Tracker, issues: seq<Issue>, number: nat)
    ensures PageSoFar(dryRun, t, issues, number, 0, [])
  {
    assert IssueRuns(dryRun, t, issues, number)[0..] == IssueRuns(dryRun, t, issues, number);
  }

  lemma PageEnd(dryRun: bool, t: Tracker, issues: seq<Issue>, number: nat, done: seq<Event>)
    requires PageSoFar(dryRun, t, issues, number, |issues|, done)
    ensures PageIssues(dryRun, t, issues, number) == Done(done)
    ensures Opens(done) == Created(dryRun, |issues|)
  {
    assert IssueRuns(dryRun, t, issues, number)[|issues|..] == [];
    Assoc(done, [], []);
  }

  /** The i-th issue of a page, run with the number after those of the
      issues before it: if it raises, the page ends with its exception;
      otherwise the page goes on from the next issue. */
  lemma IssueStep(dryRun: bool, t: Tracker, issues: seq<Issue>, number: nat, i: nat, done: seq<Event>)
    requires i < |issues| && PageSoFar(dryRun, t, issues, number, i, done)
    ensures var run := IssueRun(dryRun, t, issues[i], number + Created(dryRun, i));
            var page := PageIssues(dryRun, t, issues, number);
            && IssueRuns(dryRun, t, issues, number)[i] == run
            && Opens(done + run.events) == Opens(done) + (if !dryRun && TranslateIssue(issues[i]).Ok? then 1 else 0)
            && (run.failure.Some? ==> page == Outcome(done + run.events, run.failure))
            && (run.failure.None? ==> PageSoFar(dryRun, t, issues, number, i + 1, done + run.events))
  {
    var runs := IssueRuns(dryRun, t, issues, number);
    var run := runs[i];
    ChainStep(runs, i);
    IssueRunOpens(dryRun, t, issues[i], number + Created(dryRun, i));
    OpensAppend(done, run.events);
    if run.failure.None? {
      Assoc(done, run.events, Chain(runs[i + 1..]).events);
    }
  }

  /** The issue loop of `process_issues` over one page of the feed. */
  method ProcessPage(s: Services, dryRun: bool, issues: seq<Issue>) returns (failure: Option<Error>)
    modifies s
    ensures s.log == old(s.log) + PageIssues(dryRun, s.tracker, issues, old(s.nextNumber)).events
    ensures failure == PageIssues(dryRun, s.tracker, issues, old(s.nextNumber)).failure
    ensures s.nextNumber == old(s.nextNumber) + Opens(PageIssues(dryRun, s.tracker, issues, old(s.nextNumber)).events)
    ensures failure.None? ==> s.nextNumber == old(s.nextNumber) + Created(dryRun, |issues|)
  {
    hide IssueRun, PageIssues, Chain, Opens;  // one issue at a time, as IssueStep states it
    ghost var runs := IssueRuns(dryRun, s.tracker, issues, s.nextNumber);
    ghost var done: seq<Event> := [];
    var i := 0;
    PageStart(dryRun, s.tracker, issues, s.nextNumber);
    while i < |issues|
      invariant 0 <= i <= |issues|
      invariant s.log == old(s.log) + done
      invariant s.nextNumber == old(s.nextNumber) + Created(dryRun, i)
      invariant PageSoFar(dryRun, s.tracker, issues, old(s.nextNumber), i, done)
    {
      IssueStep(dryRun, s.tracker, issues, old(s.nextNumber), i, done);
      failure := AddIssueToGithub(s, dryRun, issues[i]);
      Assoc(old(s.log), done, runs[i].events);
      if failure.Some? {
        return;
      }
      done := done + runs[i].events;
      i := i + 1;
    }
    PageEnd(dryRun, s.tracker, issues, old(s.nextNumber), done);
    return None;
  }

  /** One pass of the loop of `process_issues`: `more` tells whether the
      page held issues, so that the loop goes on. */
  method ProcessIssuePage(s: Services, dryRun: bool, startIndex: int, ghost k: nat) returns (more: bool, failure: Option<Error>)
    requires startIndex == StartIndex(k)
    modifies s
    ensures s.log == old(s.log) + IssuePage(dryRun, s.tracker, old(s.nextNumber), k).events
    ensures failure == IssuePage(dryRun, s.tracker, old(s.nextNumber), k).failure
    ensures more <==> PageAt(s.tracker.issuePages, k) != []
    ensures s.nextNumber == old(s.nextNumber) + Opens(IssuePage(dryRun, s.tracker, old(s.nextNumber), k).events)
    ensures failure.None? ==> s.nextNumber == old(s.nextNumber) + Created(dryRun, |PageAt(s.tracker.issuePages, k)|)
  {
    hide IssueRun;  // what a single issue writes plays no part here
    ghost var fetch := [Fetch(IssuesPage(startIndex, GoogleMaxResults))];
    var issues := s.GetIssues(startIndex, GoogleMaxResults);
    AnswerAt(s.tracker.issuePages, k);
    OpensOfOne(fetch[0]);
    if |issues| == 0 {
      return false, None;
    }
    ghost var page := PageIssues(dryRun, s.tracker, issues, old(s.nextNumber));
    failure := ProcessPage(s, dryRun, issues);
    Assoc(old(s.log), fetch, page.events);
    OpensAppend(fetch, page.events);
    return true, failure;
  }

  lemma IssueLoopStep(dryRun: bool, t: Tracker, number: nat, k: nat)
    ensures var step := IssuePage(dryRun, t, number, k);
            var issues := PageAt(t.issuePages, k);
            issues == [] || step.failure.Some? ==> IssueLoop(dryRun, t, number, k) == step
    ensures var step := IssuePage(dryRun, t, number, k);
            var issues := PageAt(t.issuePages, k);
            var rest := IssueLoop(dryRun, t, number + Created(dryRun, |issues|), k + 1);
            issues != [] && step.failure.None? ==>
              IssueLoop(dryRun, t, number, k) == Outcome(step.events + rest.events, rest.failure)
  {
  }

  /** The first k passes of the paging loop went through, logging `done`,
      and the destination's numbering has advanced from `first` to `number`
      by the issues they opened; the run's outcome is `done` followed by
      what the loop makes of the pages from the k-th on. */
  ghost predicate RunSoFar(dryRun: bool, t: Tracker, first: nat, number: nat, k: nat, done: seq<Event>)
  {
    var run := Migration(dryRun, t, first);
    var rest := IssueLoop(dryRun, t, number, k);
    && number == first + Opens(done)
    && run.events == done + rest.events
    && run.failure == rest.failure
  }

  lemma RunStart(dryRun: bool, t: Tracker, first: nat)
    ensures RunSoFar(dryRun, t, first, first, 0, [])
  {
  }

  /** The k-th pass of the paging loop: if its page is empty or raises, the
      run ends with it; otherwise the run goes on from the next page, with
      the numbering advanced by the issues the pass opened. */
  lemma PassStep(dryRun: bool, t: Tracker, first: nat, number: nat, k: nat, done: seq<Event>)
    requires RunSoFar(dryRun, t, first, number, k, done)
    ensures var step := IssuePage(dryRun, t, number, k);
            var issues := PageAt(t.issuePages, k);
            && first + Opens(done + step.events) == number + Opens(step.events)
            && (issues == [] || step.failure.Some? ==> Migration(dryRun, t, first) == Outcome(done + step.events, step.failure))
            && (issues != [] && step.failure.None? ==>
                  k < |t.issuePages|
                  && RunSoFar(dryRun, t, first, number + Created(dryRun, |issues|), k + 1, done + step.events))
  {
    hide IssueRun, IssueLoop, Migration, PageIssues, Opens;
    var step := IssuePage(dryRun, t, number, k);
    var issues := PageAt(t.issuePages, k);
    IssueLoopStep(dryRun, t, number, k);
    OpensAppend(done, step.events);
    if issues != [] && step.failure.None? {
      var rest := IssueLoop(dryRun, t, number + Created(dryRun, |issues|), k + 1);
      var fetch := [Fetch(IssuesPage(StartIndex(k), GoogleMaxResults))];
      PageIssuesOpens(dryRun, t, issues, number);
      OpensOfOne(fetch[0]);
      OpensAppend(fetch, PageIssues(dryRun, t, issues, number).events);
      Assoc(done, step.events, rest.events);
    }
  }

  /** `process_issues`: the whole run. */
  method ProcessIssues(s: Services, dryRun: bool) returns (failure: Option<Error>)
    modifies s
    ensures s.log == old(s.log) + Migration(dryRun, s.tracker, old(s.nextNumber)).events
    ensures failure == Migration(dryRun, s.tracker, old(s.nextNumber)).failure
    ensures s.nextNumber == old(s.nextNumber) + Opens(Migration(dryRun, s.tracker, old(s.nextNumber)).events)
  {
    hide IssueRun, PageIssues, IssuePage, IssueLoop, Migration, Opens;  // one page at a time, as PassStep states it
    ghost var done: seq<Event> := [];
    ghost var k: nat := 0;
    var startIndex := 1;
    RunStart(dryRun, s.tracker, s.nextNumber);
    while true
      invariant startIndex == StartIndex(k)
      invariant s.log == old(s.log) + done
      invariant RunSoFar(dryRun, s.tracker, old(s.nextNumber), s.nextNumber, k, done)
      decreases |s.tracker.issuePages| - k
    {
      ghost var number := s.nextNumber;
      ghost var step := IssuePage(dryRun, s.tracker, number, k);
      PassStep(dryRun, s.tracker, old(s.nextNumber), number, k, done);
      var more;
      more, failure := ProcessIssuePage(s, dryRun, startIndex, k);
      Assoc(old(s.log), done, step.events);
      if !more || failure.Some? {
        return;
      }
      done := done + step.events;
      startIndex := startIndex + GoogleMaxResults;
      k := k + 1;
    }
  }
}
