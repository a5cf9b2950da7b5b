/** A dry-run is the real run with every write taken out: it prints the
    same text, asks the source tracker for the same pages and stops on the
    same exception, and it writes nothing to the destination. */
module DryRun {
  import opened Records
  import opened Translation
  import opened ClosedStatus
  import opened Effects
  import opened Plan

  /** `dry` is what is left of `run` once its writes are taken out. */
  predicate DryOf(run: Outcome, dry: Outcome)
  {
    Unwritten(run.events) == dry.events && run.failure == dry.failure
  }

  lemma ThenDry(a: Outcome, a': Outcome, b: Outcome, b': Outcome)
    requires DryOf(a, a') && DryOf(b, b')
    ensures DryOf(Then(a, b), Then(a', b'))
  {
    if a.failure.None? {
      UnwrittenAppend(a.events, b.events);
    }
  }

  lemma PrintDry(text: string)
    ensures Unwritten([Print(text)]) == [Print(text)]
  {
    assert [Print(text)][1..] == [];
  }

  lemma FetchDry(r: Request)
    ensures Unwritten([Fetch(r)]) == [Fetch(r)]
  {
    assert [Fetch(r)][1..] == [];
  }

  lemma WriteDry(op: Op)
    ensures Unwritten([Write(op)]) == []
  {
    assert [Write(op)][1..] == [];
  }

  lemma CommentWriteDry(number: nat, c: Comment)
    ensures DryOf(CommentWrite(false, Some(number), c), CommentWrite(true, None, c))
  {
    if TranslateComment(c).Ok? {
      WriteDry(AddComment(number, TranslateComment(c).value));
    }
  }

  lemma {:induction false} PageCommentsDry(number: nat, comments: seq<Comment>)
    ensures DryOf(PageComments(false, Some(number), comments), PageComments(true, None, comments))
  {
    if comments != [] {
      CommentWriteDry(number, comments[0]);
      PageCommentsDry(number, comments[1..]);
      PrintDry(Dot);
      ThenDry(Done([Print(Dot)]), Done([Print(Dot)]),
              PageComments(false, Some(number), comments[1..]), PageComments(true, None, comments[1..]));
      ThenDry(CommentWrite(false, Some(number), comments[0]), CommentWrite(true, None, comments[0]),
              Then(Done([Print(Dot)]), PageComments(false, Some(number), comments[1..])),
              Then(Done([Print(Dot)]), PageComments(true, None, comments[1..])));
    }
  }

  lemma CommentPageDry(number: nat, id: string, pages: seq<seq<Comment>>, k: nat)
    ensures DryOf(CommentPage(false, Some(number), id, pages, k), CommentPage(true, None, id, pages, k))
  {
    hide PageComments;
    var fetch := [Fetch(CommentsPage(id, StartIndex(k), GoogleMaxResults))];
    FetchDry(fetch[0].request);
    var comments := Kept(PageAt(pages, k));
    if comments != [] {
      var heading: seq<Event> := if StartIndex(k) == 1 then [Print(AddingComments)] else [];
      PrintDry(AddingComments);
      UnwrittenAppend(fetch, heading);
      PageCommentsDry(number, comments);
      ThenDry(Done(fetch + heading), Done(fetch + heading),
              PageComments(false, Some(number), comments), PageComments(true, None, comments));
    }
  }

  lemma {:induction false} CommentLoopDry(number: nat, id: string, pages: seq<seq<Comment>>, k: nat)
    ensures DryOf(CommentLoop(false, Some(number), id, pages, k), CommentLoop(true, None, id, pages, k))
    decreases |pages| - k
  {
    hide CommentPage;
    CommentPageDry(number, id, pages, k);
    if Kept(PageAt(pages, k)) != [] {
      CommentLoopDry(number, id, pages, k + 1);
      ThenDry(CommentPage(false, Some(number), id, pages, k), CommentPage(true, None, id, pages, k),
              CommentLoop(false, Some(number), id, pages, k + 1), CommentLoop(true, None, id, pages, k + 1));
    }
  }

  lemma {:induction false} LabelStepsDry(number: nat, labels: seq<string>)
    ensures Unwritten(LabelSteps(false, Some(number), labels)) == LabelSteps(true, None, labels)
  {
    if labels != [] {
      var write := [Write(AddLabel(number, labels[0]))];
      WriteDry(write[0].op);
      PrintDry(Dot);
      LabelStepsDry(number, labels[1..]);
      UnwrittenAppend(write, [Print(Dot)]);
      UnwrittenAppend(write + [Print(Dot)], LabelSteps(false, Some(number), labels[1..]));
      assert LabelSteps(true, None, labels) == [] + [Print(Dot)] + LabelSteps(true, None, labels[1..]);
    }
  }

  lemma LabelSectionDry(number: nat, labels: seq<string>)
    ensures Unwritten(LabelSection(false, Some(number), labels)) == LabelSection(true, None, labels)
  {
    if |labels| > 0 {
      PrintDry(AddingLabels);
      LabelStepsDry(number, labels);
      UnwrittenAppend([Print(AddingLabels)], LabelSteps(false, Some(number), labels));
    }
  }

  lemma OpeningDry(n: NewIssue, number: nat, number': nat)
    ensures Unwritten(Opening(false, n, number)) == Opening(true, n, number')
  {
    var progress := [Print(AddingIssue + n.id)];
    var writes := [Write(Open(number, n.title, n.body)), Write(AddLabel(number, ImportedLabel))];
    PrintDry(AddingIssue + n.id);
    WriteDry(writes[0].op);
    WriteDry(writes[1].op);
    assert writes == [writes[0]] + [writes[1]];
    UnwrittenAppend([writes[0]], [writes[1]]);
    UnwrittenAppend(progress, writes);
    assert Opening(true, n, number') == progress + [];
  }

  lemma ClosingDry(status: string, number: nat, number': nat)
    ensures Unwritten(Closing(false, status, number)) == Closing(true, status, number') == []
  {
    WriteDry(Close(number));
  }

  /** `add_issue_to_github` in a dry-run is the real call without its
      writes, whatever number the destination would have given the issue. */
  lemma IssueRunDry(t: Tracker, issue: Issue, number: nat, number': nat)
    ensures DryOf(IssueRun(false, t, issue, number), IssueRun(true, t, issue, number'))
  {
    hide CommentLoop, LabelSection, Opening, Closing;
    match TranslateIssue(issue)
    case Err(_) =>
    case Ok(n) =>
      OpeningDry(n, number, number');
      match issue.status
      case None =>
      case Some(status) =>
        var head := Opening(false, n, number) + Closing(false, status, number) + LabelSection(false, Some(number), issue.labels);
        var head' := Opening(true, n, number') + Closing(true, status, number') + LabelSection(true, None, issue.labels);
        ClosingDry(status, number, number');
        LabelSectionDry(number, issue.labels);
        UnwrittenAppend(Opening(false, n, number), Closing(false, status, number));
        UnwrittenAppend(Opening(false, n, number) + Closing(false, status, number), LabelSection(false, Some(number), issue.labels));
        assert DryOf(Done(head), Done(head'));
        var pages := CommentPages(t, n.id);
        CommentLoopDry(number, n.id, pages, 0);
        PrintDry(Newline);
        ThenDry(CommentLoop(false, Some(number), n.id, pages, 0), CommentLoop(true, None, n.id, pages, 0),
                Done([Print(Newline)]), Done([Print(Newline)]));
        ThenDry(Done(head), Done(head'),
                Then(CommentLoop(false, Some(number), n.id, pages, 0), Done([Print(Newline)])),
                Then(CommentLoop(true, None, n.id, pages, 0), Done([Print(Newline)])));
  }

  lemma {:induction false} RunsDry(t: Tracker, issues: seq<Issue>, number: nat, number': nat, i: nat)
    requires i <= |issues|
    ensures DryOf(Chain(IssueRuns(false, t, issues, number)[i..]), Chain(IssueRuns(true, t, issues, number')[i..]))
    decreases |issues| - i
  {
    hide IssueRun;
    var runs := IssueRuns(false, t, issues, number);
    var runs' := IssueRuns(true, t, issues, number');
    if i == |issues| {
      assert runs[i..] == [] && runs'[i..] == [];
    } else {
      ChainStep(runs, i);
      ChainStep(runs', i);
      IssueRunDry(t, issues[i], number + i, number');
      RunsDry(t, issues, number, number', i + 1);
      ThenDry(runs[i], runs'[i], Chain(runs[i + 1..]), Chain(runs'[i + 1..]));
    }
  }

  lemma PageIssuesDry(t: Tracker, issues: seq<Issue>, number: nat, number': nat)
    ensures DryOf(PageIssues(false, t, issues, number), PageIssues(true, t, issues, number'))
  {
    var runs := IssueRuns(false, t, issues, number);
    var runs' := IssueRuns(true, t, issues, number');
    assert runs[0..] == runs && runs'[0..] == runs';
    RunsDry(t, issues, number, number', 0);
  }

  lemma IssuePageDry(t: Tracker, number: nat, number': nat, k: nat)
    ensures DryOf(IssuePage(false, t, number, k), IssuePage(true, t, number', k))
  {
    hide PageIssues;
    var fetch := [Fetch(IssuesPage(StartIndex(k), GoogleMaxResults))];
    FetchDry(fetch[0].request);
    var issues := PageAt(t.issuePages, k);
    if issues != [] {
      PageIssuesDry(t, issues, number, number');
      ThenDry(Done(fetch), Done(fetch), PageIssues(false, t, issues, number), PageIssues(true, t, issues, number'));
    }
  }

  lemma {:induction false} IssueLoopDry(t: Tracker, number: nat, number': nat, k: nat)
    ensures DryOf(IssueLoop(false, t, number, k), IssueLoop(true, t, number', k))
    decreases |t.issuePages| - k
  {
    hide IssuePage;
    IssuePageDry(t, number, number', k);
    var issues := PageAt(t.issuePages, k);
    if issues != [] {
      IssueLoopDry(t, number + |issues|, number', k + 1);
      ThenDry(IssuePage(false, t, number, k), IssuePage(true, t, number', k),
              IssueLoop(false, t, number + |issues|, k + 1), IssueLoop(true, t, number', k + 1));
    }
  }

  /** `process_issues` with `--dry-run` writes nothing; it prints the same
      text, makes the same page requests and stops on the same exception
      as the real run. */
  lemma MigrationDry(t: Tracker, firstNumber: nat, firstNumber': nat)
    ensures Writes(Migration(true, t, firstNumber').events) == []
    ensures Output(Migration(true, t, firstNumber').events) == Output(Migration(false, t, firstNumber).events)
    ensures Fetches(Migration(true, t, firstNumber').events) == Fetches(Migration(false, t, firstNumber).events)
    ensures Migration(true, t, firstNumber').failure == Migration(false, t, firstNumber).failure
  {
    IssueLoopDry(t, firstNumber, firstNumber', 0);
    UnwrittenKeepsTheRest(Migration(false, t, firstNumber).events);
  }
}
