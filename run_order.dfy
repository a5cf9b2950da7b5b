/** The order in which `process_issues` handles issues: the paging loop
    writes exactly what handling the issues of all pages, as one list in
    feed order, writes; every write for one issue comes after those of the
    issues before it and before those of the issues after it; and the first
    exception ends the whole run. */
module RunOrder {
  import opened Records
  import opened Translation
  import opened Effects
  import opened Plan

  /** Two pieces of a run that write the same things, in the same order,
      and stop on the same exception; they may differ in what they print or
      ask for. */
  predicate SameWrites(a: Outcome, b: Outcome)
  {
    Writes(a.events) == Writes(b.events) && a.failure == b.failure
  }

  lemma ThenSameWrites(a: Outcome, a': Outcome, b: Outcome, b': Outcome)
    requires SameWrites(a, a') && SameWrites(b, b')
    ensures SameWrites(Then(a, b), Then(a', b'))
  {
    if a.failure.None? {
      WritesAppend(a.events, b.events);
      WritesAppend(a'.events, b'.events);
    }
  }

  /** What a piece of a run that went through writes, followed by what the
      next piece writes. */
  lemma WritesOfThen(a: Outcome, b: Outcome)
    requires a.failure.None?
    ensures Writes(Then(a, b).events) == Writes(a.events) + Writes(b.events)
  {
    WritesAppend(a.events, b.events);
  }

  /** The steps of `a` then the steps of `b`: all of `a` happens first. */
  lemma {:induction false} ChainAppend(a: seq<Outcome>, b: seq<Outcome>)
    ensures Chain(a + b) == Then(Chain(a), Chain(b))
  {
    if a == [] {
      assert a + b == b;
      assert [] + Chain(b).events == Chain(b).events;
    } else {
      assert (a + b)[0] == a[0];
      assert (a + b)[1..] == a[1..] + b;
      ChainAppend(a[1..], b);
      ThenAssoc(a[0], Chain(a[1..]), Chain(b));
    }
  }

  /** A chain of steps goes through exactly when every step does. */
  lemma {:induction false} ChainSucceeds(steps: seq<Outcome>)
    ensures Chain(steps).failure.None? <==> forall j :: 0 <= j < |steps| ==> steps[j].failure.None?
  {
    if steps != [] {
      ChainSucceeds(steps[1..]);
      assert forall j :: 1 <= j < |steps| ==> steps[j] == steps[1..][j - 1];
    }
  }

  /** The issues of `a + b`: those of `b` are numbered after those `a`
      opened. */
  lemma IssueRunsAppend(dryRun: bool, t: Tracker, a: seq<Issue>, b: seq<Issue>, number: nat)
    ensures IssueRuns(dryRun, t, a + b, number)
         == IssueRuns(dryRun, t, a, number) + IssueRuns(dryRun, t, b, number + Created(dryRun, |a|))
  {
    hide IssueRun;
    var whole := IssueRuns(dryRun, t, a + b, number);
    var parts := IssueRuns(dryRun, t, a, number) + IssueRuns(dryRun, t, b, number + Created(dryRun, |a|));
    assert |whole| == |parts|;
    forall j | 0 <= j < |whole|
      ensures whole[j] == parts[j]
    {
      if j >= |a| {
        assert (a + b)[j] == b[j - |a|];
        assert number + Created(dryRun, j) == number + Created(dryRun, |a|) + Created(dryRun, j - |a|);
      }
    }
  }

  /** Handling the issues of `a + b` is handling those of `a`, then those
      of `b`: everything done for an issue of `a` precedes everything done
      for an issue of `b`. */
  lemma PageIssuesAppend(dryRun: bool, t: Tracker, a: seq<Issue>, b: seq<Issue>, number: nat)
    ensures PageIssues(dryRun, t, a + b, number)
         == Then(PageIssues(dryRun, t, a, number), PageIssues(dryRun, t, b, number + Created(dryRun, |a|)))
  {
    hide IssueRun;
    IssueRunsAppend(dryRun, t, a, b, number);
    ChainAppend(IssueRuns(dryRun, t, a, number), IssueRuns(dryRun, t, b, number + Created(dryRun, |a|)));
  }

  lemma PageIssuesOne(dryRun: bool, t: Tracker, issue: Issue, number: nat)
    ensures PageIssues(dryRun, t, [issue], number) == Then(IssueRun(dryRun, t, issue, number), Done([]))
  {
    hide IssueRun;
    var runs := IssueRuns(dryRun, t, [issue], number);
    assert runs == [IssueRun(dryRun, t, issue, number)];
    assert Chain(runs) == Then(runs[0], Chain(runs[1..]));
    assert runs[1..] == [];
  }

  lemma PageIssuesNone(dryRun: bool, t: Tracker, number: nat)
    ensures PageIssues(dryRun, t, [], number) == Done([])
  {
    assert IssueRuns(dryRun, t, [], number) == [];
  }

  /** When a list of issues goes through, its writes are those of the
      issues before the j-th, then those of the j-th issue, then those of
      the issues after it. */
  lemma IssueWritesInOrder(dryRun: bool, t: Tracker, issues: seq<Issue>, number: nat, j: nat)
    requires j < |issues|
    requires PageIssues(dryRun, t, issues, number).failure.None?
    ensures Writes(PageIssues(dryRun, t, issues, number).events)
         == Writes(PageIssues(dryRun, t, issues[..j], number).events)
          + Writes(IssueRun(dryRun, t, issues[j], number + Created(dryRun, j)).events)
          + Writes(PageIssues(dryRun, t, issues[j + 1..], number + Created(dryRun, j + 1)).events)
  {
    hide IssueRun, PageIssues;
    var before := PageIssues(dryRun, t, issues[..j], number);
    var here := IssueRun(dryRun, t, issues[j], number + Created(dryRun, j));
    var current := PageIssues(dryRun, t, [issues[j]], number + Created(dryRun, j));
    var after := PageIssues(dryRun, t, issues[j + 1..], number + Created(dryRun, j + 1));
    assert issues == issues[..j] + ([issues[j]] + issues[j + 1..]);
    PageIssuesAppend(dryRun, t, [issues[j]], issues[j + 1..], number + Created(dryRun, j));
    assert Created(dryRun, j) + Created(dryRun, 1) == Created(dryRun, j + 1);
    PageIssuesAppend(dryRun, t, issues[..j], [issues[j]] + issues[j + 1..], number);
    PageIssuesOne(dryRun, t, issues[j], number + Created(dryRun, j));
    WritesOfThen(before, Then(current, after));
    WritesOfThen(current, after);
    WritesOfThen(here, Done([]));
  }

  /** The paging loop from the k-th page on writes what handling the issues
      of those pages, as one list, writes, and stops on the same exception. */
  lemma {:induction false} IssueLoopIsFlat(dryRun: bool, t: Tracker, number: nat, k: nat)
    ensures SameWrites(IssueLoop(dryRun, t, number, k), PageIssues(dryRun, t, IssuesFrom(t, k), number))
    decreases |t.issuePages| - k
  {
    hide IssueRun, PageIssues;
    var issues := PageAt(t.issuePages, k);
    var fetch := [Fetch(IssuesPage(StartIndex(k), GoogleMaxResults))];
    assert Writes(fetch) == [] by {
      assert fetch[1..] == [];
    }
    if issues == [] {
      assert IssuesFrom(t, k) == [];
      PageIssuesNone(dryRun, t, number);
    } else {
      var here := PageIssues(dryRun, t, issues, number);
      var next := number + Created(dryRun, |issues|);
      WritesOfThen(Done(fetch), here);
      IssueLoopIsFlat(dryRun, t, next, k + 1);
      ThenSameWrites(IssuePage(dryRun, t, number, k), here,
                     IssueLoop(dryRun, t, next, k + 1), PageIssues(dryRun, t, IssuesFrom(t, k + 1), next));
      PageIssuesAppend(dryRun, t, issues, IssuesFrom(t, k + 1), number);
    }
  }

  /** The issues of a list go through exactly when each of them does, the
      j-th being given the number after those the earlier ones opened. */
  lemma PageIssuesSucceeds(dryRun: bool, t: Tracker, issues: seq<Issue>, number: nat)
    ensures PageIssues(dryRun, t, issues, number).failure.None? <==>
      forall j :: 0 <= j < |issues| ==> IssueRun(dryRun, t, issues[j], number + Created(dryRun, j)).failure.None?
  {
    hide IssueRun;
    var runs := IssueRuns(dryRun, t, issues, number);
    ChainSucceeds(runs);
    assert forall j :: 0 <= j < |issues| ==> runs[j] == IssueRun(dryRun, t, issues[j], number + Created(dryRun, j));
  }

  /** `process_issues` writes what handling every issue of the feed, in
      feed order, writes; it goes through exactly when every issue does. */
  lemma MigrationIsFlat(dryRun: bool, t: Tracker, firstNumber: nat)
    ensures SameWrites(Migration(dryRun, t, firstNumber), PageIssues(dryRun, t, IssuesFrom(t, 0), firstNumber))
    ensures Migration(dryRun, t, firstNumber).failure.None? <==>
      forall j :: 0 <= j < |IssuesFrom(t, 0)| ==>
        IssueRun(dryRun, t, IssuesFrom(t, 0)[j], firstNumber + Created(dryRun, j)).failure.None?
  {
    hide IssueRun, IssueLoop, IssuesFrom, PageIssues;
    IssueLoopIsFlat(dryRun, t, firstNumber, 0);
    PageIssuesSucceeds(dryRun, t, IssuesFrom(t, 0), firstNumber);
  }

  /** An issue whose id text has no trailing digit stops the whole run,
      dry-run or not, before anything is written for it. */
  lemma BadIdStopsTheRun(dryRun: bool, t: Tracker, firstNumber: nat, j: nat)
    requires j < |IssuesFrom(t, 0)| && ExtractId(IssuesFrom(t, 0)[j].idText).Err?
    ensures Migration(dryRun, t, firstNumber).failure.Some?
    ensures IssueRun(dryRun, t, IssuesFrom(t, 0)[j], firstNumber + Created(dryRun, j)).events == []
  {
    hide IssueLoop;
    var issue := IssuesFrom(t, 0)[j];
    var run := IssueRun(dryRun, t, issue, firstNumber + Created(dryRun, j));
    assert TranslateIssue(issue).Err?;
    assert run.failure.Some? && run.events == [];
    MigrationIsFlat(dryRun, t, firstNumber);
  }
}
