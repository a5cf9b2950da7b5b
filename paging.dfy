/** The two paging loops of the script. `process_issues` asks for the issue
    feed 25 entries at a time, from start index 1 on, and stops after the
    first empty page. The comment loop of `add_issue_to_github` does the same
    with an issue's comment feed, but tests the page after dropping the
    comments without content, so a page holding only such comments ends it
    even when later pages exist. */
module Paging {
  import opened Records
  import opened Translation
  import opened Effects
  import opened Plan

  /** The first page, from the k-th on, that holds no entry. */
  function FirstEmpty<T>(pages: seq<seq<T>>, k: nat): (last: nat)
    ensures k <= last && PageAt(pages, last) == []
    ensures forall j :: k <= j < last ==> PageAt(pages, j) != []
    decreases |pages| - k
  {
    if PageAt(pages, k) == [] then k else FirstEmpty(pages, k + 1)
  }

  /** The first page, from the k-th on, that holds no comment with content. */
  function FirstWithoutContent(pages: seq<seq<Comment>>, k: nat): (last: nat)
    ensures k <= last && Kept(PageAt(pages, last)) == []
    ensures forall j :: k <= j < last ==> Kept(PageAt(pages, j)) != []
    decreases |pages| - k
  {
    if Kept(PageAt(pages, k)) == [] then k else FirstWithoutContent(pages, k + 1)
  }

  /** The requests for issue pages k to `last`. */
  function IssueRequestsBetween(k: nat, last: nat): seq<Request>
    requires k <= last
  {
    seq(last - k + 1, j requires 0 <= j <= last - k => IssuesPage(StartIndex(k + j), GoogleMaxResults))
  }

  /** The requests for pages k to `last` of the comment feed of issue `id`. */
  function CommentRequestsBetween(id: string, k: nat, last: nat): seq<Request>
    requires k <= last
  {
    seq(last - k + 1, j requires 0 <= j <= last - k => CommentsPage(id, StartIndex(k + j), GoogleMaxResults))
  }

  /** The requests for issue pages in a log, in order. */
  function IssueRequests(events: seq<Event>): seq<Request>
  {
    if events == [] then []
    else (if events[0].Fetch? && events[0].request.IssuesPage? then [events[0].request] else [])
         + IssueRequests(events[1..])
  }

  /** No request for an issue page. */
  predicate AsksNoIssuePage(events: seq<Event>)
  {
    forall e | e in events :: !(e.Fetch? && e.request.IssuesPage?)
  }

  /** No request at all. */
  predicate AsksNothing(events: seq<Event>)
  {
    forall e | e in events :: !e.Fetch?
  }

  // ---------------------------------------------------------------- lemmas

  lemma {:induction false} IssueRequestsAppend(a: seq<Event>, b: seq<Event>)
    ensures IssueRequests(a + b) == IssueRequests(a) + IssueRequests(b)
  {
    if a != [] {
      assert (a + b)[1..] == a[1..] + b;
      IssueRequestsAppend(a[1..], b);
    } else {
      assert a + b == b;
    }
  }

  lemma {:induction false} NoIssueRequests(events: seq<Event>)
    requires AsksNoIssuePage(events)
    ensures IssueRequests(events) == []
  {
    if events != [] {
      assert events[0] in events;
      assert forall e | e in events[1..] :: e in events;
      NoIssueRequests(events[1..]);
    }
  }

  lemma {:induction false} NoRequests(events: seq<Event>)
    requires AsksNothing(events)
    ensures Fetches(events) == []
  {
    if events != [] {
      assert events[0] in events;
      assert forall e | e in events[1..] :: e in events;
      NoRequests(events[1..]);
    }
  }

  lemma OneRequest(r: Request)
    ensures Fetches([Fetch(r)]) == [r]
    ensures IssueRequests([Fetch(r)]) == if r.IssuesPage? then [r] else []
  {
    assert [Fetch(r)][1..] == [];
  }

  lemma {:induction false} PageCommentsAskNothing(dryRun: bool, githubIssue: Option<nat>, comments: seq<Comment>)
    requires !dryRun ==> githubIssue.Some?
    ensures AsksNothing(PageComments(dryRun, githubIssue, comments).events)
  {
    if comments != [] {
      PageCommentsAskNothing(dryRun, githubIssue, comments[1..]);
    }
  }

  lemma {:induction false} CommentLoopAsksNoIssuePage(dryRun: bool, githubIssue: Option<nat>, id: string, pages: seq<seq<Comment>>, k: nat)
    requires !dryRun ==> githubIssue.Some?
    ensures AsksNoIssuePage(CommentLoop(dryRun, githubIssue, id, pages, k).events)
    decreases |pages| - k
  {
    hide CommentPage, CommentLoop;
    CommentLoopStep(dryRun, githubIssue, id, pages, k);
    CommentPageAsksNoIssuePage(dryRun, githubIssue, id, pages, k);
    if Kept(PageAt(pages, k)) != [] {
      CommentLoopAsksNoIssuePage(dryRun, githubIssue, id, pages, k + 1);
    }
  }

  lemma CommentPageAsksNoIssuePage(dryRun: bool, githubIssue: Option<nat>, id: string, pages: seq<seq<Comment>>, k: nat)
    requires !dryRun ==> githubIssue.Some?
    ensures AsksNoIssuePage(CommentPage(dryRun, githubIssue, id, pages, k).events)
  {
    hide PageComments;
    PageCommentsAskNothing(dryRun, githubIssue, Kept(PageAt(pages, k)));
  }

  lemma {:induction false} LabelStepsAskNothing(dryRun: bool, githubIssue: Option<nat>, labels: seq<string>)
    requires !dryRun ==> githubIssue.Some?
    ensures AsksNothing(LabelSteps(dryRun, githubIssue, labels))
  {
    if labels != [] {
      LabelStepsAskNothing(dryRun, githubIssue, labels[1..]);
    }
  }

  /** `add_issue_to_github` asks for comment pages only. */
  lemma IssueRunAsksNoIssuePage(dryRun: bool, t: Tracker, issue: Issue, number: nat)
    ensures AsksNoIssuePage(IssueRun(dryRun, t, issue, number).events)
  {
    hide CommentLoop, LabelSteps;
    var githubIssue := if dryRun then None else Some(number);
    LabelStepsAskNothing(dryRun, githubIssue, issue.labels);
    if TranslateIssue(issue).Ok? {
      var id := TranslateIssue(issue).value.id;
      CommentLoopAsksNoIssuePage(dryRun, githubIssue, id, CommentPages(t, id), 0);
    }
  }

  lemma {:induction false} RunsAskNoIssuePage(dryRun: bool, t: Tracker, issues: seq<Issue>, number: nat, i: nat)
    requires i <= |issues|
    ensures AsksNoIssuePage(Chain(IssueRuns(dryRun, t, issues, number)[i..]).events)
    decreases |issues| - i
  {
    hide IssueRun;
    var runs := IssueRuns(dryRun, t, issues, number);
    if i == |issues| {
      assert runs[i..] == [];
    } else {
      ChainStep(runs, i);
      IssueRunAsksNoIssuePage(dryRun, t, issues[i], number + Created(dryRun, i));
      RunsAskNoIssuePage(dryRun, t, issues, number, i + 1);
    }
  }

  lemma PageIssuesAskNoIssuePage(dryRun: bool, t: Tracker, issues: seq<Issue>, number: nat)
    ensures IssueRequests(PageIssues(dryRun, t, issues, number).events) == []
  {
    var runs := IssueRuns(dryRun, t, issues, number);
    assert runs[0..] == runs;
    RunsAskNoIssuePage(dryRun, t, issues, number, 0);
    NoIssueRequests(PageIssues(dryRun, t, issues, number).events);
  }

  /** The issue loop asks for the k-th page, the next one and so on, each
      with start index 1 + 25 times its position and 25 entries: whatever
      happens, what it asks for is a non-empty prefix of the pages up to and
      including the first empty one, and when it goes through it asks for
      all of them. */
  lemma {:induction false} IssueLoopRequests(dryRun: bool, t: Tracker, number: nat, k: nat)
    ensures IssueRequests(IssueLoop(dryRun, t, number, k).events) != []
    ensures IssueRequests(IssueLoop(dryRun, t, number, k).events)
         <= IssueRequestsBetween(k, FirstEmpty(t.issuePages, k))
    ensures IssueLoop(dryRun, t, number, k).failure.None? ==>
      IssueRequests(IssueLoop(dryRun, t, number, k).events) == IssueRequestsBetween(k, FirstEmpty(t.issuePages, k))
    decreases |t.issuePages| - k
  {
    hide PageIssues, IssueRequests;
    var request := IssuesPage(StartIndex(k), GoogleMaxResults);
    OneRequest(request);
    var issues := PageAt(t.issuePages, k);
    var last := FirstEmpty(t.issuePages, k);
    if issues != [] {
      var here := PageIssues(dryRun, t, issues, number);
      var next := number + Created(dryRun, |issues|);
      var rest := IssueLoop(dryRun, t, next, k + 1);
      assert IssueRequests([Fetch(request)] + here.events) == [request] by {
        PageIssuesAskNoIssuePage(dryRun, t, issues, number);
        IssueRequestsAppend([Fetch(request)], here.events);
      }
      assert last == FirstEmpty(t.issuePages, k + 1);
      assert IssueRequestsBetween(k, last) == [request] + IssueRequestsBetween(k + 1, last);
      if here.failure.Some? {
        assert IssueLoop(dryRun, t, number, k).events == [Fetch(request)] + here.events;
      } else {
        IssueLoopRequests(dryRun, t, next, k + 1);
        IssueRequestsAppend([Fetch(request)] + here.events, rest.events);
        assert IssueLoop(dryRun, t, number, k) == Outcome([Fetch(request)] + here.events + rest.events, rest.failure);
      }
    }
  }

  /** `process_issues` asks for issue pages with start index 1, 26, 51, ...
      and 25 entries each, in that order, never past the first empty page;
      when it goes through it asks for every page up to and including the
      first empty one. */
  lemma MigrationRequests(dryRun: bool, t: Tracker, firstNumber: nat)
    ensures IssueRequests(Migration(dryRun, t, firstNumber).events) != []
    ensures |IssueRequests(Migration(dryRun, t, firstNumber).events)| <= FirstEmpty(t.issuePages, 0) + 1
    ensures forall j :: 0 <= j < |IssueRequests(Migration(dryRun, t, firstNumber).events)| ==>
      IssueRequests(Migration(dryRun, t, firstNumber).events)[j] == IssuesPage(1 + 25 * j, 25)
    ensures Migration(dryRun, t, firstNumber).failure.None? ==>
      |IssueRequests(Migration(dryRun, t, firstNumber).events)| == FirstEmpty(t.issuePages, 0) + 1
  {
    hide IssueLoop;
    IssueLoopRequests(dryRun, t, firstNumber, 0);
    var last := FirstEmpty(t.issuePages, 0);
    var asked := IssueRequests(Migration(dryRun, t, firstNumber).events);
    forall j | 0 <= j < |asked|
      ensures asked[j] == IssuesPage(1 + 25 * j, 25)
    {
      assert asked[j] == IssueRequestsBetween(0, last)[j];
      assert StartIndex(0 + j) == 1 + 25 * j;
    }
  }

  /** One pass of the comment loop asks for its page and nothing else. */
  lemma CommentPageRequests(dryRun: bool, githubIssue: Option<nat>, id: string, pages: seq<seq<Comment>>, k: nat)
    requires !dryRun ==> githubIssue.Some?
    ensures Fetches(CommentPage(dryRun, githubIssue, id, pages, k).events) == [CommentsPage(id, StartIndex(k), GoogleMaxResults)]
  {
    hide PageComments, Fetches;
    var request := CommentsPage(id, StartIndex(k), GoogleMaxResults);
    OneRequest(request);
    var comments := Kept(PageAt(pages, k));
    if comments != [] {
      var heading: seq<Event> := if StartIndex(k) == 1 then [Print(AddingComments)] else [];
      var written := PageComments(dryRun, githubIssue, comments);
      assert AsksNothing(heading);
      NoRequests(heading);
      PageCommentsAskNothing(dryRun, githubIssue, comments);
      NoRequests(written.events);
      FetchesAppend([Fetch(request)], heading);
      FetchesAppend([Fetch(request)] + heading, written.events);
    }
  }

  /** The comment loop asks for the k-th page of the issue's comment feed,
      the next one and so on: whatever happens, what it asks for is a
      non-empty prefix of the pages up to and including the first page with
      no comment that has content, and when it goes through it asks for all
      of them; it asks for nothing else. */
  lemma {:induction false} CommentLoopRequests(dryRun: bool, githubIssue: Option<nat>, id: string, pages: seq<seq<Comment>>, k: nat)
    requires !dryRun ==> githubIssue.Some?
    ensures Fetches(CommentLoop(dryRun, githubIssue, id, pages, k).events) != []
    ensures Fetches(CommentLoop(dryRun, githubIssue, id, pages, k).events)
         <= CommentRequestsBetween(id, k, FirstWithoutContent(pages, k))
    ensures CommentLoop(dryRun, githubIssue, id, pages, k).failure.None? ==>
      Fetches(CommentLoop(dryRun, githubIssue, id, pages, k).events) == CommentRequestsBetween(id, k, FirstWithoutContent(pages, k))
    decreases |pages| - k
  {
    hide CommentPage, CommentLoop, Fetches;
    var request := CommentsPage(id, StartIndex(k), GoogleMaxResults);
    var page := CommentPage(dryRun, githubIssue, id, pages, k);
    CommentLoopStep(dryRun, githubIssue, id, pages, k);
    CommentPageRequests(dryRun, githubIssue, id, pages, k);
    var last := FirstWithoutContent(pages, k);
    if Kept(PageAt(pages, k)) != [] {
      assert last == FirstWithoutContent(pages, k + 1);
      assert CommentRequestsBetween(id, k, last) == [request] + CommentRequestsBetween(id, k + 1, last);
      if page.failure.None? {
        var rest := CommentLoop(dryRun, githubIssue, id, pages, k + 1);
        FetchesAppend(page.events, rest.events);
        CommentLoopRequests(dryRun, githubIssue, id, pages, k + 1);
      }
    }
  }

  /** A first comment page whose comments all lack content ends the comment
      loop after one request, whatever the later pages hold: nothing is
      printed or written for the issue's comments. */
  lemma AbsentContentEndsComments(dryRun: bool, githubIssue: Option<nat>, id: string, pages: seq<seq<Comment>>)
    requires !dryRun ==> githubIssue.Some?
    requires |pages| > 0 && forall c | c in pages[0] :: c.content.None?
    ensures CommentLoop(dryRun, githubIssue, id, pages, 0) == Done([Fetch(CommentsPage(id, 1, 25))])
  {
    KeptIsFilter(pages[0]);
  }
}
