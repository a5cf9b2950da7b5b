/** What one run of the script does, as functions of its inputs: the source
    tracker's pages, the dry-run flag and the number the destination gives
    the next issue it opens. Each function follows one part of the script;
    the methods in module Driver are proved to produce exactly these logs. */
module Plan {
  import opened Records
  import opened Translation
  import opened ClosedStatus
  import opened Effects

  /** What the script prints. */
  const AddingIssue: string := "Adding issue "
  const AddingLabels: string := ", adding labels"
  const AddingComments: string := ", adding comments"
  const Dot: string := "."
  const Newline: string := "\n"

  /** The source tracker: the pages of the issue feed and, per issue id, the
      pages of its comment feed. Page k answers the request whose start index
      is 1 + 25 k; a page past the end is empty. */
  datatype Tracker = Tracker(issuePages: seq<seq<Issue>>, commentPages: map<string, seq<seq<Comment>>>)

  /** The log a piece of the script leaves, and the exception that stopped
      it, if any. */
  datatype Outcome = Outcome(events: seq<Event>, failure: Option<Error>)

  function Done(events: seq<Event>): Outcome
  {
    Outcome(events, None)
  }

  /** `a` then `b`, where an exception in `a` means `b` never runs. */
  function Then(a: Outcome, b: Outcome): Outcome
  {
    if a.failure.Some? then a else Outcome(a.events + b.events, b.failure)
  }

  /** The start index of the k-th page request. */
  function StartIndex(k: nat): int
  {
    1 + GoogleMaxResults * k
  }

  function PageAt<T>(pages: seq<seq<T>>, k: nat): seq<T>
  {
    if k < |pages| then pages[k] else []
  }

  /** The entries the tracker returns for a request: the page whose first
      entry has the given start index, and nothing for a request that names
      no page (one past the last page, or not of the form 1 + 25 k). */
  function Answer<T>(pages: seq<seq<T>>, startIndex: int, maxResults: int): seq<T>
    decreases |pages|
  {
    if maxResults != GoogleMaxResults || startIndex < 1 || pages == [] then []
    else if startIndex == 1 then pages[0]
    else Answer(pages[1..], startIndex - GoogleMaxResults, maxResults)
  }

  function CommentPages(t: Tracker, id: string): seq<seq<Comment>>
  {
    if id in t.commentPages then t.commentPages[id] else []
  }

  /** `filter(lambda e: e.content.text is not None, entries)` */
  function Kept(entries: seq<Comment>): seq<Comment>
  {
    if entries == [] then []
    else (if entries[0].content.Some? then [entries[0]] else []) + Kept(entries[1..])
  }

  /** `add_comment_to_github`: translate, then write unless dry-run. */
  function CommentWrite(dryRun: bool, githubIssue: Option<nat>, c: Comment): Outcome
    requires !dryRun ==> githubIssue.Some?
  {
    match TranslateComment(c)
    case Err(e) => Outcome([], Some(e))
    case Ok(body) => Done(if dryRun then [] else [Write(AddComment(githubIssue.value, body))])
  }

  /** The comments of one page: each one added, then a dot. */
  function PageComments(dryRun: bool, githubIssue: Option<nat>, comments: seq<Comment>): Outcome
    requires !dryRun ==> githubIssue.Some?
  {
    if comments == [] then Done([])
    else Then(CommentWrite(dryRun, githubIssue, comments[0]),
              Then(Done([Print(Dot)]), PageComments(dryRun, githubIssue, comments[1..])))
  }

  /** One pass of the comment loop of `add_issue_to_github`: the request for
      the k-th page and, when the page holds comments with content, the
      heading (on the first page only) and those comments. */
  function CommentPage(dryRun: bool, githubIssue: Option<nat>, id: string, pages: seq<seq<Comment>>, k: nat): Outcome
    requires !dryRun ==> githubIssue.Some?
  {
    var fetch := [Fetch(CommentsPage(id, StartIndex(k), GoogleMaxResults))];
    var comments := Kept(PageAt(pages, k));
    if comments == [] then Done(fetch)
    else
      var heading := if StartIndex(k) == 1 then [Print(AddingComments)] else [];
      Then(Done(fetch + heading), PageComments(dryRun, githubIssue, comments))
  }

  /** The comment loop of `add_issue_to_github` from the k-th page request
      on: it stops after the first page with no comment that has content. */
  function CommentLoop(dryRun: bool, githubIssue: Option<nat>, id: string, pages: seq<seq<Comment>>, k: nat): Outcome
    requires !dryRun ==> githubIssue.Some?
    decreases |pages| - k
  {
    if Kept(PageAt(pages, k)) == [] then CommentPage(dryRun, githubIssue, id, pages, k)
    else Then(CommentPage(dryRun, githubIssue, id, pages, k), CommentLoop(dryRun, githubIssue, id, pages, k + 1))
  }

  /** The label loop of `add_issue_to_github`: each label added, then a dot. */
  function LabelSteps(dryRun: bool, githubIssue: Option<nat>, labels: seq<string>): seq<Event>
    requires !dryRun ==> githubIssue.Some?
  {
    if labels == [] then []
    else (if dryRun then [] else [Write(AddLabel(githubIssue.value, labels[0]))]) + [Print(Dot)]
         + LabelSteps(dryRun, githubIssue, labels[1..])
  }

  /** The start of `add_issue_to_github`: the progress line, then (unless
      dry-run) the new issue and its "imported" label. */
  function Opening(dryRun: bool, n: NewIssue, number: nat): seq<Event>
  {
    [Print(AddingIssue + n.id)]
    + (if dryRun then [] else [Write(Open(number, n.title, n.body)), Write(AddLabel(number, ImportedLabel))])
  }

  /** The closed test of `add_issue_to_github`. */
  function Closing(dryRun: bool, status: string, number: nat): seq<Event>
  {
    if IsClosed(status) && !dryRun then [Write(Close(number))] else []
  }

  /** The labels part of `add_issue_to_github`. */
  function LabelSection(dryRun: bool, githubIssue: Option<nat>, labels: seq<string>): seq<Event>
    requires !dryRun ==> githubIssue.Some?
  {
    if |labels| > 0 then [Print(AddingLabels)] + LabelSteps(dryRun, githubIssue, labels) else []
  }

  /** `add_issue_to_github`, where `number` is the number the destination
      gives the issue if the script opens it. */
  function IssueRun(dryRun: bool, t: Tracker, issue: Issue, number: nat): Outcome
  {
    match TranslateIssue(issue)
    case Err(e) => Outcome([], Some(e))
    case Ok(n) =>
      var githubIssue := if dryRun then None else Some(number);
      match issue.status
      case None => Outcome(Opening(dryRun, n, number), Some(MissingStatus))
      case Some(status) =>
        Then(Done(Opening(dryRun, n, number) + Closing(dryRun, status, number) + LabelSection(dryRun, githubIssue, issue.labels)),
             Then(CommentLoop(dryRun, githubIssue, n.id, CommentPages(t, n.id), 0), Done([Print(Newline)])))
  }

  /** How far the destination's issue numbers advance over `count` issues. */
  function Created(dryRun: bool, count: nat): nat
  {
    if dryRun then 0 else count
  }

  /** The pieces of a run one after another; the first exception ends it. */
  function Chain(steps: seq<Outcome>): Outcome
  {
    if steps == [] then Done([]) else Then(steps[0], Chain(steps[1..]))
  }

  /** `add_issue_to_github` for each issue of a page: the j-th issue gets the
      number after those the earlier ones opened. */
  function IssueRuns(dryRun: bool, t: Tracker, issues: seq<Issue>, number: nat): seq<Outcome>
  {
    seq(|issues|, j requires 0 <= j < |issues| => IssueRun(dryRun, t, issues[j], number + Created(dryRun, j)))
  }

  /** The issues of one page, in order; the first exception ends the run. */
  function PageIssues(dryRun: bool, t: Tracker, issues: seq<Issue>, number: nat): Outcome
  {
    Chain(IssueRuns(dryRun, t, issues, number))
  }

  /** One pass of the loop of `process_issues`: the request for the k-th
      page and, when the page is not empty, its issues. */
  function IssuePage(dryRun: bool, t: Tracker, number: nat, k: nat): Outcome
  {
    var fetch := [Fetch(IssuesPage(StartIndex(k), GoogleMaxResults))];
    var issues := PageAt(t.issuePages, k);
    if issues == [] then Done(fetch)
    else Then(Done(fetch), PageIssues(dryRun, t, issues, number))
  }

  /** The loop of `process_issues` from the k-th page request on: it stops
      after the first empty page. */
  function IssueLoop(dryRun: bool, t: Tracker, number: nat, k: nat): Outcome
    decreases |t.issuePages| - k
  {
    var issues := PageAt(t.issuePages, k);
    if issues == [] then IssuePage(dryRun, t, number, k)
    else Then(IssuePage(dryRun, t, number, k), IssueLoop(dryRun, t, number + Created(dryRun, |issues|), k + 1))
  }

  /** The issues the loop of `process_issues` visits from the k-th page on,
      in feed order. */
  function IssuesFrom(t: Tracker, k: nat): seq<Issue>
    decreases |t.issuePages| - k
  {
    var issues := PageAt(t.issuePages, k);
    if issues == [] then [] else issues + IssuesFrom(t, k + 1)
  }

  /** `process_issues`: the whole run. */
  function Migration(dryRun: bool, t: Tracker, firstNumber: nat): Outcome
  {
    IssueLoop(dryRun, t, firstNumber, 0)
  }

  // ---------------------------------------------------------------- lemmas

  /** Kept keeps exactly the entries with content. */
  lemma {:induction false} KeptIsFilter(entries: seq<Comment>)
    ensures |Kept(entries)| <= |entries|
    ensures forall c :: c in Kept(entries) <==> c in entries && c.content.Some?
  {
    if entries != [] {
      KeptIsFilter(entries[1..]);
      assert entries == [entries[0]] + entries[1..];
    }
  }

  /** Kept keeps the order of the entries. */
  lemma {:induction false} KeptAppend(a: seq<Comment>, b: seq<Comment>)
    ensures Kept(a + b) == Kept(a) + Kept(b)
  {
    if a != [] {
      assert (a + b)[1..] == a[1..] + b;
      KeptAppend(a[1..], b);
    } else {
      assert a + b == b;
    }
  }

  /** Then is associative: only where an exception happens matters. */
  lemma ThenAssoc(a: Outcome, b: Outcome, c: Outcome)
    ensures Then(Then(a, b), c) == Then(a, Then(b, c))
  {
    if a.failure.None? && b.failure.None? {
      assert a.events + b.events + c.events == a.events + (b.events + c.events);
    }
  }

  /** Chain takes the steps from the i-th on as the i-th step, then the rest. */
  lemma ChainStep(steps: seq<Outcome>, i: nat)
    requires i < |steps|
    ensures Chain(steps[i..]) == Then(steps[i], Chain(steps[i + 1..]))
  {
    assert steps[i..][1..] == steps[i + 1..];
  }

  /** One pass of the comment loop, then (if the page held comments with
      content) the passes after it. */
  lemma CommentLoopStep(dryRun: bool, githubIssue: Option<nat>, id: string, pages: seq<seq<Comment>>, k: nat)
    requires !dryRun ==> githubIssue.Some?
    ensures CommentLoop(dryRun, githubIssue, id, pages, k)
         == if Kept(PageAt(pages, k)) == [] then CommentPage(dryRun, githubIssue, id, pages, k)
            else Then(CommentPage(dryRun, githubIssue, id, pages, k), CommentLoop(dryRun, githubIssue, id, pages, k + 1))
  {
  }

  /** The k-th request of a paging loop is answered with the k-th page. */
  lemma {:induction false} AnswerAt<T>(pages: seq<seq<T>>, k: nat)
    ensures Answer(pages, StartIndex(k), GoogleMaxResults) == PageAt(pages, k)
  {
    if k > 0 && pages != [] {
      AnswerAt(pages[1..], k - 1);
      assert StartIndex(k) - GoogleMaxResults == StartIndex(k - 1);
    }
  }
}
