# migrate-issues, modelled in Dafny

`migrate-issues.py` copies every issue of a Google Code project to a GitHub
project. It reads the issue feed a page of 25 entries at a time. For each
issue it does the following:

- Opens a GitHub issue whose body is the original content plus a provenance line.
- Labels the new issue "imported".
- Closes the issue when its status text occurs in the closed vocabulary.
- Copies the issue's labels.
- Reads the issue's comment feed page by page and posts every comment that has content.
- Prints a progress line: `Adding issue <id>`, `, adding labels` with a dot per label, `, adding comments` with a dot per comment, then a newline.

With `--dry-run` nothing is written to GitHub. Any exception ends the run.

The script is Python 2, and the model follows Python 2 semantics: `filter`
returns a list, so `len` applies to its result, and `\d` matches the ASCII
digits 0-9 only.

The model has four layers.

- **Records, Translation, ClosedStatus** are the pure parts. They cover:
  - the feed entries;
  - the id taken with `re.search('\d+$', …)`;
  - the issue and comment bodies;
  - the closed-status test, which is `in` on one lower-cased string.
- **Effects, Plan** give the meaning of a run. A run is described by an
  `Outcome`, which holds two things:
  - an event log of destination writes, printed text and page requests, in the order they happen;
  - the exception that stopped the run, if any.

  `Plan` has one function for each piece of `add_issue_to_github`,
  `add_comment_to_github` and `process_issues`. The loops are written as
  recursion over page numbers.
- **Driver** is the script itself, in imperative form.
  - A class `Services` holds the source tracker, the log and the number the destination gives the next issue it opens.
  - Its methods are the reads, writes and `output` the script calls.
  - The script's functions are methods with the script's own `while`/`for` loops.
  - Each method is proved to append exactly the events of its `Plan` function and to raise its exception.
- **PlanProperties, IssueEffects, DryRun, RunOrder, Paging** prove what a run
  does, in terms of the `Plan` functions. The results cover:
  - how many issues are opened;
  - the exact writes and the exact progress text of one issue;
  - when an issue goes through;
  - that a dry run is the real run with its writes removed;
  - that issues are handled in feed order and the first exception ends everything;
  - which pages are requested, and that paging stops at the first empty page. For comments, "empty" is tested after absent content is filtered out.

Where the script's behaviour is easy to misread, the model follows the
script:

- **Closed test.** The script tests whether the lower-cased status text is a
  substring of `"invalid closed fixed wontfix verified done duplicate"`. It
  does not test membership in a set of words. So "fix", "Don", "d closed" and
  the empty status all close an issue (`ClosedStatus.PartsOfWordsClose`,
  `ClosedStatus.SpansAndEmptyClose`). "open", "started" and "accepted" still
  do not (`ClosedStatus.ActiveStatusesStayOpen`).
- **Trailing digits.** Python's `$` also matches just before a final newline.
  So the id of `"…/issues/12\n"` is `12` (`Translation.ExtractIdIsLeftmostMatch`).
- **Absent content.** An issue whose content is absent is not skipped. Its
  body starts with the text `None`, because that is how `'%s' % None` renders.
- **Missing status.** A missing status raises after the issue has been opened
  and labelled "imported". It does not raise before
  (`IssueEffects.IssueRunWrites`).
- **Absent content on a comment page.** A comment page on which every entry
  lacks content ends the comment loop, even if later pages have comments.

## Model

| member | source | states |
|---|---|---|
| Translation.AnchorEnd | migrate-issues.py:29 | the position it returns is one where `$` matches: the end of the text, or just before a final newline |
| Translation.DigitsStart | migrate-issues.py:29 | the start of the digit run it returns is never after the position it was asked about |
| Translation.ExtractIdIsLeftmostMatch | migrate-issues.py:29 | the id is the leftmost, longest match of `\d+$` in the id text; extraction fails exactly when there is no match |
| Translation.ExtractIdDigits | migrate-issues.py:74 | an extracted id is non-empty and all digits |
| Translation.IssueBodyRoundTrip | migrate-issues.py:31-34 | the issue body is the content (or "None") followed by the provenance line with the link and date; the content is recovered from the body |
| Translation.CommentBodyRoundTrip | migrate-issues.py:75-78 | the comment body is the "_From author on date:_" header and a newline followed by the content; the content is recovered from the body |
| ClosedStatus.ContainsIffOccurs | migrate-issues.py:44 | the substring test `in` holds exactly when the needle occurs at some offset of the haystack |
| ClosedStatus.VocabularyIsLowerCase | migrate-issues.py:44 | lower-casing the vocabulary leaves it unchanged |
| ClosedStatus.IsClosedIffOccurs | migrate-issues.py:44 | a status closes the issue exactly when its lower-cased text occurs in the vocabulary |
| ClosedStatus.VocabularyWordCloses | migrate-issues.py:44 | a status that lower-cases to one of invalid, closed, fixed, wontfix, verified, done, duplicate closes the issue |
| ClosedStatus.ClosedInAnyCase | migrate-issues.py:44 | "FIXED", "Fixed", "fixed", "WontFix", "Duplicate" and "INVALID" close the issue |
| ClosedStatus.IsClosedIgnoresCase | migrate-issues.py:44 | two statuses that lower-case to the same text are both closed or both not |
| ClosedStatus.ClosedStatusPairs | migrate-issues.py:44 | each pair of adjacent letters of a closing status, lower-cased, occurs in the vocabulary |
| ClosedStatus.ActiveStatusesStayOpen | migrate-issues.py:44 | "open", "started" and "accepted", capitalised or not, do not close the issue (the vocabulary holds no "op", "st" or "cc") |
| ClosedStatus.PartsOfWordsClose | migrate-issues.py:44 | pieces of vocabulary words, such as "fix" and "Don", close the issue |
| ClosedStatus.SpansAndEmptyClose | migrate-issues.py:44 | a text spanning two words ("d closed") and the empty status close the issue |
| Plan.KeptIsFilter | migrate-issues.py:61 | the comments kept are exactly the entries whose content is present, and they are never more than the entries |
| Plan.KeptAppend | migrate-issues.py:61 | filtering a concatenation filters each part, keeping the order |
| Plan.AnswerAt | migrate-issues.py:60 | the request with start index 1 + 25k and 25 results is answered by page k |
| Plan.ThenAssoc | migrate-issues.py:114-118 | running a then b then c does not depend on grouping; the first exception stops the rest |
| Driver.Services.constructor | migrate-issues.py:111-112 | a fresh connection has an empty log and the given first destination number |
| Driver.Services.Output | migrate-issues.py:23-25 | `output` appends the printed text to the log |
| Driver.Services.GetIssues | migrate-issues.py:90 | the issue feed request is logged and answered with the tracker's page for that start index |
| Driver.Services.GetComments | migrate-issues.py:60 | the comment feed request is logged and answered with that issue's page for that start index |
| Driver.Services.Open | migrate-issues.py:41 | opening logs the write and returns the destination's next number, which then advances by one |
| Driver.Services.AddLabel | migrate-issues.py:42 | a label write is logged and leaves the numbering alone |
| Driver.Services.Close | migrate-issues.py:46 | a close write is logged and leaves the numbering alone |
| Driver.Services.AddComment | migrate-issues.py:83 | a comment write is logged and leaves the numbering alone |
| Driver.AddCommentToGithub | migrate-issues.py:73-83 | appends the comment's write (none in a dry run) and raises when the id or the author is missing |
| Driver.AddPageComments | migrate-issues.py:66-68 | its loop appends, for each comment, its write and a dot; it stops at the first exception |
| Driver.FetchComments | migrate-issues.py:60-61 | requests comment page k and returns its entries that have content |
| Driver.AddCommentPage | migrate-issues.py:60-68 | one pass of the comment loop: the request, the heading on the first page, the comments; reports whether the page had comments |
| Driver.AddComments | migrate-issues.py:57-69 | the comment loop appends exactly the comment-loop log and raises its exception |
| Driver.AddLabels | migrate-issues.py:49-54 | when the issue has labels, ", adding labels", then each label's write (none in a dry run) followed by a dot; nothing for an issue without labels |
| Driver.OpenIssue | migrate-issues.py:36-42 | prints the id, then outside a dry run opens the issue and labels it "imported"; returns its number (none in a dry run) |
| Driver.CloseIfClosed | migrate-issues.py:44-46 | writes a close exactly when the status is closed and this is not a dry run |
| Driver.AddIssueToGithub | migrate-issues.py:28-70 | appends exactly the issue's log and raises its exception; the numbering advances by one exactly when an issue was opened |
| Driver.ProcessPage | migrate-issues.py:93-94 | the issues of a page in order; the numbering has advanced by the issues the page's log opens, which is one per issue (none in a dry run) when the page went through |
| Driver.ProcessIssuePage | migrate-issues.py:90-95 | one pass of the issue loop: request page k, handle its issues, report whether it was empty; the numbering has advanced by the issues the pass opened, whether or not it raised |
| Driver.ProcessIssues | migrate-issues.py:86-95 | the whole run appends exactly the migration log and raises its exception; the numbering has advanced by the issues the log opens, whether or not the run raised |
| PlanProperties.CommentLoopOpensNothing | migrate-issues.py:57-69 | the comment loop never opens an issue |
| PlanProperties.IssueRunOpens | migrate-issues.py:38-42 | handling an issue opens exactly one issue, or none in a dry run or when translation fails first |
| PlanProperties.PageIssuesOpens | migrate-issues.py:93-94 | a page that went through opens one destination issue per source issue (none in a dry run) |
| IssueEffects.CommentWriteEffects | migrate-issues.py:73-83 | a comment goes through exactly when it translates; it then prints nothing and writes its body (nothing in a dry run); otherwise it raises having logged nothing |
| IssueEffects.PageCommentsSucceed | migrate-issues.py:66-68 | the comments of a page go through exactly when each translates |
| IssueEffects.PageCommentsOutput | migrate-issues.py:66-68 | a page of comments that went through prints one dot per comment |
| IssueEffects.TranslatedPrefix | migrate-issues.py:66-68 | the comments written before an exception are the longest prefix that translates: all of them exactly when all translate, otherwise the next comment is one that does not |
| IssueEffects.TranslatedAppend | migrate-issues.py:57-68 | across two runs of comments, the translated prefix goes into the second run only when the whole first run translates |
| IssueEffects.PageCommentsWrites | migrate-issues.py:66-68 | a page of comments writes each comment's body in order up to the first that does not translate, all of them when the page went through (nothing in a dry run) |
| IssueEffects.CommentPageEffects | migrate-issues.py:60-68 | a page with kept comments stops on its comments' exception; raising or not, it prints the heading (first page only) and the comments' output, and writes the comments' writes |
| IssueEffects.CommentPageEmpty | migrate-issues.py:62-63 | a page without kept comments prints and writes nothing and goes through |
| IssueEffects.CommentLoopSucceeds | migrate-issues.py:57-69 | the comment loop goes through exactly when every comment up to the first empty page translates |
| IssueEffects.CommentLoopOutput | migrate-issues.py:64-68 | a comment loop that went through prints ", adding comments" if it found any comments, then one dot per comment |
| IssueEffects.CommentLoopWrites | migrate-issues.py:57-68 | the comment loop writes the migrated comments, in page order, to the new issue up to the first that does not translate, and every one of them when it went through (nothing in a dry run) |
| IssueEffects.LabelStepsOutput | migrate-issues.py:51-54 | one dot per label |
| IssueEffects.LabelStepsWrites | migrate-issues.py:51-53 | one label write per label, in source order (none in a dry run) |
| IssueEffects.LabelSectionEffects | migrate-issues.py:49-54 | ", adding labels" and the dots only when there are labels; the label writes in order |
| IssueEffects.OpeningEffects | migrate-issues.py:36-42 | prints "Adding issue " and the id; writes the open and the "imported" label (nothing in a dry run) |
| IssueEffects.ClosingEffects | migrate-issues.py:44-46 | prints nothing; writes a close exactly when the status is closed and this is not a dry run |
| IssueEffects.IssueRunSucceeds | migrate-issues.py:28-70 | an issue goes through exactly when it translates, has a status and all its migrated comments translate |
| IssueEffects.IssueRunWrites | migrate-issues.py:28-69 | the writes of an issue, whatever its outcome: none when it does not translate; open and "imported" only when it has no status; otherwise open, "imported", close if closed, its labels and its comments up to the first that does not translate, all under its number; every migrated comment when it went through |
| IssueEffects.IssueRunOutput | migrate-issues.py:36-70 | the progress line of an issue that went through: id, label part, comment part, newline |
| DryRun.CommentLoopDry | migrate-issues.py:57-69 | the dry-run comment loop is the real loop with its writes removed |
| DryRun.IssueRunDry | migrate-issues.py:28-70 | a dry-run issue is the real one with its writes removed, whatever number the issue would have had |
| DryRun.MigrationDry | migrate-issues.py:86-95 | a dry run writes nothing, prints the same text, requests the same pages and stops on the same exception as the real run |
| RunOrder.ChainAppend | migrate-issues.py:93-94 | running two lists of steps in turn is running their concatenation |
| RunOrder.ChainSucceeds | migrate-issues.py:93-94 | a list of steps goes through exactly when every step does |
| RunOrder.PageIssuesAppend | migrate-issues.py:93-94 | handling a + b is handling a, then b with the numbers after a's |
| RunOrder.IssueWritesInOrder | migrate-issues.py:93-94 | on a page that went through, every write for issue j comes after those of earlier issues and before those of later ones |
| RunOrder.PageIssuesSucceeds | migrate-issues.py:93-94 | a page goes through exactly when each of its issues does |
| RunOrder.IssueLoopIsFlat | migrate-issues.py:89-95 | the paging loop writes what handling all issues of the pages, as one list, writes |
| RunOrder.MigrationIsFlat | migrate-issues.py:86-95 | the whole run writes what handling every issue of the feed in order writes, and goes through exactly when every issue does |
| RunOrder.BadIdStopsTheRun | migrate-issues.py:29 | an issue id without trailing digits ends the whole run before anything is written for that issue |
| Paging.FirstEmpty | migrate-issues.py:89-92 | the first empty page from k on: every page before it is non-empty |
| Paging.FirstWithoutContent | migrate-issues.py:59-63 | the first comment page from k on with no kept comments: every page before it has some |
| Paging.IssueRunAsksNoIssuePage | migrate-issues.py:28-70 | handling an issue never requests an issue page |
| Paging.IssueLoopRequests | migrate-issues.py:87-95 | the issue loop requests pages k, k+1, … in order: always a non-empty prefix of the pages up to and including the first empty one, and all of them when it goes through; it requests no other issue page |
| Paging.MigrationRequests | migrate-issues.py:18 | every issue page request of the run, raising or not, is the j-th of start index 1 + 25j with 25 results, never past the first empty page; when the run goes through it requests every page up to and including the first empty one |
| Paging.CommentPageRequests | migrate-issues.py:60 | one pass of the comment loop makes exactly one request |
| Paging.CommentLoopRequests | migrate-issues.py:57-69 | the comment loop requests pages k, k+1, … in order and nothing else: always a non-empty prefix of the pages up to and including the first page with no kept comments, and all of them when it goes through |
| Paging.AbsentContentEndsComments | migrate-issues.py:61-63 | a first comment page with no content ends the loop after one request, whatever later pages hold |

## Left out

- The Google Code and GitHub clients (gdata, github2), the network, authentication and the 0.5 requests-per-second limit. Reads are answered by a `Tracker` value. A failing read (an exception raised by a gdata call) is not modelled; every read is assumed to succeed. Writes are events in a log, and the destination's numbering is a counter.
- Date parsing and `strftime`. The date is taken as the already formatted text.
- `.encode('utf-8')`, `logging.info` and the stdout flush. `output` is an event carrying the text.
- The command line, `optparse`, the argument-count check and the usage text printed in the `except:` handler. Only the fact that any exception ends the run is modelled.
- Destination-side failures (an exception raised by a github2 call). Every write is assumed to succeed.
- An absent title or label text. Titles and labels are strings.
- Entries missing an element the script reads. An entry without a `content` element makes `.content.text` raise `AttributeError`, for an issue and in the comment filter. The model has only present-or-absent content text: an issue renders it as "None" and the filter drops the comment.
- An id text that is None, which makes `re.search` raise `TypeError`. Ids are strings.
- A comment author name that is None, which the script renders as "_From None on …". Author names are strings.
- ClosedStatus.IsClosed: `lower()` folds the ASCII letters A–Z only. Non-ASCII case mapping is not modelled.
- Plan.Answer: the tracker answers only requests whose start index is 1 + 25k with 25 results. Any other request gets an empty page. The script never sends one.
