/** What `add_issue_to_github` does for one issue, stated outright: the
    writes it issues, in order, the progress line it prints, and when it
    raises. */
module IssueEffects {
  import opened Records
  import opened Translation
  import opened ClosedStatus
  import opened Effects
  import opened Plan

  /** The comments the comment loop migrates from the k-th page on: those
      with content, page after page, up to the first page that has none. */
  function CommentsFrom(pages: seq<seq<Comment>>, k: nat): seq<Comment>
    decreases |pages| - k
  {
    var comments := Kept(PageAt(pages, k));
    if comments == [] then [] else comments + CommentsFrom(pages, k + 1)
  }

  /** Every comment translates: none lacks an id or an author. */
  predicate AllTranslate(comments: seq<Comment>)
  {
    forall i :: 0 <= i < |comments| ==> TranslateComment(comments[i]).Ok?
  }

  /** One comment write per comment, in order. */
  function CommentOps(number: nat, comments: seq<Comment>): (ops: seq<Op>)
    requires AllTranslate(comments)
    ensures |ops| == |comments|
  {
    seq(|comments|, i requires 0 <= i < |comments| => AddComment(number, TranslateComment(comments[i]).value))
  }

  /** One label write per source label, in order. */
  function LabelOps(number: nat, labels: seq<string>): seq<Op>
  {
    seq(|labels|, i requires 0 <= i < |labels| => AddLabel(number, labels[i]))
  }

  /** `m` progress dots. */
  function Dots(m: nat): (dots: string)
    ensures |dots| == m
  {
    seq(m, _ => '.')
  }

  lemma DotsAppend(a: nat, b: nat)
    ensures Dots(a + b) == Dots(a) + Dots(b)
    ensures Dots(1) == Dot
  {
  }

  lemma AllTranslateAppend(a: seq<Comment>, b: seq<Comment>)
    ensures AllTranslate(a + b) <==> AllTranslate(a) && AllTranslate(b)
  {
    if AllTranslate(a) && AllTranslate(b) {
      forall i | 0 <= i < |a + b|
        ensures TranslateComment((a + b)[i]).Ok?
      {
        if i >= |a| {
          assert (a + b)[i] == b[i - |a|];
        }
      }
    }
    if AllTranslate(a + b) {
      forall i | 0 <= i < |a|
        ensures TranslateComment(a[i]).Ok?
      {
        assert (a + b)[i] == a[i];
      }
      forall i | 0 <= i < |b|
        ensures TranslateComment(b[i]).Ok?
      {
        assert (a + b)[|a| + i] == b[i];
      }
    }
  }

  lemma NoneTranslate()
    ensures AllTranslate([])
  {
  }

  lemma OneTranslates(number: nat, c: Comment)
    ensures AllTranslate([c]) <==> TranslateComment(c).Ok?
    ensures TranslateComment(c).Ok? ==> CommentOps(number, [c]) == [AddComment(number, TranslateComment(c).value)]
  {
    assert [c][0] == c;
  }

  lemma NothingLogged()
    ensures Output([]) == [] && Writes([]) == []
  {
  }

  lemma CommentOpsAppend(number: nat, a: seq<Comment>, b: seq<Comment>)
    requires AllTranslate(a) && AllTranslate(b)
    ensures AllTranslate(a + b)
    ensures CommentOps(number, a + b) == CommentOps(number, a) + CommentOps(number, b)
  {
    AllTranslateAppend(a, b);
  }

  /** The comments before the first one that does not translate: those
      `add_comment_to_github` gets through before it raises, or all of them
      when none raises. */
  function Translated(comments: seq<Comment>): (done: seq<Comment>)
    ensures AllTranslate(done)
  {
    if comments == [] || TranslateComment(comments[0]).Err? then []
    else [comments[0]] + Translated(comments[1..])
  }

  /** `Translated` is the longest prefix whose comments all translate: it
      is the whole list exactly when every comment translates, and
      otherwise the comment right after it is one that does not. */
  lemma {:induction false} TranslatedPrefix(comments: seq<Comment>)
    ensures Translated(comments) <= comments
    ensures AllTranslate(comments) <==> Translated(comments) == comments
    ensures Translated(comments) != comments ==> TranslateComment(comments[|Translated(comments)|]).Err?
  {
    hide AllTranslate, TranslateComment;
    if comments == [] {
      NoneTranslate();
    } else {
      var c := comments[0];
      var rest := comments[1..];
      assert comments == [c] + rest;
      AllTranslateAppend([c], rest);
      OneTranslates(0, c);
      if TranslateComment(c).Err? {
        NoneTranslate();
      } else {
        TranslatedPrefix(rest);
        AllTranslateAppend([c], Translated(rest));
      }
    }
  }

  lemma TranslatedStep(comments: seq<Comment>)
    requires comments != []
    ensures Translated(comments)
         == if TranslateComment(comments[0]).Err? then [] else [comments[0]] + Translated(comments[1..])
  {
  }

  lemma {:induction false} TranslatedAppend(a: seq<Comment>, b: seq<Comment>)
    ensures Translated(a + b) == if AllTranslate(a) then a + Translated(b) else Translated(a)
  {
    hide AllTranslate, TranslateComment;
    if a == [] {
      assert a + b == b;
      NoneTranslate();
    } else {
      var c := a[0];
      assert (a + b)[0] == c && (a + b)[1..] == a[1..] + b;
      assert a == [c] + a[1..];
      AllTranslateAppend([c], a[1..]);
      OneTranslates(0, c);
      if TranslateComment(c).Ok? {
        TranslatedAppend(a[1..], b);
      }
    }
  }

  lemma NoOutputNoWrites(e: Event)
    requires !e.Write? && !e.Print?
    ensures Output([e]) == [] && Writes([e]) == []
  {
    assert [e][1..] == [];
  }

  lemma OneWrite(op: Op)
    ensures Output([Write(op)]) == [] && Writes([Write(op)]) == [op]
  {
    assert [Write(op)][1..] == [];
  }

  lemma OnePrint(text: string)
    ensures Output([Print(text)]) == text && Writes([Print(text)]) == []
  {
    assert [Print(text)][1..] == [];
  }

  /** `add_comment_to_github`: it goes through exactly when the comment
      translates, prints nothing and, outside a dry-run, writes the
      translated comment; a comment that does not translate raises before
      anything is written. */
  lemma CommentWriteEffects(dryRun: bool, githubIssue: Option<nat>, c: Comment)
    requires !dryRun ==> githubIssue.Some?
    ensures CommentWrite(dryRun, githubIssue, c).failure.None? <==> TranslateComment(c).Ok?
    ensures TranslateComment(c).Err? ==> CommentWrite(dryRun, githubIssue, c).events == []
    ensures TranslateComment(c).Ok? ==> Output(CommentWrite(dryRun, githubIssue, c).events) == []
    ensures TranslateComment(c).Ok? ==> Writes(CommentWrite(dryRun, githubIssue, c).events)
                                        == if dryRun then [] else [AddComment(githubIssue.value, TranslateComment(c).value)]
  {
    if TranslateComment(c).Ok? && !dryRun {
      OneWrite(AddComment(githubIssue.value, TranslateComment(c).value));
    }
  }

  lemma PageCommentsNone(dryRun: bool, githubIssue: Option<nat>)
    requires !dryRun ==> githubIssue.Some?
    ensures PageComments(dryRun, githubIssue, []) == Done([])
  {
  }

  lemma PageCommentsStep(dryRun: bool, githubIssue: Option<nat>, comments: seq<Comment>)
    requires !dryRun ==> githubIssue.Some?
    requires comments != []
    ensures PageComments(dryRun, githubIssue, comments)
         == Then(CommentWrite(dryRun, githubIssue, comments[0]),
                 Then(Done([Print(Dot)]), PageComments(dryRun, githubIssue, comments[1..])))
  {
  }

  /** The comments of one page go through exactly when each of them
      translates. */
  lemma {:induction false} PageCommentsSucceed(dryRun: bool, githubIssue: Option<nat>, comments: seq<Comment>)
    requires !dryRun ==> githubIssue.Some?
    ensures PageComments(dryRun, githubIssue, comments).failure.None? <==> AllTranslate(comments)
  {
    hide CommentWrite, PageComments, AllTranslate;
    if comments == [] {
      PageCommentsNone(dryRun, githubIssue);
      NoneTranslate();
    } else {
      PageCommentsStep(dryRun, githubIssue, comments);
      assert comments == [comments[0]] + comments[1..];
      AllTranslateAppend([comments[0]], comments[1..]);
      CommentWriteEffects(dryRun, githubIssue, comments[0]);
      OneTranslates(0, comments[0]);
      PageCommentsSucceed(dryRun, githubIssue, comments[1..]);
    }
  }

  /** The comments of one page that went through print one dot each. */
  lemma {:induction false} PageCommentsOutput(dryRun: bool, githubIssue: Option<nat>, comments: seq<Comment>)
    requires !dryRun ==> githubIssue.Some?
    requires PageComments(dryRun, githubIssue, comments).failure.None?
    ensures Output(PageComments(dryRun, githubIssue, comments).events) == Dots(|comments|)
  {
    hide CommentWrite, PageComments, AllTranslate, Output, Dots;
    if comments == [] {
      PageCommentsNone(dryRun, githubIssue);
      NothingLogged();
    } else {
      var write := CommentWrite(dryRun, githubIssue, comments[0]);
      var rest := PageComments(dryRun, githubIssue, comments[1..]);
      PageCommentsStep(dryRun, githubIssue, comments);
      PageCommentsSucceed(dryRun, githubIssue, comments);
      AllTranslateAppend([comments[0]], comments[1..]);
      assert comments == [comments[0]] + comments[1..];
      CommentWriteEffects(dryRun, githubIssue, comments[0]);
      OneTranslates(if dryRun then 0 else githubIssue.value, comments[0]);
      PageCommentsOutput(dryRun, githubIssue, comments[1..]);
      OnePrint(Dot);
      OutputAppend([Print(Dot)], rest.events);
      OutputAppend(write.events, [Print(Dot)] + rest.events);
      DotsAppend(1, |comments| - 1);
    }
  }

  /** Outside a dry-run, the comments of one page are written one by one,
      in page order, up to the first that does not translate; when the page
      goes through, that is all of them. */
  lemma {:induction false} PageCommentsWrites(dryRun: bool, githubIssue: Option<nat>, comments: seq<Comment>)
    requires !dryRun ==> githubIssue.Some?
    ensures Writes(PageComments(dryRun, githubIssue, comments).events)
         == if dryRun then [] else CommentOps(githubIssue.value, Translated(comments))
    ensures PageComments(dryRun, githubIssue, comments).failure.None? ==> AllTranslate(comments)
    ensures PageComments(dryRun, githubIssue, comments).failure.None? ==>
      Writes(PageComments(dryRun, githubIssue, comments).events)
      == if dryRun then [] else CommentOps(githubIssue.value, comments)
  {
    hide CommentWrite, PageComments, AllTranslate, Writes, CommentOps, Translated;
    PageCommentsSucceed(dryRun, githubIssue, comments);
    TranslatedPrefix(comments);
    if comments == [] {
      PageCommentsNone(dryRun, githubIssue);
      NothingLogged();
    } else {
      var c := comments[0];
      var write := CommentWrite(dryRun, githubIssue, c);
      var rest := PageComments(dryRun, githubIssue, comments[1..]);
      PageCommentsStep(dryRun, githubIssue, comments);
      CommentWriteEffects(dryRun, githubIssue, c);
      OneTranslates(if dryRun then 0 else githubIssue.value, c);
      TranslatedStep(comments);
      if TranslateComment(c).Err? {
        NothingLogged();
      } else {
        PageCommentsWrites(dryRun, githubIssue, comments[1..]);
        OnePrint(Dot);
        WritesAppend([Print(Dot)], rest.events);
        WritesAppend(write.events, [Print(Dot)] + rest.events);
        if !dryRun {
          CommentOpsAppend(githubIssue.value, [c], Translated(comments[1..]));
        }
      }
    }
  }

  /** The heading the k-th comment page prints before its comments. */
  function Heading(k: nat): string
  {
    if StartIndex(k) == 1 then AddingComments else []
  }

  /** One pass of the comment loop over a page holding comments with
      content: its request, its heading, then those comments, whether or
      not one of them raises. */
  lemma CommentPageEffects(dryRun: bool, githubIssue: Option<nat>, id: string, pages: seq<seq<Comment>>, k: nat)
    requires !dryRun ==> githubIssue.Some?
    requires Kept(PageAt(pages, k)) != []
    ensures CommentPage(dryRun, githubIssue, id, pages, k).failure
         == PageComments(dryRun, githubIssue, Kept(PageAt(pages, k))).failure
    ensures Output(CommentPage(dryRun, githubIssue, id, pages, k).events)
         == Heading(k) + Output(PageComments(dryRun, githubIssue, Kept(PageAt(pages, k))).events)
    ensures Writes(CommentPage(dryRun, githubIssue, id, pages, k).events)
         == Writes(PageComments(dryRun, githubIssue, Kept(PageAt(pages, k))).events)
  {
    hide PageComments;
    var fetch := [Fetch(CommentsPage(id, StartIndex(k), GoogleMaxResults))];
    var heading: seq<Event> := if StartIndex(k) == 1 then [Print(AddingComments)] else [];
    var comments := PageComments(dryRun, githubIssue, Kept(PageAt(pages, k)));
    NoOutputNoWrites(fetch[0]);
    OnePrint(AddingComments);
    OutputAppend(fetch, heading);
    WritesAppend(fetch, heading);
    OutputAppend(fetch + heading, comments.events);
    WritesAppend(fetch + heading, comments.events);
  }

  lemma CommentPageEmpty(dryRun: bool, githubIssue: Option<nat>, id: string, pages: seq<seq<Comment>>, k: nat)
    requires !dryRun ==> githubIssue.Some?
    requires Kept(PageAt(pages, k)) == []
    ensures CommentPage(dryRun, githubIssue, id, pages, k).failure.None?
    ensures Output(CommentPage(dryRun, githubIssue, id, pages, k).events) == []
    ensures Writes(CommentPage(dryRun, githubIssue, id, pages, k).events) == []
  {
    NoOutputNoWrites(Fetch(CommentsPage(id, StartIndex(k), GoogleMaxResults)));
  }

  lemma CommentsFromStep(pages: seq<seq<Comment>>, k: nat)
    ensures CommentsFrom(pages, k)
         == if Kept(PageAt(pages, k)) == [] then [] else Kept(PageAt(pages, k)) + CommentsFrom(pages, k + 1)
  {
  }

  /** The comment loop goes through exactly when every comment it migrates
      translates. */
  lemma {:induction false} CommentLoopSucceeds(dryRun: bool, githubIssue: Option<nat>, id: string, pages: seq<seq<Comment>>, k: nat)
    requires !dryRun ==> githubIssue.Some?
    ensures CommentLoop(dryRun, githubIssue, id, pages, k).failure.None? <==> AllTranslate(CommentsFrom(pages, k))
    decreases |pages| - k
  {
    hide CommentPage, CommentLoop, PageComments, CommentsFrom, AllTranslate;
    var comments := Kept(PageAt(pages, k));
    CommentLoopStep(dryRun, githubIssue, id, pages, k);
    CommentsFromStep(pages, k);
    if comments == [] {
      CommentPageEmpty(dryRun, githubIssue, id, pages, k);
      NoneTranslate();
    } else {
      CommentPageEffects(dryRun, githubIssue, id, pages, k);
      PageCommentsSucceed(dryRun, githubIssue, comments);
      CommentLoopSucceeds(dryRun, githubIssue, id, pages, k + 1);
      AllTranslateAppend(comments, CommentsFrom(pages, k + 1));
    }
  }

  /** A comment loop that went through prints the heading, if the first
      page it looks at has comments with content and is the first page of
      the feed, then one dot per migrated comment. */
  lemma {:induction false} CommentLoopOutput(dryRun: bool, githubIssue: Option<nat>, id: string, pages: seq<seq<Comment>>, k: nat)
    requires !dryRun ==> githubIssue.Some?
    requires CommentLoop(dryRun, githubIssue, id, pages, k).failure.None?
    ensures Output(CommentLoop(dryRun, githubIssue, id, pages, k).events)
         == (if CommentsFrom(pages, k) != [] then Heading(k) else []) + Dots(|CommentsFrom(pages, k)|)
    decreases |pages| - k
  {
    hide CommentPage, CommentLoop, PageComments, CommentsFrom, AllTranslate, Output, Dots;
    var comments := Kept(PageAt(pages, k));
    CommentLoopStep(dryRun, githubIssue, id, pages, k);
    CommentsFromStep(pages, k);
    if comments == [] {
      CommentPageEmpty(dryRun, githubIssue, id, pages, k);
    } else {
      var page := CommentPage(dryRun, githubIssue, id, pages, k);
      var rest := CommentLoop(dryRun, githubIssue, id, pages, k + 1);
      var later := CommentsFrom(pages, k + 1);
      assert page.failure.None? && rest.failure.None?;
      assert Output(page.events) == Heading(k) + Dots(|comments|) by {
        CommentPageEffects(dryRun, githubIssue, id, pages, k);
        PageCommentsOutput(dryRun, githubIssue, comments);
      }
      assert Output(rest.events) == Dots(|later|) by {
        CommentLoopOutput(dryRun, githubIssue, id, pages, k + 1);
        assert Heading(k + 1) == [];
      }
      OutputAppend(page.events, rest.events);
      DotsAppend(|comments|, |later|);
      StringAssoc(Heading(k), Dots(|comments|), Dots(|later|));
    }
  }

  /** Outside a dry-run, the comment loop writes the comments it migrates,
      in page order, up to the first that does not translate; when the loop
      goes through, that is every comment it migrates. */
  lemma {:induction false} CommentLoopWrites(dryRun: bool, githubIssue: Option<nat>, id: string, pages: seq<seq<Comment>>, k: nat)
    requires !dryRun ==> githubIssue.Some?
    ensures Writes(CommentLoop(dryRun, githubIssue, id, pages, k).events)
         == if dryRun then [] else CommentOps(githubIssue.value, Translated(CommentsFrom(pages, k)))
    ensures CommentLoop(dryRun, githubIssue, id, pages, k).failure.None? ==> AllTranslate(CommentsFrom(pages, k))
    ensures CommentLoop(dryRun, githubIssue, id, pages, k).failure.None? ==>
      Writes(CommentLoop(dryRun, githubIssue, id, pages, k).events)
      == if dryRun then [] else CommentOps(githubIssue.value, CommentsFrom(pages, k))
    decreases |pages| - k
  {
    hide CommentPage, CommentLoop, PageComments, CommentsFrom, AllTranslate, Writes, CommentOps, Translated;
    CommentLoopSucceeds(dryRun, githubIssue, id, pages, k);
    TranslatedPrefix(CommentsFrom(pages, k));
    var comments := Kept(PageAt(pages, k));
    CommentLoopStep(dryRun, githubIssue, id, pages, k);
    CommentsFromStep(pages, k);
    if comments == [] {
      CommentPageEmpty(dryRun, githubIssue, id, pages, k);
      TranslatedPrefix([]);
      NoneTranslate();
    } else {
      var page := CommentPage(dryRun, githubIssue, id, pages, k);
      var later := CommentsFrom(pages, k + 1);
      CommentPageEffects(dryRun, githubIssue, id, pages, k);
      PageCommentsWrites(dryRun, githubIssue, comments);
      PageCommentsSucceed(dryRun, githubIssue, comments);
      TranslatedAppend(comments, later);
      TranslatedPrefix(comments);
      if page.failure.None? {
        var rest := CommentLoop(dryRun, githubIssue, id, pages, k + 1);
        CommentLoopWrites(dryRun, githubIssue, id, pages, k + 1);
        WritesAppend(page.events, rest.events);
        if !dryRun {
          CommentOpsAppend(githubIssue.value, comments, Translated(later));
        }
      }
    }
  }

  lemma LabelStepsNone(dryRun: bool, githubIssue: Option<nat>)
    requires !dryRun ==> githubIssue.Some?
    ensures LabelSteps(dryRun, githubIssue, []) == []
  {
  }

  lemma LabelStepsStep(dryRun: bool, githubIssue: Option<nat>, labels: seq<string>)
    requires !dryRun ==> githubIssue.Some?
    requires labels != []
    ensures LabelSteps(dryRun, githubIssue, labels)
         == (if dryRun then [] else [Write(AddLabel(githubIssue.value, labels[0]))]) + ([Print(Dot)] + LabelSteps(dryRun, githubIssue, labels[1..]))
  {
  }

  /** The label loop prints one dot per label. */
  lemma {:induction false} LabelStepsOutput(dryRun: bool, githubIssue: Option<nat>, labels: seq<string>)
    requires !dryRun ==> githubIssue.Some?
    ensures Output(LabelSteps(dryRun, githubIssue, labels)) == Dots(|labels|)
  {
    hide LabelSteps;
    if labels == [] {
      LabelStepsNone(dryRun, githubIssue);
    } else {
      var write: seq<Event> := if dryRun then [] else [Write(AddLabel(githubIssue.value, labels[0]))];
      var rest := LabelSteps(dryRun, githubIssue, labels[1..]);
      LabelStepsStep(dryRun, githubIssue, labels);
      LabelStepsOutput(dryRun, githubIssue, labels[1..]);
      if !dryRun {
        OneWrite(AddLabel(githubIssue.value, labels[0]));
      }
      OnePrint(Dot);
      OutputAppend([Print(Dot)], rest);
      OutputAppend(write, [Print(Dot)] + rest);
      DotsAppend(1, |labels| - 1);
    }
  }

  /** The label loop writes, outside a dry-run, each label, in source
      order. */
  lemma {:induction false} LabelStepsWrites(dryRun: bool, githubIssue: Option<nat>, labels: seq<string>)
    requires !dryRun ==> githubIssue.Some?
    ensures Writes(LabelSteps(dryRun, githubIssue, labels)) == if dryRun then [] else LabelOps(githubIssue.value, labels)
  {
    hide LabelSteps;
    if labels == [] {
      LabelStepsNone(dryRun, githubIssue);
    } else {
      var write: seq<Event> := if dryRun then [] else [Write(AddLabel(githubIssue.value, labels[0]))];
      var rest := LabelSteps(dryRun, githubIssue, labels[1..]);
      LabelStepsStep(dryRun, githubIssue, labels);
      LabelStepsWrites(dryRun, githubIssue, labels[1..]);
      if !dryRun {
        OneWrite(AddLabel(githubIssue.value, labels[0]));
        assert LabelOps(githubIssue.value, labels) == [AddLabel(githubIssue.value, labels[0])] + LabelOps(githubIssue.value, labels[1..]);
      }
      OnePrint(Dot);
      WritesAppend([Print(Dot)], rest);
      WritesAppend(write, [Print(Dot)] + rest);
    }
  }

  lemma LabelSectionEffects(dryRun: bool, githubIssue: Option<nat>, labels: seq<string>)
    requires !dryRun ==> githubIssue.Some?
    ensures Output(LabelSection(dryRun, githubIssue, labels)) == if |labels| > 0 then AddingLabels + Dots(|labels|) else []
    ensures Writes(LabelSection(dryRun, githubIssue, labels)) == if dryRun then [] else LabelOps(githubIssue.value, labels)
  {
    hide LabelSteps;
    LabelStepsOutput(dryRun, githubIssue, labels);
    LabelStepsWrites(dryRun, githubIssue, labels);
    if |labels| > 0 {
      OnePrint(AddingLabels);
      OutputAppend([Print(AddingLabels)], LabelSteps(dryRun, githubIssue, labels));
      WritesAppend([Print(AddingLabels)], LabelSteps(dryRun, githubIssue, labels));
    }
  }

  lemma OpeningEffects(dryRun: bool, n: NewIssue, number: nat)
    ensures Output(Opening(dryRun, n, number)) == AddingIssue + n.id
    ensures Writes(Opening(dryRun, n, number))
         == if dryRun then [] else [Open(number, n.title, n.body), AddLabel(number, ImportedLabel)]
  {
    var progress := [Print(AddingIssue + n.id)];
    var open := Write(Open(number, n.title, n.body));
    var imported := Write(AddLabel(number, ImportedLabel));
    OnePrint(AddingIssue + n.id);
    OneWrite(open.op);
    OneWrite(imported.op);
    assert [open, imported] == [open] + [imported];
    OutputAppend([open], [imported]);
    WritesAppend([open], [imported]);
    OutputAppend(progress, [open, imported]);
    WritesAppend(progress, [open, imported]);
    assert progress + [] == progress;
  }

  lemma ClosingEffects(dryRun: bool, status: string, number: nat)
    ensures Output(Closing(dryRun, status, number)) == []
    ensures Writes(Closing(dryRun, status, number)) == if IsClosed(status) && !dryRun then [Close(number)] else []
  {
    OneWrite(Close(number));
  }

  lemma IssueRunParts(dryRun: bool, t: Tracker, issue: Issue, number: nat)
    requires TranslateIssue(issue).Ok? && issue.status.Some?
    ensures IssueRun(dryRun, t, issue, number)
         == Then(Done(Opening(dryRun, TranslateIssue(issue).value, number)
                      + Closing(dryRun, issue.status.value, number)
                      + LabelSection(dryRun, if dryRun then None else Some(number), issue.labels)),
                 Then(CommentLoop(dryRun, if dryRun then None else Some(number), TranslateIssue(issue).value.id,
                                  CommentPages(t, TranslateIssue(issue).value.id), 0),
                      Done([Print(Newline)])))
  {
  }

  /** The two ways `add_issue_to_github` raises before its comment loop. */
  lemma IssueRunStopsEarly(dryRun: bool, t: Tracker, issue: Issue, number: nat)
    ensures TranslateIssue(issue).Err? ==> IssueRun(dryRun, t, issue, number).events == []
    ensures TranslateIssue(issue).Ok? && issue.status.None? ==>
      IssueRun(dryRun, t, issue, number).events == Opening(dryRun, TranslateIssue(issue).value, number)
  {
  }

  /** The comments `add_issue_to_github` migrates for an issue it
      translated. */
  function IssueComments(t: Tracker, issue: Issue): seq<Comment>
    requires TranslateIssue(issue).Ok?
  {
    CommentsFrom(CommentPages(t, TranslateIssue(issue).value.id), 0)
  }

  /** `add_issue_to_github` goes through exactly when the issue translates,
      has a status and every comment it migrates translates. */
  lemma IssueRunSucceeds(dryRun: bool, t: Tracker, issue: Issue, number: nat)
    ensures IssueRun(dryRun, t, issue, number).failure.None? <==>
      TranslateIssue(issue).Ok? && issue.status.Some? && AllTranslate(IssueComments(t, issue))
  {
    hide CommentLoop, Opening, Closing, LabelSection, AllTranslate, CommentsFrom;
    if TranslateIssue(issue).Ok? && issue.status.Some? {
      var n := TranslateIssue(issue).value;
      var githubIssue := if dryRun then None else Some(number);
      IssueRunParts(dryRun, t, issue, number);
      CommentLoopSucceeds(dryRun, githubIssue, n.id, CommentPages(t, n.id), 0);
    }
  }

  /** Outside a dry-run, what `add_issue_to_github` has written for one
      issue, whatever its outcome. An issue that does not translate raises
      before any write. One without a status raises right after the new
      issue and its "imported" label. Otherwise, in this order: the new
      issue, the "imported" label, the close if its status counts as
      closed, its own labels in source order, and its migrated comments in
      page order up to the first that does not translate; all under the
      number the destination gave it. An issue that went through gets every
      migrated comment. */
  lemma IssueRunWrites(t: Tracker, issue: Issue, number: nat)
    ensures TranslateIssue(issue).Err? ==> Writes(IssueRun(false, t, issue, number).events) == []
    ensures TranslateIssue(issue).Ok? && issue.status.None? ==>
      Writes(IssueRun(false, t, issue, number).events)
      == [Open(number, TranslateIssue(issue).value.title, TranslateIssue(issue).value.body), AddLabel(number, ImportedLabel)]
    ensures TranslateIssue(issue).Ok? && issue.status.Some? ==>
      Writes(IssueRun(false, t, issue, number).events)
      == [Open(number, TranslateIssue(issue).value.title, TranslateIssue(issue).value.body), AddLabel(number, ImportedLabel)]
       + (if IsClosed(issue.status.value) then [Close(number)] else [])
       + LabelOps(number, issue.labels)
       + CommentOps(number, Translated(IssueComments(t, issue)))
    ensures IssueRun(false, t, issue, number).failure.None? ==>
      TranslateIssue(issue).Ok? && issue.status.Some? && AllTranslate(IssueComments(t, issue))
      && Writes(IssueRun(false, t, issue, number).events)
      == [Open(number, TranslateIssue(issue).value.title, TranslateIssue(issue).value.body), AddLabel(number, ImportedLabel)]
       + (if IsClosed(issue.status.value) then [Close(number)] else [])
       + LabelOps(number, issue.labels)
       + CommentOps(number, IssueComments(t, issue))
  {
    hide IssueRun, CommentLoop, Opening, Closing, LabelSection, AllTranslate, CommentsFrom, Writes, CommentOps, LabelOps, Translated;
    IssueRunSucceeds(false, t, issue, number);
    if TranslateIssue(issue).Err? {
      IssueRunStopsEarly(false, t, issue, number);
      NothingLogged();
    } else {
      var n := TranslateIssue(issue).value;
      OpeningEffects(false, n, number);
      if issue.status.None? {
        IssueRunStopsEarly(false, t, issue, number);
      } else {
        var status := issue.status.value;
        IssueRunParts(false, t, issue, number);
        var opening := Opening(false, n, number);
        var closing := Closing(false, status, number);
        var labels := LabelSection(false, Some(number), issue.labels);
        var comments := CommentLoop(false, Some(number), n.id, CommentPages(t, n.id), 0);
        ClosingEffects(false, status, number);
        LabelSectionEffects(false, Some(number), issue.labels);
        CommentLoopWrites(false, Some(number), n.id, CommentPages(t, n.id), 0);
        TranslatedPrefix(IssueComments(t, issue));
        WritesAppend(opening, closing);
        WritesAppend(opening + closing, labels);
        if comments.failure.None? {
          OnePrint(Newline);
          WritesAppend(comments.events, [Print(Newline)]);
          WritesAppend(opening + closing + labels, comments.events + [Print(Newline)]);
        } else {
          WritesAppend(opening + closing + labels, comments.events);
        }
      }
    }
  }

  /** The progress line of an issue that went through: "Adding issue " and
      its id; ", adding labels" and one dot per label if it has labels;
      ", adding comments" and one dot per migrated comment if the first
      comment page has comments with content; then a newline. */
  lemma IssueRunOutput(dryRun: bool, t: Tracker, issue: Issue, number: nat)
    requires IssueRun(dryRun, t, issue, number).failure.None?
    ensures TranslateIssue(issue).Ok? && issue.status.Some?
    ensures Output(IssueRun(dryRun, t, issue, number).events)
         == AddingIssue + TranslateIssue(issue).value.id
          + (if |issue.labels| > 0 then AddingLabels + Dots(|issue.labels|) else [])
          + ((if IssueComments(t, issue) != [] then AddingComments else []) + Dots(|IssueComments(t, issue)|))
          + Newline
  {
    hide IssueRun, CommentLoop, Opening, Closing, LabelSection, AllTranslate, CommentsFrom, Output, Dots;
    IssueRunSucceeds(dryRun, t, issue, number);
    var n := TranslateIssue(issue).value;
    var status := issue.status.value;
    var githubIssue := if dryRun then None else Some(number);
    var opening := Opening(dryRun, n, number);
    var closing := Closing(dryRun, status, number);
    var labels := LabelSection(dryRun, githubIssue, issue.labels);
    var comments := CommentLoop(dryRun, githubIssue, n.id, CommentPages(t, n.id), 0);
    var migrated := IssueComments(t, issue);
    assert Output(IssueRun(dryRun, t, issue, number).events)
        == Output(opening) + Output(closing) + Output(labels) + (Output(comments.events) + Newline) by {
      IssueRunParts(dryRun, t, issue, number);
      OnePrint(Newline);
      OutputAppend(opening, closing);
      OutputAppend(opening + closing, labels);
      OutputAppend(comments.events, [Print(Newline)]);
      OutputAppend(opening + closing + labels, comments.events + [Print(Newline)]);
    }
    assert Output(opening) == AddingIssue + n.id by {
      OpeningEffects(dryRun, n, number);
    }
    assert Output(closing) == [] by {
      ClosingEffects(dryRun, status, number);
    }
    assert Output(labels) == if |issue.labels| > 0 then AddingLabels + Dots(|issue.labels|) else [] by {
      LabelSectionEffects(dryRun, githubIssue, issue.labels);
    }
    assert Output(comments.events) == (if migrated != [] then AddingComments else []) + Dots(|migrated|) by {
      CommentLoopSucceeds(dryRun, githubIssue, n.id, CommentPages(t, n.id), 0);
      CommentLoopOutput(dryRun, githubIssue, n.id, CommentPages(t, n.id), 0);
      assert Heading(0) == AddingComments;
    }
    StringAssoc(Output(opening) + Output(closing) + Output(labels), Output(comments.events), Newline);
    assert Output(opening) + Output(closing) == Output(opening);
  }

  lemma StringAssoc(a: string, b: string, c: string)
    ensures a + (b + c) == a + b + c
  {
  }
}
