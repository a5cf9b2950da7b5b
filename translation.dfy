/** Pure translation of source records: the numeric id, the issue body and the
    comment body. */
module Translation {
  import opened Records

  predicate IsDigit(c: char) { '0' <= c <= '9' }

  predicate AllDigits(s: string) { forall i :: 0 <= i < |s| ==> IsDigit(s[i]) }

  /** Python's `$` without MULTILINE holds at the very end of the text and
      just before a newline that ends it. */
  predicate AnchorAt(text: string, j: int)
  {
    j == |text| || (|text| > 0 && j == |text| - 1 && text[j] == '\n')
  }

  /** `re.search('\d+$', text)` finds `text[i..j]`. */
  predicate MatchAt(text: string, i: int, j: int)
  {
    0 <= i < j <= |text| && AllDigits(text[i..j]) && AnchorAt(text, j)
  }

  /** The last point where `$` can close a run of digits: before a final
      newline, otherwise the end of the text. */
  function AnchorEnd(text: string): (j: nat)
    ensures j <= |text| && AnchorAt(text, j)
  {
    if |text| > 0 && text[|text| - 1] == '\n' then |text| - 1 else |text|
  }

  /** Where the run of digits that ends at `j` starts (`j` itself when
      `text[j - 1]` is not a digit). */
  function DigitsStart(text: string, j: nat): (i: nat)
    requires j <= |text|
    ensures i <= j
  {
    if j > 0 && IsDigit(text[j - 1]) then DigitsStart(text, j - 1) else j
  }

  /** `re.search('\d+$', text).group(0)`: the id the script uses, or the
      failure of `.group` on a search that found nothing. */
  function ExtractId(idText: string): Result<string>
  {
    var j := AnchorEnd(idText);
    var i := DigitsStart(idText, j);
    if i == j then Err(NoTrailingDigits(idText)) else Ok(idText[i..j])
  }

  const NoneText: string := "None"

  /** `'%s' % text`: an absent text is rendered as "None". */
  function Text(t: Option<string>): string
  {
    match t
    case Some(s) => s
    case None => NoneText
  }

  const Gap: string := "\n\n\n"
  const OriginalIssueMark: string := "_Original issue: "
  const DateOpen: string := " ("
  const DateClose: string := ")_"

  /** The line that closes every migrated issue body. */
  function ProvenanceLine(link: string, date: string): string
  {
    OriginalIssueMark + link + DateOpen + date + DateClose
  }

  function IssueBody(content: Option<string>, link: string, date: string): string
  {
    Text(content) + Gap + ProvenanceLine(link, date)
  }

  const FromMark: string := "_From "
  const OnMark: string := " on "
  const HeaderEnd: string := ":_\n"

  /** The first line of every migrated comment body. */
  function CommentHeader(author: string, date: string): string
  {
    FromMark + author + OnMark + date + HeaderEnd
  }

  function CommentBody(author: string, date: string, content: Option<string>): string
  {
    CommentHeader(author, date) + Text(content)
  }

  /** What the script sends to open an issue, with the id it prints. */
  datatype NewIssue = NewIssue(id: string, title: string, body: string)

  /** The translation part of `add_issue_to_github`: the id first, then the
      second link; either may fail. */
  function TranslateIssue(issue: Issue): Result<NewIssue>
  {
    match ExtractId(issue.idText)
    case Err(e) => Err(e)
    case Ok(id) =>
      if |issue.links| < 2 then Err(MissingLink)
      else Ok(NewIssue(id, issue.title, IssueBody(issue.content, issue.links[1], issue.date)))
  }

  /** The translation part of `add_comment_to_github`: the id (only logged,
      but a missing one still fails), then the first author. */
  function TranslateComment(c: Comment): Result<string>
  {
    match ExtractId(c.idText)
    case Err(e) => Err(e)
    case Ok(_) =>
      if |c.authors| == 0 then Err(MissingAuthor)
      else Ok(CommentBody(c.authors[0], c.date, c.content))
  }

  /** Inverse of IssueBody for a known link and date. */
  function OriginalContent(body: string, link: string, date: string): Option<string>
  {
    var trailer := Gap + ProvenanceLine(link, date);
    if |trailer| <= |body| && body[|body| - |trailer|..] == trailer
    then Some(body[..|body| - |trailer|]) else None
  }

  /** Inverse of CommentBody for a known author and date. */
  function CommentContent(body: string, author: string, date: string): Option<string>
  {
    var header := CommentHeader(author, date);
    if header <= body then Some(body[|header|..]) else None
  }

  // ---------------------------------------------------------------- lemmas

  /** DigitsStart finds a run of digits that cannot be extended to the left. */
  lemma {:induction false} DigitsStartIsRunStart(text: string, j: nat)
    requires j <= |text|
    ensures forall k :: DigitsStart(text, j) <= k < j ==> IsDigit(text[k])
    ensures DigitsStart(text, j) > 0 ==> !IsDigit(text[DigitsStart(text, j) - 1])
  {
    if j > 0 && IsDigit(text[j - 1]) {
      DigitsStartIsRunStart(text, j - 1);
    }
  }

  /** Every match of `\d+$` ends at AnchorEnd: a match cannot end after a
      final newline, since a newline is not a digit. */
  lemma MatchEndsAtAnchor(text: string, i: int, j: int)
    requires MatchAt(text, i, j)
    ensures j == AnchorEnd(text)
  {
    assert IsDigit(text[i..j][j - 1 - i]);
  }

  /** A match cannot start before the run of digits that ends at AnchorEnd. */
  lemma MatchStartsInRun(text: string, i: int, j: int)
    requires MatchAt(text, i, j)
    ensures DigitsStart(text, j) <= i
  {
    DigitsStartIsRunStart(text, j);
    assert forall k :: i <= k < j ==> IsDigit(text[k]) by {
      forall k | i <= k < j ensures IsDigit(text[k]) {
        assert text[k] == text[i..j][k - i];
      }
    }
  }

  /** The id is exactly the leftmost match of `\d+$`, and the script fails
      exactly when there is no match. */
  lemma ExtractIdIsLeftmostMatch(idText: string)
    ensures ExtractId(idText).Err? <==> forall i, j :: !MatchAt(idText, i, j)
    ensures ExtractId(idText).Ok? ==>
      exists i, j :: MatchAt(idText, i, j) && ExtractId(idText).value == idText[i..j] &&
        forall i', j' :: MatchAt(idText, i', j') ==> i <= i' && j' == j
  {
    var j := AnchorEnd(idText);
    var i := DigitsStart(idText, j);
    DigitsStartIsRunStart(idText, j);
    forall i', j' | MatchAt(idText, i', j')
      ensures i < j && i <= i' && j' == j
    {
      MatchEndsAtAnchor(idText, i', j');
      MatchStartsInRun(idText, i', j');
    }
    if i < j {
      assert MatchAt(idText, i, j);
    }
  }

  /** The id is never empty and consists of digits only. */
  lemma ExtractIdDigits(idText: string)
    ensures ExtractId(idText).Ok? ==> ExtractId(idText).value != [] && AllDigits(ExtractId(idText).value)
  {
    DigitsStartIsRunStart(idText, AnchorEnd(idText));
  }

  lemma IssueBodyRoundTrip(content: Option<string>, link: string, date: string)
    ensures OriginalContent(IssueBody(content, link, date), link, date) == Some(Text(content))
  {
    var body := IssueBody(content, link, date);
    var trailer := Gap + ProvenanceLine(link, date);
    assert body == Text(content) + trailer;
    assert body[|body| - |trailer|..] == trailer;
    assert body[..|body| - |trailer|] == Text(content);
  }

  lemma CommentBodyRoundTrip(author: string, date: string, content: Option<string>)
    ensures CommentContent(CommentBody(author, date, content), author, date) == Some(Text(content))
  {
  }
}
