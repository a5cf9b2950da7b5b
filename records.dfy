/** The records the script reads from the source tracker, and the ways reading
    them can fail. Everything the script takes from a feed entry is a plain
    value here; the date is the text the script prints, already formatted. */
module Records {

  datatype Option<+T> = None | Some(value: T)

  /** The exceptions the script raises while translating a record. Each one
      ends the whole run. */
  datatype Error =
    | NoTrailingDigits(idText: string)  // the id pattern found no match, so `.group(0)` fails
    | MissingLink                       // the entry has no second link
    | MissingAuthor                     // the comment has no author
    | MissingStatus                     // the issue has no status

  datatype Result<+T> = Ok(value: T) | Err(error: Error)

  /** An issue entry of the source feed. `content` is None when the entry has
      no content text; `links` are the hrefs of the entry's links, in order;
      `date` is the publication date as the script formats it. */
  datatype Issue = Issue(
    idText: string,
    title: string,
    content: Option<string>,
    links: seq<string>,
    date: string,
    status: Option<string>,
    labels: seq<string>)

  /** A comment entry of the source feed; `authors` are the author names. */
  datatype Comment = Comment(
    idText: string,
    authors: seq<string>,
    date: string,
    content: Option<string>)

  /** Page size of every read request. */
  const GoogleMaxResults: nat := 25

  /** The label every created issue receives first. */
  const ImportedLabel: string := "imported"
}
