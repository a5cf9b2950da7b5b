/** What the script does to the outside world: writes to the destination
    tracker, text on standard output and page requests to the source tracker,
    kept as one log in the order they happen. */
module Effects {

  /** A write to the destination tracker. `number` is the number the
      destination gave the issue when the script opened it. */
  datatype Op =
    | Open(number: nat, title: string, body: string)
    | AddLabel(number: nat, name: string)
    | Close(number: nat)
    | AddComment(number: nat, body: string)

  /** A page request to the source tracker. */
  datatype Request =
    | IssuesPage(startIndex: int, maxResults: int)
    | CommentsPage(issueId: string, startIndex: int, maxResults: int)

  datatype Event = Write(op: Op) | Print(text: string) | Fetch(request: Request)

  /** The writes of a log, in order. */
  function Writes(events: seq<Event>): seq<Op>
  {
    if events == [] then []
    else (if events[0].Write? then [events[0].op] else []) + Writes(events[1..])
  }

  /** Everything printed, as one text. */
  function Output(events: seq<Event>): string
  {
    if events == [] then []
    else (if events[0].Print? then events[0].text else []) + Output(events[1..])
  }

  /** The page requests of a log, in order. */
  function Fetches(events: seq<Event>): seq<Request>
  {
    if events == [] then []
    else (if events[0].Fetch? then [events[0].request] else []) + Fetches(events[1..])
  }

  /** How many issues a log opens. */
  function Opens(events: seq<Event>): nat
  {
    if events == [] then 0
    else (if events[0].Write? && events[0].op.Open? then 1 else 0) + Opens(events[1..])
  }

  /** A log with its writes taken out. */
  function Unwritten(events: seq<Event>): seq<Event>
  {
    if events == [] then []
    else (if events[0].Write? then [] else [events[0]]) + Unwritten(events[1..])
  }

  // ---------------------------------------------------------------- lemmas

  /** Regrouping of a log built in four parts. */
  lemma Regroup(a: seq<Event>, b: seq<Event>, c: seq<Event>, d: seq<Event>)
    ensures a + (b + c + d) == (a + b + c) + d
    ensures a + b + c + d == a + (b + c + d)
  {
  }

  /** Regrouping of a log built in three parts. */
  lemma Assoc(a: seq<Event>, b: seq<Event>, c: seq<Event>)
    ensures a + b + c == a + (b + c)
    ensures a + [] == a
  {
  }

  lemma {:induction false} WritesAppend(a: seq<Event>, b: seq<Event>)
    ensures Writes(a + b) == Writes(a) + Writes(b)
  {
    if a != [] {
      assert (a + b)[1..] == a[1..] + b;
      WritesAppend(a[1..], b);
    } else {
      assert a + b == b;
    }
  }

  lemma {:induction false} OutputAppend(a: seq<Event>, b: seq<Event>)
    ensures Output(a + b) == Output(a) + Output(b)
  {
    if a != [] {
      assert (a + b)[1..] == a[1..] + b;
      OutputAppend(a[1..], b);
    } else {
      assert a + b == b;
    }
  }

  lemma {:induction false} FetchesAppend(a: seq<Event>, b: seq<Event>)
    ensures Fetches(a + b) == Fetches(a) + Fetches(b)
  {
    if a != [] {
      assert (a + b)[1..] == a[1..] + b;
      FetchesAppend(a[1..], b);
    } else {
      assert a + b == b;
    }
  }

  lemma {:induction false} OpensAppend(a: seq<Event>, b: seq<Event>)
    ensures Opens(a + b) == Opens(a) + Opens(b)
  {
    if a != [] {
      assert (a + b)[1..] == a[1..] + b;
      OpensAppend(a[1..], b);
    } else {
      assert a + b == b;
    }
  }

  lemma OpensOfOne(e: Event)
    ensures Opens([e]) == if e.Write? && e.op.Open? then 1 else 0
  {
    assert [e][1..] == [];
  }

  lemma {:induction false} UnwrittenAppend(a: seq<Event>, b: seq<Event>)
    ensures Unwritten(a + b) == Unwritten(a) + Unwritten(b)
  {
    if a != [] {
      assert (a + b)[1..] == a[1..] + b;
      UnwrittenAppend(a[1..], b);
    } else {
      assert a + b == b;
    }
  }

  /** Taking the writes out leaves no write, and leaves the output and the
      requests as they were. */
  lemma {:induction false} UnwrittenKeepsTheRest(events: seq<Event>)
    ensures Writes(Unwritten(events)) == []
    ensures Output(Unwritten(events)) == Output(events)
    ensures Fetches(Unwritten(events)) == Fetches(events)
  {
    if events != [] {
      var head := if events[0].Write? then [] else [events[0]];
      UnwrittenKeepsTheRest(events[1..]);
      WritesAppend(head, Unwritten(events[1..]));
      OutputAppend(head, Unwritten(events[1..]));
      FetchesAppend(head, Unwritten(events[1..]));
    }
  }
}
