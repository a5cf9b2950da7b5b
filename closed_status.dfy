/** The test that decides whether a migrated issue is closed. The script asks
    whether the lower-cased status is a SUBSTRING of one fixed lower-cased
    string, not whether it is one of the words of that string. */
module ClosedStatus {

  /** The string the status is searched in, "invalid closed fixed wontfix
      verified done duplicate", written in four pieces of at most fourteen
      characters so that proofs can look at each piece on its own. */
  const ClosedVocabulary: string := Piece1 + Piece2 + Piece3 + Piece4
  const Piece1: string := "invalid closed"
  const Piece2: string := " fixed wontfix"
  const Piece3: string := " verified done"
  const Piece4: string := " duplicate"

  /** The words of ClosedVocabulary. */
  const ClosedWords: seq<string> := ["invalid", "closed", "fixed", "wontfix", "verified", "done", "duplicate"]

  /** Lower-casing of one character; only A to Z change. */
  function LowerChar(c: char): char
  {
    if 'A' <= c <= 'Z' then (c as int - 'A' as int + 'a' as int) as char else c
  }

  /** `s.lower()`, over the ASCII letters. */
  function Lower(s: string): string
  {
    seq(|s|, i requires 0 <= i < |s| => LowerChar(s[i]))
  }

  /** `needle` occurs in `haystack` starting at index `i`. */
  predicate OccursAt(haystack: string, needle: string, i: int)
  {
    0 <= i && i + |needle| <= |haystack| && haystack[i..i + |needle|] == needle
  }

  /** Python's `needle in haystack` on strings: is `needle` a substring? */
  function Contains(haystack: string, needle: string): bool
    decreases |haystack|
  {
    needle <= haystack || (|haystack| > 0 && Contains(haystack[1..], needle))
  }

  /** `status.lower() in "invalid closed fixed wontfix verified done duplicate".lower()` */
  function IsClosed(status: string): bool
  {
    Contains(Lower(ClosedVocabulary), Lower(status))
  }

  // ---------------------------------------------------------------- lemmas

  lemma {:induction false} OccursThenContains(haystack: string, needle: string, i: int)
    requires OccursAt(haystack, needle, i)
    ensures Contains(haystack, needle)
    decreases i
  {
    if i == 0 {
      assert needle == haystack[..|needle|];
    } else {
      assert haystack[1..][i - 1..i - 1 + |needle|] == haystack[i..i + |needle|];
      OccursThenContains(haystack[1..], needle, i - 1);
    }
  }

  lemma {:induction false} ContainsThenOccurs(haystack: string, needle: string)
    requires Contains(haystack, needle)
    ensures exists i :: OccursAt(haystack, needle, i)
    decreases |haystack|
  {
    if needle <= haystack {
      assert OccursAt(haystack, needle, 0);
    } else {
      var tail := haystack[1..];
      ContainsThenOccurs(tail, needle);
      var i :| OccursAt(tail, needle, i);
      assert haystack[i + 1..i + 1 + |needle|] == tail[i..i + |needle|];
      assert OccursAt(haystack, needle, i + 1);
    }
  }

  /** Contains is substring search: it holds exactly when the needle occurs at
      some index. */
  lemma ContainsIffOccurs(haystack: string, needle: string)
    ensures Contains(haystack, needle) <==> exists i :: OccursAt(haystack, needle, i)
  {
    if Contains(haystack, needle) {
      ContainsThenOccurs(haystack, needle);
    }
    if i :| OccursAt(haystack, needle, i) {
      OccursThenContains(haystack, needle, i);
    }
  }

  lemma LowerAppend(a: string, b: string)
    ensures Lower(a + b) == Lower(a) + Lower(b)
  {
  }

  predicate NoUpperCase(s: string)
  {
    forall i :: 0 <= i < |s| ==> !('A' <= s[i] <= 'Z')
  }

  lemma LowerOfLowerCase(s: string)
    requires NoUpperCase(s)
    ensures Lower(s) == s
  {
  }

  lemma VocabularyIsLowerCase()
    ensures Lower(ClosedVocabulary) == ClosedVocabulary
  {
    assert NoUpperCase(Piece1);
    assert NoUpperCase(Piece2);
    assert NoUpperCase(Piece3);
    assert NoUpperCase(Piece4);
    LowerOfLowerCase(Piece1);
    LowerOfLowerCase(Piece2);
    LowerOfLowerCase(Piece3);
    LowerOfLowerCase(Piece4);
    LowerAppend(Piece1, Piece2);
    LowerAppend(Piece1 + Piece2, Piece3);
    LowerAppend(Piece1 + Piece2 + Piece3, Piece4);
  }

  /** An occurrence in one piece is an occurrence in the whole, shifted by
      what comes before the piece. */
  lemma OccursWithin(before: string, piece: string, after: string, needle: string, i: int)
    requires OccursAt(piece, needle, i)
    ensures OccursAt(before + piece + after, needle, |before| + i)
  {
    assert (before + piece + after)[|before| + i..|before| + i + |needle|] == piece[i..i + |needle|];
  }

  lemma InPiece1(needle: string, i: int)
    requires OccursAt(Piece1, needle, i)
    ensures OccursAt(ClosedVocabulary, needle, i)
  {
    OccursWithin([], Piece1, Piece2 + Piece3 + Piece4, needle, i);
    assert [] + Piece1 + (Piece2 + Piece3 + Piece4) == ClosedVocabulary;
  }

  lemma InPiece2(needle: string, i: int)
    requires OccursAt(Piece2, needle, i)
    ensures OccursAt(ClosedVocabulary, needle, 14 + i)
  {
    OccursWithin(Piece1, Piece2, Piece3 + Piece4, needle, i);
    assert Piece1 + Piece2 + (Piece3 + Piece4) == ClosedVocabulary;
  }

  lemma InPiece3(needle: string, i: int)
    requires OccursAt(Piece3, needle, i)
    ensures OccursAt(ClosedVocabulary, needle, 28 + i)
  {
    OccursWithin(Piece1 + Piece2, Piece3, Piece4, needle, i);
  }

  lemma InPiece4(needle: string, i: int)
    requires OccursAt(Piece4, needle, i)
    ensures OccursAt(ClosedVocabulary, needle, 42 + i)
  {
    OccursWithin(Piece1 + Piece2 + Piece3, Piece4, [], needle, i);
    assert Piece1 + Piece2 + Piece3 + Piece4 + [] == ClosedVocabulary;
  }

  /** Where each vocabulary word starts in ClosedVocabulary. */
  lemma WordsOfPiece1()
    ensures OccursAt(ClosedVocabulary, "invalid", 0) && OccursAt(ClosedVocabulary, "closed", 8)
  {
    assert Piece1[0..7] == "invalid";
    InPiece1("invalid", 0);
    assert Piece1[8..14] == "closed";
    InPiece1("closed", 8);
  }

  lemma WordsOfPiece2()
    ensures OccursAt(ClosedVocabulary, "fixed", 15) && OccursAt(ClosedVocabulary, "wontfix", 21)
  {
    assert Piece2[1..6] == "fixed";
    InPiece2("fixed", 1);
    assert Piece2[7..14] == "wontfix";
    InPiece2("wontfix", 7);
  }

  lemma WordsOfPiece3()
    ensures OccursAt(ClosedVocabulary, "verified", 29) && OccursAt(ClosedVocabulary, "done", 38)
  {
    assert Piece3[1..9] == "verified";
    InPiece3("verified", 1);
    assert Piece3[10..14] == "done";
    InPiece3("done", 10);
  }

  lemma WordsOfPiece4()
    ensures OccursAt(ClosedVocabulary, "duplicate", 43)
  {
    assert Piece4[1..10] == "duplicate";
    InPiece4("duplicate", 1);
  }

  /** The status is closed exactly when its lower-cased form occurs somewhere
      in the vocabulary string, at any position, words or not. */
  lemma IsClosedIffOccurs(status: string)
    ensures IsClosed(status) <==> exists i :: OccursAt(ClosedVocabulary, Lower(status), i)
  {
    VocabularyIsLowerCase();
    ContainsIffOccurs(ClosedVocabulary, Lower(status));
  }

  /** Each word of the vocabulary closes the issue, whatever its letter case. */
  lemma VocabularyWordCloses(status: string)
    requires Lower(status) in ClosedWords
    ensures IsClosed(status)
  {
    IsClosedIffOccurs(status);
    WordsOfPiece1();
    WordsOfPiece2();
    WordsOfPiece3();
    WordsOfPiece4();
  }

  /** `a` immediately followed by `b` somewhere in `s`. */
  predicate HasPair(s: string, a: char, b: char)
  {
    exists i :: 0 <= i < |s| - 1 && s[i] == a && s[i + 1] == b
  }

  lemma OccursPair(haystack: string, needle: string, i: int, p: int)
    requires OccursAt(haystack, needle, i) && 0 <= p < |needle| - 1
    ensures HasPair(haystack, needle[p], needle[p + 1])
  {
    assert haystack[i + p] == haystack[i..i + |needle|][p];
    assert haystack[i + p + 1] == haystack[i..i + |needle|][p + 1];
  }

  /** Every two adjacent characters of a substring are adjacent in the
      string that contains it. */
  lemma ContainsPair(haystack: string, needle: string, p: int)
    requires Contains(haystack, needle) && 0 <= p < |needle| - 1
    ensures HasPair(haystack, needle[p], needle[p + 1])
  {
    ContainsThenOccurs(haystack, needle);
    var i :| OccursAt(haystack, needle, i);
    OccursPair(haystack, needle, i, p);
  }

  /** Every two adjacent characters of a closing status, lower-cased, are
      adjacent somewhere in the vocabulary; so a status holding a pair the
      vocabulary lacks leaves the issue open. */
  lemma ClosedStatusPairs(status: string, p: int)
    requires 0 <= p < |status| - 1
    ensures IsClosed(status) ==> HasPair(ClosedVocabulary, LowerChar(status[p]), LowerChar(status[p + 1]))
  {
    if IsClosed(status) {
      ContainsPair(Lower(ClosedVocabulary), Lower(status), p);
      VocabularyIsLowerCase();
    }
  }

  lemma HasPairAppend(a: string, b: string, x: char, y: char)
    requires HasPair(a + b, x, y)
    ensures HasPair(a, x, y) || HasPair(b, x, y) || (|a| > 0 && |b| > 0 && a[|a| - 1] == x && b[0] == y)
  {
    var i :| 0 <= i < |a + b| - 1 && (a + b)[i] == x && (a + b)[i + 1] == y;
    if i < |a| - 1 {
      assert a[i] == x && a[i + 1] == y;
    } else if i >= |a| {
      assert b[i - |a|] == x && b[i - |a| + 1] == y;
    }
  }

  /** A pair no piece holds, and that is not where two pieces meet (the
      second piece of such a pair is always a space), is not in the
      vocabulary. */
  lemma VocabularyLacksPair(x: char, y: char)
    requires !HasPair(Piece1, x, y) && !HasPair(Piece2, x, y)
    requires !HasPair(Piece3, x, y) && !HasPair(Piece4, x, y)
    requires y != ' '
    ensures !HasPair(ClosedVocabulary, x, y)
  {
    assert Piece2[0] == ' ' && Piece3[0] == ' ' && Piece4[0] == ' ';
    if HasPair(Piece1 + Piece2, x, y) {
      HasPairAppend(Piece1, Piece2, x, y);
    }
    if HasPair(Piece1 + Piece2 + Piece3, x, y) {
      HasPairAppend(Piece1 + Piece2, Piece3, x, y);
    }
    if HasPair(Piece1 + Piece2 + Piece3 + Piece4, x, y) {
      HasPairAppend(Piece1 + Piece2 + Piece3, Piece4, x, y);
    }
  }

  /** No piece of the vocabulary has an `o` right before a `p`, an `s`
      right before a `t`, or two `c` in a row. */
  lemma PiecesLackPairs()
    ensures !HasPair(Piece1, 'o', 'p') && !HasPair(Piece2, 'o', 'p') && !HasPair(Piece3, 'o', 'p') && !HasPair(Piece4, 'o', 'p')
    ensures !HasPair(Piece1, 's', 't') && !HasPair(Piece2, 's', 't') && !HasPair(Piece3, 's', 't') && !HasPair(Piece4, 's', 't')
    ensures !HasPair(Piece1, 'c', 'c') && !HasPair(Piece2, 'c', 'c') && !HasPair(Piece3, 'c', 'c') && !HasPair(Piece4, 'c', 'c')
  {
  }

  /** The statuses of an issue still being worked on leave it open: "open"
      needs an `o` right before a `p`, "started" an `s` right before a `t`
      and "accepted" two `c` in a row, and the vocabulary has none of
      these pairs. */
  lemma ActiveStatusesStayOpen()
    ensures !IsClosed("open") && !IsClosed("Open")
    ensures !IsClosed("started") && !IsClosed("Started")
    ensures !IsClosed("accepted") && !IsClosed("Accepted")
  {
    hide IsClosed, Lower, Contains;
    PiecesLackPairs();
    assert !IsClosed("open") && !IsClosed("Open") by {
      VocabularyLacksPair('o', 'p');
      assert LowerChar('O') == LowerChar('o') == 'o' && LowerChar('p') == 'p';
      assert "open"[0] == 'o' && "open"[1] == 'p' && "Open"[0] == 'O' && "Open"[1] == 'p';
      ClosedStatusPairs("open", 0);
      ClosedStatusPairs("Open", 0);
    }
    assert !IsClosed("started") && !IsClosed("Started") by {
      VocabularyLacksPair('s', 't');
      assert LowerChar('S') == LowerChar('s') == 's' && LowerChar('t') == 't';
      assert "started"[0] == 's' && "started"[1] == 't' && "Started"[0] == 'S' && "Started"[1] == 't';
      ClosedStatusPairs("started", 0);
      ClosedStatusPairs("Started", 0);
    }
    VocabularyLacksPair('c', 'c');
    assert LowerChar('c') == 'c';
    assert "accepted"[1] == 'c' && "accepted"[2] == 'c' && "Accepted"[1] == 'c' && "Accepted"[2] == 'c';
    ClosedStatusPairs("accepted", 1);
    ClosedStatusPairs("Accepted", 1);
  }

  /** Letter case does not matter: "FIXED", "Fixed" and "fixed" all close. */
  lemma ClosedInAnyCase()
    ensures IsClosed("FIXED") && IsClosed("Fixed") && IsClosed("fixed")
    ensures IsClosed("WontFix") && IsClosed("Duplicate") && IsClosed("INVALID")
  {
    assert Lower("FIXED") == "fixed" && Lower("Fixed") == "fixed" && Lower("fixed") == "fixed";
    VocabularyWordCloses("FIXED");
    VocabularyWordCloses("Fixed");
    VocabularyWordCloses("fixed");
    assert Lower("WontFix") == "wontfix";
    VocabularyWordCloses("WontFix");
    assert Lower("Duplicate") == "duplicate";
    VocabularyWordCloses("Duplicate");
    assert Lower("INVALID") == "invalid";
    VocabularyWordCloses("INVALID");
  }

  /** The substring test also closes issues whose status is only part of a
      word; neither status is a vocabulary word. */
  lemma PartsOfWordsClose()
    ensures IsClosed("fix") && "fix" !in ClosedWords
    ensures IsClosed("Don") && "don" !in ClosedWords
  {
    IsClosedIffOccurs("fix");
    assert Lower("fix") == "fix";
    assert Piece2[1..4] == "fix";
    InPiece2("fix", 1);
    IsClosedIffOccurs("Don");
    assert Lower("Don") == "don";
    assert Piece3[10..13] == "don";
    InPiece3("don", 10);
  }

  /** It also closes issues whose status spans two words, or is empty. */
  lemma SpansAndEmptyClose()
    ensures IsClosed("d closed") && "d closed" !in ClosedWords
    ensures IsClosed("") && "" !in ClosedWords
  {
    IsClosedIffOccurs("d closed");
    assert Lower("d closed") == "d closed";
    assert Piece1[6..14] == "d closed";
    InPiece1("d closed", 6);
    IsClosedIffOccurs("");
    assert Lower("") == "";
    assert OccursAt(ClosedVocabulary, "", 0);
  }

  /** Only the lower-cased status matters. */
  lemma IsClosedIgnoresCase(a: string, b: string)
    requires Lower(a) == Lower(b)
    ensures IsClosed(a) == IsClosed(b)
  {
  }
}
