/** Splitting a growing text on a delimiter: the piece of `String.prototype.split` shared by
    the SSE reader and the JSON-RPC line reader. */
module TextSplitting {
  import opened Common

  // ---------------------------------------------------------------------
  // JavaScript's `split` on the three delimiters the adapters use
  // ---------------------------------------------------------------------

  /** Length of the match of /\r?\n/ that starts exactly at `i`; 0 when there is none. */
  function NewlineAt(s: string, i: nat): (n: nat)
    ensures n <= 2 && (n > 0 ==> i + n <= |s| && s[i + n - 1] == '\n')
  {
    if i < |s| && s[i] == '\n' then 1
    else if i + 1 < |s| && s[i] == '\r' && s[i + 1] == '\n' then 2
    else 0
  }

  /** Length of the match of /\r?\n\r?\n/ that starts exactly at `i`; 0 when there is none. */
  function BlankLineAt(s: string, i: nat): (n: nat)
    ensures n > 0 ==> i + n <= |s|
  {
    var first := NewlineAt(s, i);
    var second := NewlineAt(s, i + first);
    if first > 0 && second > 0 then first + second else 0
  }

  /** `\n`, /\r?\n/ and /\r?\n\r?\n/. */
  datatype Delimiter = LineFeed | Newline | BlankLine {
    /** Length of the match that starts exactly at `i`; 0 when there is none. */
    function MatchAt(s: string, i: nat): (n: nat)
      ensures n > 0 ==> i + n <= |s|
    {
      match this
      case LineFeed => if i < |s| && s[i] == '\n' then 1 else 0
      case Newline => NewlineAt(s, i)
      case BlankLine => BlankLineAt(s, i)
    }
  }

  /** In characters: a line ends with one of two texts, a record with one of four. */
  lemma DelimitersAre(s: string, i: nat)
    requires i <= |s|
    ensures var t := s[i..];
            && (LineFeed.MatchAt(s, i) == if "\n" <= t then 1 else 0)
            && (Newline.MatchAt(s, i) == if "\n" <= t then 1 else if "\r\n" <= t then 2 else 0)
            && (BlankLine.MatchAt(s, i)
                == if "\n\n" <= t then 2 else if "\n\r\n" <= t || "\r\n\n" <= t then 3
                  else if "\r\n\r\n" <= t then 4 else 0)
  {
    var t := s[i..];
    assert forall k :: 0 <= k < |t| ==> t[k] == s[i + k];
  }

  /** Position of the leftmost match at or after `i`; `|s|` when there is none. */
  function FirstMatch(d: Delimiter, s: string, i: nat): (p: nat)
    requires i <= |s|
    ensures i <= p <= |s|
    ensures p < |s| ==> d.MatchAt(s, p) > 0
    decreases |s| - i
  {
    if i == |s| || d.MatchAt(s, i) > 0 then i else FirstMatch(d, s, i + 1)
  }

  lemma FirstMatchIsLeftmost(d: Delimiter, s: string, i: nat)
    requires i <= |s|
    ensures forall k :: i <= k < FirstMatch(d, s, i) ==> d.MatchAt(s, k) == 0
    decreases |s| - i
  {
  }

  /** The pieces of `s.split(d)`: always at least one. */
  function Split(d: Delimiter, s: string): (pieces: seq<string>)
    ensures |pieces| >= 1
    decreases |s|
  {
    var p := FirstMatch(d, s, 0);
    if p == |s| then [s] else [s[..p]] + Split(d, s[p + d.MatchAt(s, p)..])
  }

  /** The definition of Split, for proofs that hide it elsewhere. */
  lemma SplitUnfolds(d: Delimiter, s: string)
    ensures var p := FirstMatch(d, s, 0);
            Split(d, s) == if p == |s| then [s] else [s[..p]] + Split(d, s[p + d.MatchAt(s, p)..])
  {
  }

  // ---------------------------------------------------------------------
  // Later input never changes an earlier match
  // ---------------------------------------------------------------------

  lemma MatchSurvivesAppend(d: Delimiter, s: string, t: string, i: nat)
    requires d.MatchAt(s, i) > 0
    ensures d.MatchAt(s + t, i) == d.MatchAt(s, i)
  {
  }

  /** The heart of the matter. A match of `s + t` that starts before the leftmost match of `s`
      would have to end after it, and so would hold the newlines of both. */
  lemma NoEarlierMatch(d: Delimiter, s: string, t: string, p: nat, k: nat)
    requires p < |s| && d.MatchAt(s, p) > 0
    requires k < p && d.MatchAt(s, k) == 0
    ensures d.MatchAt(s + t, k) == 0
  {
  }

  lemma FirstMatchIs(d: Delimiter, s: string, p: nat)
    requires p < |s| && d.MatchAt(s, p) > 0
    requires forall k :: 0 <= k < p ==> d.MatchAt(s, k) == 0
    ensures FirstMatch(d, s, 0) == p
  {
    FirstMatchIsLeftmost(d, s, 0);
  }

  /** Appending text leaves every finished piece alone and continues the last one. */
  lemma {:induction false} SplitAppend(d: Delimiter, s: string, t: string)
    ensures Split(d, s + t) == Front(Split(d, s)) + Split(d, Last(Split(d, s)) + t)
    decreases |s|
  {
    hide Split;
    SplitUnfolds(d, s);
    var p := FirstMatch(d, s, 0);
    if p == |s| {
      SplitAppendLast(d, s, t);
    } else {
      var rest := s[p + d.MatchAt(s, p)..];
      SplitAppend(d, rest, t);
      SplitAppendCons(d, s, t, Split(d, rest), Split(d, rest + t), Split(d, Last(Split(d, rest)) + t));
    }
  }

  lemma SplitAppendLast(d: Delimiter, s: string, t: string)
    requires FirstMatch(d, s, 0) == |s|
    ensures Split(d, s + t) == Front(Split(d, s)) + Split(d, Last(Split(d, s)) + t)
  {
  }

  lemma SplitAppendCons(d: Delimiter, s: string, t: string, pieces: seq<string>, all: seq<string>, more: seq<string>)
    requires FirstMatch(d, s, 0) < |s|
    requires var p := FirstMatch(d, s, 0);
             var rest := s[p + d.MatchAt(s, p)..];
             pieces == Split(d, rest) && all == Split(d, rest + t) && more == Split(d, Last(pieces) + t)
    requires all == Front(pieces) + more
    ensures Split(d, s + t) == Front(Split(d, s)) + more && Last(Split(d, s)) == Last(pieces)
  {
    hide Split;
    SplitUnfolds(d, s);
    SplitAppendStep(d, s, t);
    ConsSplit(s[..FirstMatch(d, s, 0)], pieces, all, more);
  }

  lemma ConsSplit(x: string, pieces: seq<string>, all: seq<string>, more: seq<string>)
    requires pieces != [] && all == Front(pieces) + more
    ensures [x] + all == Front([x] + pieces) + more && Last([x] + pieces) == Last(pieces)
  {
  }

  /** The first delimiter of `s` is also the first delimiter of `s + t`. */
  lemma SplitAppendStep(d: Delimiter, s: string, t: string)
    requires FirstMatch(d, s, 0) < |s|
    ensures var p := FirstMatch(d, s, 0);
            var rest := s[p + d.MatchAt(s, p)..];
            Split(d, s + t) == [s[..p]] + Split(d, rest + t)
  {
    hide Split;
    SplitUnfolds(d, s + t);
    var p := FirstMatch(d, s, 0);
    var n := d.MatchAt(s, p);
    MatchSurvivesAppend(d, s, t, p);
    FirstMatchIsLeftmost(d, s, 0);
    forall k | 0 <= k < p ensures d.MatchAt(s + t, k) == 0 {
      NoEarlierMatch(d, s, t, p, k);
    }
    FirstMatchIs(d, s + t, p);
    assert (s + t)[p + n..] == s[p + n..] + t && (s + t)[..p] == s[..p];
  }

  /** No piece holds a delimiter, the unfinished last one included. */
  lemma {:induction false} PiecesHoldNoDelimiter(d: Delimiter, s: string, k: nat, i: nat)
    requires k < |Split(d, s)|
    ensures d.MatchAt(Split(d, s)[k], i) == 0
    decreases |s|
  {
    hide Split;
    SplitUnfolds(d, s);
    var p := FirstMatch(d, s, 0);
    if p == |s| {
      FirstMatchIsLeftmost(d, s, 0);
    } else if k == 0 {
      FirstPieceHoldsNoDelimiter(d, s, i);
    } else {
      PiecesHoldNoDelimiter(d, s[p + d.MatchAt(s, p)..], k - 1, i);
    }
  }

  lemma FirstPieceHoldsNoDelimiter(d: Delimiter, s: string, i: nat)
    ensures d.MatchAt(s[..FirstMatch(d, s, 0)], i) == 0
  {
    var p := FirstMatch(d, s, 0);
    FirstMatchIsLeftmost(d, s, 0);
    if d.MatchAt(s[..p], i) > 0 {
      MatchSurvivesAppend(d, s[..p], s[p..], i);
      assert s[..p] + s[p..] == s;
    }
  }

  /** The chunks of a stream, put back together. */
  function Concat(chunks: seq<string>): string {
    if chunks == [] then "" else Concat(Front(chunks)) + Last(chunks)
  }

  /** One turn of a reading loop: split the buffer again, keep its last piece. */
  lemma ReadChunk(d: Delimiter, text: string, records: seq<string>, buffer: string, chunk: string)
    requires Split(d, text) == records + [buffer]
    ensures var pieces := Split(d, buffer + chunk);
            Split(d, text + chunk) == records + Front(pieces) + [Last(pieces)]
  {
    hide Split;
    SplitAppend(d, text, chunk);
    assert Front(records + [buffer]) == records;
  }
}
