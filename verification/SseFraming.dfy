/** The SSE reader of the OpenCode client: the buffer loop of `connectEvents`
    and the record decoder `emitSseRecord`. Text is a sequence of characters;
    UTF-8 decoding of the byte stream has already happened. */
module SseFraming {
  import opened Common
  import opened TextSplitting

  // ---------------------------------------------------------------------
  // The reading loop
  // ---------------------------------------------------------------------

  /** The characters removed by JavaScript's `trim` and `trimStart`. */
  predicate IsSpace(c: char) {
    || '\t' <= c <= '\r' || c == ' ' || c == '\U{00A0}' || c == '\U{1680}'
    || '\U{2000}' <= c <= '\U{200A}' || c == '\U{2028}' || c == '\U{2029}' || c == '\U{202F}'
    || c == '\U{205F}' || c == '\U{3000}' || c == '\U{FEFF}'
  }

  predicate Blank(s: string) {
    forall i :: 0 <= i < |s| ==> IsSpace(s[i])
  }

  /** The records of a complete text: every piece that ends in a blank line, and the
      unterminated last piece unless it is blank. */
  function Records(text: string): seq<string> {
    var pieces := Split(BlankLine, text);
    if Blank(Last(pieces)) then Front(pieces) else pieces
  }

  /** What a prefix of the stream has already emitted stays the start of what the whole
      stream emits: nothing is ever taken back. */
  lemma EmittedIsPrefix(text: string, more: string)
    ensures Front(Split(BlankLine, text)) <= Records(text + more)
  {
    SplitAppend(BlankLine, text, more);
  }

  // ---------------------------------------------------------------------
  // Decoding one record
  // ---------------------------------------------------------------------

  function TrimStart(s: string): string {
    if s != "" && IsSpace(s[0]) then TrimStart(s[1..]) else s
  }

  function Join(lines: seq<string>, separator: string): string {
    if lines == [] then "" else if |lines| == 1 then lines[0] else lines[0] + separator + Join(lines[1..], separator)
  }

  /** The value of each `data:` line, without the field name and leading white space. */
  function DataLines(lines: seq<string>): seq<string> {
    if lines == [] then []
    else (if "data:" <= lines[0] then [TrimStart(lines[0][5..])] else []) + DataLines(lines[1..])
  }

  /** `emitSseRecord` up to the JSON parser: the text handed to it, if any. */
  function Decode(record: string): Option<string> {
    var lines := DataLines(Split(Newline, record));
    if Join(lines, "\n") == "" then None else Some(Join(lines, "\n"))
  }

  function Emitted(record: string): seq<string> {
    if Decode(record).Some? then [Decode(record).value] else []
  }

  function DecodeAll(records: seq<string>): seq<string> {
    if records == [] then [] else Emitted(records[0]) + DecodeAll(records[1..])
  }

  // ---------------------------------------------------------------------
  // The loop as written
  // ---------------------------------------------------------------------

  /** `connectEvents`: `chunks` are the reads before end of stream, `tail` is what the decoder
      flushes with the final read. The result is the texts handed to the JSON parser. */
  method ReadEvents(chunks: seq<string>, tail: string) returns (texts: seq<string>)
    ensures texts == DecodeAll(Records(Concat(chunks) + tail))
  {
    hide Split, Decode, Blank;
    SplitUnfolds(BlankLine, "");
    var buffer := "";
    texts := [];
    ghost var records: seq<string> := [];
    var i := 0;
    while i < |chunks|
      invariant 0 <= i <= |chunks|
      invariant Split(BlankLine, Concat(chunks[..i])) == records + [buffer]
      invariant texts == DecodeAll(records)
    {
      ReadChunk(BlankLine, Concat(chunks[..i]), records, buffer, chunks[i]);
      assert Front(chunks[..i + 1]) == chunks[..i];
      buffer := buffer + chunks[i];
      var pieces := Split(BlankLine, buffer);
      DecodeAppend(records, Front(pieces));
      records := records + Front(pieces);
      texts, buffer := texts + DecodeAll(Front(pieces)), Last(pieces);
      i := i + 1;
    }
    assert chunks[..i] == chunks;
    ReadChunk(BlankLine, Concat(chunks), records, buffer, tail);
    buffer := buffer + tail;
    var pieces := Split(BlankLine, buffer);
    DecodeAppend(records, Front(pieces));
    records := records + Front(pieces);
    texts, buffer := texts + DecodeAll(Front(pieces)), Last(pieces);
    assert Front(records + [buffer]) == records;
    if !Blank(buffer) {
      DecodeAppend(records, [buffer]);
      texts := texts + DecodeAll([buffer]);
    }
  }

  lemma {:induction false} DecodeAppend(a: seq<string>, b: seq<string>)
    ensures DecodeAll(a + b) == DecodeAll(a) + DecodeAll(b)
  {
    hide Emitted;
    if a == [] {
      assert a + b == b;
    } else {
      DecodeAppend(a[1..], b);
      assert a + b == [a[0]] + (a[1..] + b);
      DecodeCons(a[0], a[1..] + b);
      ConcatAssociates(Emitted(a[0]), DecodeAll(a[1..]), DecodeAll(b));
    }
  }

  // ---------------------------------------------------------------------
  // Round trip
  // ---------------------------------------------------------------------

  predicate IsNewline(eol: string) {
    eol == "\n" || eol == "\r\n"
  }

  /** A line that can be framed at all: it holds no newline, and no `\r` that would join one. */
  predicate OneLine(line: string) {
    '\n' !in line && (line != "" ==> Last(line) != '\r')
  }

  /** A field line as it appears inside a record. */
  predicate FieldLine(line: string) {
    OneLine(line) && line != "" && line[0] == 'd'
  }

  /** A line whose text survives framing: it is one line and starts with no white space. */
  predicate Framable(line: string) {
    OneLine(line) && TrimStart(line) == line
  }

  predicate FramablePayload(payload: seq<string>) {
    Join(payload, "\n") != "" && forall i :: 0 <= i < |payload| ==> Framable(payload[i])
  }

  function Fields(payload: seq<string>): (fields: seq<string>)
    ensures |fields| == |payload|
  {
    if payload == [] then [] else ["data: " + payload[0]] + Fields(payload[1..])
  }

  /** A stream as a server prints it: the fields of each payload, then a blank line. */
  function Print(payloads: seq<seq<string>>, eol: string): string {
    if payloads == [] then ""
    else Join(Fields(payloads[0]), eol) + eol + eol + Print(payloads[1..], eol)
  }

  function Texts(payloads: seq<seq<string>>): seq<string> {
    if payloads == [] then [] else [Join(payloads[0], "\n")] + Texts(payloads[1..])
  }

  lemma NewlineAfterLine(line: string, eol: string, rest: string)
    requires OneLine(line) && IsNewline(eol)
    ensures NewlineAt(line + eol + rest, |line|) == |eol|
    ensures forall k :: 0 <= k < |line| ==> NewlineAt(line + eol + rest, k) == 0
  {
  }

  lemma MatchShifts(p: string, s: string, i: nat)
    ensures NewlineAt(p + s, |p| + i) == NewlineAt(s, i)
    ensures BlankLineAt(p + s, |p| + i) == BlankLineAt(s, i)
  {
  }

  /** A record ends at its own blank line and nowhere before. */
  lemma {:induction false} RecordEnd(lines: seq<string>, eol: string, rest: string)
    requires lines != [] && IsNewline(eol)
    requires forall i :: 0 <= i < |lines| ==> FieldLine(lines[i])
    ensures Join(lines, eol) != "" && Join(lines, eol)[0] == 'd'
    ensures BlankLineAt(Join(lines, eol) + eol + eol + rest, |Join(lines, eol)|) == 2 * |eol|
    ensures forall k :: 0 <= k < |Join(lines, eol)| ==> BlankLineAt(Join(lines, eol) + eol + eol + rest, k) == 0
  {
    var line := lines[0];
    if |lines| == 1 {
      RecordEndLast(line, eol, rest);
    } else {
      var record := Join(lines[1..], eol);
      RecordEnd(lines[1..], eol, rest);
      assert Join(lines, eol) + eol + eol + rest == line + eol + (record + eol + eol + rest);
      RecordEndCons(line, eol, record, record + eol + eol + rest);
    }
  }

  lemma RecordEndLast(line: string, eol: string, rest: string)
    requires OneLine(line) && IsNewline(eol)
    ensures BlankLineAt(line + eol + eol + rest, |line|) == 2 * |eol|
    ensures forall k :: 0 <= k < |line| ==> BlankLineAt(line + eol + eol + rest, k) == 0
  {
  }

  lemma RecordEndCons(line: string, eol: string, record: string, w: string)
    requires FieldLine(line) && IsNewline(eol)
    requires record != "" && record[0] == 'd' && record <= w
    requires forall k :: 0 <= k < |record| ==> BlankLineAt(w, k) == 0
    ensures forall k :: 0 <= k < |line + eol + record| ==> BlankLineAt(line + eol + w, k) == 0
    ensures BlankLineAt(line + eol + w, |line + eol + record|) == BlankLineAt(w, |record|)
  {
    NewlineAfterLine(line, eol, w);
    assert (line + eol + w)[|line + eol|] == w[0];
    MatchShifts(line + eol, w, |record|);
    forall k | |line + eol| <= k < |line + eol + record| ensures BlankLineAt(line + eol + w, k) == 0 {
      MatchShifts(line + eol, w, k - |line + eol|);
    }
  }

  lemma {:induction false} LinesComeBack(lines: seq<string>, eol: string)
    requires lines != [] && IsNewline(eol)
    requires forall i :: 0 <= i < |lines| ==> OneLine(lines[i])
    ensures Split(Newline, Join(lines, eol)) == lines
  {
    var line := lines[0];
    if |lines| == 1 {
      assert FirstMatch(Newline, line, 0) == |line|;
    } else {
      var rest := Join(lines[1..], eol);
      NewlineAfterLine(line, eol, rest);
      FirstMatchIs(Newline, line + eol + rest, |line|);
      LinesComeBack(lines[1..], eol);
      assert (line + eol + rest)[|line + eol|..] == rest;
      assert (line + eol + rest)[..|line|] == line;
      assert lines == [line] + lines[1..];
    }
  }

  lemma FieldIsData(line: string)
    ensures var field := "data: " + line;
            "data:" <= field && TrimStart(field[5..]) == TrimStart(line) && (OneLine(line) ==> FieldLine(field))
  {
  }

  function Trimmed(payload: seq<string>): (lines: seq<string>)
    ensures |lines| == |payload|
  {
    if payload == [] then [] else [TrimStart(payload[0])] + Trimmed(payload[1..])
  }

  lemma {:induction false} FieldsAreTrimmed(payload: seq<string>)
    requires forall i :: 0 <= i < |payload| ==> OneLine(payload[i])
    ensures DataLines(Fields(payload)) == Trimmed(payload)
    ensures forall i :: 0 <= i < |payload| ==> FieldLine(Fields(payload)[i])
  {
    if payload != [] {
      FieldsAreTrimmed(payload[1..]);
      FieldIsData(payload[0]);
    }
  }

  lemma {:induction false} TrimStartIsSame(s: string)
    ensures |TrimStart(s)| <= |s|
    ensures TrimStart(s) == s <==> s == "" || !IsSpace(s[0])
    ensures |TrimStart(s)| == |s| <==> TrimStart(s) == s
  {
    if s != "" && IsSpace(s[0]) {
      TrimStartIsSame(s[1..]);
    }
  }

  /** Trimming only shortens, so a joined text is unchanged only if every line is. */
  lemma {:induction false} TrimmedJoin(payload: seq<string>, separator: string)
    ensures |Join(Trimmed(payload), separator)| <= |Join(payload, separator)|
    ensures Join(Trimmed(payload), separator) == Join(payload, separator) <==>
              forall i :: 0 <= i < |payload| ==> TrimStart(payload[i]) == payload[i]
    ensures |Join(Trimmed(payload), separator)| == |Join(payload, separator)| <==>
              forall i :: 0 <= i < |payload| ==> TrimStart(payload[i]) == payload[i]
  {
    if payload != [] {
      var rest, trimmed := payload[1..], Trimmed(payload[1..]);
      TrimStartIsSame(payload[0]);
      TrimmedJoin(rest, separator);
      assert Trimmed(payload)[1..] == trimmed;
      assert (forall i :: 0 <= i < |payload| ==> TrimStart(payload[i]) == payload[i]) <==>
             TrimStart(payload[0]) == payload[0] && forall i :: 0 <= i < |rest| ==> TrimStart(rest[i]) == rest[i] by {
        assert forall i :: 0 <= i < |rest| ==> rest[i] == payload[i + 1];
        assert forall i :: 0 < i < |payload| ==> payload[i] == rest[i - 1];
      }
    }
  }

  /** Which payloads the framing preserves: of those that can be printed at all, one line or many,
      exactly those that are not empty and in which no line starts with white space. The decoder
      strips all leading white space, where the standard strips a single space. */
  lemma PayloadPreservedIff(payload: seq<string>, eol: string)
    requires payload != [] && IsNewline(eol) && forall i :: 0 <= i < |payload| ==> OneLine(payload[i])
    ensures Decode(Join(Fields(payload), eol)) == Some(Join(payload, "\n")) <==> FramablePayload(payload)
  {
    hide Join;
    FieldsAreTrimmed(payload);
    LinesComeBack(Fields(payload), eol);
    TrimmedJoin(payload, "\n");
  }

  /** So a framable payload decodes to its own text. */
  lemma DecodeUndoesPrint(payload: seq<string>, eol: string)
    requires FramablePayload(payload) && IsNewline(eol)
    ensures Decode(Join(Fields(payload), eol)) == Some(Join(payload, "\n"))
  {
    PayloadPreservedIff(payload, eol);
  }

  /** The white space of the ECMAScript Language Specification, sections 12.2 and 12.3, by code point. */
  const SPACES: set<int> := {
    9, 10, 11, 12, 13, 32, 160, 5760, 8192, 8193, 8194, 8195, 8196, 8197, 8198, 8199, 8200, 8201, 8202, 8232, 8233,
    8239, 8287, 12288, 65279}

  /** One line: it survives exactly when it is not empty and starts with no white space. */
  lemma OneLinePreservedIff(line: string)
    requires OneLine(line)
    ensures Decode("data: " + line) == Some(line) <==> line != "" && line[0] as int !in SPACES
  {
    PayloadPreservedIff([line], "\n");
    TrimStartIsSame(line);
    assert Fields([line]) == ["data: " + line];
  }

  /** A payload that can be printed as `data:` lines at all. */
  predicate Printable(payload: seq<string>) {
    payload != [] && forall i :: 0 <= i < |payload| ==> OneLine(payload[i])
  }

  /** A printed stream decodes to its payloads, once each and in order, if and only if every payload
      is preserved: a payload that is lost or changed is not made up for by its neighbours. */
  lemma {:induction false} PrintedStreamDecodes(payloads: seq<seq<string>>, eol: string)
    requires forall i :: 0 <= i < |payloads| ==> Printable(payloads[i])
    requires IsNewline(eol)
    ensures var pieces := Split(BlankLine, Print(payloads, eol));
            && Last(pieces) == "" && |DecodeAll(Front(pieces))| <= |payloads|
            && (DecodeAll(Front(pieces)) == Texts(payloads) <==>
                  forall i :: 0 <= i < |payloads| ==> FramablePayload(payloads[i]))
  {
    hide Split, Decode, Join, FramablePayload, Printable;
    if payloads == [] {
      SplitUnfolds(BlankLine, "");
    } else {
      var record, rest := Join(Fields(payloads[0]), eol), Print(payloads[1..], eol);
      var pieces := Split(BlankLine, rest);
      PrintedStreamDecodes(payloads[1..], eol);
      FirstPayload(payloads[0], eol, rest);
      assert Print(payloads, eol) == record + eol + eol + rest;
      assert Front([record] + pieces) == [record] + Front(pieces);
      DecodeCons(record, Front(pieces));
      OneByOne(payloads, Emitted(record), DecodeAll(Front(pieces)));
    }
  }

  lemma FirstPayload(payload: seq<string>, eol: string, rest: string)
    requires Printable(payload) && IsNewline(eol)
    ensures var record := Join(Fields(payload), eol);
            && Split(BlankLine, record + eol + eol + rest) == [record] + Split(BlankLine, rest)
            && |Emitted(record)| <= 1
            && (Emitted(record) == [Join(payload, "\n")] <==> FramablePayload(payload))
  {
    PayloadPreservedIff(payload, eol);
    hide FramablePayload;
    PrintSplits(payload, eol, rest);
  }

  /** At most one text per payload, so as many texts as payloads means one each. */
  lemma OneByOne(payloads: seq<seq<string>>, first: seq<string>, others: seq<string>)
    requires payloads != [] && |first| <= 1 && |others| <= |payloads| - 1
    requires first == [Join(payloads[0], "\n")] <==> FramablePayload(payloads[0])
    requires others == Texts(payloads[1..]) <==>
               forall i :: 0 <= i < |payloads[1..]| ==> FramablePayload(payloads[1..][i])
    ensures first + others == Texts(payloads) <==> forall i :: 0 <= i < |payloads| ==> FramablePayload(payloads[i])
  {
    hide FramablePayload, Join;
    TextsLength(payloads);
    assert forall i :: 0 <= i < |payloads| - 1 ==> payloads[1..][i] == payloads[i + 1];
    assert forall i :: 0 < i < |payloads| ==> payloads[i] == payloads[1..][i - 1];
    if first + others == Texts(payloads) {
      assert (first + others)[..1] == Texts(payloads)[..1] && (first + others)[1..] == Texts(payloads)[1..];
    }
  }

  lemma {:induction false} TextsLength(payloads: seq<seq<string>>)
    ensures |Texts(payloads)| == |payloads|
  {
    if payloads != [] {
      TextsLength(payloads[1..]);
    }
  }

  lemma DecodeCons(record: string, records: seq<string>)
    ensures DecodeAll([record] + records) == Emitted(record) + DecodeAll(records)
  {
  }

  lemma PrintSplits(payload: seq<string>, eol: string, rest: string)
    requires Printable(payload) && IsNewline(eol)
    ensures var record := Join(Fields(payload), eol);
            Split(BlankLine, record + eol + eol + rest) == [record] + Split(BlankLine, rest)
  {
    var record := Join(Fields(payload), eol);
    var text := record + eol + eol + rest;
    FieldsAreTrimmed(payload);
    RecordEnd(Fields(payload), eol, rest);
    FirstMatchIs(BlankLine, text, |record|);
    assert text[..|record|] == record && text[|record| + 2 * |eol|..] == rest;
  }

  /** Framing is invisible: however the network cuts a printed stream into reads, the payloads come
      out, all of them, once each and in order, if and only if each of them is preserved. */
  method DeliverPrinted(payloads: seq<seq<string>>, eol: string, chunks: seq<string>, tail: string)
    returns (texts: seq<string>)
    requires forall i :: 0 <= i < |payloads| ==> Printable(payloads[i])
    requires IsNewline(eol) && Concat(chunks) + tail == Print(payloads, eol)
    ensures texts == Texts(payloads) <==> forall i :: 0 <= i < |payloads| ==> FramablePayload(payloads[i])
  {
    hide FramablePayload, Printable;
    PrintedStreamDecodes(payloads, eol);
    texts := ReadEvents(chunks, tail);
  }

  // ---------------------------------------------------------------------
  // Other lines, and a last record without its blank line
  // ---------------------------------------------------------------------

  lemma {:induction false} DataLinesAppend(a: seq<string>, b: seq<string>)
    ensures DataLines(a + b) == DataLines(a) + DataLines(b)
  {
    hide TrimStart;
    if a == [] {
      assert a + b == b;
    } else {
      DataLinesAppend(a[1..], b);
      assert (a + b)[1..] == a[1..] + b && (a + b)[0] == a[0];
      var first := if "data:" <= a[0] then [TrimStart(a[0][5..])] else [];
      ConcatAssociates(first, DataLines(a[1..]), DataLines(b));
    }
  }

  lemma DataLinesSkip(before: seq<string>, other: string, after: seq<string>)
    requires !("data:" <= other)
    ensures DataLines(before + [other] + after) == DataLines(before + after)
  {
    DataLinesAppend(before + [other], after);
    DataLinesAppend(before, [other]);
    DataLinesAppend(before, after);
    assert DataLines([other]) == DataLines([]);
    hide DataLines;
    assert DataLines(before) + [] == DataLines(before);
  }

  lemma DecodeLines(lines: seq<string>, eol: string)
    requires IsNewline(eol) && forall i :: 0 <= i < |lines| ==> OneLine(lines[i])
    ensures var text := Join(DataLines(lines), "\n");
            Decode(Join(lines, eol)) == if text == "" then None else Some(text)
  {
    hide Split;
    if lines == [] {
      NothingDecodes();
    } else {
      LinesComeBack(lines, eol);
    }
  }

  /** A line of a record that is no `data:` line, a comment, an event name or an id, changes nothing,
      wherever it stands. */
  lemma OtherLinesIgnored(before: seq<string>, other: string, after: seq<string>, eol: string)
    requires IsNewline(eol) && OneLine(other) && !("data:" <= other)
    requires forall i :: 0 <= i < |before| ==> OneLine(before[i])
    requires forall i :: 0 <= i < |after| ==> OneLine(after[i])
    ensures Decode(Join(before + [other] + after, eol)) == Decode(Join(before + after, eol))
  {
    hide Join, Decode, DataLines, OneLine;
    DataLinesSkip(before, other, after);
    DecodeLines(before + [other] + after, eol);
    DecodeLines(before + after, eol);
  }

  lemma NothingDecodes()
    ensures Decode("") == None
  {
    SplitUnfolds(Newline, "");
    assert DataLines([""]) == DataLines([]);
  }

  lemma RecordIsOnePiece(payload: seq<string>, eol: string)
    requires Printable(payload) && IsNewline(eol)
    ensures var record := Join(Fields(payload), eol);
            Split(BlankLine, record) == [record] && !Blank(record)
  {
    hide Join, Split;
    var record := Join(Fields(payload), eol);
    FieldsAreTrimmed(payload);
    RecordEnd(Fields(payload), eol, "");
    SplitUnfolds(BlankLine, record);
    var p := FirstMatch(BlankLine, record, 0);
    assert record + (eol + eol) == record + eol + eol + "";
    if p < |record| {
      MatchSurvivesAppend(BlankLine, record, eol + eol, p);
    }
  }

  lemma {:induction false} TextsAppend(payloads: seq<seq<string>>, last: seq<string>)
    ensures Texts(payloads + [last]) == Texts(payloads) + [Join(last, "\n")]
  {
    hide Join;
    if payloads != [] {
      TextsAppend(payloads[1..], last);
      assert (payloads + [last])[1..] == payloads[1..] + [last];
    }
  }

  /** A stream that ends without the blank line after its last record still delivers that record: all the
      payloads come out, once each and in order, if and only if every one of them is preserved. */
  lemma UnterminatedLastDecodes(payloads: seq<seq<string>>, last: seq<string>, eol: string)
    requires (forall i :: 0 <= i < |payloads| ==> Printable(payloads[i])) && Printable(last) && IsNewline(eol)
    ensures DecodeAll(Records(Print(payloads, eol) + Join(Fields(last), eol))) == Texts(payloads + [last]) <==>
              (forall i :: 0 <= i < |payloads| ==> FramablePayload(payloads[i])) && FramablePayload(last)
  {
    hide Split, Decode, Join, FramablePayload, Printable, Blank, Texts;
    var text, record := Print(payloads, eol), Join(Fields(last), eol);
    var pieces := Split(BlankLine, text);
    PrintedStreamDecodes(payloads, eol);
    RecordIsOnePiece(last, eol);
    SplitAppend(BlankLine, text, record);
    assert Last(pieces) + record == record;
    FirstPayload(last, eol, "");
    DecodeAppend(Front(pieces), [record]);
    OneEmitted(record);
    TextsLength(payloads);
    TextsAppend(payloads, last);
    SameParts(DecodeAll(Front(pieces)), Emitted(record), Texts(payloads), [Join(last, "\n")]);
  }

  lemma OneEmitted(record: string)
    ensures DecodeAll([record]) == Emitted(record)
  {
    hide Decode;
    assert Emitted(record) + [] == Emitted(record);
  }

  lemma SameParts(a: seq<string>, b: seq<string>, c: seq<string>, d: seq<string>)
    requires |a| <= |c| && |b| <= |d|
    ensures a + b == c + d <==> a == c && b == d
  {
    if a + b == c + d {
      assert |a + b| == |c + d|;
      assert (a + b)[..|a|] == a && (c + d)[..|c|] == c && (a + b)[|a|..] == b && (c + d)[|c|..] == d;
    }
  }
}
