/** The text of a run's `events.jsonl`: how records are written, torn by a crash and read back.

A record's JSON text is kept abstract, as the sequence of its pieces: `Piece(e, i)` is the i-th
character of the text of record `e`.  A record's text never contains a newline. */
module EventText {
  import opened Wrappers
  import opened LogFile

  // `hasData` is false for a record whose data was undefined: JSON drops the field then, and the
  // reader refuses a record without it.
  datatype Event = Event(runId: string, no: int, body: string, hasData: bool)

  datatype Sym = Piece(event: Event, at: nat) | Newline

  type Text = seq<Sym>

  /** The JSON text of a record, without its newline. */
  function Render(e: Event): Text {
    seq(|e.body| + 1, (i: nat) => Piece(e, i))
  }

  /** What one append writes. */
  function Record(e: Event): Text {
    Render(e) + [Newline]
  }

  // ---------- reading: split, decode, filter ----------

  function Lines(t: Text): (lines: seq<Text>)
    ensures |lines| > 0
  {
    if t == [] then [[]]
    else if t[0] == Newline then [[]] + Lines(t[1..])
    else var rest := Lines(t[1..]); [[t[0]] + rest[0]] + rest[1..]
  }

  function Decode(line: Text): Option<Event> {
    if line != [] && line[0].Piece? && line == Render(line[0].event) then Some(line[0].event) else None
  }

  predicate IsHarnessEvent(e: Event, runId: string) {
    e.runId == runId && e.no > 0 && e.hasData
  }

  function Accept(line: Text, runId: string): seq<Event> {
    match Decode(line)
    case Some(e) => if IsHarnessEvent(e, runId) then [e] else []
    case None => []
  }

  function AcceptAll(lines: seq<Text>, runId: string): seq<Event> {
    if lines == [] then [] else Accept(lines[0], runId) + AcceptAll(lines[1..], runId)
  }

  function ParseRunEvents(t: Text, runId: string): seq<Event> {
    AcceptAll(Lines(t), runId)
  }

  function MaxNo(events: seq<Event>): int {
    if events == [] then 0
    else var before := MaxNo(events[..|events| - 1]);
      if before < events[|events| - 1].no then events[|events| - 1].no else before
  }

  function NextEvent(t: Text, runId: string, fallback: string, body: string, hasData: bool): Event {
    var events := ParseRunEvents(t, runId);
    Event(if events == [] then fallback else events[0].runId, MaxNo(events) + 1, body, hasData)
  }

  // ---------- the same reading from the end of the file ----------

  /** What follows the last newline: an unfinished line. */
  function Tail(t: Text): Text {
    if t == [] || t[|t| - 1] == Newline then [] else Tail(t[..|t| - 1]) + [t[|t| - 1]]
  }

  /** The events accepted from finished lines. */
  function Closed(t: Text, runId: string): seq<Event> {
    if t == [] then []
    else
      var before := t[..|t| - 1];
      Closed(before, runId) + if t[|t| - 1] == Newline then Accept(Tail(before), runId) else []
  }

  /** The lines of a text after one more symbol. */
  function Grow(lines: seq<Text>, x: Sym): seq<Text>
    requires |lines| > 0
  {
    if x == Newline then lines + [[]] else lines[..|lines| - 1] + [lines[|lines| - 1] + [x]]
  }

  lemma {:induction false} LinesOfSnoc(t: Text, x: Sym)
    ensures Lines(t + [x]) == Grow(Lines(t), x)
  {
    if t == [] {
      assert t + [x] == [x] && [x][1..] == [];
      assert [x] + [] == [x] && Lines([]) == [[]];
    } else {
      LinesOfSnoc(t[1..], x);
      assert (t + [x])[1..] == t[1..] + [x];
      var rest := Lines(t[1..]);
      if t[0] == Newline {
        assert Grow([[]] + rest, x) == [[]] + Grow(rest, x);
      } else {
        GrowBehindHead(t[0], rest, x);
      }
    }
  }

  lemma GrowBehindHead(head: Sym, rest: seq<Text>, x: Sym)
    requires |rest| > 0
    ensures var rest' := Grow(rest, x);
            Grow([[head] + rest[0]] + rest[1..], x) == [[head] + rest'[0]] + rest'[1..]
  {
    if x != Newline && |rest| == 1 {
      assert ([head] + rest[0]) + [x] == [head] + (rest[0] + [x]);
    }
  }

  lemma {:induction false} AcceptAllOfConcat(a: seq<Text>, b: seq<Text>, runId: string)
    ensures AcceptAll(a + b, runId) == AcceptAll(a, runId) + AcceptAll(b, runId)
  {
    if a == [] {
      assert a + b == b;
    } else {
      var head, rest := Accept(a[0], runId), AcceptAll(a[1..], runId);
      calc {
        AcceptAll(a + b, runId);
        { assert (a + b)[0] == a[0] && (a + b)[1..] == a[1..] + b; }
        head + AcceptAll(a[1..] + b, runId);
        { AcceptAllOfConcat(a[1..], b, runId); }
        head + (rest + AcceptAll(b, runId));
        (head + rest) + AcceptAll(b, runId);
      }
    }
  }

  lemma AcceptAllOfSnoc(lines: seq<Text>, last: Text, runId: string)
    ensures AcceptAll(lines + [last], runId) == AcceptAll(lines, runId) + Accept(last, runId)
  {
    AcceptAllOfConcat(lines, [last], runId);
    assert [last][1..] == [] && AcceptAll([], runId) == [];
    assert Accept(last, runId) + [] == Accept(last, runId);
  }

  /** The finished lines are all but the last one, and the last one is the tail. */
  lemma {:induction false} LinesFromTheEnd(t: Text, runId: string)
    ensures var lines := Lines(t);
            lines[|lines| - 1] == Tail(t) && AcceptAll(lines[..|lines| - 1], runId) == Closed(t, runId)
  {
    if t == [] {
      assert Lines(t) == [[]] && |Lines(t)[..0]| == 0;
    } else {
      var before, x := t[..|t| - 1], t[|t| - 1];
      LinesFromTheEnd(before, runId);
      LinesOfSnoc(before, x);
      assert before + [x] == t;
      var shorter := Lines(before);
      var init := shorter[..|shorter| - 1];
      if x == Newline {
        assert (shorter + [[]])[..|shorter|] == shorter == init + [Tail(before)];
        AcceptAllOfSnoc(init, Tail(before), runId);
      } else {
        assert (init + [Tail(before) + [x]])[..|init|] == init;
        assert Closed(before, runId) + [] == Closed(before, runId);
      }
    }
  }

  /** The two readings agree: the reader accepts the finished lines and then the unfinished one. */
  lemma ReadFromTheEnd(t: Text, runId: string)
    ensures ParseRunEvents(t, runId) == Closed(t, runId) + Accept(Tail(t), runId)
  {
    LinesFromTheEnd(t, runId);
    var lines := Lines(t);
    assert lines == lines[..|lines| - 1] + [Tail(t)];
    AcceptAllOfSnoc(lines[..|lines| - 1], Tail(t), runId);
  }

  // ---------- what an append, whole or torn, does to the two parts ----------

  lemma {:induction false} TornText(t: Text, e: Event, cut: nat, runId: string)
    requires cut <= |Render(e)|
    ensures Tail(t + Render(e)[..cut]) == Tail(t) + Render(e)[..cut]
    ensures Closed(t + Render(e)[..cut], runId) == Closed(t, runId)
  {
    var torn := t + Render(e)[..cut];
    if cut == 0 {
      assert torn == t;
    } else {
      TornText(t, e, cut - 1, runId);
      assert torn[..|torn| - 1] == t + Render(e)[..cut - 1];
      assert Render(e)[..cut] == Render(e)[..cut - 1] + [Piece(e, cut - 1)];
    }
  }

  lemma AppendedText(t: Text, e: Event, runId: string)
    ensures Tail(t + Record(e)) == []
    ensures Closed(t + Record(e), runId) == Closed(t, runId) + Accept(Tail(t) + Render(e), runId)
  {
    hide Closed, Tail, Accept;
    TornText(t, e, |Render(e)|, runId);
    assert Render(e)[..|Render(e)|] == Render(e);
    EndedLine(t + Render(e), runId);
    assert t + Record(e) == t + Render(e) + [Newline];
  }

  lemma EndedLine(t: Text, runId: string)
    ensures Tail(t + [Newline]) == [] && Closed(t + [Newline], runId) == Closed(t, runId) + Accept(Tail(t), runId)
  {
    var whole := t + [Newline];
    assert whole[..|whole| - 1] == t && whole[|whole| - 1] == Newline;
  }

  /** A record whose text follows other text on its line is never read, torn or whole. */
  lemma JoinedLineDoesNotDecode(tail: Text, e: Event, cut: nat)
    requires tail != [] && 0 < cut <= |Render(e)|
    ensures Decode(tail + Render(e)[..cut]) == None
  {
    var line := tail + Render(e)[..cut];
    assert line[|tail|] == Piece(e, 0);
    assert line[0].Piece? ==> line != Render(line[0].event);
  }

  lemma RenderDecodes(e: Event)
    ensures Decode(Render(e)) == Some(e)
  {
    assert Render(e)[0] == Piece(e, 0);
  }

  /** What one whole append adds to the finished records. */
  function Added(t: Text, e: Event, runId: string): seq<Event> {
    if Tail(t) == [] && IsHarnessEvent(e, runId) then [e] else []
  }

  lemma AppendAdds(t: Text, e: Event, runId: string)
    ensures Closed(t + Record(e), runId) == Closed(t, runId) + Added(t, e, runId)
  {
    AppendedText(t, e, runId);
    hide Closed, Tail, Render;
    RenderDecodes(e);
    if Tail(t) == [] {
      assert [] + Render(e) == Render(e);
    } else {
      assert Render(e)[..|Render(e)|] == Render(e);
      WholeRecordIsNotEmpty(e);
      JoinedLineDoesNotDecode(Tail(t), e, |Render(e)|);
    }
  }

  lemma WholeRecordIsNotEmpty(e: Event)
    ensures |Render(e)| > 0
  {
  }

  lemma TornRecordDoesNotDecode(e: Event, cut: nat)
    requires cut < |Render(e)|
    ensures Decode(Render(e)[..cut]) == None
  {
    if cut > 0 {
      assert Render(e)[..cut][0] == Piece(e, 0);
      assert |Render(e)[..cut]| != |Render(e)|;
    }
  }

  // ---------- numbering ----------

  /** The events carry 1, 2, ..., n in this order. */
  ghost predicate Counts(events: seq<Event>) {
    forall i {:trigger events[i]} :: 0 <= i < |events| ==> events[i].no == i + 1
  }

  /** The reader sees exactly 1, 2, ..., m, in file order. */
  ghost predicate Numbered(t: Text, runId: string) {
    Counts(ParseRunEvents(t, runId))
  }

  lemma {:induction false} MaxOfCounts(events: seq<Event>)
    requires Counts(events)
    ensures MaxNo(events) == |events|
  {
    if events != [] {
      var init := events[..|events| - 1];
      assert Counts(init) by {
        forall i | 0 <= i < |init| ensures init[i].no == i + 1 { assert init[i] == events[i]; }
      }
      MaxOfCounts(init);
    }
  }

  /** The next record carries one more than the number of readable records, and their run id. */
  lemma NextNumber(t: Text, runId: string, fallback: string, body: string, hasData: bool)
    requires Numbered(t, runId)
    ensures NextEvent(t, runId, fallback, body, hasData).no == |ParseRunEvents(t, runId)| + 1
    ensures fallback == runId ==> NextEvent(t, runId, fallback, body, hasData).runId == runId
  {
    ReadFromTheEnd(t, runId);
    MaxOfCounts(ParseRunEvents(t, runId));
    OwnRunIdOnly(Lines(t), runId);
  }

  /** The next record carries what it is given, under the log's run id or the caller's. */
  lemma NextCarriesData(t: Text, runId: string, fallback: string, body: string, hasData: bool)
    ensures var e := NextEvent(t, runId, fallback, body, hasData);
            e.body == body && e.hasData == hasData && (e.runId == runId || e.runId == fallback)
  {
    OwnRunIdOnly(Lines(t), runId);
  }

  lemma {:induction false} OwnRunIdOnly(lines: seq<Text>, runId: string)
    ensures forall i :: 0 <= i < |AcceptAll(lines, runId)| ==> IsHarnessEvent(AcceptAll(lines, runId)[i], runId)
  {
    if lines != [] { OwnRunIdOnly(lines[1..], runId); }
  }

  lemma EmptyTextIsNumbered(runId: string)
    ensures ParseRunEvents([], runId) == [] && Tail([]) == [] && Numbered([], runId)
  {
    ReadFromTheEnd([], runId);
    assert Closed([], runId) == [] && Tail([]) == [] && Accept([], runId) == [];
  }

  /** A whole append keeps the numbering, whatever the file ended with.  The reader then sees the new
  record if and only if the file ended at a line start and the record itself is acceptable; otherwise
  it sees the finished lines only. */
  lemma AppendKeepsNumbering(t: Text, runId: string, fallback: string, body: string, hasData: bool)
    requires Numbered(t, runId)
    ensures var e := NextEvent(t, runId, fallback, body, hasData);
            var after := ParseRunEvents(t + Record(e), runId);
            && Numbered(t + Record(e), runId)
            && Tail(t + Record(e)) == []
            && (after == ParseRunEvents(t, runId) + [e] <==> Tail(t) == [] && IsHarnessEvent(e, runId))
            && (Tail(t) != [] || !IsHarnessEvent(e, runId) ==> after == Closed(t, runId))
  {
    var e := NextEvent(t, runId, fallback, body, hasData);
    NextNumber(t, runId, fallback, body, hasData);
    if Tail(t) == [] {
      AppendAtLineStart(t, e, runId);
    } else {
      AppendAfterTear(t, e, runId);
    }
  }

  lemma AppendAtLineStart(t: Text, e: Event, runId: string)
    requires Numbered(t, runId) && Tail(t) == [] && e.no == |ParseRunEvents(t, runId)| + 1
    ensures Numbered(t + Record(e), runId) && Tail(t + Record(e)) == []
    ensures ParseRunEvents(t, runId) == Closed(t, runId)
    ensures ParseRunEvents(t + Record(e), runId) == Closed(t, runId) + if IsHarnessEvent(e, runId) then [e] else []
  {
    hide Closed, Tail, Lines, AcceptAll, ParseRunEvents, Render;
    var closed, line := Closed(t, runId), Accept(Render(e), runId);
    AppendedText(t, e, runId);
    ReadFromTheEnd(t, runId);
    ReadFromTheEnd(t + Record(e), runId);
    assert Accept([], runId) == [] && closed + [] == closed && (closed + line) + [] == closed + line;
    assert [] + Render(e) == Render(e);
    RenderDecodes(e);
    assert ParseRunEvents(t + Record(e), runId) == closed + line;
  }

  lemma AppendAfterTear(t: Text, e: Event, runId: string)
    requires Numbered(t, runId) && Tail(t) != []
    ensures Numbered(t + Record(e), runId) && Tail(t + Record(e)) == []
    ensures ParseRunEvents(t + Record(e), runId) == Closed(t, runId)
    ensures |Closed(t, runId)| <= |ParseRunEvents(t, runId)|
  {
    AppendedText(t, e, runId);
    ReadFromTheEnd(t, runId);
    ReadFromTheEnd(t + Record(e), runId);
    JoinedLineDoesNotDecode(Tail(t), e, |Render(e)|);
    assert Render(e)[..|Render(e)|] == Render(e);
    ClosedCounts(t, runId);
    assert Accept([], runId) == [];
    assert Closed(t, runId) + [] == Closed(t, runId);
  }

  lemma ClosedCounts(t: Text, runId: string)
    requires Numbered(t, runId)
    ensures Counts(Closed(t, runId))
  {
    ReadFromTheEnd(t, runId);
    var closed, read := Closed(t, runId), ParseRunEvents(t, runId);
    forall i | 0 <= i < |closed| ensures closed[i].no == i + 1 { assert read[i] == closed[i]; }
  }

  /** A torn append, cut anywhere before its newline, keeps the numbering too. */
  lemma TearKeepsNumbering(t: Text, runId: string, fallback: string, body: string, hasData: bool, cut: nat)
    requires Numbered(t, runId)
    requires cut <= |Render(NextEvent(t, runId, fallback, body, hasData))|
    ensures Numbered(t + Render(NextEvent(t, runId, fallback, body, hasData))[..cut], runId)
  {
    var e := NextEvent(t, runId, fallback, body, hasData);
    var closed, tail := Closed(t, runId), Tail(t);
    TornText(t, e, cut, runId);
    ReadFromTheEnd(t, runId);
    ReadFromTheEnd(t + Render(e)[..cut], runId);
    NextNumber(t, runId, fallback, body, hasData);
    if cut == 0 {
      assert tail + Render(e)[..0] == tail;
    } else {
      ClosedCounts(t, runId);
      TornLine(t, e, cut, runId);
      assert closed + [] == closed;
    }
  }

  lemma TornLine(t: Text, e: Event, cut: nat, runId: string)
    requires 0 < cut <= |Render(e)|
    ensures Accept(Tail(t) + Render(e)[..cut], runId) == []
         || (Tail(t) == [] && Accept(Tail(t) + Render(e)[..cut], runId) == [e])
  {
    var tail := Tail(t);
    if tail != [] {
      JoinedLineDoesNotDecode(tail, e, cut);
    } else {
      assert [] + Render(e)[..cut] == Render(e)[..cut];
      if cut < |Render(e)| {
        TornRecordDoesNotDecode(e, cut);
      } else {
        assert Render(e)[..cut] == Render(e);
        RenderDecodes(e);
      }
    }
  }

  // ---------- the file as a whole ----------

  function EndOf(t: Text, runId: string): End {
    if Tail(t) == [] then LineStart else if Accept(Tail(t), runId) == [] then Torn else Unended
  }

  /** The text, as a log file of records. */
  function FileOf(t: Text, runId: string): File<Event> {
    File(ParseRunEvents(t, runId), EndOf(t, runId))
  }

  lemma ReadableBase(t: Text, runId: string)
    ensures Base(FileOf(t, runId)) == Closed(t, runId)
  {
    ReadFromTheEnd(t, runId);
    assert Accept([], runId) == [];
    assert Closed(t, runId) + [] == Closed(t, runId);
  }

  /** Writing the text of an acceptable record and a newline appends it to the log file. */
  lemma WritingAppends(t: Text, e: Event, runId: string)
    requires IsHarnessEvent(e, runId)
    ensures FileOf(t + Record(e), runId) == Appended(FileOf(t, runId), e)
  {
    hide Closed, Tail, Render, ParseRunEvents, Record;
    AppendAdds(t, e, runId);
    AppendedText(t, e, runId);
    ReadableBase(t, runId);
    ReadableBase(t + Record(e), runId);
    ReadFromTheEnd(t + Record(e), runId);
    assert Accept([], runId) == [];
  }

  /** Writing a part of its text, or all of it but no newline, cuts it short. */
  lemma TearingCutsShort(t: Text, e: Event, cut: nat, runId: string)
    requires IsHarnessEvent(e, runId) && 0 < cut <= |Render(e)|
    ensures FileOf(t + Render(e)[..cut], runId) == CutShort(FileOf(t, runId), e, cut == |Render(e)|)
  {
    var part := Render(e)[..cut];
    TornText(t, e, cut, runId);
    ReadFromTheEnd(t + part, runId);
    ReadableBase(t, runId);
    if Tail(t) == [] {
      assert Tail(t) + part == part;
      RenderDecodes(e);
      if cut < |Render(e)| { TornRecordDoesNotDecode(e, cut); } else { assert part == Render(e); }
      ReadFromTheEnd(t, runId);
      assert Accept([], runId) == [];
    } else {
      JoinedLineDoesNotDecode(Tail(t), e, cut);
    }
    hide Closed, Tail, Render, ParseRunEvents;
    assert Closed(t, runId) + [] == Closed(t, runId);
  }

  // ---------- callers with other run ids ----------

  // One append to a log: the run id of the caller's store, and what it appends.
  datatype Request = Request(fallback: string, body: string, hasData: bool)

  /** A log after these appends, one after the other, none of them torn. */
  function TextAfter(requests: seq<Request>, runId: string): Text {
    if requests == [] then []
    else
      var before, r := TextAfter(requests[..|requests| - 1], runId), requests[|requests| - 1];
      before + Record(NextEvent(before, runId, r.fallback, r.body, r.hasData))
  }

  /** The number of appends with data from the first one on that also names the log's own run. */
  function SinceFirstMatch(requests: seq<Request>, runId: string): nat {
    if requests == [] then 0
    else
      var before, r := SinceFirstMatch(requests[..|requests| - 1], runId), requests[|requests| - 1];
      if r.hasData && (before > 0 || r.fallback == runId) then before + 1 else before
  }

  lemma {:induction false} ReadableSinceFirstMatch(requests: seq<Request>, runId: string)
    ensures var t := TextAfter(requests, runId);
            Numbered(t, runId) && Tail(t) == [] && |ParseRunEvents(t, runId)| == SinceFirstMatch(requests, runId)
  {
    if requests == [] {
      EmptyTextIsNumbered(runId);
    } else {
      var init, r := requests[..|requests| - 1], requests[|requests| - 1];
      ReadableSinceFirstMatch(init, runId);
      OneMoreReadable(TextAfter(init, runId), r, runId);
    }
  }

  lemma OneMoreReadable(t: Text, r: Request, runId: string)
    requires Numbered(t, runId) && Tail(t) == []
    ensures var e := NextEvent(t, runId, r.fallback, r.body, r.hasData);
            var n := |ParseRunEvents(t, runId)|;
            && Numbered(t + Record(e), runId) && Tail(t + Record(e)) == []
            && |ParseRunEvents(t + Record(e), runId)| == if r.hasData && (n > 0 || r.fallback == runId) then n + 1 else n
  {
    var e := NextEvent(t, runId, r.fallback, r.body, r.hasData);
    OwnRunIdOnly(Lines(t), runId);
    NextNumber(t, runId, r.fallback, r.body, r.hasData);
    AppendAtLineStart(t, e, runId);
  }

  /** The next append is numbered by the appends since the first that named the log's own run.  So
  number 1 is given out again and again exactly as long as no caller with data has named it. */
  lemma {:induction false} NumberOneUntilARunIdMatches(requests: seq<Request>, runId: string, next: Request)
    ensures var e := NextEvent(TextAfter(requests, runId), runId, next.fallback, next.body, next.hasData);
            && e.no == SinceFirstMatch(requests, runId) + 1
            && (e.no == 1 <==> forall i :: 0 <= i < |requests| && requests[i].hasData ==> requests[i].fallback != runId)
  {
    ReadableSinceFirstMatch(requests, runId);
    NextNumber(TextAfter(requests, runId), runId, next.fallback, next.body, next.hasData);
    NothingUntilAMatch(requests, runId);
  }

  lemma {:induction false} NothingUntilAMatch(requests: seq<Request>, runId: string)
    ensures SinceFirstMatch(requests, runId) == 0 <==>
            forall i :: 0 <= i < |requests| && requests[i].hasData ==> requests[i].fallback != runId
  {
    if requests != [] {
      NothingUntilAMatch(requests[..|requests| - 1], runId);
      assert requests == requests[..|requests| - 1] + [requests[|requests| - 1]];
    }
  }

  /** A crash right after a record's text but before its newline costs the next two records: the
  one that was already readable disappears again, and the appended one never becomes readable. */
  lemma UnterminatedRecordIsLost(runId: string, first: string, second: string)
    ensures var e := NextEvent([], runId, runId, first, true);
            var torn := Render(e);
            var e' := NextEvent(torn, runId, runId, second, true);
            && ParseRunEvents(torn, runId) == [e]
            && e'.no == 2
            && ParseRunEvents(torn + Record(e'), runId) == []
  {
    EmptyTextIsNumbered(runId);
    var e := NextEvent([], runId, runId, first, true);
    NextNumber([], runId, runId, first, true);
    var torn := Render(e);
    TornText([], e, |torn|, runId);
    assert [] + torn[..|torn|] == torn;
    TearKeepsNumbering([], runId, runId, first, true, |torn|);
    RenderDecodes(e);
    ReadFromTheEnd(torn, runId);
    assert [] + [e] == [e];
    NextNumber(torn, runId, runId, second, true);
    AppendKeepsNumbering(torn, runId, runId, second, true);
  }
}
