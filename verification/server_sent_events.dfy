/**
 * The record framing both SSE hubs write: `event: <kind>\ndata: <json>\n\n`, the
 * event-type and data fields of the event-stream format of the HTML Living
 * Standard, section 9.2 (Server-sent events), one record per write, each ended by
 * a blank line. A reader for exactly this framing is given beside it, with the
 * proof that it recovers every record from a concatenated stream.
 */
module ServerSentEvents {
  import opened Wrappers
  import opened JsonValue
  import opened Http

  /** What a client reads back from one record. */
  datatype Event = Event(kind: string, data: string)

  const EventPrefix: string := "event: "
  const DataPrefix: string := "data: "

  /** The text of one record. */
  function Record(kind: string, data: string): (r: string)
    ensures |r| == |kind| + |data| + 16
  {
    EventPrefix + kind + "\n" + DataPrefix + data + "\n" + "\n"
  }

  /** Splits off the first line: the text before the first LF and the text after it. */
  function SplitLine(s: string): (r: Option<(string, string)>)
    ensures r.Some? ==> |r.value.1| < |s|
  {
    if s == [] then None
    else if s[0] == '\n' then Some(([], s[1..]))
    else
      match SplitLine(s[1..])
      case None => None
      case Some((line, rest)) => Some(([s[0]] + line, rest))
  }

  /** A line without LF is split off exactly. */
  lemma {:induction false} SplitLineExact(line: string, rest: string)
    requires '\n' !in line
    ensures SplitLine(line + "\n" + rest) == Some((line, rest))
  {
    if line != [] {
      assert (line + "\n" + rest)[1..] == line[1..] + "\n" + rest;
      SplitLineExact(line[1..], rest);
      assert [line[0]] + line[1..] == line;
    }
  }

  /** Reads one record off the front of a stream, returning it and what follows. */
  function ParseRecord(s: string): (r: Option<(Event, string)>)
    ensures r.Some? ==> |r.value.1| < |s|
  {
    match SplitLine(s)
    case None => None
    case Some((l1, r1)) =>
      if !StartsWith(l1, EventPrefix) then None
      else
        match SplitLine(r1)
        case None => None
        case Some((l2, r2)) =>
          if !StartsWith(l2, DataPrefix) then None
          else
            match SplitLine(r2)
            case None => None
            case Some((l3, r3)) =>
              if l3 != [] then None
              else Some((Event(l1[|EventPrefix|..], l2[|DataPrefix|..]), r3))
  }

  /** Reads a whole stream of records; None when it is not a sequence of records. */
  function ParseStream(s: string): Option<seq<Event>>
    decreases |s|
  {
    if s == [] then Some([])
    else
      match ParseRecord(s)
      case None => None
      case Some((e, rest)) =>
        match ParseStream(rest)
        case None => None
        case Some(es) => Some([e] + es)
  }

  /** All records a client has been sent, back to back on its stream. */
  function Concat(records: seq<string>): string
  {
    if records == [] then [] else records[0] + Concat(records[1..])
  }

  /** The records for a list of events. */
  function Records(events: seq<Event>): (r: seq<string>)
    ensures |r| == |events|
    ensures forall i :: 0 <= i < |events| ==> r[i] == Record(events[i].kind, events[i].data)
  {
    seq(|events|, i requires 0 <= i < |events| => Record(events[i].kind, events[i].data))
  }

  predicate Framable(e: Event)
  {
    SingleLine(e.kind) && SingleLine(e.data)
  }

  /**
   * A record whose kind and data are single lines (JSON text always is, see
   * `Stringify`) reads back as the same kind and data, leaving the rest of the
   * stream untouched.
   */
  lemma RecordRoundTrip(kind: string, data: string, rest: string)
    requires SingleLine(kind) && SingleLine(data)
    ensures ParseRecord(Record(kind, data) + rest) == Some((Event(kind, data), rest))
  {
    var l1 := EventPrefix + kind;
    var l2 := DataPrefix + data;
    assert '\n' !in l1 by {
      forall i | 0 <= i < |l1| ensures l1[i] != '\n' {
        if i >= |EventPrefix| { assert l1[i] == kind[i - |EventPrefix|]; }
      }
    }
    assert '\n' !in l2 by {
      forall i | 0 <= i < |l2| ensures l2[i] != '\n' {
        if i >= |DataPrefix| { assert l2[i] == data[i - |DataPrefix|]; }
      }
    }
    var r2 := "\n" + rest;
    var r1 := l2 + "\n" + r2;
    assert Record(kind, data) + rest == l1 + "\n" + r1;
    SplitLineExact(l1, r1);
    SplitLineExact(l2, r2);
    SplitLineExact([], rest);
    assert [] + "\n" + rest == r2;
    assert l1[..|EventPrefix|] == EventPrefix && l1[|EventPrefix|..] == kind;
    assert l2[..|DataPrefix|] == DataPrefix && l2[|DataPrefix|..] == data;
  }

  /**
   * A client that parses its whole stream gets back every event it was sent, in
   * order, with nothing lost or merged: the framing is self-delimiting.
   */
  lemma {:induction false} StreamRoundTrip(events: seq<Event>)
    requires forall i :: 0 <= i < |events| ==> Framable(events[i])
    ensures ParseStream(Concat(Records(events))) == Some(events)
  {
    if events != [] {
      var e := events[0];
      var recs := Records(events);
      assert Records(events[1..]) == recs[1..];
      StreamRoundTrip(events[1..]);
      var rest := Concat(recs[1..]);
      assert Concat(recs) == Record(e.kind, e.data) + rest;
      RecordRoundTrip(e.kind, e.data, rest);
      assert Record(e.kind, e.data) + rest != [];
      assert [e] + events[1..] == events;
    }
  }
}
