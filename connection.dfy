/** `Connection`: received data as text. `conv_bytes_to_str` cuts the decoded text at the
    first occurrence of a marker and optionally strips it; `receive_str` applies it to
    what `receive` returns. */
module Connections {
  import opened Results
  import opened PyStr
  import opened BaseConnections

  /** `str(read_until)`: a string stays as it is, and None becomes the text "None". */
  function Marker(readUntil: Option<string>): (m: string)
    ensures readUntil.Some? ==> m == readUntil.value
    ensures readUntil.None? ==> m == "None"
  {
    match readUntil
    case None => "None"
    case Some(s) => s
  }

  /** The text before the first occurrence of `marker`, or all of it when `marker` does
      not occur (the ValueError that `index` raises is caught). */
  function CutAtMarker(text: string, marker: string): (r: string)
    ensures r <= text
    ensures !Contains(text, marker) ==> r == text
  {
    match IndexOf(text, marker)
    case Some(i) => text[..i]
    case None => text
  }

  /** `conv_bytes_to_str`, as written: None gives None; otherwise the decoded text is cut
      before the first occurrence of `str(read_until)` and stripped when `strip` is set.
      With `read_until` None the marker is the text "None". */
  function ConvBytesToStr(rcv: Option<string>, readUntil: Option<string>, strip: bool): (r: Option<string>)
    ensures r.None? <==> rcv.None?
    ensures r.Some? && strip ==> IsStripped(r.value)
    ensures r.Some? && !strip ==> r.value <= rcv.value
    ensures r.Some? && !Contains(rcv.value, Marker(readUntil)) ==>
      r.value == if strip then Strip(rcv.value) else rcv.value
    ensures r.Some? && |Marker(readUntil)| > 0 ==> !Contains(r.value, Marker(readUntil))
  {
    match rcv
    case None => None
    case Some(text) =>
      var marker := Marker(readUntil);
      var cut := CutAtMarker(text, marker);
      var res := if strip then Strip(cut) else cut;
      CutAvoidsMarker(text, marker, strip);
      Some(res)
  }

  /** Neither the cut text nor its stripped form contains a non-empty marker. */
  lemma CutAvoidsMarker(text: string, marker: string, strip: bool)
    ensures var cut := CutAtMarker(text, marker);
      |marker| > 0 ==> !Contains(if strip then Strip(cut) else cut, marker)
  {
    var cut := CutAtMarker(text, marker);
    var res := if strip then Strip(cut) else cut;
    if |marker| > 0 {
      match IndexOf(text, marker)
      case Some(i) =>
        if strip {
          NoOccurrenceBefore(text, marker, i, StripStart(cut), StripStart(cut) + |res|);
          assert res == text[StripStart(cut)..StripStart(cut) + |res|];
        } else {
          NoOccurrenceBefore(text, marker, i, 0, i);
          assert res == text[0..i];
        }
      case None =>
        if strip {
          NoOccurrenceInFactor(text, marker, StripStart(cut), StripStart(cut) + |res|);
          assert res == text[StripStart(cut)..StripStart(cut) + |res|];
        }
    }
  }

  /** When the marker occurs, the result is the (stripped) text before its first occurrence. */
  lemma ConvCutsAtFirstMarker(text: string, readUntil: Option<string>, strip: bool, i: nat)
    requires FirstOccurrence(text, Marker(readUntil), i)
    ensures ConvBytesToStr(Some(text), readUntil, strip)
         == Some(if strip then Strip(text[..i]) else text[..i])
  {
    IndexOfFirst(text, Marker(readUntil), i);
  }

  /** With no marker given, text that contains "None" is cut short: "ANoneB" becomes "A",
      not the whole text that the documentation of `read_until` promises. */
  lemma NoneMarkerTruncates()
    ensures ConvBytesToStr(Some("ANoneB"), None, false) == Some("A")
  {
    var text := "ANoneB";
    assert OccursAt(text, "None", 1) by {
      assert text[1..5] == "None";
    }
    assert !OccursAt(text, "None", 0) by {
      assert text[0] != 'N';
      assert text[0..4][0] == text[0];
    }
    assert FirstOccurrence(text, "None", 1);
    ConvCutsAtFirstMarker(text, None, false, 1);
    assert text[..1] == "A";
  }

  /** `conv_bytes_to_str` as its documentation describes it: with `read_until` None the
      whole text is returned; with a marker it behaves as the code does. */
  function ConvBytesToStrIntended(rcv: Option<string>, readUntil: Option<string>, strip: bool): (r: Option<string>)
    ensures r.None? <==> rcv.None?
    ensures r.Some? && readUntil.None? ==> r.value == if strip then Strip(rcv.value) else rcv.value
    ensures readUntil.Some? ==> r == ConvBytesToStr(rcv, readUntil, strip)
  {
    match rcv
    case None => None
    case Some(text) =>
      match readUntil
      case None => Some(if strip then Strip(text) else text)
      case Some(_) => ConvBytesToStr(rcv, readUntil, strip)
  }

  /** A received entry as the documentation of `receive_str` describes it. */
  datatype Record = Record(timestamp: int, data: string)

  /** `receive_str` over a `receive` that yields `(timestamp, data)` records: None and
      exceptions pass through; a record keeps its timestamp and has its data converted. */
  function ReceiveStr(received: Result<Option<Record>>, readUntil: Option<string>, strip: bool)
    : (r: Result<Option<(int, Option<string>)>>)
    ensures received.Err? ==> r == Err(received.error)
    ensures r == Ok(None) <==> received == Ok(None)
    ensures received.Ok? && received.value.Some? ==>
      r.Ok? && r.value.Some?
      && r.value.value.0 == received.value.value.timestamp
      && r.value.value.1 == ConvBytesToStr(Some(received.value.value.data), readUntil, strip)
      && r.value.value.1.Some?
  {
    match received
    case Err(e) => Err(e)
    case Ok(None) => Ok(None)
    case Ok(Some(rec)) => Ok(Some((rec.timestamp, ConvBytesToStr(Some(rec.data), readUntil, strip))))
  }

  /** `receive_str` as written: `receive` yields a bare chunk, whose `[1]` is a single
      byte (an int, whose missing `decode` raises AttributeError) or, for a chunk shorter
      than two bytes, an IndexError. Every call that finds data raises. */
  function ReceiveStrAsWritten(conn: BaseConnection, readUntil: Option<string>, numBefore: int, strip: bool)
    : (r: Result<Option<(int, Option<string>)>>)
    reads conn
    ensures r.Ok? ==> r.value.None?
    ensures r == Ok(None) <==> conn.Receive(numBefore) == Ok(None)
    ensures conn.Receive(numBefore).Ok? && conn.Receive(numBefore).value.Some? ==> r.Err?
  {
    match conn.Receive(numBefore)
    case Err(e) => Err(e)
    case Ok(None) => Ok(None)
    case Ok(Some(chunk)) => if |chunk| < 2 then Err(IndexError) else Err(AttributeError)
  }

  /** Whenever `receive` finds data, `receive_str` as written raises. */
  lemma ReceiveStrAsWrittenRaises(conn: BaseConnection, readUntil: Option<string>, numBefore: nat, strip: bool)
    requires conn.connected && numBefore < |conn.rcvQueue|
    ensures ReceiveStrAsWritten(conn, readUntil, numBefore, strip).Err?
  {
    assert conn.Receive(numBefore) == Ok(Some(conn.rcvQueue[|conn.rcvQueue| - 1 - numBefore]));
  }

  /** A connection holding the chunk "OK\r\n": the newest entry is there, yet reading it
      as text raises. */
  method ReceiveStrAsWrittenFails()
  {
    var c := new BaseConnection(9600, "/dev/ttyUSB0", true, 1, 1, 256, 0);
    var connectResult := c.Connect(true);
    c.Ingest("OK\r\n");
    assert c.Receive(0) == Ok(Some("OK\r\n"));
    var r := ReceiveStrAsWritten(c, None, 0, true);
    assert r == Err(AttributeError);
    var fixed := ReceiveStr(Ok(Some(Record(5, "OK\r\n"))), None, true);
    assert fixed.Ok? && fixed.value.Some? && fixed.value.value.0 == 5;
  }
}
