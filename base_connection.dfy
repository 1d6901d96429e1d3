/** The serial-port connection: a two-state object (closed or open) with a throttled,
    bounded outgoing queue and a bounded history of received chunks, and one iteration
    of the background loop that moves data between those queues and the device.

    The device itself is not modelled: opening it is a boolean input, what it delivers
    is an input chunk, and what is written to it is recorded in the ghost log `written`.
    Time is an integer `now` supplied by the caller. */
module BaseConnections {
  import opened Results
  import opened PyStr

  /** Received data as the device hands it over (its text, see the README). */
  type Chunk = string

  /** At most this many payloads wait in the outgoing queue. */
  const MaxPending: nat := 65536

  /** An argument of `send`, carrying the texts the library would produce for it:
      the UTF-8 decoding of a `bytes`, the `json.dumps` of a list, dict, tuple or set,
      and `str()` of any value. */
  datatype PyValue =
    | PyBytes(decoded: string, repr: string)
    | PyListOrDict(json: string, repr: string)
    | PyTupleOrSet(jsonOfList: string, repr: string)
    | PyOther(repr: string)

  /** `_check_output`: the per-type text of an argument, stripped. */
  function CheckOutput(v: PyValue): (r: string)
    ensures IsStripped(r)
  {
    match v
    case PyBytes(decoded, _) => Strip(decoded)
    case PyListOrDict(json, _) => Strip(json)
    case PyTupleOrSet(jsonOfList, _) => Strip(jsonOfList)
    case PyOther(repr) => Strip(repr)
  }

  /** How one argument is turned into text: by `_check_output`, or by `str()` when
      `check_type` is off. */
  function ArgText(v: PyValue, checkType: bool): (t: string)
    ensures checkType ==> IsStripped(t)
    ensures !checkType ==> t == v.repr
  {
    if checkType then CheckOutput(v) else v.repr
  }

  function ArgTexts(args: seq<PyValue>, checkType: bool): (texts: seq<string>)
    ensures |texts| == |args|
    ensures forall i :: 0 <= i < |args| ==> texts[i] == ArgText(args[i], checkType)
  {
    seq(|args|, i requires 0 <= i < |args| => ArgText(args[i], checkType))
  }

  /** The text `send` queues: the argument texts joined by `concatenate`, then `ending`. */
  function Payload(args: seq<PyValue>, checkType: bool, ending: string, concatenate: string): (p: string)
    ensures |ending| <= |p| && p[|p| - |ending|..] == ending
    ensures |args| > 0 ==> ArgText(args[0], checkType) <= p
    ensures |args| == 1 ==> p == ArgText(args[0], checkType) + ending
  {
    Join(concatenate, ArgTexts(args, checkType)) + ending
  }

  /** A payload always finishes with `ending`, and its length counts every argument text,
      one separator between neighbours and the ending. */
  lemma PayloadShape(args: seq<PyValue>, checkType: bool, ending: string, concatenate: string)
    requires |args| > 0
    ensures var p := Payload(args, checkType, ending, concatenate);
      |ending| <= |p| && p[|p| - |ending|..] == ending
      && |p| == TotalLength(ArgTexts(args, checkType)) + (|args| - 1) * |concatenate| + |ending|
  {
    JoinLength(concatenate, ArgTexts(args, checkType));
  }

  /** Adding one more argument to `send` adds the separator and that argument's text
      just before the ending. */
  lemma PayloadSnoc(args: seq<PyValue>, v: PyValue, checkType: bool, ending: string, concatenate: string)
    requires |args| > 0
    ensures Payload(args + [v], checkType, ending, concatenate)
         == Join(concatenate, ArgTexts(args, checkType)) + concatenate + ArgText(v, checkType) + ending
  {
    assert ArgTexts(args + [v], checkType) == ArgTexts(args, checkType) + [ArgText(v, checkType)];
    JoinSnoc(concatenate, ArgTexts(args, checkType), ArgText(v, checkType));
  }

  /** Python's `q[i]` on a list, with negative `i` counting from the end;
      None stands for the IndexError. */
  function PyIndex(q: seq<Chunk>, i: int): (r: Option<Chunk>)
    ensures r.Some? <==> -|q| <= i < |q|
  {
    if 0 <= i < |q| then Some(q[i])
    else if -|q| <= i < 0 then Some(q[|q| + i])
    else None
  }

  /** The `k`-th entry counted from the newest (`q[-1-k]`), for a nonnegative `k`. */
  function FromNewest(q: seq<Chunk>, k: nat): (r: Option<Chunk>)
    ensures k < |q| ==> r == Some(q[|q| - 1 - k])
    ensures k >= |q| ==> r == None
  {
    PyIndex(q, -1 - k)
  }

  /** The history after one chunk arrives: appended at the newest end, and the oldest
      entry popped once the history is longer than `capacity`. */
  function Ingested(history: seq<Chunk>, chunk: Chunk, capacity: nat): (h: seq<Chunk>)
    ensures |history| <= capacity ==> |h| == Min(|history| + 1, capacity)
    ensures |h| <= |history| + 1 && h == (history + [chunk])[|history| + 1 - |h|..]
    ensures h != [] ==> h[|h| - 1] == chunk
  {
    var appended := history + [chunk];
    if |appended| > capacity then appended[1..] else appended
  }

  /** With room left, nothing is lost; at capacity exactly the oldest entry goes; with
      capacity 0 the history stays empty; the new chunk is the newest entry. */
  lemma IngestedEvictsOldest(history: seq<Chunk>, chunk: Chunk, capacity: nat)
    requires |history| <= capacity
    ensures |history| < capacity ==> Ingested(history, chunk, capacity) == history + [chunk]
    ensures 0 < |history| == capacity ==> Ingested(history, chunk, capacity) == history[1..] + [chunk]
    ensures capacity == 0 ==> Ingested(history, chunk, capacity) == []
    ensures capacity > 0 ==> FromNewest(Ingested(history, chunk, capacity), 0) == Some(chunk)
  {
    var h := Ingested(history, chunk, capacity);
    if 0 < |history| == capacity {
      assert |h| == |history|;
      assert (history + [chunk])[1..] == history[1..] + [chunk];
    }
  }

  /** After a chunk arrives, what was the `k`-th newest entry is the `(k+1)`-th newest,
      as long as it was not evicted. */
  lemma IngestedShiftsHistory(history: seq<Chunk>, chunk: Chunk, capacity: nat, k: nat)
    requires |history| <= capacity
    requires k + 1 < capacity
    ensures FromNewest(Ingested(history, chunk, capacity), k + 1) == FromNewest(history, k)
  {
  }

  /** `BaseConnection`: configuration, the open/closed state `connected` (the serial
      object is present), the time of the last accepted send, the received history and
      the outgoing queue. */
  class BaseConnection {
    const baud: int
    const port: string
    const strict: bool        // `exception`: raise on misuse instead of returning
    const timeout: nat
    const queueSize: nat
    const sendInterval: nat

    var connected: bool
    var lastSent: int
    var rcvQueue: seq<Chunk>
    var toSend: seq<string>
    ghost var written: seq<string>   // every payload written to the device, in order

    /** The history never exceeds `queueSize`, the outgoing queue never exceeds
        `MaxPending`, and both are empty while the connection is closed. */
    ghost predicate Valid()
      reads this
    {
      && |rcvQueue| <= queueSize
      && |toSend| <= MaxPending
      && (!connected ==> rcvQueue == [] && toSend == [])
    }

    constructor (baud: int, port: string, exception: bool, timeout: int, sendInterval: int,
                 queueSize: int, now: int)
      ensures Valid()
      ensures this.baud == baud && this.port == port && strict == exception
      ensures this.timeout == Abs(timeout) && this.sendInterval == Abs(sendInterval)
      ensures this.queueSize == Abs(queueSize)
      ensures !connected && lastSent == now && rcvQueue == [] && toSend == [] && written == []
    {
      this.baud := baud;
      this.port := port;
      strict := exception;
      this.timeout := Abs(timeout);
      this.queueSize := Abs(queueSize);
      this.sendInterval := Abs(sendInterval);
      connected := false;
      lastSent := now;
      rcvQueue := [];
      toSend := [];
      written := [];
    }

    /** `connect`: opens the device unless already open. `deviceOpens` says whether the
        serial library managed to open it. The queues and `lastSent` are left as they are. */
    method Connect(deviceOpens: bool) returns (r: Result<()>)
      requires Valid()
      modifies this
      ensures Valid()
      ensures old(connected) ==>
        r == (if strict then Err(ConnectException(AlreadyEstablished)) else Ok(()))
        && connected
      ensures !old(connected) && !deviceOpens ==> r == Err(SerialException) && !connected
      ensures !old(connected) && deviceOpens ==> r == Ok(()) && connected
      ensures lastSent == old(lastSent) && rcvQueue == old(rcvQueue) && toSend == old(toSend)
      ensures written == old(written)
    {
      if connected {
        if strict {
          return Err(ConnectException(AlreadyEstablished));
        }
        return Ok(());
      }
      if !deviceOpens {
        return Err(SerialException);
      }
      connected := true;
      r := Ok(());
    }

    /** `_reset`: the last-sent time restarts at `now` and both queues are emptied. */
    method Reset(now: int)
      modifies this
      ensures Valid()
      ensures lastSent == now && rcvQueue == [] && toSend == []
      ensures connected == old(connected) && written == old(written)
    {
      lastSent := now;
      rcvQueue := [];
      toSend := [];
    }

    /** `disconnect`: closes the device and resets the queues, or reports that it was
        not open. */
    method Disconnect(now: int) returns (r: Result<()>)
      requires Valid()
      modifies this
      ensures Valid() && !connected && written == old(written)
      ensures !old(connected) ==>
        r == (if strict then Err(ConnectException(NotEstablished)) else Ok(()))
        && lastSent == old(lastSent) && rcvQueue == old(rcvQueue) && toSend == old(toSend)
      ensures old(connected) ==>
        r == Ok(()) && lastSent == now && rcvQueue == [] && toSend == []
    {
      if !connected {
        if strict {
          return Err(ConnectException(NotEstablished));
        }
        return Ok(());
      }
      Reset(now);
      connected := false;
      r := Ok(());
    }

    /** `send`: refused when closed; rejected (false, nothing changes) when no more than
        `sendInterval` has passed since the last accepted send; otherwise accepted (true):
        `lastSent` becomes `now` and the payload joins the back of the queue, unless the
        queue is full, in which case it is dropped. */
    method Send(args: seq<PyValue>, checkType: bool, ending: string, concatenate: string, now: int)
      returns (r: Result<bool>)
      requires Valid()
      modifies this
      ensures Valid()
      ensures connected == old(connected) && rcvQueue == old(rcvQueue) && written == old(written)
      ensures !old(connected) ==>
        r == (if strict then Err(ConnectException(NotEstablished)) else Ok(false))
      ensures old(connected) && now - old(lastSent) <= sendInterval ==> r == Ok(false)
      ensures r != Ok(true) ==> lastSent == old(lastSent) && toSend == old(toSend)
      ensures r == Ok(true) <==> old(connected) && now - old(lastSent) > sendInterval
      ensures r == Ok(true) ==> lastSent == now
      ensures r == Ok(true) && |old(toSend)| < MaxPending ==>
        toSend == old(toSend) + [Payload(args, checkType, ending, concatenate)]
      ensures r == Ok(true) && |old(toSend)| >= MaxPending ==> toSend == old(toSend)
    {
      if !connected {
        if strict {
          return Err(ConnectException(NotEstablished));
        }
        return Ok(false);
      }
      if now - lastSent <= sendInterval {
        return Ok(false);
      }
      lastSent := now;
      var data := Payload(args, checkType, ending, concatenate);
      if |toSend| < MaxPending {
        toSend := toSend + [data];
      }
      r := Ok(true);
    }

    /** `receive(num_before)`: the entry `num_before` places back from the newest.
        Misuse (closed, negative index, index past the oldest entry) raises in strict
        mode and gives None otherwise. */
    function Receive(numBefore: int): (r: Result<Option<Chunk>>)
      reads this
      ensures !connected ==>
        r == (if strict then Err(ConnectException(NotEstablished)) else Ok(None))
      ensures connected && numBefore < 0 ==> r == (if strict then Err(ValueError) else Ok(None))
      ensures connected && 0 <= numBefore < |rcvQueue| ==>
        r == Ok(Some(rcvQueue[|rcvQueue| - 1 - numBefore]))
      ensures connected && numBefore >= |rcvQueue| ==>
        r == (if strict then Err(IndexError) else Ok(None))
    {
      if !connected then
        if strict then Err(ConnectException(NotEstablished)) else Ok(None)
      else if numBefore < 0 then
        if strict then Err(ValueError) else Ok(None)
      else
        match PyIndex(rcvQueue, -1 - numBefore)
        case Some(c) => Ok(Some(c))
        case None => if strict then Err(IndexError) else Ok(None)
    }

    /** The receiving half of one loop iteration: store the chunk read from the device. */
    method Ingest(chunk: Chunk)
      requires Valid() && connected
      modifies this
      ensures Valid()
      ensures rcvQueue == Ingested(old(rcvQueue), chunk, queueSize)
      ensures connected && lastSent == old(lastSent) && toSend == old(toSend)
      ensures written == old(written)
    {
      rcvQueue := rcvQueue + [chunk];
      if |rcvQueue| > queueSize {
        rcvQueue := rcvQueue[1..];
      }
    }

    /** The sending half of one loop iteration: write queued payloads front first until
        the queue is empty or `budget` writes (the 0.5 s window) have been made. */
    method Drain(budget: nat) returns (sent: nat)
      requires Valid() && connected
      modifies this
      ensures Valid()
      ensures sent == Min(budget, |old(toSend)|)
      ensures toSend == old(toSend)[sent..]
      ensures written == old(written) + old(toSend)[..sent]
      ensures connected && lastSent == old(lastSent) && rcvQueue == old(rcvQueue)
    {
      sent := 0;
      while sent < budget
        invariant sent <= budget && sent <= |old(toSend)|
        invariant toSend == old(toSend)[sent..]
        invariant written == old(written) + old(toSend)[..sent]
        invariant connected && lastSent == old(lastSent) && rcvQueue == old(rcvQueue)
      {
        if toSend == [] {
          break;
        }
        written := written + [toSend[0]];
        toSend := toSend[1..];
        sent := sent + 1;
      }
    }

    /** One iteration of the IO loop. It runs only while the connection is open:
        the chunk that is waiting, if any, is stored, then the queue is drained. */
    method IoIteration(incoming: Option<Chunk>, budget: nat) returns (running: bool, sent: nat)
      requires Valid()
      modifies this
      ensures Valid()
      ensures running == old(connected) && connected == old(connected)
      ensures lastSent == old(lastSent)
      ensures !running ==>
        sent == 0 && rcvQueue == old(rcvQueue) && toSend == old(toSend) && written == old(written)
      ensures running ==>
        rcvQueue == (if incoming.Some? then Ingested(old(rcvQueue), incoming.value, queueSize)
                     else old(rcvQueue))
        && sent == Min(budget, |old(toSend)|)
        && toSend == old(toSend)[sent..] && written == old(written) + old(toSend)[..sent]
    {
      running := connected;
      sent := 0;
      if !running {
        return;
      }
      if incoming.Some? {
        Ingest(incoming.value);
      }
      sent := Drain(budget);
    }
  }

  /** The send interval at work, as the server tests exercise it: a send right after
      connecting, or right after an accepted send, is rejected. */
  method ThrottleScenario(payload: seq<PyValue>)
  {
    var c := new BaseConnection(9600, "/dev/ttyUSB0", false, 1, 1, 256, 0);
    var connectResult := c.Connect(true);
    assert connectResult == Ok(());
    var first := c.Send(payload, true, "\r\n", " ", 1);
    assert first == Ok(false);
    var second := c.Send(payload, true, "\r\n", " ", 2);
    assert second == Ok(true) && c.toSend == [Payload(payload, true, "\r\n", " ")];
    var third := c.Send(payload, true, "\r\n", " ", 2);
    assert third == Ok(false);
    var sent := c.Drain(10);
    assert c.written == [Payload(payload, true, "\r\n", " ")] && c.toSend == [];
  }

  /** A history of capacity 3 that receives "1" to "4" keeps the last three. */
  lemma FourIntoThree()
    ensures Ingested(Ingested(Ingested(Ingested([], "1", 3), "2", 3), "3", 3), "4", 3) == ["2", "3", "4"]
  {
    var h1 := Ingested([], "1", 3);
    assert h1 == ["1"] by { assert [] + ["1"] == ["1"]; }
    var h2 := Ingested(h1, "2", 3);
    assert h2 == ["1", "2"] by { assert ["1"] + ["2"] == ["1", "2"]; }
    var h3 := Ingested(h2, "3", 3);
    assert h3 == ["1", "2", "3"] by { assert ["1", "2"] + ["3"] == ["1", "2", "3"]; }
    assert Ingested(h3, "4", 3) == ["2", "3", "4"] by {
      assert (["1", "2", "3"] + ["4"])[1..] == ["2", "3", "4"];
    }
  }

  /** A connection whose history has capacity 3 receives four chunks: `receive` then sees
      the last three, newest first. */
  method HistoryScenario()
  {
    var c := new BaseConnection(9600, "/dev/ttyUSB0", false, 1, 1, 3, 0);
    var connectResult := c.Connect(true);
    assert connectResult == Ok(());
    c.Ingest("1");
    c.Ingest("2");
    c.Ingest("3");
    c.Ingest("4");
    FourIntoThree();
    assert c.rcvQueue == ["2", "3", "4"];
    assert c.Receive(0) == Ok(Some("4"));
    assert c.Receive(2) == Ok(Some("2"));
    assert c.Receive(3) == Ok(None);
  }
}
