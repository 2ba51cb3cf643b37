/**
 One request on a connection (connection.go, sendRequest and sendRequestHelper): write, read
 one frame, compare correlation IDs; any failure closes the connection, so that a response
 never meets the wrong request.
 */
module Requests {
  import opened Wire
  import opened Frames
  import opened ResponsesIO
  import opened Backends

  /** `Crashed` is the panic of ReadResp on a nonsensical frame size. */
  datatype Outcome = Response(bytes: seq<byte>) | WriteFailed | ReadFailed | Mismatch(got: int) | TimedOut | Crashed

  /** sendRequestHelper; `wrote` is whether the write succeeds. */
  method SendRequestHelper(conn: Connection, reqID: int32, wrote: bool, r: Source) returns (o: Outcome)
    modifies conn, r
    ensures !wrote ==> o == WriteFailed && r.unread == old(r.unread) && conn.closed == old(conn.closed)
    ensures wrote ==>
      match ReadFrame(4, old(r.unread))
      case Short => o == ReadFailed && conn.closed == old(conn.closed)
      case Boom => o == Crashed && conn.closed == old(conn.closed)
      case Frame(tag, bytes, rest) =>
        && r.unread == rest
        && o == (if tag == reqID then Response(bytes) else Mismatch(tag))
        && conn.closed == (old(conn.closed) || tag != reqID)
    ensures conn.rawCloses == old(conn.rawCloses) + if conn.closed && !old(conn.closed) then 1 else 0
  {
    if !wrote {
      return WriteFailed;
    }
    hide ReadFrame;
    var f, boom := ReadFrameFrom(4, r);
    if boom {
      return Crashed;
    }
    if f.None? {
      return ReadFailed;
    }
    var (correlationID, b) := f.value;
    if correlationID != reqID {
      conn.Close();
      return Mismatch(correlationID);
    }
    o := Response(b);
  }

  /**
   sendRequest: a response is the frame with this request's ID at the front of the stream, in
   time; after anything else the connection is closed, and it is closed only once, even when
   the helper goes on after the timeout.
   */
  method SendRequest(conn: Connection, reqID: int32, wrote: bool, r: Source, inTime: bool) returns (o: Outcome)
    modifies conn, r
    ensures o.Response? <==>
              inTime && wrote && ReadFrame(4, old(r.unread)).Frame? && ReadFrame(4, old(r.unread)).tag == reqID
    ensures o.Response? ==>
      && Frame(reqID, o.bytes, r.unread) == ReadFrame(4, old(r.unread))
      && conn.closed == old(conn.closed)
    ensures !o.Response? && !o.Crashed? ==> conn.closed
    ensures conn.rawCloses == old(conn.rawCloses) + if conn.closed && !old(conn.closed) then 1 else 0
  {
    hide ReadFrame;
    if !inTime {
      conn.Close();
      var late := SendRequestHelper(conn, reqID, wrote, r);
      return TimedOut;
    }
    o := SendRequestHelper(conn, reqID, wrote, r);
    if !o.Response? && !o.Crashed? {
      conn.Close();
    }
  }

  // ---------------------------------------------------------------- a connection's requests

  /** The responses to requests with these IDs, one after the other, up to the first failure. */
  function Responses(ids: seq<int32>, s: seq<byte>): seq<seq<byte>> {
    if ids == [] then []
    else
      var f := ReadFrame(4, s);
      if f.Frame? && f.tag == ids[0] then [f.bytes] + Responses(ids[1..], f.rest) else []
  }

  /**
   Whatever frames arrive, in whatever order, the i-th request is answered with the i-th frame
   and only if its ID fits, up to the first that does not.
   */
  lemma {:induction false} AnsweredInOrder(ids: seq<int32>, payloads: seq<seq<byte>>)
    requires forall i :: 0 <= i < |payloads| ==> Frameable(4, payloads[i])
    ensures var answers := Responses(ids, Stream(payloads));
            && |answers| <= |ids| && |answers| <= |payloads|
            && (forall i :: 0 <= i < |answers| ==> answers[i] == Framed(payloads[i]) && Tag(4, payloads[i]) == ids[i])
            && (|answers| < |ids| && |answers| < |payloads| ==> Tag(4, payloads[|answers|]) != ids[|answers|])
    decreases |ids|
  {
    if ids != [] {
      if payloads == [] {
        assert Stream(payloads) == [];
      } else {
        hide ReadFrame, Framed, DecInt;
        ReadFrameOfFramed(4, payloads[0], Stream(payloads[1..]));
        AnsweredInOrder(ids[1..], payloads[1..]);
      }
    }
  }
}
