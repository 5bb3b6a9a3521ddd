/** One client's TCP connection as the server sees it: the chunks recv will
    still return, in order, and the messages send_message has written.
    Once the chunks run out, recv reports the peer closed the connection. */
module Channel {
  import opened CText

  /** Messages sent in batches: how the batches are grouped does not matter. */
  lemma SentInBatches<M>(a: seq<M>, b: seq<M>, c: seq<M>)
    ensures a + b + c == a + (b + c)
  {
  }

  class Connection<M> {
    var incoming: seq<string>
    var sent: seq<M>

    constructor(input: seq<string>)
      ensures incoming == input && sent == []
    {
      incoming := input;
      sent := [];
    }

    /** recv: the next chunk, or None when the client has closed the connection (recv <= 0). */
    method Receive() returns (chunk: Option<string>)
      modifies this
      ensures old(incoming) == [] ==> chunk.None? && incoming == []
      ensures old(incoming) != [] ==> chunk == Some(old(incoming)[0]) && incoming == old(incoming)[1..]
      ensures sent == old(sent)
    {
      if incoming == [] {
        chunk := None;
      } else {
        chunk := Some(incoming[0]);
        incoming := incoming[1..];
      }
    }

    /** receive_string: the next chunk without its trailing newline, or None. */
    method ReceiveLine() returns (line: Option<string>)
      modifies this
      ensures old(incoming) == [] ==> line.None? && incoming == []
      ensures old(incoming) != [] ==> line == Some(StripNewline(old(incoming)[0])) && incoming == old(incoming)[1..]
      ensures sent == old(sent)
    {
      var chunk := Receive();
      line := if chunk.Some? then Some(StripNewline(chunk.value)) else None;
    }

    /** send_message */
    method Send(m: M)
      modifies this
      ensures sent == old(sent) + [m] && incoming == old(incoming)
    {
      sent := sent + [m];
    }
  }
}
