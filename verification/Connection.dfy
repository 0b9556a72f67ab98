/** One client connection. A receive or a send either does all it was asked or throws, modelled as a
    result the caller must act on; `broken` records that the network, not the client's framing, was why. */
module Connection {
  import opened Base
  import opened Framing

  class Socket {
    const codec: Codec
    var input: Text                    // sent by the client, not yet read
    var output: Text                   // everything sent to the client
    ghost var replies: seq<Reply>      // the same, as the responses it is made of
    ghost var broken: bool

    /** A connection just accepted, from a client that is going to send `input`. */
    constructor (codec: Codec, input: Text)
      ensures this.codec == codec && this.input == input && replies == [] && !broken && Tracks()
    {
      this.codec, this.input, output, replies, broken := codec, input, [], [], false;
    }

    /** While no send has failed, the output is the encoding of whole responses. */
    ghost predicate Tracks()
      reads this
    {
      !broken ==> output == Encode(codec, replies)
    }

    /** recvUntil( '\n' ): everything up to and including the next newline, and no further. */
    method RecvUntil() returns (line: Option<Text>)
      modifies this`input, this`broken
      ensures old(broken) ==> broken
      ensures line.Some? ==>
                var i := IndexOf(old(input), '\n');
                && i < |old(input)| && line.value == old(input)[..i] + "\n" && input == old(input)[i + 1..]
                && broken == old(broken)
      ensures line.None? && !broken ==> IndexOf(old(input), '\n') == |old(input)|
    {
      var fails: bool := *;
      if fails {
        broken := true;
        return None;
      }
      var i := IndexOf(input, '\n');
      if i == |input| {
        input := [];
        return None;
      }
      line := Some(input[..i] + "\n");
      input := input[i + 1..];
    }

    /** recvAtLeast( buf, n ): exactly n bytes. */
    method RecvAtLeast(n: nat) returns (data: Option<Text>)
      modifies this`input, this`broken
      ensures old(broken) ==> broken
      ensures data.Some? ==> broken == old(broken) && n <= |old(input)|
                             && data.value == old(input)[..n] && input == old(input)[n..]
      ensures data.None? && !broken ==> n > |old(input)|
    {
      var fails: bool := *;
      if fails {
        broken := true;
        return None;
      }
      if n > |input| {
        input := [];
        return None;
      }
      data := Some(input[..n]);
      input := input[n..];
    }

    method SendLine(r: Response) returns (ok: bool)
      requires Tracks()
      modifies this`output, this`replies, this`broken
      ensures Tracks()
      ensures ok ==> broken == old(broken) && replies == old(replies) + [Reply(r, [])]
      ensures !ok ==> broken && replies == old(replies)
    {
      ok := Transmit(codec.render(r) + "\n");
      if ok {
        replies := replies + [Reply(r, [])];
        assert EncodeReply(codec, Reply(r, [])) == codec.render(r) + "\n";
        assert replies[..|replies| - 1] == old(replies);
      }
    }

    /** Raw bytes after a header line: they lengthen the body of the response in progress. */
    method SendBody(data: Text) returns (ok: bool)
      requires Tracks() && replies != []
      modifies this`output, this`replies, this`broken
      ensures Tracks()
      ensures ok ==> broken == old(broken) && replies == Longer(old(replies), data)
      ensures !ok ==> broken && replies == old(replies)
    {
      ok := Transmit(data);
      if ok {
        var last := replies[|replies| - 1];
        replies := Longer(replies, data);
        assert replies[..|replies| - 1] == old(replies)[..|replies| - 1];
        assert EncodeReply(codec, last) + data == EncodeReply(codec, last.(body := last.body + data));
      }
    }

    /** sendAtLeast(): all of it, or an exception with some of it gone */
    method Transmit(data: Text) returns (ok: bool)
      modifies this`output, this`broken
      ensures ok ==> output == old(output) + data && broken == old(broken)
      ensures !ok ==> broken
    {
      ok := *;
      if ok {
        output := output + data;
      } else {
        broken := true;
      }
    }
  }

  function Longer(rs: seq<Reply>, data: Text): seq<Reply>
    requires rs != []
  {
    var last := rs[|rs| - 1];
    rs[|rs| - 1 := last.(body := last.body + data)]
  }
}
