/** The wire format: JSON lines and raw bodies in one stream, in both directions. */
module Framing {
  import opened Base
  import Search

  // ---------------------------------------------------------------- responses

  /** What an error response complains about. The wording, and the system's own error text, are not modelled. */
  datatype Problem =
    | Protocol | NoVerbGiven | Unauthorized | NoSuchVerb
    | BadPath | BadContent | BadBytes | NegativeBytes | BadPattern | BadCommand
    | UnknownUser(name: Text) | CannotRunAs(name: Text)
    | NotAFile | NoTempFile | SystemError

  /** A response line's object. `Sending` is the ok header of get_file; its body follows the line. */
  datatype Response =
    | Failed(id: real, error: Problem)
    | Wrote(id: real, path: Text, bytesWritten: nat, mode: nat, created: bool)
    | Sending(id: real, path: Text, bytes: nat, mode: nat)
    | Contents(id: real, path: Text, size: nat, mode: nat, content: Text)
    | Found(id: real, ok: bool, count: nat, truncated: bool, exitCode: int, matches: seq<Search.Match>)
    | Acknowledged(id: real)
    | Answered(id: real, ok: bool)

  /** How many raw bytes the line tells the client to read after it. */
  function Promised(r: Response): nat {
    if r.Sending? then r.bytes else 0
  }

  /** The JSON and base64 codecs, which the agent takes from a library. `round` is what printing a number and
      reading it again makes of it: a finite text cannot carry every real number. */
  datatype Codec = Codec(
    parse: Text -> Parsed,
    render: Response -> Text,
    decode: Text -> Option<Response>,
    round: real -> real,
    toBase64: Text -> Text,
    fromBase64: Text -> Text)

  /** A response as it reads after being printed: its id is a number. */
  function AsRead(c: Codec, r: Response): (r': Response)
    ensures Promised(r') == Promised(r) && (c.round(r.id) == r.id ==> r' == r)
  {
    r.(id := c.round(r.id))
  }

  /** Printed responses hold no newline and are read back. */
  ghost predicate Faithful(c: Codec) {
    forall r: Response :: '\n' !in c.render(r) && c.decode(c.render(r)) == Some(AsRead(c, r))
  }

  ghost predicate Base64Inverts(c: Codec) {
    forall d: Text :: c.fromBase64(c.toBase64(d)) == d
  }

  // ---------------------------------------------------------------- verbs

  datatype Verb =
    | NoVerb | HelloVerb | SysInfoVerb | ShutdownVerb | RunCommandVerb | ReadFileVerb | WriteFileVerb
    | StatVerb | ListDirVerb | SearchVerb | PutFileVerb | GetFileVerb | OtherVerb

  function VerbOf(req: Request): Verb {
    match FindText(req, "verb")
    case None => NoVerb
    case Some(v) =>
      if v == "hello" then HelloVerb
      else if v == "sysinfo" then SysInfoVerb
      else if v == "shutdown" then ShutdownVerb
      else if v == "run_command" then RunCommandVerb
      else if v == "read_file" then ReadFileVerb
      else if v == "write_file" then WriteFileVerb
      else if v == "stat" then StatVerb
      else if v == "list_dir" then ListDirVerb
      else if v == "search" then SearchVerb
      else if v == "put_file" then PutFileVerb
      else if v == "get_file" then GetFileVerb
      else OtherVerb
  }

  // ---------------------------------------------------------------- server to client

  datatype Reply = Reply(resp: Response, body: Text)

  function EncodeReply(c: Codec, r: Reply): Text {
    c.render(r.resp) + "\n" + r.body
  }

  function Encode(c: Codec, rs: seq<Reply>): Text {
    if rs == [] then [] else Encode(c, rs[..|rs| - 1]) + EncodeReply(c, rs[|rs| - 1])
  }

  /** A client that reads a line, then as many raw bytes as the line promises; it stops at what is incomplete. */
  function ClientRead(c: Codec, out: Text): seq<Reply>
    decreases |out|
  {
    var i := IndexOf(out, '\n');
    if i == |out| || c.decode(out[..i]).None? then []
    else
      var resp, rest := c.decode(out[..i]).value, out[i + 1..];
      var n := Promised(resp);
      if |rest| < n then [] else [Reply(resp, rest[..n])] + ClientRead(c, rest[n..])
  }

  predicate Complete(r: Reply) {
    |r.body| == Promised(r.resp)
  }

  /** The replies as the client reads them: every body byte for byte, every id as it prints. */
  function ReadAs(c: Codec, rs: seq<Reply>): (out: seq<Reply>)
    ensures |out| == |rs|
  {
    if rs == [] then [] else [Reply(AsRead(c, rs[0].resp), rs[0].body)] + ReadAs(c, rs[1..])
  }

  /** Ids that print exactly are all the client needs to have the replies themselves. */
  lemma {:induction false} ReadExactly(c: Codec, rs: seq<Reply>)
    ensures ReadAs(c, rs) == rs <==> forall i :: 0 <= i < |rs| ==> c.round(rs[i].resp.id) == rs[i].resp.id
  {
    if rs != [] {
      ReadExactly(c, rs[1..]);
      assert rs == [rs[0]] + rs[1..];
      assert ReadAs(c, rs)[0].resp == AsRead(c, rs[0].resp) && ReadAs(c, rs)[1..] == ReadAs(c, rs[1..]);
      assert AsRead(c, rs[0].resp).id == c.round(rs[0].resp.id);
      assert forall i :: 1 <= i < |rs| ==> rs[i] == rs[1..][i - 1];
      assert forall i :: 0 <= i < |rs[1..]| ==> rs[1..][i] == rs[i + 1];
    }
  }

  lemma ClientReadFirst(c: Codec, r: Reply, more: Text)
    requires Faithful(c)
    ensures var rest, n := r.body + more, Promised(r.resp);
            ClientRead(c, EncodeReply(c, r) + more) ==
              if |rest| < n then [] else [Reply(AsRead(c, r.resp), rest[..n])] + ClientRead(c, rest[n..])
  {
    var line := c.render(r.resp);
    var out := EncodeReply(c, r) + more;
    assert out == line + ['\n'] + (r.body + more);
    IndexOfFirst(line, '\n', r.body + more);
    assert out[..|line|] == line && out[|line| + 1..] == r.body + more;
  }

  lemma {:induction false} EncodeSplit(c: Codec, r: Reply, rs: seq<Reply>)
    ensures Encode(c, [r] + rs) == EncodeReply(c, r) + Encode(c, rs)
    decreases |rs|
  {
    var all := [r] + rs;
    if rs == [] {
      assert all[..0] == [] && all[|all| - 1] == r;
      assert Encode(c, all[..0]) == [];
    } else {
      assert all[..|all| - 1] == [r] + rs[..|rs| - 1] && all[|all| - 1] == rs[|rs| - 1];
      EncodeSplit(c, r, rs[..|rs| - 1]);
    }
  }

  /** The client recovers exactly what was sent, reply by reply, when and only when every body that was
      promised went out whole; one short body and it reads the next response as file content. */
  lemma {:induction false} ClientReadsBack(c: Codec, rs: seq<Reply>)
    requires Faithful(c)
    ensures ClientRead(c, Encode(c, rs)) == ReadAs(c, rs) <==> forall i :: 0 <= i < |rs| ==> Complete(rs[i])
    decreases |rs|
  {
    hide EncodeReply, ClientRead, Complete, AsRead;
    if rs == [] {
      assert Encode(c, rs) == [];
      assert ClientRead(c, []) == [] by {
        NothingToRead(c);
      }
    } else {
      var r, more, want := rs[0], Encode(c, rs[1..]), ReadAs(c, rs);
      assert rs == [r] + rs[1..];
      EncodeSplit(c, r, rs[1..]);
      ClientReadsBack(c, rs[1..]);
      ReadsFirst(c, r, more);
      var got := ClientRead(c, Encode(c, rs));
      if Complete(r) {
        SameTails(want[0], ClientRead(c, more), ReadAs(c, rs[1..]));
        AllButFirst(rs);
      } else {
        assert got != want;
      }
    }
  }

  lemma NothingToRead(c: Codec)
    ensures ClientRead(c, []) == []
  {
  }

  lemma SameTails<T>(x: T, a: seq<T>, b: seq<T>)
    ensures [x] + a == [x] + b <==> a == b
  {
    assert ([x] + a)[1..] == a && ([x] + b)[1..] == b;
  }

  /** A whole reply is read back, then the rest; a short one is not read back. */
  lemma ReadsFirst(c: Codec, r: Reply, more: Text)
    requires Faithful(c)
    ensures var got := ClientRead(c, EncodeReply(c, r) + more);
            if Complete(r) then got == [Reply(AsRead(c, r.resp), r.body)] + ClientRead(c, more)
            else got == [] || got[0].body != r.body
  {
    hide ClientRead, EncodeReply;
    ClientReadFirst(c, r, more);
    var n := Promised(r.resp);
    if Complete(r) {
      assert (r.body + more)[..n] == r.body && (r.body + more)[n..] == more;
    }
  }

  lemma AllButFirst(rs: seq<Reply>)
    requires rs != [] && Complete(rs[0])
    ensures (forall i :: 0 <= i < |rs| ==> Complete(rs[i]))
            <==> (forall i :: 0 <= i < |rs[1..]| ==> Complete(rs[1..][i]))
  {
    if forall i :: 0 <= i < |rs[1..]| ==> Complete(rs[1..][i]) {
      forall i | 0 <= i < |rs| ensures Complete(rs[i]) {
        if i > 0 {
          assert rs[i] == rs[1..][i - 1];
        }
      }
    }
  }

  // ---------------------------------------------------------------- client to server

  /** What decides how a line is taken: the parser, the auth gate, and whether a shutdown is already pending. */
  datatype Session = Session(parse: Text -> Parsed, admits: Request -> bool, stopping: bool)

  /** What a request line does to the stream. */
  datatype Effect =
    | Streams(body: nat)             // a raw body of this length follows; the connection goes on
    | Closes                         // the length of what follows is unknown or not trusted
    | Answers(shutdown: bool)        // one line in, one line out

  /** The declared body length of put_file: a path, and a number of bytes that is not negative. */
  function PutBytes(req: Request): Option<nat> {
    if FindText(req, "path").None? || FindNumber(req, "bytes").None? || FindNumber(req, "bytes").value < 0.0 then None
    else Some(FindNumber(req, "bytes").value.Floor)
  }

  function EffectOf(s: Session, line: Text): Effect {
    match s.parse(line)
    case Object(req) =>
      var verb := VerbOf(req);
      if verb == PutFileVerb then
        if s.admits(req) && PutBytes(req).Some? then Streams(PutBytes(req).value) else Closes
      else if verb == GetFileVerb then
        if s.admits(req) then Streams(0) else Closes
      else Answers(verb == ShutdownVerb && s.admits(req))
    case _ => Answers(false)
  }

  /** Drop every newline and carriage return at the end. */
  function Strip(line: Text): (s: Text)
    ensures s <= line && (s == [] || (s[|s| - 1] != '\n' && s[|s| - 1] != '\r'))
    ensures forall i :: |s| <= i < |line| ==> line[i] == '\n' || line[i] == '\r'
  {
    if line != [] && (line[|line| - 1] == '\n' || line[|line| - 1] == '\r') then Strip(line[..|line| - 1]) else line
  }

  lemma StripNewline(line: Text)
    ensures Strip(line + "\n") == Strip(line)
  {
    assert (line + "\n")[..|line|] == line;
  }

  /** After this line the connection serves nothing more. */
  predicate Ends(s: Session, line: Text) {
    match EffectOf(s, line)
    case Streams(_) => false
    case Closes => true
    case Answers(shutdown) => s.stopping || shutdown
  }

  /** One request: a line, and the raw bytes that go with it. */
  datatype Frame = Frame(line: Text, body: Text)

  /** A declared body as far as the client sends it. */
  function BodyOf(input: Text, total: nat): Text {
    input[..Min(total, |input|)]
  }

  function BodyLength(s: Session, line: Text): nat {
    match EffectOf(s, line) case Streams(n) => n case _ => 0
  }

  /** The requests a connection should take from its input, each with its own body, in order: the meaning of the
      byte stream. Only the last can have a body the client cut off. */
  function Served(s: Session, input: Text): seq<Frame>
    decreases |input|
  {
    var i := IndexOf(input, '\n');
    if i == |input| then []
    else
      var line, rest := Strip(input[..i]), input[i + 1..];
      var n := BodyLength(s, line);
      if line == [] then Served(s, rest)
      else if Ends(s, line) || n > |rest| then [Frame(line, BodyOf(rest, n))]
      else [Frame(line, BodyOf(rest, n))] + Served(s, rest[n..])
  }

  function Wire(fs: seq<Frame>): Text {
    if fs == [] then [] else fs[0].line + "\n" + fs[0].body + Wire(fs[1..])
  }

  predicate WellFormed(s: Session, f: Frame) {
    '\n' !in f.line && |f.body| == if Strip(f.line) == [] then 0 else BodyLength(s, Strip(f.line))
  }

  /** The frames as the connection takes them: blank ones skipped, up to the first that ends the connection. */
  function Taken(s: Session, fs: seq<Frame>): seq<Frame> {
    if fs == [] then []
    else
      var line := Strip(fs[0].line);
      if line == [] then Taken(s, fs[1..])
      else [Frame(line, fs[0].body)] + (if Ends(s, line) then [] else Taken(s, fs[1..]))
  }

  predicate EndsWithin(s: Session, fs: seq<Frame>) {
    exists i :: 0 <= i < |fs| && Strip(fs[i].line) != [] && Ends(s, Strip(fs[i].line))
  }

  lemma EndsWithinTail(s: Session, fs: seq<Frame>)
    requires fs != []
    ensures EndsWithin(s, fs) <==> (Strip(fs[0].line) != [] && Ends(s, Strip(fs[0].line))) || EndsWithin(s, fs[1..])
  {
    if EndsWithin(s, fs[1..]) {
      var i :| 0 <= i < |fs[1..]| && Strip(fs[1..][i].line) != [] && Ends(s, Strip(fs[1..][i].line));
      assert fs[i + 1] == fs[1..][i];
    }
    if EndsWithin(s, fs) {
      var i :| 0 <= i < |fs| && Strip(fs[i].line) != [] && Ends(s, Strip(fs[i].line));
      if i > 0 {
        assert fs[1..][i - 1] == fs[i];
      }
    }
  }

  lemma ServedFirst(s: Session, f: Frame, more: Text)
    requires WellFormed(s, f)
    ensures var line := Strip(f.line);
            Served(s, f.line + "\n" + f.body + more) ==
              if line == [] then Served(s, more)
              else [Frame(line, f.body)] + (if Ends(s, line) then [] else Served(s, more))
  {
    var input := f.line + "\n" + f.body + more;
    assert input == f.line + ['\n'] + (f.body + more);
    IndexOfFirst(f.line, '\n', f.body + more);
    assert input[..|f.line|] == f.line && input[|f.line| + 1..] == f.body + more;
    assert (f.body + more)[..|f.body|] == f.body && (f.body + more)[|f.body|..] == more;
    if f.body == [] {
      assert f.body + more == more;
    }
  }

  /** Whatever bytes the bodies hold, newlines included, a stream of well-formed frames is taken as exactly
      those requests in order, each with its own body, up to the first that ends the connection. */
  lemma {:induction false} FramesAreTaken(s: Session, fs: seq<Frame>, more: Text)
    requires forall f :: f in fs ==> WellFormed(s, f)
    ensures Served(s, Wire(fs) + more) == Taken(s, fs) + (if EndsWithin(s, fs) then [] else Served(s, more))
    decreases |fs|
  {
    hide Served, EffectOf, Strip, WellFormed;
    if fs == [] {
      assert Wire(fs) + more == more;
    } else {
      var rest := Wire(fs[1..]) + more;
      assert Wire(fs) + more == fs[0].line + "\n" + fs[0].body + rest;
      ServedFirst(s, fs[0], rest);
      FramesAreTaken(s, fs[1..], more);
      EndsWithinTail(s, fs);
    }
  }

  /** The id a line's response must carry. */
  function LineId(parse: Text -> Parsed, line: Text): real {
    match parse(line) case Object(req) => IdOf(req) case _ => 0.0
  }
}
