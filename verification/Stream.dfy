/** The byte stream by the fields of its lines: who is let in, and what belongs to each request. */
module Stream {
  import opened Base
  import opened Fields
  import opened Framing
  import opened Answers

  /** Everyone is let in if the gate is open; otherwise those who send its secret. */
  predicate LetIn(g: Gate, req: Request) {
    g.open || (g.secret.Some? && HasAuth(req, g.secret.value))
  }

  lemma LetInIsAdmitted(codec: Codec, g: Gate, stopping: bool, req: Request)
    ensures SessionOf(codec, g, stopping).admits(req) <==> LetIn(g, req)
  {
  }

  /** The line holds an object, and nothing at its end is stripped. */
  predicate Holds(s: Session, line: Text, req: Request) {
    IsWhole(line) && s.parse(line) == Object(req)
  }

  predicate IsWhole(line: Text) {
    line != [] && '\n' !in line && line[|line| - 1] != '\r'
  }

  /** The line and what follows it, in terms of what the line does to the stream. */
  lemma FirstLine(s: Session, line: Text, rest: Text)
    requires IsWhole(line)
    ensures var n := BodyLength(s, line);
            Served(s, line + "\n" + rest) ==
              if Ends(s, line) || n > |rest| then [Frame(line, BodyOf(rest, n))]
              else [Frame(line, rest[..n])] + Served(s, rest[n..])
  {
    var input := line + "\n" + rest;
    assert input == line + ['\n'] + rest;
    IndexOfFirst(line, '\n', rest);
    assert input[..|line|] == line && input[|line| + 1..] == rest;
  }

  /** An admitted upload takes exactly the bytes it declares, whatever they are, and the next request begins after
      them. A fraction of a byte counts for nothing. */
  lemma UploadTakesItsBody(s: Session, line: Text, req: Request, bytes: real, body: Text, more: Text)
    requires Holds(s, line, req) && IsPutFile(req) && s.admits(req) && !LacksPath(req)
    requires HasBytes(req, bytes) && |body| as real <= bytes < |body| as real + 1.0
    ensures Served(s, line + "\n" + body + more) == [Frame(line, body)] + Served(s, more)
  {
    hide Served;
    FirstLine(s, line, body + more);
    assert line + "\n" + body + more == line + "\n" + (body + more);
    assert (body + more)[..|body|] == body && (body + more)[|body|..] == more;
  }

  /** What makes a whole frame: after an admitted upload that tells its length, so many bytes; after any other line,
      none. */
  lemma FramesByFields(s: Session, f: Frame)
    requires IsWhole(f.line)
    ensures WellFormed(s, f) <==>
              if exists req :: Holds(s, f.line, req) && IsPutFile(req) && s.admits(req) && TellsLength(req)
              then exists req, bytes :: Holds(s, f.line, req) && HasBytes(req, bytes)
                                        && |f.body| as real <= bytes < |f.body| as real + 1.0
              else f.body == []
  {
    assert Strip(f.line) == f.line;
    if s.parse(f.line).Object? {
      var req := s.parse(f.line).req;
      assert Holds(s, f.line, req);
      if TellsLength(req) {
        assert HasBytes(req, req["bytes"].num);
      }
    }
  }

  /** One whose bytes do not all come is the last request, with what came of them. */
  lemma UploadCutOff(s: Session, line: Text, req: Request, bytes: real, part: Text)
    requires Holds(s, line, req) && IsPutFile(req) && s.admits(req) && !LacksPath(req)
    requires HasBytes(req, bytes) && |part| as real + 1.0 <= bytes
    ensures Served(s, line + "\n" + part) == [Frame(line, part)]
  {
    hide Served;
    FirstLine(s, line, part);
    assert part[..|part|] == part;
  }

  /** A streaming request that is not admitted, and an upload that does not tell its length, are the last; no byte
      after them is taken for anything. */
  lemma NoLengthNoMore(s: Session, line: Text, req: Request, more: Text)
    requires Holds(s, line, req)
    requires (IsPutFile(req) && !(s.admits(req) && TellsLength(req))) || (IsGetFile(req) && !s.admits(req))
    ensures Served(s, line + "\n" + more) == [Frame(line, [])]
  {
    hide Served;
    FirstLine(s, line, more);
    assert BodyOf(more, 0) == [];
  }

  /** An admitted download is followed by the next request, even when a shutdown is pending. */
  lemma DownloadHasNoBody(s: Session, line: Text, req: Request, more: Text)
    requires Holds(s, line, req) && IsGetFile(req) && s.admits(req)
    ensures Served(s, line + "\n" + more) == [Frame(line, [])] + Served(s, more)
  {
    hide Served;
    FirstLine(s, line, more);
    assert more[..0] == [] && more[0..] == more;
  }

  ghost predicate AsksShutdown(s: Session, line: Text) {
    exists req :: Holds(s, line, req) && IsShutdown(req) && s.admits(req)
  }

  /** Any other line is a request of its own, an object or not. It is the last exactly if the flag is up or it is an
      admitted shutdown. */
  lemma OtherLines(s: Session, line: Text, more: Text)
    requires IsWhole(line)
    requires forall req :: Holds(s, line, req) ==> !IsPutFile(req) && !IsGetFile(req)
    ensures Served(s, line + "\n" + more) ==
              [Frame(line, [])] + (if s.stopping || AsksShutdown(s, line) then [] else Served(s, more))
  {
    hide Served;
    FirstLine(s, line, more);
    assert more[..0] == [] && more[0..] == more && BodyOf(more, 0) == [];
    if s.parse(line).Object? {
      var req := s.parse(line).req;
      assert Holds(s, line, req);
    }
  }

  /** Carriage returns before the newline are not part of a line, and a line of nothing else is no request. */
  lemma {:induction false} LineEndings(s: Session, line: Text, crs: Text, more: Text)
    requires '\n' !in line && forall c :: c in crs ==> c == '\r'
    ensures Served(s, line + crs + "\n" + more) == Served(s, line + "\n" + more)
    ensures Served(s, crs + "\n" + more) == Served(s, more)
  {
    assert '\n' !in crs;
    FirstEnd(line + crs, more);
    FirstEnd(line, more);
    FirstEnd(crs, more);
    StripReturns(line, crs);
    StripReturns([], crs);
    assert [] + crs == crs && Strip([]) == [];
    if Strip(line) != [] {
      assert Served(s, line + crs + "\n" + more) == Served(s, line + "\n" + more);
    }
  }

  lemma FirstEnd(line: Text, more: Text)
    requires '\n' !in line
    ensures var input := line + "\n" + more;
            IndexOf(input, '\n') == |line| < |input| && input[..|line|] == line && input[|line| + 1..] == more
  {
    assert line + "\n" + more == line + ['\n'] + more;
    IndexOfFirst(line, '\n', more);
  }

  lemma {:induction false} StripReturns(line: Text, crs: Text)
    requires forall c :: c in crs ==> c == '\r'
    ensures Strip(line + crs) == Strip(line)
    decreases |crs|
  {
    if crs == [] {
      assert line + crs == line;
    } else {
      var init := crs[..|crs| - 1];
      assert (line + crs)[..|line + crs| - 1] == line + init;
      assert crs[|crs| - 1] in crs && forall c :: c in init ==> c in crs;
      StripReturns(line, init);
    }
  }
}
