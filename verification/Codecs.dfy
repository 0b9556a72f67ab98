/** A codec that prints every response without a newline and reads it back: what is assumed of the JSON library
    can be met, with every id that is a C++ double carried exactly. */
module Codecs {
  import opened Base
  import opened Framing
  import Search

  // ---------------------------------------------------------------- numbers as text

  /** Naturals in decimal, each followed by a blank. */
  function Print(s: seq<nat>): (t: Text)
    ensures '\n' !in t
  {
    if s == [] then [] else Decimal(s[0]) + " " + Print(s[1..])
  }

  lemma {:induction false} PrintInjective(a: seq<nat>, b: seq<nat>)
    requires Print(a) == Print(b)
    ensures a == b
  {
    if a == [] || b == [] {
      assert a == b;
    } else {
      PrintFirst(a);
      PrintFirst(b);
      NumeralOfDecimal(a[0]);
      NumeralOfDecimal(b[0]);
      PrintInjective(a[1..], b[1..]);
      assert a == [a[0]] + a[1..] && b == [b[0]] + b[1..];
    }
  }

  lemma PrintFirst(s: seq<nat>)
    requires s != []
    ensures var i := IndexOf(Print(s), ' ');
            i < |Print(s)| && Print(s)[..i] == Decimal(s[0]) && Print(s)[i + 1..] == Print(s[1..])
  {
    var d, rest := Decimal(s[0]), Print(s[1..]);
    assert Print(s) == d + [' '] + rest;
    IndexOfFirst(d, ' ', rest);
  }

  // ---------------------------------------------------------------- doubles

  function Pow2(k: nat): (p: nat)
    ensures p > 0
  {
    if k == 0 then 1 else 2 * Pow2(k - 1)
  }

  /** `x` is m / 2^k: every finite C++ double is of this form. */
  predicate IsDyadic(x: real, m: int, k: nat) {
    x * (Pow2(k) as real) == m as real
  }

  ghost predicate IsDouble(x: real) {
    exists m: int, k: nat :: IsDyadic(x, m, k)
  }

  ghost function Round(x: real): (r: real)
    ensures IsDouble(r) && (IsDouble(x) ==> r == x)
  {
    assert IsDyadic(0.0, 0, 0);
    if IsDouble(x) then x else 0.0
  }

  // ---------------------------------------------------------------- values as numbers

  function PutInt(n: int): seq<nat> {
    if n < 0 then [1, -n] else [0, n]
  }

  lemma IntPrefix(a: int, u: seq<nat>, b: int, v: seq<nat>)
    requires PutInt(a) + u == PutInt(b) + v
    ensures a == b && u == v
  {
    var s, s' := PutInt(a) + u, PutInt(b) + v;
    assert s[0] == s'[0] && s[1] == s'[1] && u == s[2..] && v == s'[2..];
  }

  ghost function PutDouble(x: real): seq<nat>
    requires IsDouble(x)
  {
    var m: int, k: nat :| IsDyadic(x, m, k);
    PutInt(m) + [k]
  }

  lemma DyadicIsOne(x: real, y: real, m: int, k: nat)
    requires IsDyadic(x, m, k) && IsDyadic(y, m, k)
    ensures x == y
  {
    var p := Pow2(k) as real;
    assert x == (x * p) / p && y == (y * p) / p;
  }

  lemma DoublePrefix(x: real, u: seq<nat>, y: real, v: seq<nat>)
    requires IsDouble(x) && IsDouble(y) && PutDouble(x) + u == PutDouble(y) + v
    ensures x == y && u == v
  {
    var m: int, k: nat :| IsDyadic(x, m, k) && PutDouble(x) == PutInt(m) + [k];
    var n: int, l: nat :| IsDyadic(y, n, l) && PutDouble(y) == PutInt(n) + [l];
    assert PutDouble(x) + u == PutInt(m) + ([k] + u) && PutDouble(y) + v == PutInt(n) + ([l] + v);
    IntPrefix(m, [k] + u, n, [l] + v);
    assert ([k] + u)[0] == k && ([l] + v)[0] == l && ([k] + u)[1..] == u && ([l] + v)[1..] == v;
    DyadicIsOne(x, y, m, k);
  }

  function Codes(t: Text): (s: seq<nat>)
    ensures |s| == |t| && forall i :: 0 <= i < |t| ==> s[i] == t[i] as int
  {
    seq(|t|, i requires 0 <= i < |t| => t[i] as int)
  }

  function PutText(t: Text): seq<nat> {
    [|t|] + Codes(t)
  }

  lemma TextPrefix(a: Text, u: seq<nat>, b: Text, v: seq<nat>)
    requires PutText(a) + u == PutText(b) + v
    ensures a == b && u == v
  {
    var s, s' := PutText(a) + u, PutText(b) + v;
    assert s[0] == |a| && s'[0] == |b|;
    forall i | 0 <= i < |a| ensures a[i] == b[i] {
      assert s[i + 1] == a[i] as int && s'[i + 1] == b[i] as int;
    }
    assert u == s[|a| + 1..] && v == s'[|b| + 1..];
  }

  function PutMatches(ms: seq<Search.Match>): seq<nat> {
    if ms == [] then [0]
    else [1] + (PutText(ms[0].file) + (PutInt(ms[0].line) + (PutText(ms[0].text) + PutMatches(ms[1..]))))
  }

  lemma {:induction false} MatchesInjective(a: seq<Search.Match>, b: seq<Search.Match>)
    requires PutMatches(a) == PutMatches(b)
    ensures a == b
  {
    assert PutMatches(a)[0] == PutMatches(b)[0];
    if a != [] {
      var t := PutText(a[0].text) + PutMatches(a[1..]);
      var t' := PutText(b[0].text) + PutMatches(b[1..]);
      assert PutMatches(a)[1..] == PutText(a[0].file) + (PutInt(a[0].line) + t);
      assert PutMatches(b)[1..] == PutText(b[0].file) + (PutInt(b[0].line) + t');
      TextPrefix(a[0].file, PutInt(a[0].line) + t, b[0].file, PutInt(b[0].line) + t');
      IntPrefix(a[0].line, t, b[0].line, t');
      TextPrefix(a[0].text, PutMatches(a[1..]), b[0].text, PutMatches(b[1..]));
      MatchesInjective(a[1..], b[1..]);
      assert a == [a[0]] + a[1..] && b == [b[0]] + b[1..];
    }
  }

  function PutBool(b: bool): nat {
    if b then 1 else 0
  }

  function PutProblem(e: Problem): seq<nat> {
    match e
    case Protocol => [0]
    case NoVerbGiven => [1]
    case Unauthorized => [2]
    case NoSuchVerb => [3]
    case BadPath => [4]
    case BadContent => [5]
    case BadBytes => [6]
    case NegativeBytes => [7]
    case BadPattern => [8]
    case BadCommand => [9]
    case UnknownUser(name) => [10] + PutText(name)
    case CannotRunAs(name) => [11] + PutText(name)
    case NotAFile => [12]
    case NoTempFile => [13]
    case SystemError => [14]
  }

  lemma ProblemInjective(a: Problem, b: Problem)
    requires PutProblem(a) == PutProblem(b)
    ensures a == b
  {
    hide PutText;
    assert PutProblem(a)[0] == PutProblem(b)[0];
    if a.UnknownUser? || a.CannotRunAs? {
      assert PutProblem(a)[1..] == PutText(a.name) && PutProblem(b)[1..] == PutText(b.name);
      assert PutText(a.name) + [] == PutText(a.name) && PutText(b.name) + [] == PutText(b.name);
      TextPrefix(a.name, [], b.name, []);
    }
  }

  // ---------------------------------------------------------------- responses

  function TagOf(r: Response): nat {
    match r
    case Failed(_, _) => 0
    case Wrote(_, _, _, _, _) => 1
    case Sending(_, _, _, _) => 2
    case Contents(_, _, _, _, _) => 3
    case Found(_, _, _, _, _, _) => 4
    case Acknowledged(_) => 5
    case Answered(_, _) => 6
  }

  /** All but the kind and the id. */
  function PutRest(r: Response): seq<nat> {
    match r
    case Failed(_, error) => PutProblem(error)
    case Wrote(_, path, bytesWritten, mode, created) => PutText(path) + [bytesWritten, mode, PutBool(created)]
    case Sending(_, path, bytes, mode) => PutText(path) + [bytes, mode]
    case Contents(_, path, size, mode, content) => PutText(path) + (PutText(content) + [size, mode])
    case Found(_, ok, count, truncated, exitCode, matches) =>
      PutInt(exitCode) + ([PutBool(ok), PutBool(truncated), count] + PutMatches(matches))
    case Acknowledged(_) => []
    case Answered(_, ok) => [PutBool(ok)]
  }

  lemma RestInjective(a: Response, b: Response)
    requires TagOf(a) == TagOf(b) && a.id == b.id && PutRest(a) == PutRest(b)
    ensures a == b
  {
    hide PutText, PutInt, PutMatches, PutProblem;
    match a
    case Failed(_, e) => ProblemInjective(e, b.error);
    case Wrote(_, p, n, m, c) =>
      TextPrefix(p, [n, m, PutBool(c)], b.path, [b.bytesWritten, b.mode, PutBool(b.created)]);
    case Sending(_, p, n, m) => TextPrefix(p, [n, m], b.path, [b.bytes, b.mode]);
    case Contents(_, p, n, m, t) =>
      TextPrefix(p, PutText(t) + [n, m], b.path, PutText(b.content) + [b.size, b.mode]);
      TextPrefix(t, [n, m], b.content, [b.size, b.mode]);
    case Found(_, ok, n, tr, e, ms) =>
      var u := [PutBool(ok), PutBool(tr), n] + PutMatches(ms);
      var v := [PutBool(b.ok), PutBool(b.truncated), b.count] + PutMatches(b.matches);
      IntPrefix(e, u, b.exitCode, v);
      assert u[0] == v[0] && u[1] == v[1] && u[2] == v[2];
      assert u[3..] == PutMatches(ms) && v[3..] == PutMatches(b.matches);
      MatchesInjective(ms, b.matches);
    case Acknowledged(_) =>
    case Answered(_, ok) => assert [PutBool(ok)][0] == [PutBool(b.ok)][0];
  }

  ghost function Render(r: Response): Text {
    Print([TagOf(r)] + (PutDouble(Round(r.id)) + PutRest(r)))
  }

  lemma RenderInjective(a: Response, b: Response)
    requires IsDouble(a.id) && IsDouble(b.id) && Render(a) == Render(b)
    ensures a == b
  {
    hide Print, PutDouble, PutRest, TagOf, IsDouble;
    var u, v := PutDouble(a.id) + PutRest(a), PutDouble(b.id) + PutRest(b);
    PrintInjective([TagOf(a)] + u, [TagOf(b)] + v);
    assert ([TagOf(a)] + u)[0] == ([TagOf(b)] + v)[0] && ([TagOf(a)] + u)[1..] == u && ([TagOf(b)] + v)[1..] == v;
    DoublePrefix(a.id, PutRest(a), b.id, PutRest(b));
    RestInjective(a, b);
  }

  /** The response whose id is a double and which prints as `t`, if there is one. */
  ghost function Decode(t: Text): Option<Response> {
    if r: Response :| IsDouble(r.id) && Render(r) == t then Some(r) else None
  }

  lemma DecodeOfRender(r: Response)
    ensures Decode(Render(r)) == Some(r.(id := Round(r.id)))
  {
    hide Print, PutDouble, IsDouble, PutText, PutInt, PutMatches, PutProblem;
    var r' := r.(id := Round(r.id));
    assert PutRest(r') == PutRest(r) && TagOf(r') == TagOf(r);
    assert Render(r') == Render(r) && IsDouble(r'.id);
    RenderInjective(r', Decode(Render(r)).value);
  }

  /** For any parser there is a faithful codec that carries every double exactly. */
  lemma FaithfulCodec(parse: Text -> Parsed) returns (c: Codec)
    ensures c.parse == parse && Faithful(c) && Base64Inverts(c)
    ensures forall x :: IsDouble(x) ==> c.round(x) == x
  {
    hide Print, Decode, IsDouble, PutDouble, PutRest;
    c := Codec(parse, (r: Response) => Render(r), (t: Text) => Decode(t), (x: real) => Round(x), (d: Text) => d,
               (d: Text) => d);
    forall r: Response ensures '\n' !in c.render(r) && c.decode(c.render(r)) == Some(AsRead(c, r)) {
      assert Render(r) == Print([TagOf(r)] + (PutDouble(Round(r.id)) + PutRest(r)));
      DecodeOfRender(r);
    }
  }
}
