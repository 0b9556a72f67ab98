/** Startup: where the secret comes from, and the posture the server is left in. */
module Startup {
  import opened Base
  import opened Fields
  import opened Answers
  import opened Agent

  // ---------------------------------------------------------------- the banner of a secret file

  predicate IsBlank(c: Octet) {
    c == ' ' || c == '\t'
  }

  function Unindent(s: Text): (t: Text)
    ensures |t| <= |s| && (t != [] ==> !IsBlank(t[0]))
  {
    if s != [] && IsBlank(s[0]) then Unindent(s[1..]) else s
  }

  predicate IsBlankLine(line: Text) {
    Unindent(line) == []
  }

  predicate IsComment(line: Text) {
    Unindent(line) != [] && Unindent(line)[0] == '#'
  }

  /** The file without its banner, line by line: whole blank lines and comment lines at the top go, and the
      indentation of the first other line; a blank rest with no newline stays. */
  function Payload(s: Text): (t: Text)
    decreases |s|
  {
    var i := IndexOf(s, '\n');
    var line := s[..i];
    if IsBlankLine(line) then (if i == |s| then s else Payload(s[i + 1..]))
    else if IsComment(line) then (if i == |s| then [] else Payload(s[i + 1..]))
    else Unindent(s)
  }

  /** The character the scanner looks at; past the end there is the terminating NUL. */
  function At(s: Text, p: nat): Octet {
    if p < |s| then s[p] else '\0'
  }

  /** The scanner: one pointer, moved over blanks, comments and newlines, and moved back only when nothing
      but blanks was left. */
  method StripBanner(s: Text) returns (json: Text)
    requires '\0' !in s
    ensures json == Payload(s)
  {
    hide Payload;
    var p: nat := 0;
    assert s[0..] == s;
    while true
      invariant p <= |s| && Payload(s[p..]) == Payload(s)
      decreases |s| - p
    {
      var lineStart := p;
      while At(s, p) == ' ' || At(s, p) == '\t'
        invariant lineStart <= p <= |s| && forall i :: lineStart <= i < p ==> IsBlank(s[i])
        decreases |s| - p
      {
        p := p + 1;
      }
      if At(s, p) == '#' {
        var hash := p;
        while At(s, p) != '\0' && At(s, p) != '\n'
          invariant hash <= p <= |s| && forall i :: hash <= i < p ==> s[i] != '\n'
          decreases |s| - p
        {
          p := p + 1;
        }
        CommentLine(s, lineStart, hash, p);
        if At(s, p) == '\n' {
          p := p + 1;
        }
        continue;
      }
      if At(s, p) == '\n' {
        BlankLine(s, lineStart, p);
        p := p + 1;
        continue;
      }
      if At(s, p) == '\0' {
        BlankLine(s, lineStart, p);
        p := lineStart;
        break;
      }
      PayloadLine(s, lineStart, p);
      break;
    }
    json := s[p..];
  }

  /** Blanks up to `p`, and none there, are exactly the indentation. */
  lemma {:induction false} UnindentRun(s: Text, p: nat)
    requires p <= |s| && (forall i :: 0 <= i < p ==> IsBlank(s[i])) && (p < |s| ==> !IsBlank(s[p]))
    ensures Unindent(s) == s[p..]
    decreases p
  {
    if p > 0 {
      UnindentRun(s[1..], p - 1);
      assert s[1..][p - 1..] == s[p..];
    }
  }

  /** The first line of s[start..] ends at `end`. */
  lemma LineEnd(s: Text, start: nat, end: nat)
    requires start <= end <= |s| && (forall i :: start <= i < end ==> s[i] != '\n') && (end < |s| ==> s[end] == '\n')
    ensures IndexOf(s[start..], '\n') == end - start
    ensures s[start..][..end - start] == s[start..end]
    ensures end < |s| ==> s[start..][end - start + 1..] == s[end + 1..]
  {
    if end < |s| {
      assert s[start..] == s[start..end] + ['\n'] + s[end + 1..];
      IndexOfFirst(s[start..end], '\n', s[end + 1..]);
    }
  }

  lemma BlankLine(s: Text, start: nat, end: nat)
    requires start <= end <= |s| && (forall i :: start <= i < end ==> IsBlank(s[i])) && (end < |s| ==> s[end] == '\n')
    ensures Payload(s[start..]) == if end < |s| then Payload(s[end + 1..]) else s[start..]
  {
    hide Unindent, IndexOf;
    LineEnd(s, start, end);
    var line := s[start..end];
    UnindentRun(line, end - start);
    assert line[end - start..] == [];
    assert s[start..][..end - start] == line;
    assert IsBlankLine(line);
  }

  lemma CommentLine(s: Text, start: nat, hash: nat, end: nat)
    requires start <= hash < end <= |s| && (forall i :: start <= i < hash ==> IsBlank(s[i])) && s[hash] == '#'
    requires (forall i :: hash <= i < end ==> s[i] != '\n') && (end < |s| ==> s[end] == '\n')
    ensures Payload(s[start..]) == if end < |s| then Payload(s[end + 1..]) else Payload(s[end..])
  {
    hide Unindent, IndexOf;
    LineEnd(s, start, end);
    var line := s[start..end];
    UnindentRun(line, hash - start);
    assert line[hash - start..][0] == '#';
    assert s[start..][..end - start] == line;
    assert IsComment(line) && !IsBlankLine(line);
    if end == |s| {
      assert s[end..] == [];
      PayloadOfEmpty();
    }
  }

  lemma PayloadOfEmpty()
    ensures Payload([]) == []
  {
    assert IndexOf([], '\n') == 0;
  }

  lemma PayloadLine(s: Text, start: nat, p: nat)
    requires start <= p < |s| && (forall i :: start <= i < p ==> IsBlank(s[i]))
    requires !IsBlank(s[p]) && s[p] != '#' && s[p] != '\n'
    ensures Payload(s[start..]) == s[p..]
  {
    hide Unindent, IndexOf;
    var t := s[start..];
    var i := IndexOf(t, '\n');
    UnindentRun(t, p - start);
    assert t[p - start..] == s[p..];
    assert p - start < i;
    var line := t[..i];
    UnindentRun(line, p - start);
    assert line[p - start..][0] == s[p];
    assert !IsBlankLine(line) && !IsComment(line);
  }

  /** What is left starts with payload, unless nothing but blanks was left. */
  lemma {:induction false} PayloadShape(s: Text)
    ensures var t := Payload(s); IsBlankLine(t) || (!IsBlank(t[0]) && t[0] != '#' && t[0] != '\n')
    decreases |s|
  {
    var i := IndexOf(s, '\n');
    assert s[..|s|] == s;
    if (IsBlankLine(s[..i]) || IsComment(s[..i])) && i < |s| {
      PayloadShape(s[i + 1..]);
    } else if !IsBlankLine(s[..i]) && !IsComment(s[..i]) {
      UnindentOfLine(s, i);
      assert Payload(s) == Unindent(s);
    }
  }

  lemma {:induction false} UnindentOfLine(s: Text, i: nat)
    requires i <= |s| && Unindent(s[..i]) != []
    ensures Unindent(s) != [] && Unindent(s)[0] == Unindent(s[..i])[0]
    ensures Unindent(s[..i])[0] in s[..i]
    decreases |s|
  {
    if IsBlank(s[0]) {
      assert s[..i][1..] == s[1..][..i - 1];
      UnindentOfLine(s[1..], i - 1);
    }
  }

  /** Stripping twice strips no more than once. */
  lemma PayloadIdempotent(s: Text)
    ensures Payload(Payload(s)) == Payload(s)
  {
    var t := Payload(s);
    PayloadShape(s);
    if !IsBlankLine(t) {
      assert t[0..] == t;
      PayloadLine(t, 0, 0);
    } else {
      BlankHasNoNewline(t);
      assert t[0..] == t && t[..|t|] == t;
      BlankLine(t, 0, |t|);
    }
  }

  lemma {:induction false} BlankHasNoNewline(t: Text)
    requires IsBlankLine(t)
    ensures forall i :: 0 <= i < |t| ==> IsBlank(t[i])
  {
    if t != [] {
      BlankHasNoNewline(t[1..]);
      assert forall i :: 1 <= i < |t| ==> t[i] == t[1..][i - 1];
    }
  }

  // ---------------------------------------------------------------- the secret file

  /** A path on startup: nothing there, something that cannot be used, or a file's content. */
  datatype SecretFile = Missing | Unusable | Readable(content: Text)

  datatype Loaded = Loaded(secret: Text, allowOpen: bool)

  /** What a secret file says: nothing unless it parses to an object. */
  function FileSays(f: SecretFile, parse: Text -> Parsed): Option<Loaded> {
    match f
    case Readable(content) =>
      (match parse(Payload(CString(content)))
       case Object(o) =>
         Some(Loaded(match FindText(o, "secret") { case Some(t) => t case None => [] },
                     FindBool(o, "allow_open") == Some(true)))
       case _ => None)
    case _ => None
  }

  method LoadSecretFile(f: SecretFile, parse: Text -> Parsed) returns (loaded: Option<Loaded>)
    ensures loaded == FileSays(f, parse)
    ensures loaded.Some? <==> f.Readable? && parse(Payload(CString(f.content))).Object?
    ensures loaded.Some? ==>
              var o := parse(Payload(CString(f.content))).req;
              && (loaded.value.allowOpen <==> OpensGate(o))
              && (if LacksSecret(o) then loaded.value.secret == [] else HasSecret(o, loaded.value.secret))
  {
    hide Payload, CString;
    if !f.Readable? {
      return None;
    }
    var json := StripBanner(CString(f.content));
    var root := parse(json);
    if !root.Object? {
      return None;
    }
    var allowOpen, secret := false, [];
    var open := FindBool(root.req, "allow_open");
    if open.Some? {
      allowOpen := open.value;
    }
    var text := FindText(root.req, "secret");
    if text.Some? {
      secret := text.value;
    }
    loaded := Some(Loaded(secret, allowOpen));
  }

  // ---------------------------------------------------------------- precedence

  const DEFAULT_SECRET_FILE: Text := "/etc/helios/helios.json"

  /** The command line and the environment. */
  datatype Config = Config(flagSecret: Option<Text>, flagFile: Option<Text>, flagOpen: bool,
                           envSecret: Option<Text>, envFile: Option<Text>)

  function Given(t: Option<Text>): Text {
    match t case Some(s) => s case None => []
  }

  function FilePath(c: Config): Text {
    if c.flagFile.Some? then c.flagFile.value
    else if c.envFile.Some? then c.envFile.value
    else DEFAULT_SECRET_FILE
  }

  function FileAt(files: map<Text, SecretFile>, path: Text): SecretFile {
    if path in files then files[path] else Missing
  }

  /** The file is read only when neither the flag nor the environment gives a secret. */
  function FileLoaded(c: Config, files: map<Text, SecretFile>, parse: Text -> Parsed): Option<Loaded> {
    if Given(c.flagSecret) != [] || Given(c.envSecret) != [] then None
    else FileSays(FileAt(files, FilePath(c)), parse)
  }

  /** The sources of a secret, highest first. A file's secret is handed on as a C string. */
  function Sources(c: Config, files: map<Text, SecretFile>, parse: Text -> Parsed): seq<Text> {
    var file := FileLoaded(c, files, parse);
    [Given(c.flagSecret), Given(c.envSecret), if file.Some? then CString(file.value.secret) else []]
  }

  /** The first source that yields something. */
  function FirstOf(sources: seq<Text>): Option<Text> {
    if sources == [] then None
    else if sources[0] != [] then Some(sources[0])
    else FirstOf(sources[1..])
  }

  predicate OpenedBy(c: Config, files: map<Text, SecretFile>, parse: Text -> Parsed) {
    var file := FileLoaded(c, files, parse);
    c.flagOpen || (file.Some? && file.value.allowOpen)
  }

  /** main's resolution of the secret, applied to the server. Arguments and environment are C strings. */
  method ConfigureGate(c: Config, files: map<Text, SecretFile>, server: Server)
    modifies server`open, server`haveSecret, server`secret
    ensures server.GateValue() ==
              Gate(OpenedBy(c, files, server.codec.parse), FirstOf(Sources(c, files, server.codec.parse)))
    ensures server.open <==>
              c.flagOpen || exists o :: FileHolds(c, files, server.codec.parse, o) && OpensGate(o)
    ensures forall key ::
              server.GateValue().secret == Some(key) <==> IsSecret(c, files, server.codec.parse, key)
  {
    hide IsSecret, FileHolds;
    ResolvedGate(c, files, server.codec.parse);
    var secret, allowOpen := c.flagSecret, c.flagOpen;
    if secret.Some? && secret.value != [] {
      // the flag wins
    } else {
      secret := None;
      if c.envSecret.Some? && c.envSecret.value != [] {
        secret := c.envSecret;
      } else {
        var path := FilePath(c);
        if !FileAt(files, path).Missing? {
          var loaded := LoadSecretFile(FileAt(files, path), server.codec.parse);
          if loaded.Some? {
            if |loaded.value.secret| > 0 {
              secret := Some(CString(loaded.value.secret));
            }
            if loaded.value.allowOpen {
              allowOpen := true;
            }
          }
        }
      }
    }
    server.SetSecret(secret);
    server.SetOpen(allowOpen);
    FirstOfThree(Given(c.flagSecret), Given(c.envSecret), Sources(c, files, server.codec.parse)[2]);
  }

  lemma FirstOfThree(a: Text, b: Text, f: Text)
    ensures FirstOf([a, b, f]) ==
              if a != [] then Some(a) else if b != [] then Some(b) else if f != [] then Some(f) else None
  {
    assert [a, b, f][1..] == [b, f] && [b, f][1..] == [f] && [f][1..] == [];
    assert FirstOf([f]) == if f != [] then Some(f) else None;
    assert FirstOf([b, f]) == if b != [] then Some(b) else FirstOf([f]);
  }

  /** The highest source with something in it, and nothing above it. */
  lemma {:induction false} FirstOfIsHighest(sources: seq<Text>)
    ensures FirstOf(sources).None? <==> forall i :: 0 <= i < |sources| ==> sources[i] == []
    ensures FirstOf(sources).Some? ==>
              exists i :: 0 <= i < |sources| && sources[i] == FirstOf(sources).value != []
                          && forall j :: 0 <= j < i ==> sources[j] == []
  {
    if sources != [] && sources[0] == [] {
      FirstOfIsHighest(sources[1..]);
      if FirstOf(sources).Some? {
        var i :| 0 <= i < |sources[1..]| && sources[1..][i] == FirstOf(sources).value != []
                 && forall j :: 0 <= j < i ==> sources[1..][j] == [];
        assert sources[i + 1] == sources[1..][i];
        forall j | 0 <= j < i + 1 ensures sources[j] == [] {
          if j > 0 {
            assert sources[j] == sources[1..][j - 1];
          }
        }
      }
    } else if sources != [] {
      assert FirstOf(sources) == Some(sources[0]);
    }
  }

  // ---------------------------------------------------------------- startup in its own words

  predicate Silent(t: Option<Text>) {
    t == None || t == Some([])
  }

  /** The file that is read if need be: the one of -S, else of HELIOS_SECRET_FILE, else the default. */
  predicate ReadsFrom(c: Config, path: Text) {
    || c.flagFile == Some(path)
    || (c.flagFile == None && c.envFile == Some(path))
    || (c.flagFile == None && c.envFile == None && path == "/etc/helios/helios.json")
  }

  /** Neither -s nor HELIOS_SECRET gives a secret, and the file that is read then holds this object. */
  ghost predicate FileHolds(c: Config, files: map<Text, SecretFile>, parse: Text -> Parsed, o: Request) {
    && Silent(c.flagSecret) && Silent(c.envSecret)
    && exists path: Text :: ReadsFrom(c, path) && path in files && files[path].Readable?
                            && parse(Payload(CString(files[path].content))) == Object(o)
  }

  /** -s first, HELIOS_SECRET if it gives none, the file's member as a C string if neither does; never an empty one. */
  ghost predicate IsSecret(c: Config, files: map<Text, SecretFile>, parse: Text -> Parsed, key: Text) {
    && key != []
    && (|| c.flagSecret == Some(key)
        || (Silent(c.flagSecret) && c.envSecret == Some(key))
        || exists o: Request, text: Text ::
             FileHolds(c, files, parse, o) && HasSecret(o, text) && key == CString(text))
  }

  /** The gate that startup leaves, from the command line, the environment and the file's own members. */
  lemma ResolvedGate(c: Config, files: map<Text, SecretFile>, parse: Text -> Parsed)
    ensures OpenedBy(c, files, parse) <==> c.flagOpen || exists o :: FileHolds(c, files, parse, o) && OpensGate(o)
    ensures forall key :: FirstOf(Sources(c, files, parse)) == Some(key) <==> IsSecret(c, files, parse, key)
  {
    hide Payload, CString;
    FirstOfThree(Given(c.flagSecret), Given(c.envSecret), Sources(c, files, parse)[2]);
    FileInFull(c, files, parse);
    forall key ensures FirstOf(Sources(c, files, parse)) == Some(key) <==> IsSecret(c, files, parse, key) {
    }
  }

  /** Fail closed: after startup everyone is admitted if -O was given or the file that was read says
      "allow_open": true; otherwise exactly those whose "auth" is the one secret, which is the non-empty one of the
      highest source that has one. */
  lemma AdmittedExactly(c: Config, files: map<Text, SecretFile>, parse: Text -> Parsed, req: Request)
    ensures var sources := Sources(c, files, parse);
            Admits(Gate(OpenedBy(c, files, parse), FirstOf(sources)), req) <==>
              || OpenedBy(c, files, parse)
              || exists i :: 0 <= i < |sources| && sources[i] != [] && FindText(req, "auth") == Some(sources[i])
                             && forall j :: 0 <= j < i ==> sources[j] == []
    ensures Admits(Gate(OpenedBy(c, files, parse), FirstOf(Sources(c, files, parse))), req) <==>
              || c.flagOpen || (exists o :: FileHolds(c, files, parse, o) && OpensGate(o))
              || exists key :: IsSecret(c, files, parse, key) && HasAuth(req, key)
  {
    hide IsSecret, FileHolds, OpenedBy, Sources;
    ResolvedGate(c, files, parse);
    var sources := Sources(c, files, parse);
    FirstOfIsHighest(sources);
    if i :|
      && 0 <= i < |sources| && sources[i] != [] && FindText(req, "auth") == Some(sources[i])
      && forall j :: 0 <= j < i ==> sources[j] == [] {
      var k :| 0 <= k < |sources| && sources[k] == FirstOf(sources).value != []
               && forall j :: 0 <= j < k ==> sources[j] == [];
      assert k == i;
    }
  }

  /** What the file contributes. */
  lemma FileInFull(c: Config, files: map<Text, SecretFile>, parse: Text -> Parsed)
    ensures var file := FileLoaded(c, files, parse);
            && (file.Some? ==> exists o :: FileHolds(c, files, parse, o) && FileIs(file.value, o))
            && (forall o :: FileHolds(c, files, parse, o) ==> file.Some? && FileIs(file.value, o))
  {
    hide Payload, CString;
    var path := FilePath(c);
    assert forall p :: ReadsFrom(c, p) <==> p == path;
    if FileLoaded(c, files, parse).Some? {
      assert FileHolds(c, files, parse, parse(Payload(CString(files[path].content))).req);
    }
  }

  predicate FileIs(f: Loaded, o: Request) {
    && (f.allowOpen <==> OpensGate(o))
    && (if LacksSecret(o) then f.secret == [] else HasSecret(o, f.secret))
  }

  /** The banner, line by line: lines of blanks and lines that begin with '#' after blanks are gone, and the blanks
      before anything else. */
  lemma BannerLines(blanks: Text, comment: Text, c: Octet, rest: Text)
    requires (forall i :: 0 <= i < |blanks| ==> blanks[i] == ' ' || blanks[i] == '\t') && '\n' !in comment
    ensures Payload(blanks + "\n" + rest) == Payload(rest)
    ensures Payload(blanks + "#" + comment + "\n" + rest) == Payload(rest)
    ensures Payload(blanks + "#" + comment) == []
    ensures c != ' ' && c != '\t' && c != '\n' && c != '#' ==> Payload(blanks + [c] + rest) == [c] + rest
    ensures Payload(blanks) == blanks
  {
    hide Payload;
    var n := |blanks|;
    var blank, remark, last, first := blanks + "\n" + rest, blanks + "#" + comment + "\n" + rest,
                                      blanks + "#" + comment, blanks + [c] + rest;
    assert blank[0..] == blank && remark[0..] == remark && last[0..] == last && first[0..] == first;
    assert blank[n + 1..] == rest && remark[n + 1 + |comment| + 1..] == rest && last[|last|..] == [];
    assert first[n..] == [c] + rest && blanks[0..] == blanks;
    BlankLine(blank, 0, n);
    CommentLine(remark, 0, n, n + 1 + |comment|);
    CommentLine(last, 0, n, |last|);
    PayloadOfEmpty();
    BlankLine(blanks, 0, n);
    if c != ' ' && c != '\t' && c != '\n' && c != '#' {
      PayloadLine(first, 0, n);
    }
  }

  /** A missing, unusable or malformed file, with no other secret and no -O, admits no request at all. */
  lemma BrokenFileDeniesAll(c: Config, files: map<Text, SecretFile>, parse: Text -> Parsed, req: Request)
    requires Given(c.flagSecret) == [] && Given(c.envSecret) == [] && !c.flagOpen
    requires FileSays(FileAt(files, FilePath(c)), parse).None?
    ensures !Admits(Gate(OpenedBy(c, files, parse), FirstOf(Sources(c, files, parse))), req)
  {
    FirstOfThree([], [], []);
  }
}
