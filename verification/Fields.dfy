/** A request by the members of its line, as a client would write them. */
module Fields {
  import opened Base

  /** The member is there, with this value. */
  predicate Says(req: Request, key: Text, v: Json) {
    key in req && req[key] == v
  }

  /** The member is there, and a string. */
  predicate SaysText(req: Request, key: Text) {
    key in req && req[key].JText?
  }

  /** The member is there, and a number. */
  predicate SaysNumber(req: Request, key: Text) {
    key in req && req[key].JNumber?
  }

  // ---------------------------------------------------------------- verbs

  predicate IsHello(req: Request) {
    Says(req, "verb", JText("hello"))
  }

  predicate IsSysInfo(req: Request) {
    Says(req, "verb", JText("sysinfo"))
  }

  predicate IsShutdown(req: Request) {
    Says(req, "verb", JText("shutdown"))
  }

  predicate IsRunCommand(req: Request) {
    Says(req, "verb", JText("run_command"))
  }

  predicate IsSearch(req: Request) {
    Says(req, "verb", JText("search"))
  }

  predicate IsReadFile(req: Request) {
    Says(req, "verb", JText("read_file"))
  }

  predicate IsWriteFile(req: Request) {
    Says(req, "verb", JText("write_file"))
  }

  predicate IsStat(req: Request) {
    Says(req, "verb", JText("stat"))
  }

  predicate IsListDir(req: Request) {
    Says(req, "verb", JText("list_dir"))
  }

  predicate IsPutFile(req: Request) {
    Says(req, "verb", JText("put_file"))
  }

  predicate IsGetFile(req: Request) {
    Says(req, "verb", JText("get_file"))
  }

  predicate HasVerb(req: Request) {
    SaysText(req, "verb")
  }

  /** The verbs that look at files, or change them. */
  predicate IsOnFiles(req: Request) {
    IsReadFile(req) || IsWriteFile(req) || IsStat(req) || IsListDir(req) || IsPutFile(req) || IsGetFile(req)
  }

  predicate IsKnown(req: Request) {
    IsHello(req) || IsSysInfo(req) || IsShutdown(req) || IsRunCommand(req) || IsSearch(req) || IsOnFiles(req)
  }

  // ---------------------------------------------------------------- other members

  /** The id of the request, or 0. */
  predicate HasId(req: Request, id: real) {
    if SaysNumber(req, "id") then Says(req, "id", JNumber(id)) else id == 0.0
  }

  predicate HasAuth(req: Request, key: Text) {
    Says(req, "auth", JText(key))
  }

  predicate HasPath(req: Request, path: Text) {
    Says(req, "path", JText(path))
  }

  predicate LacksPath(req: Request) {
    !SaysText(req, "path")
  }

  predicate HasContent(req: Request, content: Text) {
    Says(req, "content", JText(content))
  }

  predicate LacksContent(req: Request) {
    !SaysText(req, "content")
  }

  predicate HasCommand(req: Request, cmd: Text) {
    Says(req, "cmd", JText(cmd))
  }

  predicate LacksCommand(req: Request) {
    !SaysText(req, "cmd")
  }

  predicate HasPattern(req: Request, pattern: Text) {
    Says(req, "pattern", JText(pattern))
  }

  predicate LacksPattern(req: Request) {
    !SaysText(req, "pattern")
  }

  /** The bytes that follow an upload's line. */
  predicate HasBytes(req: Request, bytes: real) {
    Says(req, "bytes", JNumber(bytes))
  }

  predicate LacksBytes(req: Request) {
    !SaysNumber(req, "bytes")
  }

  /** Its line tells how much follows it. */
  predicate TellsLength(req: Request) {
    !LacksPath(req) && SaysNumber(req, "bytes") && req["bytes"].num >= 0.0
  }

  predicate HasMode(req: Request, mode: real) {
    Says(req, "mode", JNumber(mode))
  }

  predicate LacksMode(req: Request) {
    !SaysNumber(req, "mode")
  }

  predicate HasUser(req: Request, name: Text) {
    name != [] && Says(req, "user", JText(name))
  }

  predicate HasNoUser(req: Request) {
    !SaysText(req, "user") || Says(req, "user", JText([]))
  }

  predicate WantsAnyCase(req: Request) {
    Says(req, "ignore_case", JBool(true))
  }

  /** Where a search starts: at the path given, if it is not empty, or at ".". */
  predicate SearchesIn(req: Request, path: Text) {
    if SaysText(req, "path") && !HasPath(req, []) then HasPath(req, path) else path == "."
  }

  /** How many matches a search may report: the whole number given, if that is positive, or 1000. */
  predicate MayFind(req: Request, max: nat) {
    if SaysNumber(req, "max") && req["max"].num >= 1.0 then IsIntegerPart(req["max"].num, max) else max == 1000
  }

  /** The whole part of a number, toward zero. */
  predicate IsIntegerPart(x: real, n: int) {
    if x >= 0.0 then n as real <= x < n as real + 1.0 else n as real - 1.0 < x <= n as real
  }

  predicate OpensGate(o: Request) {
    Says(o, "allow_open", JBool(true))
  }

  predicate HasSecret(o: Request, secret: Text) {
    Says(o, "secret", JText(secret))
  }

  predicate LacksSecret(o: Request) {
    !SaysText(o, "secret")
  }
}
