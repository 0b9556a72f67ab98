/** The `search` verb's reading of grep output: an index scan with a cap on the matches,
    against the line-by-line meaning of `file:line:text`. */
module Search {
  import opened Base

  datatype Match = Match(file: Text, line: int, text: Text)

  // ---------------------------------------------------------------- what a line means

  /** C's atoi: leading white space, a sign, then digits up to the first other character. */
  function Atoi(s: Text): int {
    if s == [] then 0
    else if s[0] == ' ' || 9 <= s[0] as int <= 13 then Atoi(s[1..])
    else if s[0] == '-' then -(Numeral(Digits(s[1..])) as int)
    else if s[0] == '+' then Numeral(Digits(s[1..]))
    else Numeral(Digits(s))
  }

  function Digits(s: Text): (d: Text)
    ensures forall i :: 0 <= i < |d| ==> IsDigit(d[i])
  {
    if s == [] || !IsDigit(s[0]) then [] else [s[0]] + Digits(s[1..])
  }

  lemma {:induction false} DigitsOfDigits(s: Text)
    requires forall i :: 0 <= i < |s| ==> IsDigit(s[i])
    ensures Digits(s) == s
  {
    if s != [] {
      DigitsOfDigits(s[1..]);
    }
  }

  lemma AtoiOfDecimal(n: nat)
    ensures Atoi(Decimal(n)) == n
  {
    var s := Decimal(n);
    assert IsDigit(s[0]);
    DigitsOfDigits(s);
    NumeralOfDecimal(n);
  }

  /** One line of grep output, cut at its first two colons; no match without two. */
  function LineMatch(line: Text): seq<Match> {
    var c1 := IndexOf(line, ':');
    if c1 == |line| then [] else
      var rest := line[c1 + 1..];
      var c2 := IndexOf(rest, ':');
      if c2 == |rest| then [] else [Match(line[..c1], Atoi(rest[..c2]), rest[c2 + 1..])]
  }

  function AllMatches(s: Text): seq<Match>
    decreases |s|
  {
    var i := IndexOf(s, '\n');
    LineMatch(s[..i]) + (if i < |s| then AllMatches(s[i + 1..]) else [])
  }

  // ---------------------------------------------------------------- which lines are matches

  predicate HasTwoColons(line: Text) {
    exists i, j :: 0 <= i < j < |line| && line[i] == ':' && line[j] == ':'
  }

  /** The line reads file:number:text, with no colon in the first two. */
  predicate Spells(line: Text, number: Text, m: Match) {
    && ':' !in m.file && ':' !in number && line == m.file + ":" + number + ":" + m.text
    && m.line == Atoi(number)
  }

  ghost predicate IsMatchOf(line: Text, m: Match) {
    exists number: Text :: Spells(line, number, m)
  }

  /** A line is a match exactly if it holds two colons, and then it spells that match. */
  lemma LineSpells(line: Text)
    ensures |LineMatch(line)| == if HasTwoColons(line) then 1 else 0
    ensures forall m :: m in LineMatch(line) ==> IsMatchOf(line, m)
  {
    hide Atoi, HasTwoColons, IsMatchOf, IndexOf;
    var c1 := IndexOf(line, ':');
    if c1 == |line| {
      NoColons(line);
    } else {
      var rest := line[c1 + 1..];
      var c2 := IndexOf(rest, ':');
      CutAtColon(line, c1);
      if c2 == |rest| {
        OneColon(line[..c1], rest);
      } else {
        CutAtColon(rest, c2);
        TwoColons(line[..c1], rest[..c2], rest[c2 + 1..]);
        Regroup(line[..c1], rest[..c2], rest[c2 + 1..]);
      }
    }
  }

  lemma CutAtColon(s: Text, c: nat)
    requires c < |s| && s[c] == ':' && forall j :: 0 <= j < c ==> s[j] != ':'
    ensures s == s[..c] + ":" + s[c + 1..] && ':' !in s[..c]
  {
  }

  lemma Regroup(a: Text, b: Text, c: Text)
    ensures a + ":" + (b + ":" + c) == a + ":" + b + ":" + c
  {
  }

  lemma NoColons(line: Text)
    requires ':' !in line
    ensures !HasTwoColons(line)
  {
  }

  lemma OneColon(file: Text, rest: Text)
    requires ':' !in file && ':' !in rest
    ensures !HasTwoColons(file + ":" + rest)
  {
    var line := file + ":" + rest;
    assert forall k :: 0 <= k < |file| ==> line[k] == file[k];
    assert forall k :: |file| < k < |line| ==> line[k] == rest[k - |file| - 1];
  }

  lemma TwoColons(file: Text, number: Text, text: Text)
    requires ':' !in file && ':' !in number
    ensures var line := file + ":" + number + ":" + text;
            HasTwoColons(line) && IsMatchOf(line, Match(file, Atoi(number), text))
  {
    hide Atoi;
    var line := file + ":" + number + ":" + text;
    assert line[|file|] == ':' && line[|file| + 1 + |number|] == ':';
    assert Spells(line, number, Match(file, Atoi(number), text));
  }

  /** A line spells one match at most. */
  lemma SpellsOne(line: Text, m: Match)
    requires IsMatchOf(line, m)
    ensures LineMatch(line) == [m]
  {
    hide Atoi;
    var number: Text :| Spells(line, number, m);
    var rest := number + ":" + m.text;
    assert line == m.file + [':'] + rest;
    IndexOfFirst(m.file, ':', rest);
    assert line[|m.file| + 1..] == rest && line[..|m.file|] == m.file;
    assert rest == number + [':'] + m.text;
    IndexOfFirst(number, ':', m.text);
    assert rest[..|number|] == number && rest[|number| + 1..] == m.text;
  }

  function Joined(lines: seq<Text>): Text
    requires lines != []
  {
    if |lines| == 1 then lines[0] else lines[0] + "\n" + Joined(lines[1..])
  }

  /** `at` numbers, in order, exactly the lines that hold two colons, and `ms` are what they spell. */
  ghost predicate Picks(lines: seq<Text>, at: seq<nat>, ms: seq<Match>) {
    && |at| == |ms| && (forall a, b :: 0 <= a < b < |at| ==> at[a] < at[b])
    && (forall k :: 0 <= k < |at| ==> at[k] < |lines| && IsMatchOf(lines[at[k]], ms[k]))
    && (forall i :: 0 <= i < |lines| ==> (i in at <==> HasTwoColons(lines[i])))
  }

  function Shifted(at: seq<nat>): (r: seq<nat>)
    ensures |r| == |at| && forall k :: 0 <= k < |at| ==> r[k] == at[k] + 1
  {
    seq(|at|, k requires 0 <= k < |at| => at[k] + 1)
  }

  lemma PicksMore(line: Text, lines: seq<Text>, at: seq<nat>, ms: seq<Match>)
    requires Picks(lines, at, ms)
    ensures Picks([line] + lines, (if HasTwoColons(line) then [0] else []) + Shifted(at), LineMatch(line) + ms)
  {
    hide LineMatch, HasTwoColons, IsMatchOf;
    LineSpells(line);
    var hit := HasTwoColons(line);
    StillAscending(at, hit);
    StillSpelled(line, lines, at, LineMatch(line), ms);
    forall i | 0 <= i < |[line] + lines| ensures i in Moved(at, hit) <==> HasTwoColons(([line] + lines)[i]) {
      InShifted(at, i);
    }
    assert Moved(at, hit) == (if hit then [0] else []) + Shifted(at);
  }

  /** The numbers of the same lines behind one more, with that one if it counts. */
  function Moved(at: seq<nat>, hit: bool): seq<nat> {
    (if hit then [0] else []) + Shifted(at)
  }

  lemma StillAscending(at: seq<nat>, hit: bool)
    requires forall a, b :: 0 <= a < b < |at| ==> at[a] < at[b]
    ensures forall a, b :: 0 <= a < b < |Moved(at, hit)| ==> Moved(at, hit)[a] < Moved(at, hit)[b]
  {
    var n := if hit then 1 else 0;
    assert forall k :: n <= k < |Moved(at, hit)| ==> Moved(at, hit)[k] == at[k - n] + 1;
  }

  lemma StillSpelled(line: Text, lines: seq<Text>, at: seq<nat>, first: seq<Match>, ms: seq<Match>)
    requires |at| == |ms| && |first| <= 1 && forall m :: m in first ==> IsMatchOf(line, m)
    requires forall k :: 0 <= k < |at| ==> at[k] < |lines| && IsMatchOf(lines[at[k]], ms[k])
    ensures var at', all := Moved(at, first != []), [line] + lines;
            && |at'| == |first + ms|
            && forall k :: 0 <= k < |at'| ==> at'[k] < |all| && IsMatchOf(all[at'[k]], (first + ms)[k])
  {
    hide IsMatchOf;
    var at', all := Moved(at, first != []), [line] + lines;
    forall k | 0 <= k < |at'| ensures at'[k] < |all| && IsMatchOf(all[at'[k]], (first + ms)[k]) {
      if k >= |first| {
        assert at'[k] == at[k - |first|] + 1 && (first + ms)[k] == ms[k - |first|];
      }
    }
  }

  lemma InShifted(at: seq<nat>, i: nat)
    ensures i in Shifted(at) <==> i > 0 && i - 1 in at
  {
    if i > 0 && i - 1 in at {
      var k :| 0 <= k < |at| && at[k] == i - 1;
      assert Shifted(at)[k] == i;
    }
  }

  /** The matches of an output are those of its lines that hold two colons, in order, and no others. */
  lemma {:induction false} MatchesAreLines(out: Text) returns (lines: seq<Text>, at: seq<nat>)
    ensures lines != [] && Joined(lines) == out && forall l :: l in lines ==> '\n' !in l
    ensures Picks(lines, at, AllMatches(out))
    decreases |out|
  {
    hide LineMatch, Picks;
    var i := IndexOf(out, '\n');
    var line := out[..i];
    assert Picks([], [], []) by {
      NoPicks();
    }
    if i < |out| {
      lines, at := MatchesAreLines(out[i + 1..]);
      PicksMore(line, lines, at, AllMatches(out[i + 1..]));
      lines, at := [line] + lines, (if HasTwoColons(line) then [0] else []) + Shifted(at);
      assert lines[1..] == lines[1..] && out == line + "\n" + out[i + 1..];
    } else {
      PicksMore(line, [], [], []);
      lines, at := [line] + [], (if HasTwoColons(line) then [0] else []) + Shifted([]);
      assert LineMatch(line) + [] == AllMatches(out);
    }
  }

  /** The matches are what those lines of the output spell that hold two colons, in order, and nothing else. */
  ghost predicate IsReading(out: Text, ms: seq<Match>) {
    exists lines: seq<Text>, at: seq<nat> ::
      lines != [] && Joined(lines) == out && (forall l :: l in lines ==> '\n' !in l) && Picks(lines, at, ms)
  }

  lemma ReadsLines(out: Text)
    ensures IsReading(out, AllMatches(out))
  {
    hide Picks, Joined, AllMatches;
    var lines, at := MatchesAreLines(out);
  }

  lemma NoPicks()
    ensures Picks([], [], [])
  {
  }

  predicate IsSpace(c: Octet) {
    c == ' ' || c == '\t' || c == '\n' || c == '\r' || c as int == 11 || c as int == 12
  }

  /** atoi reads over white space. */
  lemma {:induction false} AtoiOver(space: Text, s: Text)
    requires forall c :: c in space ==> IsSpace(c)
    ensures Atoi(space + s) == Atoi(s)
  {
    if space == [] {
      assert space + s == s;
    } else {
      assert IsSpace(space[0]) && (space + s)[1..] == space[1..] + s;
      AtoiOver(space[1..], s);
    }
  }

  /** After that it takes a sign and the digits that follow, and leaves the rest; anything else is 0. */
  lemma AtoiReads(digits: Text, rest: Text)
    requires (forall i :: 0 <= i < |digits| ==> IsDigit(digits[i])) && (rest != [] ==> !IsDigit(rest[0]))
    ensures digits != [] ==> Atoi(digits + rest) == Numeral(digits)
    ensures Atoi(['-'] + (digits + rest)) == -(Numeral(digits) as int)
    ensures Atoi(['+'] + (digits + rest)) == Numeral(digits)
    ensures rest != [] && !IsSpace(rest[0]) && rest[0] != '-' && rest[0] != '+' ==> Atoi(rest) == 0
  {
    hide Numeral, Digits;
    DigitsBefore(digits, rest);
    AtoiSigned('-', digits + rest);
    AtoiSigned('+', digits + rest);
    if digits != [] {
      assert (digits + rest)[0] == digits[0];
    }
    if rest != [] && !IsSpace(rest[0]) {
      AtoiOfNone(rest);
    }
  }

  lemma AtoiOfNone(s: Text)
    requires s != [] && !IsDigit(s[0]) && !IsSpace(s[0])
    ensures s[0] != '-' && s[0] != '+' ==> Atoi(s) == 0
  {
    hide Numeral;
    NumeralGrows([], '0');
    assert Digits(s) == [];
  }

  lemma AtoiSigned(sign: Octet, s: Text)
    requires sign == '-' || sign == '+'
    ensures Atoi([sign] + s) == if sign == '-' then -(Numeral(Digits(s)) as int) else Numeral(Digits(s))
  {
    hide Numeral, Digits;
    assert ([sign] + s)[1..] == s;
  }

  lemma {:induction false} DigitsBefore(digits: Text, rest: Text)
    requires (forall i :: 0 <= i < |digits| ==> IsDigit(digits[i])) && (rest != [] ==> !IsDigit(rest[0]))
    ensures Digits(digits + rest) == digits
  {
    if digits == [] {
      assert digits + rest == rest;
    } else {
      assert (digits + rest)[1..] == digits[1..] + rest;
      DigitsBefore(digits[1..], rest);
    }
  }

  // ---------------------------------------------------------------- the scan

  /** `max` from the request: non-positive values fall back to the default. */
  function Cap(req: Request): (max: nat)
    ensures max > 0
  {
    match FindNumber(req, "max")
    case Some(n) => if Truncated(n) <= 0 then 1000 else Truncated(n)
    case None => 1000
  }

  method FirstColon(line: Text, start: nat) returns (c: int)
    requires start <= |line|
    ensures c == var i := IndexOf(line[start..], ':'); if i == |line| - start then -1 else start + i
  {
    c := -1;
    for k := start to |line|
      invariant ':' !in line[start..k]
    {
      if line[k] == ':' {
        assert line[start..] == line[start..k] + [':'] + line[k + 1..];
        IndexOfFirst(line[start..k], ':', line[k + 1..]);
        return k;
      }
    }
    assert line[start..|line|] == line[start..];
  }

  /** One line of the scan: both colons are looked for from the left. */
  method ScanLine(line: Text) returns (hit: Option<Match>)
    ensures LineMatch(line) == if hit.Some? then [hit.value] else []
    ensures hit.Some? <==> HasTwoColons(line)
    ensures hit.Some? ==> IsMatchOf(line, hit.value)
  {
    hide HasTwoColons, IsMatchOf, Atoi;
    LineSpells(line);
    if line == [] {
      return None;
    }
    assert line[0..] == line;
    var c1 := FirstColon(line, 0);
    if c1 < 0 {
      return None;
    }
    var c2 := FirstColon(line, c1 + 1);
    if c2 < 0 {
      return None;
    }
    assert line[c1 + 1..][..c2 - c1 - 1] == line[c1 + 1..c2];
    assert line[c1 + 1..][c2 - c1..] == line[c2 + 1..];
    return Some(Match(line[..c1], Atoi(line[c1 + 1..c2]), line[c2 + 1..]));
  }

  /** The matches of the lines that begin at `start` or later. */
  function From(out: Text, start: nat): seq<Match> {
    if start <= |out| then AllMatches(out[start..]) else []
  }

  predicate NoNewline(out: Text, start: nat, end: nat) {
    forall j :: start <= j < end && j < |out| ==> out[j] != '\n'
  }

  method ScanOutput(out: Text, max: nat) returns (matches: seq<Match>, count: nat, truncated: bool)
    requires max > 0
    ensures var all := AllMatches(out);
            && matches == all[..Min(max, |all|)]
            && count == |matches|
            && (truncated <==> |all| > max)
            && IsReading(out, all)
  {
    hide IsReading, LineMatch, AllMatches, From, Progress;
    BeginScan(out);
    var n, start, i := |out|, 0, 0;
    matches, count, truncated := [], 0, false;
    while i <= n && !truncated
      invariant 0 <= start <= i <= n + 1 && (i == n + 1 ==> start == n + 1)
      invariant count == |matches| <= max && (truncated ==> count == max)
      invariant NoNewline(out, start, i)
      invariant Progress(AllMatches(out), matches, From(out, start), truncated)
      decreases n + 1 - i
    {
      if i == n || out[i] == '\n' {
        var hit := ScanLine(out[start..i]);
        LineAt(out, start, i);
        Advance(AllMatches(out), matches, From(out, start), hit, From(out, i + 1));
        if hit.Some? {
          if count >= max {
            truncated := true;
          } else {
            matches := matches + [hit.value];
            count := count + 1;
          }
        }
        start := i + 1;
      }
      i := i + 1;
    }
    EndScan(out, matches, start, truncated, max);
    ReadsLines(out);
  }

  lemma BeginScan(out: Text)
    ensures Progress(AllMatches(out), [], From(out, 0), false)
  {
    hide AllMatches;
    assert out[0..] == out;
    assert [] + From(out, 0) == From(out, 0);
  }

  lemma EndScan(out: Text, taken: seq<Match>, start: nat, truncated: bool, max: nat)
    requires |taken| <= max && Progress(AllMatches(out), taken, From(out, start), truncated)
    requires if truncated then |taken| == max else start > |out|
    ensures var all := AllMatches(out); taken == all[..Min(max, |all|)] && (truncated <==> |all| > max)
  {
    hide AllMatches;
    if !truncated {
      assert taken + [] == taken;
    }
  }

  /** The matches taken so far are a prefix of all; once truncated, a proper one. */
  ghost predicate Progress(all: seq<Match>, taken: seq<Match>, left: seq<Match>, truncated: bool) {
    if truncated then |taken| < |all| && taken == all[..|taken|] else all == taken + left
  }

  lemma Advance(all: seq<Match>, taken: seq<Match>, left: seq<Match>, hit: Option<Match>, rest: seq<Match>)
    requires Progress(all, taken, left, false)
    requires left == (if hit.Some? then [hit.value] else []) + rest
    ensures hit.None? ==> Progress(all, taken, rest, false)
    ensures hit.Some? ==> Progress(all, taken, rest, true) && Progress(all, taken + [hit.value], rest, false)
  {
    if hit.Some? {
      assert taken + ([hit.value] + rest) == taken + [hit.value] + rest;
    } else {
      assert [] + rest == rest;
    }
  }

  /** The line that ends at `i`, and the matches after it. */
  lemma LineAt(out: Text, start: nat, i: nat)
    requires start <= i <= |out| && NoNewline(out, start, i)
    requires i < |out| ==> out[i] == '\n'
    ensures From(out, start) == LineMatch(out[start..i]) + From(out, i + 1)
  {
    hide LineMatch;
    var s := out[start..];
    if i < |out| {
      assert s == out[start..i] + ['\n'] + out[i + 1..];
      IndexOfFirst(out[start..i], '\n', out[i + 1..]);
      assert s[..i - start] == out[start..i] && s[i - start + 1..] == out[i + 1..];
    } else {
      assert s == out[start..i];
      assert s[..|s|] == s;
    }
  }

  // ---------------------------------------------------------------- grep's printing, read back

  /** A match grep can report: a line of a file, numbered from 1. */
  function Printed(m: Match): Text
    requires m.line >= 0
  {
    m.file + ":" + Decimal(m.line) + ":" + m.text + "\n"
  }

  function PrintAll(ms: seq<Match>): Text
    requires forall m :: m in ms ==> m.line >= 0
  {
    if ms == [] then [] else Printed(ms[0]) + PrintAll(ms[1..])
  }

  predicate Clean(m: Match) {
    ':' !in m.file && '\n' !in m.file && '\n' !in m.text
  }

  lemma LineMatchIsClean(line: Text)
    requires '\n' !in line
    ensures forall m :: m in LineMatch(line) ==> Clean(m)
  {
    hide Atoi;
    forall m | m in LineMatch(line) ensures Clean(m) {
      assert forall c :: c in m.file ==> c in line;
      assert forall c :: c in m.text ==> c in line;
    }
  }

  /** Everything the scan reports is clean, whatever it is given. */
  lemma {:induction false} MatchesAreClean(s: Text)
    ensures forall m :: m in AllMatches(s) ==> Clean(m)
    decreases |s|
  {
    hide LineMatch;
    var i := IndexOf(s, '\n');
    LineMatchIsClean(s[..i]);
    if i < |s| {
      MatchesAreClean(s[i + 1..]);
    }
  }

  lemma LineOfClean(m: Match)
    requires Clean(m) && m.line >= 0
    ensures LineMatch(m.file + ":" + Decimal(m.line) + ":" + m.text) == [m]
  {
    var number := Decimal(m.line);
    var rest := number + ":" + m.text;
    var line := m.file + ":" + number + ":" + m.text;
    assert line == m.file + [':'] + rest;
    IndexOfFirst(m.file, ':', rest);
    assert line[|m.file| + 1..] == rest && line[..|m.file|] == m.file;
    assert ':' !in number;
    assert rest == number + [':'] + m.text;
    IndexOfFirst(number, ':', m.text);
    assert rest[..|number|] == number && rest[|number| + 1..] == m.text;
    AtoiOfDecimal(m.line);
  }

  lemma FirstPrinted(m: Match, tail: Text)
    requires Clean(m) && m.line >= 0
    ensures AllMatches(Printed(m) + tail) == [m] + AllMatches(tail)
  {
    var line, s := m.file + ":" + Decimal(m.line) + ":" + m.text, Printed(m) + tail;
    assert '\n' !in Decimal(m.line);
    assert s == line + ['\n'] + tail;
    IndexOfFirst(line, '\n', tail);
    assert s[..|line|] == line && s[|line| + 1..] == tail;
    LineOfClean(m);
  }

  lemma {:induction false} ScanOfClean(ms: seq<Match>)
    requires forall m :: m in ms ==> Clean(m) && m.line >= 0
    ensures AllMatches(PrintAll(ms)) == ms
  {
    if ms == [] {
      assert AllMatches([]) == [];
    } else {
      ScanOfClean(ms[1..]);
      FirstPrinted(ms[0], PrintAll(ms[1..]));
      assert ms == [ms[0]] + ms[1..];
    }
  }

  /** What grep printed comes back unchanged exactly when no file name holds a colon or a newline
      (and no text a newline); the scan cannot tell such a name from its own separators. */
  lemma PrintScanRoundTrip(ms: seq<Match>)
    requires forall m :: m in ms ==> m.line >= 0
    ensures AllMatches(PrintAll(ms)) == ms <==> forall m :: m in ms ==> Clean(m)
  {
    if forall m :: m in ms ==> Clean(m) {
      ScanOfClean(ms);
    } else if AllMatches(PrintAll(ms)) == ms {
      MatchesAreClean(PrintAll(ms));
    }
  }
}
