/** The execution log line: printed by the logger middleware (pkg/utils/auth/auth.go), parsed by the
    metrics source (pkg/metrics/sources.go) and by the logs handler (pkg/handlers/logs.go). */
module ExecutionLog {
  import opened Options
  import opened Text

  const PREFIX := "[GIN-EXECUTIONS-LOGGER]"
  const GIN_PREFIX := "[GIN]"

  /** Timestamps (date-time texts of section 5.6 of RFC 3339; a time is its nanosecond count) and
      decimal status codes. */
  datatype Codec = Codec(formatTime: int -> string, parseTime: string -> Option<int>,
                         showInt: int -> string, parseInt: string -> Option<int>) {
    /** Printed times and numbers parse back and hold neither white space nor bars. */
    ghost predicate Exact() {
      && (forall t :: parseTime(formatTime(t)) == Some(t) && Plain(formatTime(t)) && formatTime(t) != "")
      && (forall n :: parseInt(showInt(n)) == Some(n) && Plain(showInt(n)) && showInt(n) != "")
    }
  }

  datatype Request = Request(time: int, status: int, latency: string, ip: string, verb: string, path: string,
                             user: string)

  predicate PlainChar(c: char) { c != '|' && c != '"' && c != '?' && !IsSpace(c) }

  /** No bar, quote, question mark or white space. */
  predicate Plain(s: string) { forall i | 0 <= i < |s| :: PlainChar(s[i]) }

  /** A request whose printed fields are plain; everything but the user is non-empty. */
  predicate PlainRequest(r: Request) {
    Plain(r.latency) && Plain(r.ip) && Plain(r.verb) && Plain(r.path) && Plain(r.user) &&
    r.latency != "" && r.ip != "" && r.verb != "" && r.path != ""
  }

  lemma TallyPlain(n: int)
    ensures Plain(Tally(n)) && Tally(n) != ""
  {
    assert PlainChar('1') && PlainChar('+') && PlainChar('-');
  }

  /** There are exact codecs. */
  lemma CodecExists()
    ensures exists c: Codec :: c.Exact()
  {
    var c := Codec(Tally, Untally, Tally, Untally);
    assert c.Exact() by {
      forall n: int ensures Untally(Tally(n)) == Some(n) && Plain(Tally(n)) && Tally(n) != "" {
        TallyRoundTrip(n);
        TallyPlain(n);
      }
    }
  }

  // ---------- Printing ----------

  /** Blanks that fill a text up to a width. */
  function Fill(s: string, width: nat): nat { if |s| < width then width - |s| else 0 }

  /** A column of the line: blanks, a core, blanks. */
  datatype Part = Part(before: nat, core: string, after: nat) {
    function Text(): string { Spaces(before) + core + Spaces(after) }
    predicate Clean() {
      '|' !in core && (core != "" ==> !IsSpace(core[0]) && !IsSpace(core[|core| - 1]))
    }
  }

  /** Columns separated by " | ". */
  function Columns(ps: seq<Part>): string
    requires ps != []
  {
    if |ps| == 1 then ps[0].Text() else ps[0].Text() + " | " + Columns(ps[1..])
  }

  /** "%-7s %s": the method, padded to width 7, and the path. */
  function MethodPath(r: Request): string { r.verb + Spaces(Fill(r.verb, 7) + 1) + r.path }

  /** Time, status (%3d), latency (%13v), address, method and path, user. */
  function ColumnsOf(c: Codec, r: Request): seq<Part> {
    [Part(0, c.formatTime(r.time), 0),
     Part(Fill(c.showInt(r.status), 3), c.showInt(r.status), 0),
     Part(Fill(r.latency, 13), r.latency, 0),
     Part(0, r.ip, 0),
     Part(0, MethodPath(r), 0),
     Part(0, r.user, 0)]
  }

  /** The line GetLoggerMiddleware prints, without its newline. */
  function Line(c: Codec, r: Request): string { PREFIX + " " + Columns(ColumnsOf(c, r)) }

  /** s behind as many blanks as make it n characters long. */
  function PadLeft(s: string, n: nat): string { if |s| >= n then s else seq(n - |s|, _ => ' ') + s }

  function PadRight(s: string, n: nat): string { if |s| >= n then s else s + seq(n - |s|, _ => ' ') }

  lemma {:induction false} SixColumns(a: Part, b: Part, c: Part, d: Part, e: Part, f: Part)
    ensures Columns([a, b, c, d, e, f]) ==
            a.Text() + " | " + (b.Text() + " | " + (c.Text() + " | " +
            (d.Text() + " | " + (e.Text() + " | " + f.Text()))))
  {
    assert [a, b, c, d, e, f][1..] == [b, c, d, e, f] && [b, c, d, e, f][1..] == [c, d, e, f];
    assert [c, d, e, f][1..] == [d, e, f] && [d, e, f][1..] == [e, f] && [e, f][1..] == [f];
    assert Columns([e, f]) == e.Text() + " | " + Columns([f]) && Columns([f]) == f.Text();
    assert Columns([c, d, e, f]) == c.Text() + " | " + (d.Text() + " | " + Columns([e, f]));
  }

  /** The line as the format string lays it out. */
  lemma {:induction false} LineLayout(c: Codec, r: Request)
    ensures Line(c, r) ==
            "[GIN-EXECUTIONS-LOGGER]" + " " +
            (c.formatTime(r.time) + " | " + (PadLeft(c.showInt(r.status), 3) + " | " + (PadLeft(r.latency, 13) + " | " +
             (r.ip + " | " + (PadRight(r.verb, 7) + " " + r.path + " | " + r.user)))))
  {
    var ps := ColumnsOf(c, r);
    SixColumns(ps[0], ps[1], ps[2], ps[3], ps[4], ps[5]);
    assert ps == [ps[0], ps[1], ps[2], ps[3], ps[4], ps[5]];
    assert ps[0].Text() == c.formatTime(r.time) && ps[3].Text() == r.ip && ps[5].Text() == r.user;
    assert ps[1].Text() == PadLeft(c.showInt(r.status), 3) && ps[2].Text() == PadLeft(r.latency, 13);
    assert ps[4].Text() == PadRight(r.verb, 7) + " " + r.path;
  }

  // ---------- The metrics parser ----------

  datatype RequestType = Sync | Async | Untyped

  datatype Record = Record(service: string, user: string, kind: RequestType, time: int)

  function ParseServiceFromPath(path: string): (string, RequestType) {
    if "/job/" <= path then (path[5..], Async)
    else if "/run/" <= path then (path[5..], Sync)
    else ("", Untyped)
  }

  /** What follows the prefix. */
  function Payload(line: string): string {
    var i, j := Index(line, PREFIX), Index(line, GIN_PREFIX);
    if i >= 0 then TrimSpace(line[i + |PREFIX|..])
    else if j >= 0 then TrimSpace(line[j + |GIN_PREFIX|..])
    else TrimSpace(line)
  }

  /** parseGinExecutionLog; None when the line is rejected. */
  function ParseGinExecutionLog(c: Codec, line: string): Option<Record> { ParseParts(c, Split(Payload(line), '|')) }

  /** parseGinExecutionLog from the split on. */
  function ParseParts(c: Codec, parts: seq<string>): Option<Record> {
    if |parts| < 6 then None
    else
      var timestamp := c.parseTime(TrimSpace(parts[0]));
      var ip := TrimSpace(parts[3]);
      var methodPath := Fields(TrimSpace(parts[4]));
      if timestamp.None? || |methodPath| <= 1 || methodPath[|methodPath| - 1] == "" || ip == "" then None
      else
        var path := Split(Trim(methodPath[|methodPath| - 1], {'"'}), '?')[0];
        var (service, kind) := ParseServiceFromPath(path);
        Some(Record(service, TrimSpace(parts[5]), kind, timestamp.value))
  }

  // ---------- The logs handler's parser ----------

  datatype Entry = Entry(timestamp: string, status: int, latency: string, clientIP: string, verb: string,
                         path: string, user: string, raw: string)

  /** The body of the loop of parseExecutionLogs; None when the line is skipped. */
  function ParseLine(c: Codec, line: string): Option<Entry> {
    var rawLine := TrimSpace(line);
    if |rawLine| == 0 || !Contains(rawLine, PREFIX) then None
    else ParseColumns(c, rawLine, Split(TrimSpace(if PREFIX <= rawLine then rawLine[|PREFIX|..] else rawLine), '|'))
  }

  /** The body of the loop from the split on. */
  function ParseColumns(c: Codec, rawLine: string, parts: seq<string>): Option<Entry> {
    if |parts| < 6 then None
    else
      var rawTimestamp := TrimSpace(parts[0]);
      var t, n := c.parseTime(rawTimestamp), c.parseInt(TrimSpace(parts[1]));
      var fields := Fields(TrimSpace(parts[4]));
      if |fields| < 2 || fields[0] != "POST" || !("/run" <= fields[1] || "/job" <= fields[1]) then None
      else
        Some(Entry(if t.Some? then c.formatTime(t.value) else rawTimestamp, if n.Some? then n.value else 0,
                   TrimSpace(parts[2]), TrimSpace(parts[3]), fields[0], fields[1], TrimSpace(parts[5]), rawLine))
  }

  /** utils.NormalizeLineEndings. */
  function Normalize(s: string): string {
    if s == "" then ""
    else if "\r\n" <= s then "\n" + Normalize(s[2..])
    else (if s[0] == '\r' then "\n" else [s[0]]) + Normalize(s[1..])
  }

  function LineParser(c: Codec): string -> Option<Entry> { (line: string) => ParseLine(c, line) }

  /** The entries of the lines that are kept. */
  function Kept(parse: string -> Option<Entry>, lines: seq<string>): seq<Entry> {
    if lines == [] then []
    else
      var rest, e := Kept(parse, lines[..|lines| - 1]), parse(lines[|lines| - 1]);
      if e.Some? then rest + [e.value] else rest
  }

  /** parseExecutionLogs. */
  method ParseExecutionLogs(c: Codec, raw: string) returns (filtered: seq<Entry>)
    ensures filtered == Kept(LineParser(c), Split(Normalize(raw), '\n'))
  {
    var lines := Split(Normalize(raw), '\n');
    filtered := [];
    for i := 0 to |lines|
      invariant filtered == Kept(LineParser(c), lines[..i])
    {
      assert lines[..i + 1][..i] == lines[..i];
      var e := ParseLine(c, lines[i]);
      if e.None? { continue; }
      filtered := filtered + [e.value];
    }
    assert lines[..|lines|] == lines;
  }

  // ---------- The six parts of a line ----------

  /** The parts joined with bars. */
  function Joined(ps: seq<Part>): string
    requires ps != []
  {
    if |ps| == 1 then ps[0].Text() else ps[0].Text() + ['|'] + Joined(ps[1..])
  }

  function Texts(ps: seq<Part>): seq<string> { seq(|ps|, i requires 0 <= i < |ps| => ps[i].Text()) }

  predicate AllClean(ps: seq<Part>) { forall i | 0 <= i < |ps| :: ps[i].Clean() }

  lemma {:induction false} SplitJoined(ps: seq<Part>)
    requires ps != [] && AllClean(ps)
    ensures Split(Joined(ps), '|') == Texts(ps)
  {
    assert '|' !in ps[0].Text();
    if |ps| == 1 {
      SplitNone(ps[0].Text(), '|');
    } else {
      SplitJoined(ps[1..]);
      SplitAt(ps[0].Text(), '|', Joined(ps[1..]));
      assert Texts(ps) == [ps[0].Text()] + Texts(ps[1..]);
    }
  }

  function Trimmed(texts: seq<string>): seq<string> {
    seq(|texts|, i requires 0 <= i < |texts| => TrimSpace(texts[i]))
  }

  function Cores(ps: seq<Part>): seq<string> { seq(|ps|, i requires 0 <= i < |ps| => ps[i].core) }

  /** The texts trim to the printed fields, with t for the time. */
  predicate Printed(c: Codec, r: Request, t: string, parts: seq<string>) {
    Trimmed(parts) == [t, c.showInt(r.status), r.latency, r.ip, MethodPath(r), r.user]
  }

  lemma PrintedFields(c: Codec, r: Request, t: string, parts: seq<string>)
    requires Printed(c, r, t, parts)
    ensures |parts| == 6 && TrimSpace(parts[0]) == t && TrimSpace(parts[1]) == c.showInt(r.status) &&
            TrimSpace(parts[2]) == r.latency && TrimSpace(parts[3]) == r.ip &&
            TrimSpace(parts[4]) == MethodPath(r) && TrimSpace(parts[5]) == r.user
  {
    var ts := Trimmed(parts);
    assert |ts| == 6 && ts[0] == t && ts[1] == c.showInt(r.status) && ts[2] == r.latency && ts[3] == r.ip;
    assert ts[4] == MethodPath(r) && ts[5] == r.user;
  }

  /** Splitting joined parts at the bars and trimming gives back their cores. */
  lemma {:induction false} CoresOf(ps: seq<Part>)
    requires ps != [] && AllClean(ps)
    ensures Trimmed(Split(Joined(ps), '|')) == Cores(ps)
  {
    SplitJoined(ps);
    var parts := Split(Joined(ps), '|');
    forall i | 0 <= i < |ps| ensures TrimSpace(parts[i]) == ps[i].core {
      assert parts[i] == ps[i].Text();
      TrimPadded(ps[i].before, ps[i].core, ps[i].after);
    }
  }

  /** What follows the prefix and a blank, as parts; blanks at the very end are left out. */
  function PartsOf(c: Codec, r: Request): seq<Part> {
    [Part(0, c.formatTime(r.time), 1),
     Part(1 + Fill(c.showInt(r.status), 3), c.showInt(r.status), 1),
     Part(1 + Fill(r.latency, 13), r.latency, 1),
     Part(1, r.ip, 1),
     Part(1, MethodPath(r), 1),
     Part(if r.user == "" then 0 else 1, r.user, 0)]
  }

  lemma {:induction false} MethodPathClean(r: Request)
    requires PlainRequest(r)
    ensures Part(1, MethodPath(r), 1).Clean()
    ensures Fields(MethodPath(r)) == [r.verb, r.path]
  {
    FieldsTwo(r.verb, Fill(r.verb, 7) + 1, r.path);
    var m := MethodPath(r);
    assert m[0] == r.verb[0] && m[|m| - 1] == r.path[|r.path| - 1];
  }

  lemma PartsClean(c: Codec, r: Request)
    requires c.Exact() && PlainRequest(r)
    ensures AllClean(PartsOf(c, r))
  {
  }

  /** The columns with the blanks of the separators moved into them. */
  function Spread(ps: seq<Part>): (r: seq<Part>)
    requires ps != []
    ensures |r| == |ps|
  {
    if |ps| == 1 then [Part(ps[0].before + 1, ps[0].core, ps[0].after)]
    else [Part(ps[0].before + 1, ps[0].core, ps[0].after + 1)] + Spread(ps[1..])
  }

  lemma {:induction false} ColumnsSpread(ps: seq<Part>)
    requires ps != []
    ensures " " + Columns(ps) == Joined(Spread(ps))
  {
    if |ps| > 1 {
      ColumnsSpread(ps[1..]);
      assert Spread(ps)[1..] == Spread(ps[1..]);
    }
  }

  /** Blanks after the last part stand after the joined text. */
  lemma {:induction false} JoinedLast(init: seq<Part>, p: Part, q: Part, tail: string)
    requires p.Text() == q.Text() + tail
    ensures Joined(init + [p]) == Joined(init + [q]) + tail
  {
    if init == [] {
      assert init + [p] == [p] && init + [q] == [q];
    } else {
      JoinedLast(init[1..], p, q, tail);
      assert (init + [p])[1..] == init[1..] + [p] && (init + [q])[1..] == init[1..] + [q];
      var head, rest := init[0].Text() + ['|'], Joined(init[1..] + [q]);
      assert head + (rest + tail) == (head + rest) + tail;
    }
  }

  lemma {:induction false} SpreadColumns(c: Codec, r: Request)
    ensures Spread(ColumnsOf(c, r)) ==
            [Part(1, c.formatTime(r.time), 1)] + (PartsOf(c, r)[1..5] + [Part(1, r.user, 0)])
  {
    var s, ps := Spread(ColumnsOf(c, r)), PartsOf(c, r);
    SpreadSix(ColumnsOf(c, r));
    var t := [Part(1, c.formatTime(r.time), 1)] + (ps[1..5] + [Part(1, r.user, 0)]);
    assert t[1] == ps[1] && t[2] == ps[2] && t[3] == ps[3] && t[4] == ps[4];
    assert s[1] == ps[1] && s[2] == ps[2] && s[3] == ps[3] && s[4] == ps[4];
    assert s[0] == t[0] && s[5] == t[5];
  }

  /** The user's column, without a blank when there is no user. */
  function UserPart(user: string): Part { Part(if user == "" then 0 else 1, user, 0) }

  /** A blank before the first part comes out in front; the blank of a missing user comes out at the end. */
  lemma {:induction false} BlanksOut(first: Part, middle: seq<Part>, user: string)
    ensures Joined([Part(first.before + 1, first.core, first.after)] + (middle + [Part(1, user, 0)])) ==
            Spaces(1) + Joined([first] + (middle + [UserPart(user)])) + Spaces(if user == "" then 1 else 0)
  {
    var m, last, init := if user == "" then 1 else 0, Part(1, user, 0), [first] + middle;
    assert last.Text() == UserPart(user).Text() + Spaces(m);
    assert [first] + (middle + [last]) == init + [last];
    assert [first] + (middle + [UserPart(user)]) == init + [UserPart(user)];
    JoinedLast(init, last, UserPart(user), Spaces(m));
    var j := Joined(init + [UserPart(user)]);
    assert Spaces(1) + (j + Spaces(m)) == Spaces(1) + j + Spaces(m);
  }

  /** The joined columns are a blank, the joined parts and, without a user, one more blank. */
  lemma {:induction false} SpreadIsParts(c: Codec, r: Request)
    ensures Joined(Spread(ColumnsOf(c, r))) ==
            Spaces(1) + Joined(PartsOf(c, r)) + Spaces(if r.user == "" then 1 else 0)
  {
    var ps := PartsOf(c, r);
    SpreadColumns(c, r);
    BlanksOut(ps[0], ps[1..5], r.user);
    assert [ps[0]] + (ps[1..5] + [UserPart(r.user)]) == ps;
  }

  lemma {:induction false} LineIsParts(c: Codec, r: Request)
    ensures Line(c, r) == PREFIX + (Spaces(1) + Joined(PartsOf(c, r)) + Spaces(if r.user == "" then 1 else 0))
  {
    ColumnsSpread(ColumnsOf(c, r));
    SpreadIsParts(c, r);
    assert PREFIX + " " + Columns(ColumnsOf(c, r)) == PREFIX + (" " + Columns(ColumnsOf(c, r)));
  }

  /** The part with a blank more on either side. */
  function Wide(p: Part): Part { Part(p.before + 1, p.core, p.after + 1) }

  lemma {:induction false} SpreadSix(ps: seq<Part>)
    requires |ps| == 6
    ensures Spread(ps) == [Wide(ps[0]), Wide(ps[1]), Wide(ps[2]), Wide(ps[3]), Wide(ps[4]),
                           Part(ps[5].before + 1, ps[5].core, ps[5].after)]
  {
    assert ps[4..][1..] == ps[5..] && ps[3..][1..] == ps[4..] && ps[2..][1..] == ps[3..] && ps[1..][1..] == ps[2..];
    assert Spread(ps[5..]) == [Part(ps[5].before + 1, ps[5].core, ps[5].after)];
    assert Spread(ps[4..]) == [Wide(ps[4])] + Spread(ps[5..]);
    assert Spread(ps[3..]) == [Wide(ps[3])] + Spread(ps[4..]);
    assert Spread(ps[2..]) == [Wide(ps[2])] + Spread(ps[3..]);
    assert Spread(ps[1..]) == [Wide(ps[1])] + Spread(ps[2..]);
  }

  /** The last character of the joined text: of its last part, or the bar before it. */
  lemma {:induction false} JoinedTail(ps: seq<Part>)
    requires |ps| >= 2
    ensures var last, j := ps[|ps| - 1].Text(), Joined(ps);
            j != "" && j[|j| - 1] == if last == "" then '|' else last[|last| - 1]
  {
    var last, j := ps[|ps| - 1].Text(), Joined(ps);
    var rest := Joined(ps[1..]);
    assert j == ps[0].Text() + ['|'] + rest;
    if |ps| == 2 {
      assert rest == last;
    } else {
      JoinedTail(ps[1..]);
      assert ps[1..][|ps| - 2] == ps[|ps| - 1];
    }
  }

  lemma {:induction false} JoinedEnds(c: Codec, r: Request)
    requires c.Exact() && PlainRequest(r)
    ensures var j := Joined(PartsOf(c, r)); j != "" && !IsSpace(j[0]) && !IsSpace(j[|j| - 1])
  {
    var ps := PartsOf(c, r);
    JoinedTail(ps);
    if r.user == "" {
      assert ps[5].Text() == "";
    } else {
      assert ps[5].Text() == " " + r.user;
    }
  }

  /** After the prefix and trimming, splitting at the bars gives six texts with the printed cores. */
  lemma {:induction false} SixParts(c: Codec, r: Request)
    requires c.Exact() && PlainRequest(r)
    ensures PREFIX <= Line(c, r)
    ensures Printed(c, r, c.formatTime(r.time), Split(TrimSpace(Line(c, r)[|PREFIX|..]), '|'))
  {
    var ps := PartsOf(c, r);
    LineIsParts(c, r);
    JoinedEnds(c, r);
    TrimPadded(1, Joined(ps), if r.user == "" then 1 else 0);
    PartsClean(c, r);
    CoresOf(ps);
  }

  // ---------- Round trips ----------

  lemma TrimAbsent(s: string, cut: set<char>)
    requires forall i | 0 <= i < |s| :: s[i] !in cut
    ensures Trim(s, cut) == s
  {
  }

  lemma {:induction false} PartsParse(c: Codec, r: Request, parts: seq<string>)
    requires c.Exact() && PlainRequest(r) && Printed(c, r, c.formatTime(r.time), parts)
    ensures ParseParts(c, parts) ==
            Some(Record(ParseServiceFromPath(r.path).0, r.user, ParseServiceFromPath(r.path).1, r.time))
  {
    PrintedFields(c, r, c.formatTime(r.time), parts);
    MethodPathClean(r);
    TrimAbsent(r.path, {'"'});
    SplitNone(r.path, '?');
  }

  /** Parsing the printed line returns the request's user and time, and the service and type that its
      path names. */
  lemma {:induction false} MetricsRoundTrip(c: Codec, r: Request)
    requires c.Exact() && PlainRequest(r)
    ensures ParseGinExecutionLog(c, Line(c, r)) ==
            Some(Record(ParseServiceFromPath(r.path).0, r.user, ParseServiceFromPath(r.path).1, r.time))
  {
    SixParts(c, r);
    PartsParse(c, r, Split(TrimSpace(Line(c, r)[|PREFIX|..]), '|'));
    PrefixedPayload(Line(c, r));
  }

  lemma PrefixedPayload(line: string)
    requires PREFIX <= line
    ensures Index(line, PREFIX) == 0 && Payload(line) == TrimSpace(line[|PREFIX|..])
  {
  }

  /** For a POST to /job/name or /run/name these are that name and asynchronous or synchronous. */
  lemma {:induction false} ServiceRoundTrip(name: string)
    ensures ParseServiceFromPath("/job/" + name) == (name, Async)
    ensures ParseServiceFromPath("/run/" + name) == (name, Sync)
  {
    assert ("/job/" + name)[5..] == name;
    assert ("/run/" + name)[5..] == name;
    assert ("/run/" + name)[1] == 'r';
  }

  /** A POST to a job or run path. */
  predicate IsExecution(r: Request) { r.verb == "POST" && ("/run" <= r.path || "/job" <= r.path) }

  /** The entry of a request whose time column reads t. */
  function EntryWith(c: Codec, r: Request, t: string, raw: string): Entry {
    Entry(if c.parseTime(t).Some? then c.formatTime(c.parseTime(t).value) else t, r.status, r.latency, r.ip, r.verb,
          r.path, r.user, raw)
  }

  function EntryFor(c: Codec, r: Request): Entry {
    Entry(c.formatTime(r.time), r.status, r.latency, r.ip, r.verb, r.path, r.user, TrimSpace(Line(c, r)))
  }

  /** Trimming a prefixed text before or after cutting off the prefix leaves the same. */
  lemma {:induction false} TrimPrefixed(prefix: string, j: string, m: nat)
    requires prefix != "" && !IsSpace(prefix[0]) && j != "" && !IsSpace(j[0]) && !IsSpace(j[|j| - 1])
    ensures TrimSpace(prefix + (Spaces(1) + j + Spaces(m))) == prefix + (Spaces(1) + j)
    ensures TrimSpace(prefix + (Spaces(1) + j)) == prefix + (Spaces(1) + j)
    ensures TrimSpace(Spaces(1) + j + Spaces(m)) == j == TrimSpace(Spaces(1) + j)
  {
    var core := prefix + (Spaces(1) + j);
    assert prefix + (Spaces(1) + j + Spaces(m)) == Spaces(0) + core + Spaces(m);
    assert core[0] == prefix[0] && core[|core| - 1] == j[|j| - 1];
    TrimPadded(0, core, m);
    assert core == Spaces(0) + core + Spaces(0);
    TrimPadded(0, core, 0);
    TrimPadded(1, j, m);
    assert Spaces(1) + j == Spaces(1) + j + Spaces(0);
    TrimPadded(1, j, 0);
  }

  lemma {:induction false} LineTrimmed(c: Codec, r: Request)
    requires c.Exact() && PlainRequest(r)
    ensures PREFIX <= TrimSpace(Line(c, r))
    ensures TrimSpace(TrimSpace(Line(c, r))[|PREFIX|..]) == TrimSpace(Line(c, r)[|PREFIX|..])
  {
    LineIsParts(c, r);
    JoinedEnds(c, r);
    var j, m := Joined(PartsOf(c, r)), if r.user == "" then 1 else 0;
    TrimPrefixed(PREFIX, j, m);
    assert (PREFIX + (Spaces(1) + j))[|PREFIX|..] == Spaces(1) + j;
    assert (PREFIX + (Spaces(1) + j + Spaces(m)))[|PREFIX|..] == Spaces(1) + j + Spaces(m);
  }

  lemma {:induction false} PrintedParse(c: Codec, r: Request, t: string, raw: string, parts: seq<string>)
    requires c.Exact() && PlainRequest(r) && Printed(c, r, t, parts)
    ensures ParseColumns(c, raw, parts) == if IsExecution(r) then Some(EntryWith(c, r, t, raw)) else None
  {
    PrintedFields(c, r, t, parts);
    MethodPathClean(r);
  }

  /** The logs handler keeps exactly the executions and returns every printed field. */
  lemma {:induction false} LogsRoundTrip(c: Codec, r: Request)
    requires c.Exact() && PlainRequest(r)
    ensures ParseLine(c, Line(c, r)) ==
            if r.verb == "POST" && ("/run" <= r.path || "/job" <= r.path)
            then Some(Entry(c.formatTime(r.time), r.status, r.latency, r.ip, r.verb, r.path, r.user,
                            TrimSpace(Line(c, r))))
            else None
  {
    SixParts(c, r);
    LineTrimmed(c, r);
    var raw := TrimSpace(Line(c, r));
    PrintedParse(c, r, c.formatTime(r.time), raw, Split(TrimSpace(raw[|PREFIX|..]), '|'));
  }

  /** Both parsers agree on path and user, and on the time. */
  lemma {:induction false} ParsersAgree(c: Codec, r: Request)
    requires c.Exact() && PlainRequest(r) && IsExecution(r)
    ensures var record, entry := ParseGinExecutionLog(c, Line(c, r)), ParseLine(c, Line(c, r));
            record.Some? && entry.Some? && record.value.user == entry.value.user &&
            ParseServiceFromPath(entry.value.path) == (record.value.service, record.value.kind) &&
            c.parseTime(entry.value.timestamp) == Some(record.value.time)
  {
    MetricsRoundTrip(c, r);
    LogsRoundTrip(c, r);
  }

  // ---------- Lines with a timestamp in front ----------

  /** What the Kubernetes API puts in front of a line when the caller asks for timestamps. */
  predicate IsStamp(s: string) { Plain(s) && s != "" && '[' !in s }

  function Stamped(stamp: string, line: string): string { stamp + " " + line }

  /** The metrics parser skips whatever comes before the prefix. */
  lemma StampedMetrics(c: Codec, stamp: string, line: string)
    requires IsStamp(stamp) && Contains(line, PREFIX)
    ensures ParseGinExecutionLog(c, Stamped(stamp, line)) == ParseGinExecutionLog(c, line)
  {
    SkippedPayload(stamp + " ", line);
  }

  lemma PayloadAt(line: string, i: nat)
    requires Index(line, PREFIX) == i
    ensures Payload(line) == TrimSpace(line[i + |PREFIX|..])
  {
  }

  lemma DropLead(a: string, b: string, k: nat)
    requires k <= |b|
    ensures (a + b)[|a| + k..] == b[k..]
  {
  }

  lemma {:induction false} SkippedPayload(a: string, line: string)
    requires '[' !in a && Contains(line, PREFIX)
    ensures Payload(a + line) == Payload(line)
  {
    var i: nat, whole := Index(line, PREFIX), a + line;
    var at := |a| + i;
    SkippedIndex(a, line);
    PayloadAt(line, i);
    PayloadAt(whole, at);
    DropLead(a, line, i + |PREFIX|);
    assert whole[at + |PREFIX|..] == line[i + |PREFIX|..];
  }

  lemma SkippedIndex(a: string, line: string)
    requires '[' !in a && Contains(line, PREFIX)
    ensures Index(a + line, PREFIX) == |a| + Index(line, PREFIX)
  {
    IndexSkips(a, line, PREFIX);
  }

  /** What the logs parser takes for the time: everything up to the first bar. */
  function StampedTime(c: Codec, stamp: string, r: Request): string {
    stamp + " " + PREFIX + " " + c.formatTime(r.time)
  }

  function StampedEntry(c: Codec, stamp: string, r: Request): Entry {
    EntryWith(c, r, StampedTime(c, stamp, r), TrimSpace(Stamped(stamp, Line(c, r))))
  }

  function StampedParts(c: Codec, stamp: string, r: Request): seq<Part> {
    PartsOf(c, r)[0 := Part(0, StampedTime(c, stamp, r), 1)]
  }

  lemma {:induction false} JoinedLead(lead: string, p: Part, rest: seq<Part>)
    requires p.before == 0
    ensures Joined([p.(core := lead + p.core)] + rest) == lead + Joined([p] + rest)
  {
    var q := p.(core := lead + p.core);
    assert q.Text() == lead + p.Text();
    if rest != [] {
      assert ([q] + rest)[1..] == rest && ([p] + rest)[1..] == rest;
      assert lead + p.Text() + ['|'] + Joined(rest) == lead + (p.Text() + ['|'] + Joined(rest));
    }
  }

  lemma {:induction false} StampedJoined(c: Codec, stamp: string, r: Request)
    ensures Joined(StampedParts(c, stamp, r)) == stamp + " " + PREFIX + (Spaces(1) + Joined(PartsOf(c, r)))
  {
    var ps, lead := PartsOf(c, r), stamp + " " + PREFIX + " ";
    JoinedLead(lead, ps[0], ps[1..]);
    assert [ps[0]] + ps[1..] == ps;
    assert ps[0].(core := lead + ps[0].core) == Part(0, StampedTime(c, stamp, r), 1);
    assert [ps[0].(core := lead + ps[0].core)] + ps[1..] == StampedParts(c, stamp, r);
    assert lead + Joined(ps) == stamp + " " + PREFIX + (Spaces(1) + Joined(ps));
  }

  /** The trimmed line is the parts joined, with stamp and prefix before the time. */
  lemma {:induction false} StampedTrimmed(c: Codec, stamp: string, r: Request)
    requires c.Exact() && PlainRequest(r) && IsStamp(stamp)
    ensures TrimSpace(Stamped(stamp, Line(c, r))) == Joined(StampedParts(c, stamp, r))
    ensures TrimSpace(Joined(StampedParts(c, stamp, r))) == Joined(StampedParts(c, stamp, r))
  {
    var j, m, prefix := Joined(PartsOf(c, r)), if r.user == "" then 1 else 0, stamp + " " + PREFIX;
    assert prefix[0] == stamp[0];
    JoinedEnds(c, r);
    TrimPrefixed(prefix, j, m);
    StampedJoined(c, stamp, r);
    LineIsParts(c, r);
    Reassociate(stamp, PREFIX, Spaces(1) + j + Spaces(m));
  }

  lemma Reassociate(stamp: string, prefix: string, rest: string)
    ensures Stamped(stamp, prefix + rest) == stamp + " " + prefix + rest
  {
  }

  /** Splitting at the bars gives the printed fields, except that the first holds stamp and prefix too. */
  lemma {:induction false} StampedPrinted(c: Codec, stamp: string, r: Request)
    requires c.Exact() && PlainRequest(r) && IsStamp(stamp)
    ensures Printed(c, r, StampedTime(c, stamp, r), Split(Joined(StampedParts(c, stamp, r)), '|'))
  {
    PartsClean(c, r);
    var t, time, ps := StampedTime(c, stamp, r), c.formatTime(r.time), StampedParts(c, stamp, r);
    assert t[0] == stamp[0] && t[|t| - 1] == time[|time| - 1];
    assert '|' !in PREFIX;
    assert forall i | 1 <= i < 6 :: ps[i] == PartsOf(c, r)[i];
    CoresOf(ps);
  }

  lemma {:induction false} StampedFound(c: Codec, stamp: string, r: Request)
    requires c.Exact() && PlainRequest(r) && IsStamp(stamp)
    ensures var j := Joined(StampedParts(c, stamp, r)); j != "" && Contains(j, PREFIX) && !(PREFIX <= j)
  {
    StampedJoined(c, stamp, r);
    var lead, rest := stamp + " ", PREFIX + (Spaces(1) + Joined(PartsOf(c, r)));
    assert Joined(StampedParts(c, stamp, r)) == lead + rest;
    PrefixedPayload(rest);
    IndexSkips(lead, rest, PREFIX);
    assert (lead + rest)[0] == stamp[0];
  }

  /** The logs handler keeps the same lines but takes stamp and prefix for a part of the time. */
  lemma {:induction false} StampedLogs(c: Codec, stamp: string, r: Request)
    requires c.Exact() && PlainRequest(r) && IsStamp(stamp)
    ensures ParseLine(c, Stamped(stamp, Line(c, r))) ==
            if IsExecution(r) then Some(StampedEntry(c, stamp, r)) else None
  {
    StampedTrimmed(c, stamp, r);
    StampedFound(c, stamp, r);
    StampedPrinted(c, stamp, r);
    var raw := Joined(StampedParts(c, stamp, r));
    PrintedParse(c, r, StampedTime(c, stamp, r), raw, Split(raw, '|'));
  }

  /** On such a line the parsers agree on path and user; the metrics parser returns the time, and the logs
      parser agrees on it only if it can read a time out of stamp, prefix and time together. */
  lemma StampedAgreement(c: Codec, stamp: string, r: Request)
    requires c.Exact() && PlainRequest(r) && IsExecution(r) && IsStamp(stamp)
    ensures var line := Stamped(stamp, Line(c, r));
            var record, entry := ParseGinExecutionLog(c, line), ParseLine(c, line);
            && record.Some? && entry.Some? && record.value.user == entry.value.user
            && ParseServiceFromPath(entry.value.path) == (record.value.service, record.value.kind)
            && record.value.time == r.time
            && (c.parseTime(entry.value.timestamp) == Some(r.time) <==>
                c.parseTime(StampedTime(c, stamp, r)) == Some(r.time))
  {
    SixParts(c, r);
    PrefixedPayload(Line(c, r));
    StampedMetrics(c, stamp, Line(c, r));
    MetricsRoundTrip(c, r);
    StampedLogs(c, stamp, r);
    var t := StampedTime(c, stamp, r);
    if c.parseTime(t).Some? {
      var n := c.parseTime(t).value;
      assert c.parseTime(c.formatTime(n)) == Some(n);
    }
  }

  // ---------- A whole log ----------

  /** What the middleware writes for a run of requests: one line each. */
  function Log(c: Codec, rs: seq<Request>): string {
    if rs == [] then "" else Line(c, rs[0]) + "\n" + Log(c, rs[1..])
  }

  function Executions(c: Codec, rs: seq<Request>): seq<Entry> {
    if rs == [] then []
    else (if IsExecution(rs[0]) then [EntryFor(c, rs[0])] else []) + Executions(c, rs[1..])
  }

  function Lines(c: Codec, rs: seq<Request>): seq<string> { seq(|rs|, i requires 0 <= i < |rs| => Line(c, rs[i])) }

  lemma {:induction false} NormalizeIdentity(s: string)
    requires '\r' !in s
    ensures Normalize(s) == s
  {
    if s != "" {
      assert s[0] in s && s == [s[0]] + s[1..];
      NormalizeIdentity(s[1..]);
    }
  }

  lemma {:induction false} NoBreakColumns(ps: seq<Part>)
    requires ps != [] && forall i | 0 <= i < |ps| :: '\n' !in ps[i].core && '\r' !in ps[i].core
    ensures '\n' !in Columns(ps) && '\r' !in Columns(ps)
  {
    if |ps| > 1 { NoBreakColumns(ps[1..]); }
  }

  lemma {:induction false} NoBreakLine(c: Codec, r: Request)
    requires c.Exact() && PlainRequest(r)
    ensures '\n' !in Line(c, r) && '\r' !in Line(c, r)
  {
    NoBreak(c.formatTime(r.time));
    NoBreak(c.showInt(r.status));
    NoBreak(r.latency);
    NoBreak(r.ip);
    NoBreak(r.verb);
    NoBreak(r.path);
    NoBreak(r.user);
    NoBreakColumns(ColumnsOf(c, r));
  }

  lemma NoBreak(s: string)
    requires Plain(s)
    ensures '\n' !in s && '\r' !in s
  {
  }

  lemma {:induction false} LogCons(line: string, rest: string)
    requires '\n' !in line && '\r' !in line && '\r' !in rest
    ensures '\r' !in line + "\n" + rest
    ensures Split(line + "\n" + rest, '\n') == [line] + Split(rest, '\n')
  {
    SplitAt(line, '\n', rest);
  }

  lemma LinesCons(c: Codec, rs: seq<Request>)
    requires rs != []
    ensures Lines(c, rs) == [Line(c, rs[0])] + Lines(c, rs[1..])
  {
  }

  lemma {:induction false} LogLines(c: Codec, rs: seq<Request>)
    requires c.Exact() && forall i | 0 <= i < |rs| :: PlainRequest(rs[i])
    ensures '\r' !in Log(c, rs)
    ensures Split(Log(c, rs), '\n') == Lines(c, rs) + [""]
  {
    if rs == [] {
      assert Lines(c, rs) + [""] == [""];
    } else {
      LogLines(c, rs[1..]);
      NoBreakLine(c, rs[0]);
      LogCons(Line(c, rs[0]), Log(c, rs[1..]));
      LinesCons(c, rs);
    }
  }

  lemma {:induction false} KeptCons(parse: string -> Option<Entry>, line: string, lines: seq<string>)
    ensures Kept(parse, [line] + lines) ==
            (if parse(line).Some? then [parse(line).value] else []) + Kept(parse, lines)
  {
    var all := [line] + lines;
    if lines == [] {
      assert all[..0] == [];
    } else {
      KeptCons(parse, line, lines[..|lines| - 1]);
      assert all[..|all| - 1] == [line] + lines[..|lines| - 1];
    }
  }

  lemma EmptyLineSkipped(c: Codec)
    ensures Kept(LineParser(c), [""]) == []
  {
  }

  lemma {:induction false} ParsedFirst(c: Codec, r: Request, lines: seq<string>)
    requires c.Exact() && PlainRequest(r)
    ensures Kept(LineParser(c), [Line(c, r)] + lines) ==
            (if IsExecution(r) then [EntryFor(c, r)] else []) + Kept(LineParser(c), lines)
  {
    LogsRoundTrip(c, r);
    KeptCons(LineParser(c), Line(c, r), lines);
  }

  lemma {:induction false} ParsedExecutions(c: Codec, rs: seq<Request>)
    requires c.Exact() && forall i | 0 <= i < |rs| :: PlainRequest(rs[i])
    ensures Kept(LineParser(c), Lines(c, rs) + [""]) == Executions(c, rs)
  {
    if rs == [] {
      assert Lines(c, rs) + [""] == [""];
      EmptyLineSkipped(c);
    } else {
      ParsedExecutions(c, rs[1..]);
      ParsedFirst(c, rs[0], Lines(c, rs[1..]) + [""]);
      LinesCons(c, rs);
      assert Lines(c, rs) + [""] == [Line(c, rs[0])] + (Lines(c, rs[1..]) + [""]);
    }
  }

  /** Parsing a whole log returns the executions among the requests, in order, field by field. */
  lemma {:induction false} LogRoundTrip(c: Codec, rs: seq<Request>)
    requires c.Exact() && forall i | 0 <= i < |rs| :: PlainRequest(rs[i])
    ensures Kept(LineParser(c), Split(Normalize(Log(c, rs)), '\n')) == Executions(c, rs)
  {
    LogLines(c, rs);
    NormalizeIdentity(Log(c, rs));
    ParsedExecutions(c, rs);
  }
}
