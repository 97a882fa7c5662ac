/** The command line between the manager and an engine: printing, line framing, splitting, parsing. */
module Command {
  import opened Options

  // ------------------------------------------------------------------ splitting

  predicate Free(t: string, d: char) {
    d !in t
  }

  predicate AllFree(ts: seq<string>, d: char) {
    forall i :: 0 <= i < |ts| ==> Free(ts[i], d)
  }

  /** How many characters come before the first delimiter. */
  function Upto(s: string, d: char): (i: nat)
    ensures i <= |s| && Free(s[..i], d) && (i < |s| ==> s[i] == d)
  {
    if s == "" || s[0] == d then 0
    else
      var i := 1 + Upto(s[1..], d);
      assert s[..i] == [s[0]] + s[1..][..i - 1];
      i
  }

  /** What a loop over std::getline yields: an empty rest yields no further token. */
  function Split(s: string, d: char): seq<string>
    decreases |s|
  {
    if s == "" then []
    else
      var i := Upto(s, d);
      if i == |s| then [s] else [s[..i]] + Split(s[i + 1..], d)
  }

  /** std::getline from position pos; it fails when nothing is left. */
  method GetLine(s: string, pos: nat, d: char) returns (ok: bool, token: string, next: nat)
    requires pos <= |s|
    ensures ok <==> pos < |s|
    ensures pos < |s| ==>
              var i := Upto(s[pos..], d);
              && token == s[pos..pos + i]
              && next == if pos + i < |s| then pos + i + 1 else |s|
    ensures ok ==> pos < next <= |s|
  {
    if pos == |s| {
      return false, "", pos;
    }
    var i := pos;
    while i < |s| && s[i] != d
      invariant pos <= i <= |s| && Free(s[pos..i], d)
    {
      i := i + 1;
    }
    UptoIs(s[pos..], d, i - pos);
    token := s[pos..i];
    next := if i < |s| then i + 1 else i;
    ok := true;
  }

  lemma {:induction false} UptoIs(s: string, d: char, i: nat)
    requires i <= |s| && Free(s[..i], d) && (i < |s| ==> s[i] == d)
    ensures Upto(s, d) == i
  {
    if s != "" && s[0] != d {
      assert i > 0;
      assert s[1..][..i - 1] == s[..i][1..];
      UptoIs(s[1..], d, i - 1);
    }
    assert i > 0 ==> s[..i][0] == s[0];
  }

  method StrSplit(str: string, delimiter: char) returns (tokens: seq<string>)
    ensures tokens == Split(str, delimiter)
  {
    tokens := [];
    var pos := 0;
    var ok, token, next := GetLine(str, pos, delimiter);
    while ok
      invariant pos <= |str| && (ok <==> pos < |str|)
      invariant ok ==>
        var i := Upto(str[pos..], delimiter);
        && token == str[pos..pos + i]
        && next == if pos + i < |str| then pos + i + 1 else |str|
      invariant ok ==> pos < next <= |str|
      invariant tokens + Split(str[pos..], delimiter) == Split(str, delimiter)
      decreases |str| - pos
    {
      SplitUnfold(str, pos, delimiter);
      Regroup(tokens, token, Split(str[next..], delimiter));
      tokens := tokens + [token];
      pos := next;
      ok, token, next := GetLine(str, pos, delimiter);
    }
  }

  lemma Regroup<T>(done: seq<T>, x: T, rest: seq<T>)
    ensures done + ([x] + rest) == done + [x] + rest
  {
  }

  lemma SplitUnfold(s: string, pos: nat, d: char)
    requires pos < |s|
    ensures var i := Upto(s[pos..], d);
            var next := if pos + i < |s| then pos + i + 1 else |s|;
            pos + i <= |s| && Split(s[pos..], d) == [s[pos..pos + i]] + Split(s[next..], d)
  {
    hide Upto, Free;
    var i := Upto(s[pos..], d);
    assert s[pos..][..i] == s[pos..pos + i];
    if pos + i < |s| {
      assert s[pos..][i + 1..] == s[pos + i + 1..];
    } else {
      assert s[|s|..] == "" && s[pos..pos + i] == s[pos..];
    }
  }

  // ------------------------------------------------------------------ joining and splitting back

  /** Tokens with one delimiter between them. */
  function Join(ts: seq<string>, d: char): string {
    if ts == [] then ""
    else if |ts| == 1 then ts[0]
    else ts[0] + [d] + Join(ts[1..], d)
  }

  lemma SplitHead(t: string, d: char, rest: string)
    requires Free(t, d)
    ensures Split(t + [d] + rest, d) == [t] + Split(rest, d)
  {
    var s := t + [d] + rest;
    assert s[..|t|] == t && s[|t|] == d && s[|t| + 1..] == rest;
    UptoIs(s, d, |t|);
  }

  lemma SplitWhole(t: string, d: char)
    requires Free(t, d) && t != ""
    ensures Split(t, d) == [t]
  {
    assert t[..|t|] == t;
    UptoIs(t, d, |t|);
  }

  lemma {:induction false} SplitIsFree(s: string, d: char)
    ensures AllFree(Split(s, d), d)
    decreases |s|
  {
    if s != "" {
      var i := Upto(s, d);
      if i == |s| {
        assert s[..i] == s;
      } else {
        SplitIsFree(s[i + 1..], d);
      }
    }
  }

  /** Tokens free of the delimiter come back, except an empty last one, which is lost. */
  lemma {:induction false} SplitJoin(ts: seq<string>, d: char)
    requires AllFree(ts, d)
    ensures Split(Join(ts, d), d)
            == if ts != [] && ts[|ts| - 1] == "" then ts[..|ts| - 1] else ts
  {
    hide Upto, Free;
    if |ts| == 1 {
      if ts[0] != "" {
        SplitWhole(ts[0], d);
      }
    } else if |ts| > 1 {
      SplitJoin(ts[1..], d);
      SplitHead(ts[0], d, Join(ts[1..], d));
      assert ts == [ts[0]] + ts[1..];
      assert ts[..|ts| - 1] == [ts[0]] + ts[1..][..|ts| - 2];
    }
  }

  /** Splitting a joined line returns the same tokens exactly when none contains the delimiter and
      the last is not empty. */
  lemma SplitJoinExact(ts: seq<string>, d: char)
    ensures Split(Join(ts, d), d) == ts
            <==> AllFree(ts, d) && (ts != [] ==> ts[|ts| - 1] != "")
  {
    SplitIsFree(Join(ts, d), d);
    if AllFree(ts, d) {
      SplitJoin(ts, d);
    }
  }

  // ------------------------------------------------------------------ lines

  /** What SendCommand writes over time: each command and a newline. */
  function Stream(cmds: seq<string>): string {
    if cmds == [] then "" else cmds[0] + ['\n'] + Stream(cmds[1..])
  }

  lemma {:induction false} LinesComeBack(cmds: seq<string>)
    requires AllFree(cmds, '\n')
    ensures Split(Stream(cmds), '\n') == cmds
  {
    if cmds != [] {
      LinesComeBack(cmds[1..]);
      SplitHead(cmds[0], '\n', Stream(cmds[1..]));
    }
  }

  /** The engine reads back the command lines exactly when no command contains a newline. */
  lemma LinesExact(cmds: seq<string>)
    ensures Split(Stream(cmds), '\n') == cmds <==> AllFree(cmds, '\n')
  {
    SplitIsFree(Stream(cmds), '\n');
    if AllFree(cmds, '\n') {
      LinesComeBack(cmds);
    }
  }

  // ------------------------------------------------------------------ parsing

  const VALID_COMMANDS: seq<string> :=
    ["EXIT", "START", "STOP", "WORKER", "RECORDING", "NORECORDING", "PROBE"]

  /** A command name and its arguments; the empty name is no valid command. */
  datatype Parsed = Parsed(name: string, args: seq<string>)

  function Parse(line: string): Parsed {
    var tokens := Split(line, ' ');
    if tokens != [] && tokens[0] in VALID_COMMANDS then Parsed(tokens[0], tokens[1..])
    else Parsed("", [])
  }

  method ParseCommand(line: string) returns (c: Parsed)
    ensures c == Parse(line)
  {
    var tokens := StrSplit(line, ' ');
    if tokens != [] {
      var name := tokens[0];
      var i := 0;
      while i < |VALID_COMMANDS|
        invariant 0 <= i <= |VALID_COMMANDS|
        invariant forall j :: 0 <= j < i ==> VALID_COMMANDS[j] != name
      {
        if name == VALID_COMMANDS[i] {
          return Parsed(name, tokens[1..]);
        }
        i := i + 1;
      }
    }
    return Parsed("", []);
  }

  // ------------------------------------------------------------------ numbers

  function Digit(n: nat): (c: char)
    requires n < 10
    ensures '0' <= c <= '9' && c as int - '0' as int == n
  {
    '0' + n as char
  }

  predicate IsDigit(c: char) {
    '0' <= c <= '9'
  }

  predicate Digits(s: string) {
    forall i :: 0 <= i < |s| ==> IsDigit(s[i])
  }

  function Natural(n: nat): (s: string)
    ensures |s| > 0 && Digits(s)
    decreases n
  {
    if n < 10 then [Digit(n)] else Natural(n / 10) + [Digit(n % 10)]
  }

  /** %d */
  function Decimal(n: int): (s: string)
    ensures |s| > 0
  {
    if n < 0 then "-" + Natural(-n) else Natural(n)
  }

  function Value(s: string): nat
    requires Digits(s)
  {
    if s == "" then 0
    else 10 * Value(s[..|s| - 1]) + (s[|s| - 1] as int - '0' as int)
  }

  lemma {:induction false} NaturalRoundTrip(n: nat)
    ensures Value(Natural(n)) == n
  {
    var s := Natural(n);
    if n >= 10 {
      NaturalRoundTrip(n / 10);
      assert s[..|s| - 1] == Natural(n / 10);
    } else {
      assert s[..|s| - 1] == "";
    }
  }

  /** The digits a string starts with. */
  function Leading(s: string): (i: nat)
    ensures i <= |s| && Digits(s[..i]) && (i < |s| ==> !IsDigit(s[i]))
  {
    if s == "" || !IsDigit(s[0]) then 0
    else
      var i := 1 + Leading(s[1..]);
      assert s[..i] == [s[0]] + s[1..][..i - 1];
      i
  }

  /** std::stoi: an optional minus, the leading digits, what follows ignored; it throws without
      digits or beyond 32 bits. */
  function Stoi(s: string): Option<int> {
    var neg := s != "" && s[0] == '-';
    var rest := if neg then s[1..] else s;
    Ranged(neg, rest[..Leading(rest)])
  }

  function Ranged(neg: bool, digits: string): Option<int>
    requires Digits(digits)
  {
    if digits == "" then None
    else
      var n: int := Value(digits);
      var v := if neg then -n else n;
      if -0x8000_0000 <= v < 0x8000_0000 then Some(v) else None
  }

  lemma StoiDecimal(n: int)
    ensures Stoi(Decimal(n)) == if -0x8000_0000 <= n < 0x8000_0000 then Some(n) else None
  {
    hide Natural;
    var s := Decimal(n);
    var digits := Natural(if n < 0 then -n else n);
    NaturalRoundTrip(if n < 0 then -n else n);
    AllLeading(digits);
    assert digits[..|digits|] == digits;
    if n < 0 {
      assert s[1..] == digits;
    } else {
      assert IsDigit(s[0]);
    }
  }

  /** What follows the number is ignored. */
  lemma StoiPrefix(n: int, rest: string)
    requires rest != "" ==> !IsDigit(rest[0])
    ensures Stoi(Decimal(n) + rest) == Stoi(Decimal(n))
  {
    hide Ranged;
    var digits := Natural(if n < 0 then -n else n);
    LeadingPart(digits, rest);
    LeadingPart(digits, "");
    assert digits + "" == digits;
    hide Leading, Natural;
    if n < 0 {
      var s := "-" + digits;
      assert s[1..] == digits && (s + rest)[1..] == digits + rest;
    } else {
      assert IsDigit(digits[0]) && (digits + rest)[0] == digits[0];
    }
  }

  lemma LeadingPart(digits: string, rest: string)
    requires Digits(digits) && (rest != "" ==> !IsDigit(rest[0]))
    ensures (digits + rest)[..Leading(digits + rest)] == digits
  {
    LeadingOf(digits, rest);
  }

  lemma {:induction false} LeadingOf(digits: string, rest: string)
    requires Digits(digits) && (rest != "" ==> !IsDigit(rest[0]))
    ensures Leading(digits + rest) == |digits|
  {
    if digits == "" {
      assert digits + rest == rest;
    } else {
      LeadingOf(digits[1..], rest);
      assert (digits + rest)[1..] == digits[1..] + rest;
    }
  }

  lemma {:induction false} AllLeading(s: string)
    requires Digits(s)
    ensures Leading(s) == |s|
  {
    if s != "" {
      AllLeading(s[1..]);
    }
  }

  lemma DecimalIsFree(n: int)
    ensures Free(Decimal(n), ' ')
  {
    var digits := Natural(if n < 0 then -n else n);
    assert forall i :: 0 <= i < |digits| ==> IsDigit(digits[i]);
    var s := Decimal(n);
    forall i | 0 <= i < |s|
      ensures s[i] != ' '
    {
      if n >= 0 || i > 0 {
        assert s[i] == digits[if n < 0 then i - 1 else i];
      }
    }
  }

  // ------------------------------------------------------------------ the commands themselves

  function Bool(b: bool): string {
    if b then "true" else "false"
  }

  datatype StartArgs = StartArgs(cam: int, profile: string, url: string, recording: bool)

  /** StartStreamProfile's command line. */
  function PrintStart(a: StartArgs): string {
    Join(["START", Decimal(a.cam), a.profile, a.url, Bool(a.recording)], ' ')
  }

  /** The engine's START case: the first four arguments. */
  function ReadStart(c: Parsed): Option<StartArgs> {
    if c.name == "START" && |c.args| >= 4 && Stoi(c.args[0]).Some? then
      Some(StartArgs(Stoi(c.args[0]).value, c.args[1], c.args[2],
                     c.args[3] == "true" || c.args[3] == "1"))
    else None
  }

  predicate Int32(n: int) {
    -0x8000_0000 <= n < 0x8000_0000
  }

  lemma StartTokens(a: StartArgs)
    requires Free(a.profile, ' ') && Free(a.url, ' ')
    ensures Parse(PrintStart(a))
            == Parsed("START", [Decimal(a.cam), a.profile, a.url, Bool(a.recording)])
  {
    var ts := ["START", Decimal(a.cam), a.profile, a.url, Bool(a.recording)];
    DecimalIsFree(a.cam);
    assert AllFree(ts, ' ');
    SplitJoin(ts, ' ');
    assert VALID_COMMANDS[1] == "START";
    assert ts[1..] == [Decimal(a.cam), a.profile, a.url, Bool(a.recording)];
  }

  /** A printed START is read back with all four fields exactly when profile and URL contain no
      space and the camera number fits 32 bits. */
  lemma StartRoundTrip(a: StartArgs)
    ensures ReadStart(Parse(PrintStart(a))) == Some(a)
            <==> Free(a.profile, ' ') && Free(a.url, ' ') && Int32(a.cam)
  {
    StoiDecimal(a.cam);
    SplitIsFree(PrintStart(a), ' ');
    if Free(a.profile, ' ') && Free(a.url, ' ') {
      StartTokens(a);
    }
  }

  lemma ParseJoined(ts: seq<string>)
    requires ts != [] && AllFree(ts, ' ') && ts[|ts| - 1] != ""
    ensures Parse(Join(ts, ' '))
            == if ts[0] in VALID_COMMANDS then Parsed(ts[0], ts[1..]) else Parsed("", [])
  {
    SplitJoin(ts, ' ');
  }

  /** WORKER, with the worker's number. */
  function PrintWorker(id: int): string {
    Join(["WORKER", Decimal(id)], ' ')
  }

  lemma WorkerRoundTrip(id: int)
    ensures Parse(PrintWorker(id)) == Parsed("WORKER", [Decimal(id)])
  {
    var ts := ["WORKER", Decimal(id)];
    DecimalIsFree(id);
    assert VALID_COMMANDS[3] == "WORKER";
    ParseJoined(ts);
    assert ts[1..] == [Decimal(id)];
  }

  /** PROBE, with a camera, a profile and the stream's URL. */
  function PrintProbe(cam: int, profile: string, url: string): string {
    Join(["PROBE", Decimal(cam), profile, url], ' ')
  }

  lemma ProbeRoundTrip(cam: int, profile: string, url: string)
    ensures Parse(PrintProbe(cam, profile, url)) == Parsed("PROBE", [Decimal(cam), profile, url])
            <==> Free(profile, ' ') && Free(url, ' ') && url != ""
  {
    var ts := ["PROBE", Decimal(cam), profile, url];
    SplitJoinExact(ts, ' ');
    DecimalIsFree(cam);
    assert VALID_COMMANDS[6] == "PROBE";
    assert ts == [ts[0]] + ts[1..];
    assert ts[1..] == [Decimal(cam), profile, url];
    if AllFree(ts, ' ') {
      assert Free(ts[2], ' ') && Free(ts[3], ' ');
    }
    ParsedTokens(PrintProbe(cam, profile, url), ts);
  }

  /** A line is parsed into given tokens exactly when it splits into them and the first is valid. */
  lemma ParsedTokens(line: string, ts: seq<string>)
    requires ts != [] && ts[0] in VALID_COMMANDS && ts[0] != ""
    ensures Parse(line) == Parsed(ts[0], ts[1..]) <==> Split(line, ' ') == ts
  {
    var tokens := Split(line, ' ');
    if Parse(line) == Parsed(ts[0], ts[1..]) {
      assert tokens == [tokens[0]] + tokens[1..];
      assert ts == [ts[0]] + ts[1..];
    }
  }

  /** EXIT has no arguments. */
  lemma ExitIsRead()
    ensures Parse("EXIT") == Parsed("EXIT", [])
  {
    assert VALID_COMMANDS[0] == "EXIT";
    ParseJoined(["EXIT"]);
  }

  /** Nothing else is taken for a command. */
  lemma OnlyKnownCommands(line: string)
    ensures Parse(line).name
            in {"", "EXIT", "START", "STOP", "WORKER", "RECORDING", "NORECORDING", "PROBE"}
    ensures Parse(line).name == "" ==> Parse(line).args == []
  {
    var tokens := Split(line, ' ');
    if tokens != [] && tokens[0] in VALID_COMMANDS {
      var i :| 0 <= i < |VALID_COMMANDS| && VALID_COMMANDS[i] == tokens[0];
    }
  }

  /** The line as it goes down the pipe. */
  lemma StartLine(profile: string, url: string, recording: bool)
    ensures PrintStart(StartArgs(7, profile, url, recording))
            == "START" + [' '] + ("7" + [' '] + (profile + [' '] + (url + [' '] + if recording then "true" else "false")))
  {
    var flag := if recording then "true" else "false";
    assert Decimal(7) == "7";
    JoinHead(url, [flag]);
    JoinHead(profile, [url, flag]);
    JoinHead("7", [profile, url, flag]);
    JoinHead("START", ["7", profile, url, flag]);
    assert Join([flag], ' ') == flag;
    assert ["START"] + (["7"] + ([profile] + ([url] + [flag]))) == ["START", "7", profile, url, flag];
    hide Join, Decimal;
  }

  lemma JoinHead(t: string, rest: seq<string>)
    requires rest != []
    ensures Join([t] + rest, ' ') == t + [' '] + Join(rest, ' ')
  {
    assert ([t] + rest)[1..] == rest;
  }

  /** Whatever stands in the place of the recording flag, only true and 1 turn recording on. */
  lemma RecordingFlag(a: StartArgs, flag: string)
    requires Free(a.profile, ' ') && Free(a.url, ' ') && Free(flag, ' ') && flag != "" && Int32(a.cam)
    ensures ReadStart(Parse(Join(["START", Decimal(a.cam), a.profile, a.url, flag], ' ')))
            == Some(a.(recording := flag in {"true", "1"}))
  {
    var ts := ["START", Decimal(a.cam), a.profile, a.url, flag];
    DecimalIsFree(a.cam);
    StoiDecimal(a.cam);
    assert VALID_COMMANDS[1] == "START";
    ParseJoined(ts);
    assert ts[1..] == [Decimal(a.cam), a.profile, a.url, flag];
  }

  /** STOP, RECORDING and NORECORDING: a camera and a profile. */
  function PrintCamCommand(name: string, cam: int, profile: string): string {
    Join([name, Decimal(cam), profile], ' ')
  }

  function ReadCamCommand(c: Parsed): Option<(int, string)> {
    if |c.args| >= 2 && Stoi(c.args[0]).Some? then Some((Stoi(c.args[0]).value, c.args[1]))
    else None
  }

  /** They come back exactly when the profile is not empty and has no space, and the number fits. */
  lemma CamCommandRoundTrip(name: string, cam: int, profile: string)
    requires name in ["STOP", "RECORDING", "NORECORDING"]
    ensures var c := Parse(PrintCamCommand(name, cam, profile));
            c.name == name && ReadCamCommand(c) == Some((cam, profile))
            <==> Free(profile, ' ') && profile != "" && Int32(cam)
  {
    hide Split, Stoi;
    var ts := [name, Decimal(cam), profile];
    StoiDecimal(cam);
    DecimalIsFree(cam);
    SplitIsFree(PrintCamCommand(name, cam, profile), ' ');
    assert VALID_COMMANDS[2] == "STOP" && VALID_COMMANDS[4] == "RECORDING"
        && VALID_COMMANDS[5] == "NORECORDING";
    if Free(profile, ' ') {
      assert AllFree(ts, ' ');
      SplitJoin(ts, ' ');
      assert ts[1..] == [Decimal(cam), profile];
      assert ts[..2] == [name, Decimal(cam)];
    }
  }
}
