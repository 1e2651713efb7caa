/** The text of the gateway configuration, read back: lines, tabs, and words with quoted phrases whole. */
module TlsText {
  import opened Printing
  import opened TlsGateway

  // ----- Reading -----

  /** The word at the front: up to a space outside quotes. */
  function WordAtFront(s: string, inside: bool): (w: string)
    ensures |w| <= |s| && w == s[..|w|]
  {
    if s == "" || (s[0] == ' ' && !inside) then ""
    else
      var rest := WordAtFront(s[1..], if s[0] == '"' then !inside else inside);
      assert s == [s[0]] + s[1..];
      [s[0]] + rest
  }

  function ReadWords(s: string): seq<string>
    decreases |s|
  {
    if s == "" then []
    else
      var word := WordAtFront(s, false);
      [word] + if |word| == |s| then [] else ReadWords(s[|word| + 1..])
  }

  function LeadingTabs(s: string): (n: nat)
    ensures n <= |s|
  {
    if s != "" && s[0] == '\t' then 1 + LeadingTabs(s[1..]) else 0
  }

  function ReadLine(s: string): Line {
    Line(LeadingTabs(s), ReadWords(s[LeadingTabs(s)..]))
  }

  function ReadLines(rows: seq<string>): seq<Line> {
    if |rows| <= 1 then [] else [ReadLine(rows[0])] + ReadLines(rows[1..])
  }

  /** Every row of the text that ends in a line feed. */
  function ReadText(text: string): seq<Line> {
    ReadLines(SplitAt(text, '\n'))
  }

  // ----- Words that are read back -----

  /** No space outside quotes, and all quotes closed. */
  predicate IsWhole(w: string, inside: bool) {
    if w == "" then !inside
    else (w[0] == ' ' ==> inside) && IsWhole(w[1..], if w[0] == '"' then !inside else inside)
  }

  predicate IsProper(w: string) {
    w != "" && IsWhole(w, false) && '\n' !in w && w[0] != '\t'
  }

  predicate AreProper(words: seq<string>) {
    forall i :: 0 <= i < |words| ==> IsProper(words[i])
  }

  lemma {:induction false} WholeIsTaken(w: string, rest: string, inside: bool)
    requires IsWhole(w, inside) && (rest != "" ==> rest[0] == ' ')
    ensures WordAtFront(w + rest, inside) == w
  {
    if w == "" {
      assert w + rest == rest;
    } else {
      assert (w + rest)[1..] == w[1..] + rest;
      WholeIsTaken(w[1..], rest, if w[0] == '"' then !inside else inside);
      assert w == [w[0]] + w[1..];
    }
  }

  lemma {:induction false} WordsAreReadBack(words: seq<string>)
    requires AreProper(words)
    ensures ReadWords(Join(words, ' ')) == words
  {
    hide IsWhole;
    if |words| == 1 {
      WholeIsTaken(words[0], "", false);
      assert words[0] + "" == words[0];
    } else if words != [] {
      var tail := Join(words[1..], ' ');
      var s := words[0] + [' '] + tail;
      WholeIsTaken(words[0], [' '] + tail, false);
      assert s == words[0] + ([' '] + tail);
      assert s[|words[0]| + 1..] == tail;
      WordsAreReadBack(words[1..]);
    }
  }

  lemma {:induction false} TabsAreCounted(n: nat, rest: string)
    requires rest != "" ==> rest[0] != '\t'
    ensures LeadingTabs(Tabs(n) + rest) == n && (Tabs(n) + rest)[n..] == rest
  {
    if n > 0 {
      assert Tabs(n) + rest == ['\t'] + (Tabs(n - 1) + rest);
      TabsAreCounted(n - 1, rest);
    }
  }

  lemma {:induction false} JoinedIsOneRow(words: seq<string>)
    requires AreProper(words)
    ensures '\n' !in Join(words, ' ')
    ensures Join(words, ' ') != "" ==> Join(words, ' ')[0] != '\t'
  {
    if |words| > 1 { JoinedIsOneRow(words[1..]); }
  }

  predicate LinesAreProper(lines: seq<Line>) {
    forall i :: 0 <= i < |lines| ==> AreProper(lines[i].words)
  }

  /** A line's text, without the line feed. */
  function Row(line: Line): string {
    Tabs(line.indent) + Join(line.words, ' ')
  }

  lemma RowIsRead(line: Line)
    requires AreProper(line.words)
    ensures ReadLine(Row(line)) == line && '\n' !in Row(line)
  {
    hide IsProper;
    JoinedIsOneRow(line.words);
    TabsAreCounted(line.indent, Join(line.words, ' '));
    TabsOnly(line.indent);
    WordsAreReadBack(line.words);
  }

  lemma {:induction false} TabsOnly(n: nat)
    ensures '\n' !in Tabs(n)
  {
    if n > 0 { TabsOnly(n - 1); }
  }

  lemma RowInFront(lines: seq<Line>)
    requires lines != []
    ensures Text(lines) == Row(lines[0]) + ['\n'] + Text(lines[1..])
  {}

  lemma ReadFromRow(row: string, rows: seq<string>)
    requires rows != []
    ensures ReadLines([row] + rows) == [ReadLine(row)] + ReadLines(rows)
  {
    hide ReadLine;
    assert ([row] + rows)[1..] == rows;
  }

  lemma NothingIsRead()
    ensures ReadText(Text([])) == []
  {}

  lemma SplitIsSome(s: string, separator: char)
    ensures SplitAt(s, separator) != []
  {}

  /** The text of proper lines is read back as these lines. */
  lemma {:induction false} TextIsReadBack(lines: seq<Line>)
    requires LinesAreProper(lines)
    ensures ReadText(Text(lines)) == lines
  {
    hide AreProper, Row, ReadLine, Text, SplitAt, ReadLines;
    if lines == [] {
      NothingIsRead();
    } else {
      var row, tail := Row(lines[0]), Text(lines[1..]);
      RowIsRead(lines[0]);
      RowInFront(lines);
      SplitOfOne(row, tail, '\n');
      SplitIsSome(tail, '\n');
      ReadFromRow(row, SplitAt(tail, '\n'));
      TextIsReadBack(lines[1..]);
      assert lines == [lines[0]] + lines[1..];
    }
  }

  // ----- The lines of the configuration -----

  predicate IsOneWord(w: string) {
    w != "" && ' ' !in w && '\n' !in w && '\t' !in w && '"' !in w
  }

  /** What the inputs are checked for before: names, addresses and ranges in one word, which is no brace. */
  predicate IsPlain(w: string) {
    IsOneWord(w) && w != "{" && w != "}"
  }

  lemma {:induction false} NoBlanksIsWhole(w: string)
    requires ' ' !in w && '"' !in w
    ensures IsWhole(w, false)
  {
    if w != "" {
      assert w[0] in w && forall c :: c in w[1..] ==> c in w;
      NoBlanksIsWhole(w[1..]);
    }
  }

  lemma PlainIsProper(w: string)
    requires IsOneWord(w)
    ensures IsProper(w)
  {
    NoBlanksIsWhole(w);
    assert w[0] in w;
  }

  lemma {:induction false} QuotedIsWhole(inner: string)
    requires '"' !in inner
    ensures IsWhole(inner + "\"", true)
  {
    if inner == "" {
      assert inner + "\"" == "\"" && "\""[1..] == "";
    } else {
      assert inner[0] in inner && forall c :: c in inner[1..] ==> c in inner;
      assert (inner + "\"")[1..] == inner[1..] + "\"";
      QuotedIsWhole(inner[1..]);
    }
  }

  lemma PhraseIsProper(inner: string)
    requires '"' !in inner && '\n' !in inner
    ensures IsProper(Quoted(inner))
  {
    var w := Quoted(inner);
    QuotedIsWhole(inner);
    assert w[1..] == inner + "\"";
  }

  lemma RefusalIsProper()
    ensures IsProper(FORBIDDEN)
  {
    hide IsProper, IsWhole, Quoted;
    PhraseIsProper("Forbidden: your address is not permitted.");
  }

  lemma ApologyIsProper()
    ensures IsProper(NO_CLUSTER)
  {
    hide IsProper, IsWhole, Quoted;
    PhraseIsProper("No running cluster for this hostname.");
  }

  predicate RoutesArePlain(routes: seq<Route>) {
    forall i :: 0 <= i < |routes| ==> IsPlain(routes[i].host) && IsPlain(routes[i].upstream)
  }

  lemma DigitsArePlain(index: nat)
    ensures IsOneWord(Matcher(index))
  {
    assert forall c :: c in Digits(index) ==> '0' <= c <= '9';
  }

  lemma {:induction false} RouteLinesAreProper(sorted: seq<Route>, from: nat)
    requires from <= |sorted| && RoutesArePlain(sorted)
    ensures LinesAreProper(RouteLines(sorted, from))
    decreases |sorted| - from
  {
    hide IsProper, IsOneWord, Matcher;
    if from < |sorted| {
      DigitsArePlain(from);
      HostLinesAreProper(Matcher(from), sorted[from].host, sorted[from].upstream);
      RouteLinesAreProper(sorted, from + 1);
    }
  }

  lemma HostLinesAreProper(name: string, at: string, upstream: string)
    requires IsOneWord(name) && IsOneWord(at) && IsOneWord(upstream)
    ensures LinesAreProper(HostLines(name, at, upstream))
  {
    WordsOfAHost();
    hide IsOneWord, IsProper;
    PlainAreProper([name, "host", at]);
    PlainAreProper(["reverse_proxy", name, upstream]);
  }

  lemma WordsOfAHost()
    ensures IsOneWord("host") && IsOneWord("reverse_proxy")
  {}

  lemma {:induction false} PlainAreProper(words: seq<string>)
    requires forall i :: 0 <= i < |words| ==> IsOneWord(words[i])
    ensures AreProper(words)
  {
    hide IsOneWord, IsProper;
    forall i | 0 <= i < |words| ensures IsProper(words[i]) { PlainIsProper(words[i]); }
  }

  lemma BlockIsProper(base: string, cidrs: seq<string>, routes: seq<Route>, controlPlane: string)
    requires IsMap(routes) && RoutesArePlain(routes) && IsPlain(base) && IsPlain(controlPlane)
    requires forall i :: 0 <= i < |cidrs| ==> IsPlain(cidrs[i])
    ensures LinesAreProper(RouteBlock(base, cidrs, routes, controlPlane))
  {
    SortedIsPlain(routes);
    hide IsOneWord, IsProper, Sorted, HostLines, RouteLines;
    RouteLinesAreProper(Sorted(routes), 0);
    WordsOfTheBlock();
    HostLinesAreProper("@ui", base, controlPlane);
    GateIsProper(cidrs);
    FallbackIsProper();
    hide GateLines, LinesAreProper, NO_CLUSTER, HasHost;
    var gate, routing, home := GateLines(cidrs), RouteLines(Sorted(routes), 0), HomeLines(base, routes, controlPlane);
    assert LinesAreProper(home) by { NoLinesAreProper(); }
    BothAreProper(gate, routing);
    BothAreProper(gate + routing, home);
    BothAreProper(gate + routing + home, [Line(2, ["respond", NO_CLUSTER, "503"])]);
  }

  lemma NoLinesAreProper()
    ensures LinesAreProper([])
  {}

  lemma BothAreProper(a: seq<Line>, b: seq<Line>)
    requires LinesAreProper(a) && LinesAreProper(b)
    ensures LinesAreProper(a + b)
  {
    hide AreProper;
  }

  lemma GateIsProper(cidrs: seq<string>)
    requires forall i :: 0 <= i < |cidrs| ==> IsOneWord(cidrs[i])
    ensures LinesAreProper(GateLines(cidrs))
  {
    WordsOfTheGate();
    RefusalIsProper();
    hide IsOneWord, IsProper, FORBIDDEN;
    PlainAreProper(["@blocked", "not", "remote_ip"] + cidrs);
    PlainAreProper(["respond", "@blocked"]);
    PlainAreProper(["403"]);
    var words := ["respond", "@blocked"] + [FORBIDDEN] + ["403"];
    assert words == ["respond", "@blocked", FORBIDDEN, "403"];
    assert AreProper(words);
  }

  lemma FallbackIsProper()
    ensures LinesAreProper([Line(2, ["respond", NO_CLUSTER, "503"])])
  {
    WordsOfTheBlock();
    ApologyIsProper();
    hide IsOneWord, IsProper, NO_CLUSTER;
    PlainIsProper("respond");
    PlainIsProper("503");
  }

  lemma WordsOfTheGate()
    ensures IsOneWord("@blocked") && IsOneWord("not") && IsOneWord("remote_ip")
    ensures IsOneWord("respond") && IsOneWord("403")
  {}

  lemma WordsOfTheBlock()
    ensures IsOneWord("@ui") && IsOneWord("respond") && IsOneWord("503")
  {}

  // ----- The route block -----

  /** A line that ends in an opening brace. */
  predicate Opens(line: Line) {
    line.words != [] && line.words[|line.words| - 1] == "{"
  }

  predicate Closes(line: Line) {
    line.words == ["}"]
  }

  function BehindLine(lines: seq<Line>, words: seq<string>): seq<Line> {
    if lines == [] then [] else if lines[0].words == words then lines[1..] else BehindLine(lines[1..], words)
  }

  /** The lines up to the brace that closes the block they are in, `depth` blocks further in. */
  function UpToBrace(lines: seq<Line>, depth: nat): seq<Line> {
    if lines == [] then []
    else if Closes(lines[0]) then
      if depth == 0 then [] else [lines[0]] + UpToBrace(lines[1..], depth - 1)
    else [lines[0]] + UpToBrace(lines[1..], if Opens(lines[0]) then depth + 1 else depth)
  }

  /** What is between the braces that the first line with these words opens. */
  function BlockOf(lines: seq<Line>, opening: seq<string>): seq<Line> {
    UpToBrace(BehindLine(lines, opening), 0)
  }

  predicate AreFlat(lines: seq<Line>) {
    forall i :: 0 <= i < |lines| ==> !Opens(lines[i]) && !Closes(lines[i])
  }

  lemma {:induction false} FlatUpToBrace(lines: seq<Line>, rest: seq<Line>)
    requires AreFlat(lines) && rest != [] && Closes(rest[0])
    ensures UpToBrace(lines + rest, 0) == lines
  {
    hide Opens, Closes;
    if lines == [] {
      assert lines + rest == rest;
    } else {
      assert (lines + rest)[1..] == lines[1..] + rest;
      FlatUpToBrace(lines[1..], rest);
    }
  }

  lemma FlatHost(name: string, at: string, upstream: string)
    requires IsPlain(at) && IsPlain(upstream)
    ensures AreFlat(HostLines(name, at, upstream))
  {}

  lemma BothAreFlat(a: seq<Line>, b: seq<Line>)
    requires AreFlat(a) && AreFlat(b)
    ensures AreFlat(a + b)
  {
    hide Opens, Closes;
  }

  lemma {:induction false} FlatRoutes(sorted: seq<Route>, from: nat)
    requires from <= |sorted| && RoutesArePlain(sorted)
    ensures AreFlat(RouteLines(sorted, from))
    decreases |sorted| - from
  {
    hide IsPlain, Matcher, AreFlat, HostLines;
    if from < |sorted| {
      FlatHost(Matcher(from), sorted[from].host, sorted[from].upstream);
      FlatRoutes(sorted, from + 1);
      BothAreFlat(HostLines(Matcher(from), sorted[from].host, sorted[from].upstream), RouteLines(sorted, from + 1));
    } else {
      FlatNothing();
    }
  }

  lemma FlatNothing()
    ensures AreFlat([])
  {}

  lemma FlatGate(cidrs: seq<string>)
    requires forall i :: 0 <= i < |cidrs| ==> IsPlain(cidrs[i])
    ensures AreFlat(GateLines(cidrs))
  {
    hide IsOneWord;
    var words := ["@blocked", "not", "remote_ip"] + cidrs;
    assert cidrs != [] ==> words[|words| - 1] == cidrs[|cidrs| - 1];
  }

  lemma FlatBlock(base: string, cidrs: seq<string>, routes: seq<Route>, controlPlane: string)
    requires IsMap(routes) && RoutesArePlain(routes) && IsPlain(base) && IsPlain(controlPlane)
    requires forall i :: 0 <= i < |cidrs| ==> IsPlain(cidrs[i])
    ensures AreFlat(RouteBlock(base, cidrs, routes, controlPlane))
  {
    SortedIsPlain(routes);
    var last := [Line(2, ["respond", NO_CLUSTER, "503"])];
    assert AreFlat(last);
    hide IsPlain, Sorted, HostLines, RouteLines, AreFlat, GateLines, HasHost;
    var gate, routing, home := GateLines(cidrs), RouteLines(Sorted(routes), 0), HomeLines(base, routes, controlPlane);
    FlatRoutes(Sorted(routes), 0);
    FlatHost("@ui", base, controlPlane);
    FlatGate(cidrs);
    FlatNothing();
    BothAreFlat(gate, routing);
    BothAreFlat(gate + routing, home);
    BothAreFlat(gate + routing + home, last);
  }

  lemma SortedIsPlain(routes: seq<Route>)
    requires IsMap(routes) && RoutesArePlain(routes)
    ensures RoutesArePlain(Sorted(routes))
  {
    SortedIsSorted(routes);
    hide IsPlain, Sorted;
    forall i | 0 <= i < |Sorted(routes)|
      ensures IsPlain(Sorted(routes)[i].host) && IsPlain(Sorted(routes)[i].upstream)
    {
      assert Sorted(routes)[i] in routes;
    }
  }

  /** The preamble ends where the route block begins. */
  lemma RouteBegins(base: string, routes: seq<Route>, askUrl: string, adminAddr: string, rest: seq<Line>)
    ensures BehindLine(Preamble(base, routes, askUrl, adminAddr) + rest, ["route", "{"]) == rest
  {
    var preamble := Preamble(base, routes, askUrl, adminAddr);
    SiteNamesAre(base, routes);
    var sites := Listed(SiteNames(base, routes)) + ["{"];
    assert |sites| > 2;
    forall i | 0 <= i < 14 ensures preamble[i].words != ["route", "{"] {}
    hide Preamble, Listed, SiteNames;
    assert preamble[14].words == ["route", "{"] && |preamble| == 15;
    BehindSkips(preamble, rest, 0);
  }

  lemma {:induction false} BehindSkips(preamble: seq<Line>, rest: seq<Line>, k: nat)
    requires k < |preamble| && preamble[|preamble| - 1].words == ["route", "{"]
    requires forall i :: k <= i < |preamble| - 1 ==> preamble[i].words != ["route", "{"]
    ensures BehindLine(preamble[k..] + rest, ["route", "{"]) == rest
    decreases |preamble| - k
  {
    var lines := preamble[k..] + rest;
    assert lines[0] == preamble[k];
    if k + 1 < |preamble| {
      BehindSkips(preamble, rest, k + 1);
      assert lines[1..] == preamble[k + 1..] + rest;
    } else {
      assert lines[1..] == rest;
    }
  }

  /** Read from its text and run by its lines in order, the configuration does what the host map promises. */
  lemma TextMeansHostMap(base: string, cidrs: seq<string>, routes: seq<Route>, askUrl: string, adminAddr: string,
      controlPlane: string, client: Client, host: string)
    requires IsMap(routes) && RoutesArePlain(routes) && IsPlain(base) && IsPlain(controlPlane) && IsPlain(askUrl)
    requires IsPlain(adminAddr) && forall i :: 0 <= i < |cidrs| ==> IsPlain(cidrs[i])
    ensures var lines := Preamble(base, routes, askUrl, adminAddr) + RouteBlock(base, cidrs, routes, controlPlane)
        + [Line(1, ["}"]), Line(0, ["}"])];
      var block := BlockOf(ReadText(Text(lines)), ["route", "{"]);
      && ReadText(Text(lines)) == lines
      && Run(block, block, client, host) == Promised(base, cidrs, routes, controlPlane, client, host)
  {
    hide RouteBlock, Text, ReadText, IsPlain, IsProper, Promised, Run, Preamble, Opens, AreFlat;
    var block, last := RouteBlock(base, cidrs, routes, controlPlane), [Line(1, ["}"]), Line(0, ["}"])];
    BlockIsProper(base, cidrs, routes, controlPlane);
    PreambleIsProper(base, routes, askUrl, adminAddr);
    BracesAreProper();
    FlatBlock(base, cidrs, routes, controlPlane);
    var preamble := Preamble(base, routes, askUrl, adminAddr);
    var lines := preamble + block + last;
    assert LinesAreProper(lines);
    TextIsReadBack(lines);
    RouteBegins(base, routes, askUrl, adminAddr, block + last);
    assert lines == preamble + (block + last);
    FlatUpToBrace(block, last);
    BlockMeansHostMap(base, cidrs, routes, controlPlane, client, host);
  }

  /** The lines of a block by themselves, those of the blocks in it left out. */
  function OwnLines(lines: seq<Line>, depth: nat): seq<Line> {
    if lines == [] then []
    else if Closes(lines[0]) then OwnLines(lines[1..], if depth == 0 then 0 else depth - 1)
    else if Opens(lines[0]) then OwnLines(lines[1..], depth + 1)
    else (if depth == 0 then [lines[0]] else []) + OwnLines(lines[1..], depth)
  }

  /** What stands behind an option's name, in the block itself. */
  function OptionOf(lines: seq<Line>, name: string): seq<string> {
    Definition(OwnLines(lines, 0), name)
  }

  /** The addresses of the first block that is opened with some: all but the last have a comma behind them. */
  function SitesOf(lines: seq<Line>): seq<string> {
    if lines == [] then []
    else if Opens(lines[0]) && |lines[0].words| > 2 then Addresses(lines[0].words[..|lines[0].words| - 1])
    else SitesOf(lines[1..])
  }

  function Addresses(words: seq<string>): seq<string> {
    if |words| <= 1 then words
    else if words[0] != "" && words[0][|words[0]| - 1] == ',' then
      [words[0][..|words[0]| - 1]] + Addresses(words[1..])
    else []
  }

  lemma {:induction false} ListedAreAddresses(names: seq<string>)
    ensures Addresses(Listed(names)) == names
  {
    if |names| > 1 {
      assert Listed(names)[1..] == Listed(names[1..]);
      assert Listed(names)[0] == names[0] + ",";
      ListedAreAddresses(names[1..]);
      assert (names[0] + ",")[..|names[0]|] == names[0];
    }
  }

  lemma OneLineMore(line: Line, rest: seq<Line>, depth: nat, words: seq<string>)
    ensures UpToBrace([line] + rest, depth) ==
      if Closes(line) then (if depth == 0 then [] else [line] + UpToBrace(rest, depth - 1))
      else [line] + UpToBrace(rest, if Opens(line) then depth + 1 else depth)
    ensures BehindLine([line] + rest, words) == if line.words == words then rest else BehindLine(rest, words)
    ensures OwnLines([line] + rest, depth) ==
      if Closes(line) then OwnLines(rest, if depth == 0 then 0 else depth - 1)
      else if Opens(line) then OwnLines(rest, depth + 1)
      else (if depth == 0 then [line] else []) + OwnLines(rest, depth)
  {
    hide Opens, Closes;
    assert ([line] + rest)[1..] == rest;
  }

  /** The lines of the global block, from the back to the front. */
  lemma GlobalLines(askUrl: string, adminAddr: string, rest: seq<Line>)
    requires IsPlain(askUrl) && IsPlain(adminAddr)
    ensures var admin, ask, versions := Line(1, ["admin", adminAddr]), Line(2, ["ask", askUrl]),
        Line(2, ["protocols", "h1", "h2"]);
      var servers, onDemand, close := Line(1, ["servers", "{"]), Line(1, ["on_demand_tls", "{"]), Line(1, ["}"]);
      var body := [admin, servers, versions, close, onDemand, ask, close];
      && UpToBrace(body + ([Line(0, ["}"])] + rest), 0) == body
      && OwnLines(body, 0) == [admin]
      && BlockOf(body, ["servers", "{"]) == [versions]
      && BlockOf(body, ["on_demand_tls", "{"]) == [ask]
  {
    var admin, ask, versions := Line(1, ["admin", adminAddr]), Line(2, ["ask", askUrl]),
      Line(2, ["protocols", "h1", "h2"]);
    var servers, onDemand, close := Line(1, ["servers", "{"]), Line(1, ["on_demand_tls", "{"]), Line(1, ["}"]);
    KindsOfLines(askUrl, adminAddr);
    hide Opens, Closes, IsPlain, UpToBrace, BehindLine, OwnLines;
    var last := [Line(0, ["}"])] + rest;
    GlobalsEnd(admin, servers, versions, close, onDemand, ask, Line(0, ["}"]), rest);
    OwnOfGlobals(admin, servers, versions, close, onDemand, ask);
    BlocksOfGlobals(admin, servers, versions, close, onDemand, ask);
  }

  lemma KindsOfLines(askUrl: string, adminAddr: string)
    requires IsPlain(askUrl) && IsPlain(adminAddr)
    ensures var one, two, three := Line(1, ["admin", adminAddr]), Line(2, ["ask", askUrl]),
        Line(2, ["protocols", "h1", "h2"]);
      !Opens(one) && !Closes(one) && !Opens(two) && !Closes(two) && !Opens(three) && !Closes(three)
    ensures Opens(Line(1, ["servers", "{"])) && Opens(Line(1, ["on_demand_tls", "{"]))
    ensures !Closes(Line(1, ["servers", "{"])) && !Closes(Line(1, ["on_demand_tls", "{"]))
    ensures Closes(Line(1, ["}"])) && Closes(Line(0, ["}"]))
  {}

  lemma GlobalsEnd(admin: Line, servers: Line, versions: Line,
      close: Line, onDemand: Line, ask: Line, last: Line, rest: seq<Line>)
    requires !Opens(admin) && !Closes(admin) && !Opens(ask) && !Closes(ask) && !Opens(versions) && !Closes(versions)
    requires Opens(servers) && !Closes(servers) && Opens(onDemand) && !Closes(onDemand) && Closes(close) && Closes(last)
    ensures UpToBrace([admin, servers, versions, close, onDemand, ask, close] + ([last] + rest), 0) ==
            [admin, servers, versions, close, onDemand, ask, close]
  {
    hide Opens, Closes, UpToBrace, BehindLine, OwnLines;
    var t7 := [last] + rest;
    var t6 := [close] + t7;
    var t5 := [ask] + t6;
    var t4 := [onDemand] + t5;
    OneLineMore(last, rest, 0, []);
    OneLineMore(close, t7, 1, []);
    OneLineMore(ask, t6, 1, []);
    OneLineMore(onDemand, t5, 0, []);
    assert UpToBrace(t4, 0) == [onDemand, ask, close];
    OtherGlobalsEnd(admin, servers, versions, close, t4);
    SevenInFront(admin, servers, versions, close, onDemand, ask, close, t7);
  }

  lemma SevenInFront<T>(a: T, b: T, c: T, d: T, e: T, f: T, g: T, rest: seq<T>)
    ensures [a, b, c, d, e, f, g] + rest == [a, b, c, d] + ([e] + ([f] + ([g] + rest)))
    ensures [a, b, c, d] + [e, f, g] == [a, b, c, d, e, f, g]
    ensures [e] + ([f] + ([g] + [])) == [e, f, g]
  {}

  lemma OtherGlobalsEnd(admin: Line, servers: Line, versions: Line, close: Line, rest: seq<Line>)
    requires !Opens(admin) && !Closes(admin) && !Opens(versions) && !Closes(versions)
    requires Opens(servers) && !Closes(servers) && Closes(close)
    ensures UpToBrace([admin, servers, versions, close] + rest, 0) ==
            [admin, servers, versions, close] + UpToBrace(rest, 0)
  {
    hide Opens, Closes, UpToBrace, BehindLine, OwnLines;
    var t3 := [close] + rest;
    var t2 := [versions] + t3;
    var t1 := [servers] + t2;
    OneLineMore(close, rest, 1, []);
    OneLineMore(versions, t3, 1, []);
    OneLineMore(servers, t2, 0, []);
    OneLineMore(admin, t1, 0, []);
    FourInFront(admin, servers, versions, close, rest);
    FourInFront(admin, servers, versions, close, UpToBrace(rest, 0));
  }

  lemma FourInFront<T>(a: T, b: T, c: T, d: T, rest: seq<T>)
    ensures [a] + ([b] + ([c] + ([d] + rest))) == [a, b, c, d] + rest
  {}

  lemma OwnOfGlobals(admin: Line, servers: Line, versions: Line, close: Line, onDemand: Line, ask: Line)
    requires !Opens(admin) && !Closes(admin) && !Opens(ask) && !Closes(ask) && !Opens(versions) && !Closes(versions)
    requires Opens(servers) && !Closes(servers) && Opens(onDemand) && !Closes(onDemand) && Closes(close)
    ensures OwnLines([admin, servers, versions, close, onDemand, ask, close], 0) == [admin]
  {
    hide Opens, Closes;
    assert [admin, servers, versions, close, onDemand, ask, close] ==
           [admin] + ([servers] + ([versions] + ([close] + ([onDemand] + ([ask] + ([close] + []))))));
    OneLineMore(close, [], 1, []);
    OneLineMore(ask, [close] + [], 1, []);
    OneLineMore(onDemand, [ask] + ([close] + []), 0, []);
    OneLineMore(close, [onDemand] + ([ask] + ([close] + [])), 1, []);
    OneLineMore(versions, [close] + ([onDemand] + ([ask] + ([close] + []))), 1, []);
    OneLineMore(servers, [versions] + ([close] + ([onDemand] + ([ask] + ([close] + [])))), 0, []);
    OneLineMore(admin, [servers] + ([versions] + ([close] + ([onDemand] + ([ask] + ([close] + []))))), 0, []);
  }

  lemma BlocksOfGlobals(admin: Line, servers: Line, versions: Line, close: Line, onDemand: Line, ask: Line)
    requires !Opens(ask) && !Closes(ask) && !Opens(versions) && !Closes(versions) && Closes(close)
    requires servers.words == ["servers", "{"] && onDemand.words == ["on_demand_tls", "{"]
    requires |admin.words| == |ask.words| == 2 && |versions.words| == 3 && |close.words| == 1
    requires admin.words[0] == "admin"
    ensures BlockOf([admin, servers, versions, close, onDemand, ask, close], ["servers", "{"]) == [versions]
    ensures BlockOf([admin, servers, versions, close, onDemand, ask, close], ["on_demand_tls", "{"]) == [ask]
  {
    hide Opens, Closes, UpToBrace, BehindLine, OwnLines;
    var tail := [onDemand] + ([ask] + ([close] + []));
    var body := [admin] + ([servers] + ([versions] + ([close] + tail)));
    assert [admin, servers, versions, close, onDemand, ask, close] == body;
    OptionWords(admin.words);
    BehindGlobals(admin, servers, versions, close, onDemand, ask, ["servers", "{"]);
    BehindGlobals(admin, servers, versions, close, onDemand, ask, ["on_demand_tls", "{"]);
    OneLineMore(versions, [close] + tail, 0, []);
    OneLineMore(close, tail, 0, []);
    OneLineMore(ask, [close] + [], 0, []);
    OneLineMore(close, [], 0, []);
  }

  lemma OptionWords(words: seq<string>)
    ensures "servers" != "on_demand_tls" && ["servers", "{"] != ["on_demand_tls", "{"]
    ensures |words| == 2 && words[0] == "admin" ==> words != ["servers", "{"] && words != ["on_demand_tls", "{"]
  {}

  lemma BehindGlobals(admin: Line, servers: Line, versions: Line,
      close: Line, onDemand: Line, ask: Line, words: seq<string>)
    requires words == servers.words || words == onDemand.words
    requires |words| == 2 && admin.words != words && versions.words != words && close.words != words
    ensures var tail := [onDemand] + ([ask] + ([close] + []));
      BehindLine([admin] + ([servers] + ([versions] + ([close] + tail))), words) ==
        if words == servers.words then [versions] + ([close] + tail) else [ask] + ([close] + [])
  {
    hide Opens, Closes, UpToBrace, BehindLine, OwnLines;
    var tail := [onDemand] + ([ask] + ([close] + []));
    OneLineMore(admin, [servers] + ([versions] + ([close] + tail)), 0, words);
    OneLineMore(servers, [versions] + ([close] + tail), 0, words);
    OneLineMore(versions, [close] + tail, 0, words);
    OneLineMore(close, tail, 0, words);
    OneLineMore(onDemand, [ask] + ([close] + []), 0, words);
  }

  lemma {:induction false} BehindAt(lines: seq<Line>, k: nat, words: seq<string>)
    requires k < |lines| && lines[k].words == words && forall i :: 0 <= i < k ==> lines[i].words != words
    ensures BehindLine(lines, words) == lines[k + 1..]
  {
    if k > 0 { BehindAt(lines[1..], k - 1, words); }
  }

  lemma {:induction false} SitesAt(lines: seq<Line>, k: nat)
    requires k < |lines| && Opens(lines[k]) && |lines[k].words| > 2
    requires forall i :: 0 <= i < k ==> !(Opens(lines[i]) && |lines[i].words| > 2)
    ensures SitesOf(lines) == Addresses(lines[k].words[..|lines[k].words| - 1])
  {
    hide Opens;
    if k > 0 { SitesAt(lines[1..], k - 1); }
  }

  /** The line that opens the site's block. */
  lemma SiteLine(base: string, routes: seq<Route>)
    ensures var line := Line(0, Listed(SiteNames(base, routes)) + ["{"]);
      && Opens(line) && |line.words| > 2 && line.words[..|line.words| - 1] == Listed(SiteNames(base, routes))
      && Addresses(Listed(SiteNames(base, routes))) == SiteNames(base, routes)
  {
    SiteNamesAre(base, routes);
    hide SiteNames;
    ListedAreAddresses(SiteNames(base, routes));
  }

  /** Read back by its braces, the configuration says where the administration listens, which versions are served, who
      is asked before a certificate is made, and which sites there are. */
  lemma ConfigurationIsRead(base: string, routes: seq<Route>, askUrl: string, adminAddr: string, rest: seq<Line>)
    requires IsPlain(askUrl) && IsPlain(adminAddr)
    ensures var lines := Preamble(base, routes, askUrl, adminAddr) + rest;
      var globals := BlockOf(lines, ["{"]);
      && OptionOf(globals, "admin") == [adminAddr]
      && OptionOf(BlockOf(globals, ["servers", "{"]), "protocols") == ["h1", "h2"]
      && OptionOf(BlockOf(globals, ["on_demand_tls", "{"]), "ask") == [askUrl]
      && SitesOf(lines) == SiteNames(base, routes)
      && BlockOf(lines, ["tls", "{"]) == [Line(2, ["on_demand"])]
  {
    GlobalsAreRead(base, routes, askUrl, adminAddr, rest);
    SitesAreRead(base, routes, askUrl, adminAddr, rest);
    CertificatesAreRead(base, routes, askUrl, adminAddr, rest);
  }

  lemma GlobalsAreRead(base: string, routes: seq<Route>, askUrl: string, adminAddr: string, rest: seq<Line>)
    requires IsPlain(askUrl) && IsPlain(adminAddr)
    ensures var globals := BlockOf(Preamble(base, routes, askUrl, adminAddr) + rest, ["{"]);
      && OptionOf(globals, "admin") == [adminAddr]
      && OptionOf(BlockOf(globals, ["servers", "{"]), "protocols") == ["h1", "h2"]
      && OptionOf(BlockOf(globals, ["on_demand_tls", "{"]), "ask") == [askUrl]
  {
    hide Preamble, UpToBrace, OwnLines, IsPlain, Opens, Closes, BehindLine;
    var preamble := Preamble(base, routes, askUrl, adminAddr);
    WhereGlobalsAre(base, routes, askUrl, adminAddr, rest);
    KindsOfLines(askUrl, adminAddr);
    OwnOfOne(Line(2, ["protocols", "h1", "h2"]));
    OwnOfOne(Line(2, ["ask", askUrl]));
    BehindAt(preamble + rest, 0, ["{"]);
    GlobalLines(askUrl, adminAddr, preamble[9..] + rest);
  }

  lemma WhereGlobalsAre(base: string, routes: seq<Route>, askUrl: string, adminAddr: string, rest: seq<Line>)
    ensures var preamble := Preamble(base, routes, askUrl, adminAddr);
      && |preamble| == 15 && preamble[0].words == ["{"]
      && (preamble + rest)[1..] == [Line(1, ["admin", adminAddr]), Line(1, ["servers", "{"]),
           Line(2, ["protocols", "h1", "h2"]), Line(1, ["}"]), Line(1, ["on_demand_tls", "{"]),
           Line(2, ["ask", askUrl]), Line(1, ["}"])] + ([Line(0, ["}"])] + (preamble[9..] + rest))
  {
    hide SiteNames, Listed;
  }

  lemma OwnOfOne(line: Line)
    requires !Opens(line) && !Closes(line)
    ensures OwnLines([line], 0) == [line]
  {
    hide Opens, Closes;
    assert [line] + [] == [line];
    OneLineMore(line, [], 0, []);
  }

  lemma SitesAreRead(base: string, routes: seq<Route>, askUrl: string, adminAddr: string, rest: seq<Line>)
    requires IsPlain(askUrl) && IsPlain(adminAddr)
    ensures SitesOf(Preamble(base, routes, askUrl, adminAddr) + rest) == SiteNames(base, routes)
  {
    var preamble := Preamble(base, routes, askUrl, adminAddr);
    SiteLine(base, routes);
    assert preamble[10] == Line(0, Listed(SiteNames(base, routes)) + ["{"]) && |preamble| == 15;
    forall i | 0 <= i < 10 ensures !(Opens(preamble[i]) && |preamble[i].words| > 2) {}
    hide Preamble, Listed, SiteNames, Opens;
    SitesAt(preamble + rest, 10);
  }

  lemma CertificatesAreRead(base: string, routes: seq<Route>, askUrl: string, adminAddr: string, rest: seq<Line>)
    ensures BlockOf(Preamble(base, routes, askUrl, adminAddr) + rest, ["tls", "{"]) == [Line(2, ["on_demand"])]
  {
    hide Preamble, UpToBrace, OwnLines, Opens, Closes, BehindLine;
    var preamble := Preamble(base, routes, askUrl, adminAddr);
    WhereCertificatesAre(base, routes, askUrl, adminAddr);
    BehindAt(preamble + rest, 11, ["tls", "{"]);
    var one, close, tail := Line(2, ["on_demand"]), Line(1, ["}"]), preamble[14..] + rest;
    assert (preamble + rest)[12..] == [one] + ([close] + tail);
    CertificateLines();
    OneLineMore(one, [close] + tail, 0, []);
    OneLineMore(close, tail, 0, []);
  }

  lemma CertificateLines()
    ensures !Opens(Line(2, ["on_demand"])) && !Closes(Line(2, ["on_demand"])) && Closes(Line(1, ["}"]))
  {}

  lemma WhereCertificatesAre(base: string, routes: seq<Route>, askUrl: string, adminAddr: string)
    ensures var preamble := Preamble(base, routes, askUrl, adminAddr);
      && |preamble| == 15 && preamble[11].words == ["tls", "{"]
      && preamble[12] == Line(2, ["on_demand"]) && preamble[13] == Line(1, ["}"])
      && forall i :: 0 <= i < 11 ==> preamble[i].words != ["tls", "{"]
  {
    hide Listed, SiteNames;
    SiteLine(base, routes);
    var preamble := Preamble(base, routes, askUrl, adminAddr);
    assert |preamble[10].words| > 2;
    forall i | 0 <= i < 11 ensures preamble[i].words != ["tls", "{"] { OtherWords(preamble[i].words); }
  }

  lemma OtherWords(words: seq<string>)
    requires |words| != 2 || words[0] in ["admin", "servers", "on_demand_tls", "ask", "route"]
    ensures words != ["tls", "{"]
  {}

  lemma BracesAreProper()
    ensures LinesAreProper([Line(1, ["}"]), Line(0, ["}"])])
  {
    PlainIsProper("}");
  }

  lemma PreambleIsProper(base: string, routes: seq<Route>, askUrl: string, adminAddr: string)
    requires RoutesArePlain(routes) && IsPlain(base) && IsPlain(askUrl) && IsPlain(adminAddr)
    ensures LinesAreProper(Preamble(base, routes, askUrl, adminAddr))
  {
    SitesArePlain(base, routes);
    SiteNamesAre(base, routes);
    ListedArePlain(SiteNames(base, routes));
    WordsOfThePreamble();
    hide IsOneWord, IsProper, SiteNames, Listed;
    PlainAreProper(Listed(SiteNames(base, routes)));
    PlainIsProper(askUrl);
    PlainIsProper(adminAddr);
  }

  lemma WordsOfThePreamble()
    ensures AreProper(["{"]) && AreProper(["servers", "{"]) && AreProper(["protocols", "h1", "h2"]) && AreProper(["}"])
    ensures AreProper(["on_demand_tls", "{"]) && AreProper(["tls", "{"]) && AreProper(["on_demand"]) &&
      AreProper(["route", "{"])
    ensures IsProper("admin") && IsProper("ask") && IsProper("{")
  {
    hide IsProper;
    PlainAreProper(["{"]);
    PlainAreProper(["servers", "{"]);
    PlainAreProper(["protocols", "h1", "h2"]);
    PlainAreProper(["}"]);
    PlainAreProper(["on_demand_tls", "{"]);
    PlainAreProper(["tls", "{"]);
    PlainAreProper(["on_demand"]);
    PlainAreProper(["route", "{"]);
    PlainIsProper("admin");
    PlainIsProper("ask");
    PlainIsProper("{");
  }

  lemma {:induction false} SitesArePlain(base: string, routes: seq<Route>)
    requires RoutesArePlain(routes) && IsOneWord(base)
    ensures forall i :: 0 <= i < |SiteNames(base, routes)| ==> IsOneWord(SiteNames(base, routes)[i])
  {
    if routes == [] {
      var name := "*." + base;
      assert forall c :: c in name ==> c in "*." || c in base;
    } else {
      SitesArePlain(base, routes[..|routes| - 1]);
    }
  }

  lemma ListedArePlain(names: seq<string>)
    requires forall i :: 0 <= i < |names| ==> IsOneWord(names[i])
    ensures forall i :: 0 <= i < |Listed(names)| ==> IsOneWord(Listed(names)[i])
  {
    forall i | 0 <= i < |names| ensures IsOneWord(Listed(names)[i]) {
      var w := names[i] + ",";
      assert forall c :: c in w ==> c in names[i] || c == ',';
    }
  }
}
