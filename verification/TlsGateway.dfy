/** The gateway configuration that is rendered from the host map, and what a client of the gateway gets by it. */
module TlsGateway {
  import opened Printing

  /** A coordinator's upstream under its host name. */
  datatype Route = Route(host: string, upstream: string)

  /** A line of the configuration: its indentation and its words. */
  datatype Line = Line(indent: nat, words: seq<string>)

  datatype Reply = Respond(body: string, code: string) | ProxyTo(upstream: string) | Silence

  const FORBIDDEN := Quoted("Forbidden: your address is not permitted.")
  const NO_CLUSTER := Quoted("No running cluster for this hostname.")

  function Quoted(phrase: string): string {
    "\"" + phrase + "\""
  }

  // ----- Ordering the routes -----

  predicate Less(a: string, b: string) {
    if b == "" then false
    else if a == "" then true
    else a[0] < b[0] || (a[0] == b[0] && Less(a[1..], b[1..]))
  }

  lemma {:induction false} LessIsTotal(a: string, b: string)
    ensures Less(a, b) || a == b || Less(b, a)
    ensures !(Less(a, b) && Less(b, a)) && !Less(a, a)
  {
    if a != "" && b != "" {
      LessIsTotal(a[1..], b[1..]);
      if a[0] == b[0] && a[1..] == b[1..] { assert a == [a[0]] + a[1..] && b == [b[0]] + b[1..]; }
      LessIsTotal(a[1..], a[1..]);
    } else if a != "" {
      LessIsTotal(a[1..], a[1..]);
    }
  }

  lemma {:induction false} LessIsTransitive(a: string, b: string, c: string)
    requires Less(a, b) && Less(b, c)
    ensures Less(a, c)
  {
    if a != "" && a[0] == b[0] && b[0] == c[0] { LessIsTransitive(a[1..], b[1..], c[1..]); }
  }

  /** By the first character in which they differ, or the shorter first. */
  ghost predicate ComesBefore(a: string, b: string) {
    exists k: nat :: DiffersFirst(a, b, k)
  }

  ghost predicate DiffersFirst(a: string, b: string, k: nat) {
    k <= |a| && k < |b| && a[..k] == b[..k] && (k < |a| ==> a[k] < b[k])
  }

  lemma {:induction false} LessComesBefore(a: string, b: string)
    requires Less(a, b)
    ensures ComesBefore(a, b)
  {
    if a == "" || a[0] < b[0] {
      assert DiffersFirst(a, b, 0);
    } else {
      LessComesBefore(a[1..], b[1..]);
      var k: nat :| DiffersFirst(a[1..], b[1..], k);
      assert a[..k + 1] == [a[0]] + a[1..][..k] && b[..k + 1] == [b[0]] + b[1..][..k];
      assert DiffersFirst(a, b, k + 1);
    }
  }

  function Insert(route: Route, routes: seq<Route>): seq<Route> {
    if routes == [] || Less(route.host, routes[0].host) then [route] + routes
    else [routes[0]] + Insert(route, routes[1..])
  }

  function Sorted(routes: seq<Route>): seq<Route> {
    if routes == [] then [] else Insert(routes[0], Sorted(routes[1..]))
  }

  /** A dictionary has each key once. */
  ghost predicate IsMap(routes: seq<Route>) {
    forall i, j :: 0 <= i < j < |routes| ==> routes[i].host != routes[j].host
  }

  predicate InOrder(routes: seq<Route>) {
    forall i, j :: 0 <= i < j < |routes| ==> Less(routes[i].host, routes[j].host)
  }

  lemma {:induction false} InsertKeeps(route: Route, routes: seq<Route>)
    requires InOrder(routes) && forall i :: 0 <= i < |routes| ==> routes[i].host != route.host
    ensures InOrder(Insert(route, routes))
    ensures multiset(Insert(route, routes)) == multiset(routes) + multiset{route}
  {
    if routes == [] {
    } else if Less(route.host, routes[0].host) {
      forall j | 0 < j < |routes| ensures Less(route.host, routes[j].host) {
        LessIsTransitive(route.host, routes[0].host, routes[j].host);
      }
    } else {
      InsertKeeps(route, routes[1..]);
      LessIsTotal(route.host, routes[0].host);
      var rest := Insert(route, routes[1..]);
      assert routes == [routes[0]] + routes[1..];
      forall j | 0 <= j < |rest| ensures Less(routes[0].host, rest[j].host) {
        assert rest[j] in multiset(rest);
        assert rest[j] == route || rest[j] in routes[1..];
      }
    }
  }

  /** The routes in the order of their hosts: the same ones, each host after those that are less. */
  lemma {:induction false} SortedIsSorted(routes: seq<Route>)
    requires IsMap(routes)
    ensures InOrder(Sorted(routes)) && multiset(Sorted(routes)) == multiset(routes)
    ensures IsMap(Sorted(routes)) && |Sorted(routes)| == |routes|
    ensures forall route :: route in Sorted(routes) <==> route in routes
    ensures forall i, j :: 0 <= i < j < |routes| ==> ComesBefore(Sorted(routes)[i].host, Sorted(routes)[j].host)
  {
    if routes != [] {
      SortedIsSorted(routes[1..]);
      assert routes == [routes[0]] + routes[1..];
      var rest := Sorted(routes[1..]);
      forall i | 0 <= i < |rest| ensures rest[i].host != routes[0].host {
        assert rest[i] in routes[1..];
      }
      InsertKeeps(routes[0], rest);
    }
    hide Insert, Less, Sorted, InOrder, ComesBefore;
    SameRoutes(Sorted(routes), routes);
    InOrderIsMap(Sorted(routes));
    InOrderComesBefore(Sorted(routes));
  }

  lemma InOrderComesBefore(sorted: seq<Route>)
    requires InOrder(sorted)
    ensures forall i, j :: 0 <= i < j < |sorted| ==> ComesBefore(sorted[i].host, sorted[j].host)
  {
    hide Less, ComesBefore;
    forall i, j | 0 <= i < j < |sorted| ensures ComesBefore(sorted[i].host, sorted[j].host) {
      LessComesBefore(sorted[i].host, sorted[j].host);
    }
  }

  lemma SameRoutes(a: seq<Route>, b: seq<Route>)
    requires multiset(a) == multiset(b)
    ensures |a| == |b| && forall route :: route in a <==> route in b
  {
    assert |multiset(a)| == |multiset(b)|;
    forall route ensures route in a <==> route in b {
      assert route in multiset(a) <==> route in multiset(b);
    }
  }

  lemma InOrderIsMap(sorted: seq<Route>)
    requires InOrder(sorted)
    ensures IsMap(sorted)
  {
    forall i, j | 0 <= i < j < |sorted| ensures sorted[i].host != sorted[j].host {
      LessIsTotal(sorted[i].host, sorted[j].host);
    }
  }

  // ----- Rendering -----

  function Matcher(index: nat): string {
    "@c" + Digits(index)
  }

  /** The lines of one host: its matcher and its proxy. */
  function HostLines(name: string, at: string, upstream: string): seq<Line> {
    [Line(2, [name, "host", at]), Line(2, ["reverse_proxy", name, upstream])]
  }

  function RouteLines(sorted: seq<Route>, from: nat): seq<Line>
    requires from <= |sorted|
    decreases |sorted| - from
  {
    if from == |sorted| then []
    else
      HostLines(Matcher(from), sorted[from].host, sorted[from].upstream) + RouteLines(sorted, from + 1)
  }

  function GateLines(cidrs: seq<string>): seq<Line> {
    if cidrs == [] then []
    else [Line(2, ["@blocked", "not", "remote_ip"] + cidrs), Line(2, ["respond", "@blocked", FORBIDDEN, "403"])]
  }

  predicate HasHost(routes: seq<Route>, host: string) {
    exists i :: 0 <= i < |routes| && routes[i].host == host
  }

  function HomeLines(base: string, routes: seq<Route>, controlPlane: string): seq<Line> {
    if HasHost(routes, base) then []
    else HostLines("@ui", base, controlPlane)
  }

  /** The body of the route block. */
  function RouteBlock(base: string, cidrs: seq<string>, routes: seq<Route>, controlPlane: string): seq<Line> {
    GateLines(cidrs) + RouteLines(Sorted(routes), 0) +
      HomeLines(base, routes, controlPlane) + [Line(2, ["respond", NO_CLUSTER, "503"])]
  }

  predicate EndsWith(s: string, end: string) {
    |end| <= |s| && s[|s| - |end|..] == end
  }

  function OwnSite(base: string, host: string, names: seq<string>): seq<string> {
    if host != base && !EndsWith(host, "." + base) && host !in names then names + [host] else names
  }

  function SiteNames(base: string, routes: seq<Route>): seq<string> {
    if routes == [] then ["*." + base, base]
    else OwnSite(base, routes[|routes| - 1].host, SiteNames(base, routes[..|routes| - 1]))
  }

  function Listed(names: seq<string>): seq<string> {
    seq(|names|, i requires 0 <= i < |names| => if i + 1 < |names| then names[i] + "," else names[i])
  }

  function Preamble(base: string, routes: seq<Route>, askUrl: string, adminAddr: string): seq<Line> {
    [Line(0, ["{"]), Line(1, ["admin", adminAddr]), Line(1, ["servers", "{"]), Line(2, ["protocols", "h1", "h2"]),
      Line(1, ["}"]),
     Line(1, ["on_demand_tls", "{"]), Line(2, ["ask", askUrl]), Line(1, ["}"]), Line(0, ["}"]), Line(0, []),
     Line(0, Listed(SiteNames(base, routes)) + ["{"]),
     Line(1, ["tls", "{"]), Line(2, ["on_demand"]), Line(1, ["}"]), Line(1, ["route", "{"])]
  }

  method CollectSiteNames(base: string, routes: seq<Route>) returns (siteNames: seq<string>)
    ensures siteNames == SiteNames(base, routes)
  {
    siteNames := ["*." + base, base];
    for i := 0 to |routes|
      invariant siteNames == SiteNames(base, routes[..i])
    {
      assert routes[..i + 1][..i] == routes[..i];
      var host := routes[i].host;
      if host != base && !EndsWith(host, "." + base) && host !in siteNames { siteNames := siteNames + [host]; }
    }
    assert routes[..|routes|] == routes;
  }

  method AppendRoutes(lines: seq<Line>, sorted: seq<Route>) returns (longer: seq<Line>)
    ensures longer == lines + RouteLines(sorted, 0)
  {
    longer := lines;
    for index := 0 to |sorted|
      invariant longer + RouteLines(sorted, index) == lines + RouteLines(sorted, 0)
    {
      ghost var before := longer;
      longer := longer + [Line(2, [Matcher(index), "host", sorted[index].host])];
      longer := longer + [Line(2, ["reverse_proxy", Matcher(index), sorted[index].upstream])];
      assert before + RouteLines(sorted, index) == longer + RouteLines(sorted, index + 1);
    }
  }

  method BuildCaddyfile(base: string, cidrs: seq<string>, routes: seq<Route>,
      askUrl: string, adminAddr: string, controlPlane: string)
    returns (lines: seq<Line>, text: string)
    ensures text == Text(lines)
    ensures lines == Preamble(base, routes, askUrl, adminAddr) + RouteBlock(base, cidrs, routes,
      controlPlane) + [Line(1, ["}"]), Line(0, ["}"])]
  {
    hide SiteNames, RouteBlock;
    var siteNames := CollectSiteNames(base, routes);
    lines := [Line(0, ["{"]), Line(1, ["admin", adminAddr]), Line(1, ["servers", "{"]),
      Line(2, ["protocols", "h1", "h2"]), Line(1, ["}"])];
    lines := lines + [Line(1, ["on_demand_tls", "{"]),
      Line(2, ["ask", askUrl]), Line(1, ["}"]), Line(0, ["}"]), Line(0, [])];
    lines := lines + [Line(0, Listed(siteNames) + ["{"])];
    lines := lines + [Line(1, ["tls", "{"]), Line(2, ["on_demand"]), Line(1, ["}"]), Line(1, ["route", "{"])];
    assert lines == Preamble(base, routes, askUrl, adminAddr);
    hide Preamble;
    lines := AppendRouteBlock(lines, base, cidrs, routes, controlPlane);
    lines := lines + [Line(1, ["}"]), Line(0, ["}"])];
    text := Text(lines);
  }

  method AppendRouteBlock(lines: seq<Line>, base: string, cidrs: seq<string>, routes: seq<Route>, controlPlane: string)
    returns (longer: seq<Line>)
    ensures longer == lines + RouteBlock(base, cidrs, routes, controlPlane)
  {
    hide RouteLines, Sorted, HasHost;
    longer := lines;
    if cidrs != [] {
      longer := longer + [Line(2, ["@blocked", "not", "remote_ip"] + cidrs)];
      longer := longer + [Line(2, ["respond", "@blocked", FORBIDDEN, "403"])];
    }
    assert longer == lines + GateLines(cidrs);
    hide GateLines;
    longer := AppendRoutes(longer, Sorted(routes));
    longer := AppendHome(longer, base, routes, controlPlane);
    hide HomeLines;
    longer := longer + [Line(2, ["respond", NO_CLUSTER, "503"])];
  }

  method AppendHome(lines: seq<Line>, base: string, routes: seq<Route>,
      controlPlane: string) returns (longer: seq<Line>)
    ensures longer == lines + HomeLines(base, routes, controlPlane)
  {
    longer := lines;
    if !HasHost(routes, base) {
      longer := longer + [Line(2, ["@ui", "host", base])];
      longer := longer + [Line(2, ["reverse_proxy", "@ui", controlPlane])];
    }
  }

  function Tabs(n: nat): string {
    seq(n, _ => '\t')
  }

  /** The text of the configuration: each line on its own, its words a space apart. */
  function Text(lines: seq<Line>): string {
    if lines == [] then "" else Tabs(lines[0].indent) + Join(lines[0].words, ' ') + "\n" + Text(lines[1..])
  }

  // ----- What the lines mean -----

  /** The text that the name of a matcher stands for: what follows it on the line that starts with it. */
  function Definition(lines: seq<Line>, name: string): seq<string> {
    if lines == [] then []
    else if lines[0].words != [] && lines[0].words[0] == name then lines[0].words[1..]
    else Definition(lines[1..], name)
  }

  /** Who a client is, by the ranges that it is in. */
  type Client = string -> bool

  predicate Permitted(client: Client, cidrs: seq<string>) {
    exists i :: 0 <= i < |cidrs| && client(cidrs[i])
  }

  predicate Matches(definition: seq<string>, client: Client, host: string) {
    if |definition| > 0 && definition[0] == "host" then host in definition[1..]
    else if |definition| > 1 && definition[0] == "not" && definition[1] == "remote_ip" then
      !Permitted(client, definition[2..])
    else false
  }

  /** The first of the lines that answers: one without a matcher, or one whose matcher matches. */
  function Run(block: seq<Line>, rest: seq<Line>, client: Client, host: string): Reply {
    if rest == [] then Silence
    else
      var words := rest[0].words;
      if |words| == 4 && words[0] == "respond" &&
        Matches(Definition(block, words[1]), client, host) then Respond(words[2], words[3])
      else if |words| == 3 && words[0] == "respond" then Respond(words[1], words[2])
      else if |words| == 3 && words[0] == "reverse_proxy" &&
        Matches(Definition(block, words[1]), client, host) then ProxyTo(words[2])
      else Run(block, rest[1..], client, host)
  }

  /** What the host map promises. */
  function Promised(base: string, cidrs: seq<string>, routes: seq<Route>,
      controlPlane: string, client: Client, host: string): Reply {
    if cidrs != [] && (forall cidr :: cidr in cidrs ==> !client(cidr)) then
      Respond(Quoted("Forbidden: your address is not permitted."), "403")
    else
      Mapped(routes, if host == base then ProxyTo(controlPlane)
             else Respond(Quoted("No running cluster for this hostname."), "503"), host)
  }

  function Mapped(routes: seq<Route>, otherwise: Reply, host: string): Reply {
    if routes == [] then otherwise
    else if routes[0].host == host then ProxyTo(routes[0].upstream)
    else Mapped(routes[1..], otherwise, host)
  }

  lemma {:induction false} MappedIsLookup(routes: seq<Route>, otherwise: Reply, host: string)
    ensures !HasHost(routes, host) ==> Mapped(routes, otherwise, host) == otherwise
    ensures IsMap(routes) ==> forall i :: 0 <= i < |routes| && routes[i].host == host ==>
      Mapped(routes, otherwise, host) == ProxyTo(routes[i].upstream)
  {
    if routes != [] {
      MappedIsLookup(routes[1..], otherwise, host);
      assert forall i :: 1 <= i < |routes| ==> routes[i] == routes[1..][i - 1];
      assert HasHost(routes[1..], host) ==> HasHost(routes, host);
    }
  }

  lemma MappedBySorted(routes: seq<Route>, otherwise: Reply, host: string)
    requires IsMap(routes)
    ensures Mapped(Sorted(routes), otherwise, host) == Mapped(routes, otherwise, host)
  {
    SortedIsSorted(routes);
    MappedIsLookup(routes, otherwise, host);
    MappedIsLookup(Sorted(routes), otherwise, host);
    if HasHost(routes, host) {
      var i :| 0 <= i < |routes| && routes[i].host == host;
      assert routes[i] in Sorted(routes);
    } else {
      forall i | 0 <= i < |Sorted(routes)| ensures Sorted(routes)[i].host != host {
        assert Sorted(routes)[i] in routes;
      }
    }
  }

  // ----- Matchers -----

  /** A line that names a matcher. */
  predicate Names(line: Line) {
    line.words != [] && line.words[0] != "" && line.words[0][0] == '@'
  }

  lemma MatchersDiffer(i: nat, j: nat)
    ensures Matcher(i) == Matcher(j) ==> i == j
    ensures Matcher(i) != "@ui" && Matcher(i) != "@blocked" && Matcher(i) != "respond" && Matcher(i) != "reverse_proxy"
  {
    assert Matcher(i)[0] == '@' && Matcher(i)[1] == 'c' && "@ui"[1] == 'u' && "@blocked"[1] == 'b' &&
      "respond"[0] == 'r' && "reverse_proxy"[0] == 'r';
    if Matcher(i) == Matcher(j) {
      assert Matcher(i)[2..] == Digits(i) && Matcher(j)[2..] == Digits(j);
      DigitsDiffer(i, j);
    }
  }

  lemma RoutesSplit(sorted: seq<Route>, from: nat, tail: seq<Line>)
    requires from < |sorted|
    ensures RouteLines(sorted, from) + tail == HostLines(Matcher(from), sorted[from].host,
      sorted[from].upstream) + (RouteLines(sorted, from + 1) + tail)
  {}

  lemma DefinitionAtHost(name: string, at: string, upstream: string, rest: seq<Line>, sought: string)
    requires sought != "reverse_proxy"
    ensures Definition(HostLines(name, at, upstream) + rest, sought) == if sought == name then ["host",
      at] else Definition(rest, sought)
  {
    var lines := HostLines(name, at, upstream) + rest;
    assert lines[0].words == [name, "host", at] && lines[1].words == ["reverse_proxy", name, upstream];
    assert lines[1..][1..] == rest;
  }

  lemma {:induction false} DefinitionOfRoute(sorted: seq<Route>, from: nat, k: nat, tail: seq<Line>)
    requires from <= k < |sorted|
    ensures Definition(RouteLines(sorted, from) + tail, Matcher(k)) == ["host", sorted[k].host]
    decreases |sorted| - from
  {
    RoutesSplit(sorted, from, tail);
    MatchersDiffer(from, k);
    MatchersDiffer(k, k);
    DefinitionAtHost(Matcher(from), sorted[from].host, sorted[from].upstream,
      RouteLines(sorted, from + 1) + tail, Matcher(k));
    hide RouteLines, Definition, Matcher, HostLines;
    if from < k { DefinitionOfRoute(sorted, from + 1, k, tail); }
  }

  lemma {:induction false} DefinitionBehind(sorted: seq<Route>, from: nat, name: string, tail: seq<Line>)
    requires from <= |sorted|
    requires name != "reverse_proxy" && forall k: nat :: name != Matcher(k)
    ensures Definition(RouteLines(sorted, from) + tail, name) == Definition(tail, name)
    decreases |sorted| - from
  {
    if from == |sorted| {
      assert RouteLines(sorted, from) + tail == tail;
    } else {
      RoutesSplit(sorted, from, tail);
      DefinitionAtHost(Matcher(from), sorted[from].host,
        sorted[from].upstream, RouteLines(sorted, from + 1) + tail, name);
      hide RouteLines, Definition, Matcher, HostLines;
      DefinitionBehind(sorted, from + 1, name, tail);
    }
  }

  lemma RunHost(block: seq<Line>, name: string, at: string,
      upstream: string, rest: seq<Line>, client: Client, host: string)
    requires name != "" && name[0] == '@' && Definition(block, name) == ["host", at]
    ensures Run(block, HostLines(name, at, upstream) + rest, client,
      host) == if at == host then ProxyTo(upstream) else Run(block, rest, client, host)
  {
    var lines := HostLines(name, at, upstream) + rest;
    assert "respond"[0] == 'r' && "reverse_proxy"[0] == 'r';
    assert ["host", at][1..] == [at];
    assert lines[0].words == [name, "host", at] && lines[1].words == ["reverse_proxy", name, upstream];
    assert lines[1..][1..] == rest;
    hide Definition;
    assert Run(block, lines, client, host) == Run(block, lines[1..], client, host);
  }

  lemma {:induction false} RunRoutes(block: seq<Line>, sorted: seq<Route>,
      from: nat, tail: seq<Line>, client: Client, host: string)
    requires from <= |sorted|
    requires forall k: nat :: k < |sorted| ==> Definition(block, Matcher(k)) == ["host", sorted[k].host]
    ensures Run(block, RouteLines(sorted, from) + tail, client, host) ==
      Mapped(sorted[from..], Run(block, tail, client, host), host)
    decreases |sorted| - from
  {
    if from == |sorted| {
      assert RouteLines(sorted, from) + tail == tail;
    } else {
      var rest := RouteLines(sorted, from + 1) + tail;
      RoutesSplit(sorted, from, tail);
      RunHost(block, Matcher(from), sorted[from].host, sorted[from].upstream, rest, client, host);
      assert sorted[from..][1..] == sorted[from + 1..];
      hide Run, RouteLines, Definition, Matcher, HostLines;
      RunRoutes(block, sorted, from + 1, tail, client, host);
    }
  }

  lemma MatcherDefinitions(base: string, cidrs: seq<string>, routes: seq<Route>, controlPlane: string)
    ensures var block := RouteBlock(base, cidrs, routes, controlPlane);
      && (forall k: nat :: k < |Sorted(routes)| ==> Definition(block, Matcher(k)) == ["host", Sorted(routes)[k].host])
      && (cidrs != [] ==> Definition(block, "@blocked") == ["not", "remote_ip"] + cidrs)
      && (!HasHost(routes, base) ==> Definition(block, "@ui") == ["host", base])
  {
    hide Sorted;
    var block, sorted := RouteBlock(base, cidrs, routes, controlPlane), Sorted(routes);
    var tail := HomeLines(base, routes, controlPlane) + [Line(2, ["respond", NO_CLUSTER, "503"])];
    var routing := RouteLines(sorted, 0) + tail;
    assert block == GateLines(cidrs) + routing;
    assert !HasHost(routes, base) ==> Definition(tail, "@ui") == ["host", base];
    DefinitionAtGate(cidrs, routing, "@blocked");
    DefinitionAtGate(cidrs, routing, "@ui");
    hide RouteLines, HomeLines, GateLines, Definition, RouteBlock, HasHost;
    forall k: nat | k < |sorted| ensures Definition(block, Matcher(k)) == ["host", sorted[k].host] {
      MatchersDiffer(k, k);
      DefinitionAtGate(cidrs, routing, Matcher(k));
      DefinitionOfRoute(sorted, 0, k, tail);
    }
    assert "@ui"[1] == 'u' && "@blocked"[1] == 'b';
    forall k: nat ensures "@ui" != Matcher(k) { MatchersDiffer(k, k); }
    DefinitionBehind(sorted, 0, "@ui", tail);
  }

  lemma DefinitionAtGate(cidrs: seq<string>, routing: seq<Line>, name: string)
    requires name != "respond"
    ensures Definition(GateLines(cidrs) + routing, name) ==
      if cidrs != [] && name == "@blocked" then ["not", "remote_ip"] + cidrs else Definition(routing, name)
  {
    if cidrs == [] {
      assert GateLines(cidrs) + routing == routing;
    } else {
      assert (GateLines(cidrs) + routing)[1..][1..] == routing;
      assert (["@blocked", "not", "remote_ip"] + cidrs)[1..] == ["not", "remote_ip"] + cidrs;
    }
  }

  lemma RunHome(block: seq<Line>, base: string, routes: seq<Route>, controlPlane: string, client: Client, host: string)
    requires !HasHost(routes, base) ==> Definition(block, "@ui") == ["host", base]
    ensures Run(block, HomeLines(base, routes, controlPlane) + [Line(2, ["respond", NO_CLUSTER, "503"])], client,
      host) ==
      if host == base && !HasHost(routes, base) then ProxyTo(controlPlane) else Respond(NO_CLUSTER, "503")
  {
    var last := [Line(2, ["respond", NO_CLUSTER, "503"])];
    assert Run(block, last, client, host) == Respond(NO_CLUSTER, "503");
    if !HasHost(routes, base) {
      RunHost(block, "@ui", base, controlPlane, last, client, host);
    } else {
      assert HomeLines(base, routes, controlPlane) + last == last;
    }
  }

  lemma PermittedBySome(client: Client, cidrs: seq<string>)
    ensures Permitted(client, cidrs) <==> exists cidr :: cidr in cidrs && client(cidr)
  {}

  lemma RunGate(block: seq<Line>, cidrs: seq<string>, routing: seq<Line>, client: Client, host: string)
    requires cidrs != [] ==> Definition(block, "@blocked") == ["not", "remote_ip"] + cidrs
    ensures Run(block, GateLines(cidrs) + routing, client, host) ==
      if cidrs != [] && (forall cidr :: cidr in cidrs ==> !client(cidr)) then Respond(FORBIDDEN, "403")
      else Run(block, routing, client, host)
  {
    hide Permitted, Run, Matches, FORBIDDEN, Definition;
    PermittedBySome(client, cidrs);
    if cidrs == [] {
      assert GateLines(cidrs) + routing == routing;
    } else {
      var matcher := Line(2, ["@blocked", "not", "remote_ip"] + cidrs);
      var refusal := [Line(2, ["respond", "@blocked", FORBIDDEN, "403"])] + routing;
      assert GateLines(cidrs) + routing == [matcher] + refusal;
      RunMatcher(block, matcher, refusal, client, host);
      RunRefusal(block, routing, client, host);
      BlockedMatches(cidrs, client, host);
    }
  }

  lemma RunMatcher(block: seq<Line>, matcher: Line, rest: seq<Line>, client: Client, host: string)
    requires matcher.words != [] && matcher.words[0] == "@blocked"
    ensures Run(block, [matcher] + rest, client, host) == Run(block, rest, client, host)
  {
    assert ([matcher] + rest)[1..] == rest;
  }

  lemma RunRefusal(block: seq<Line>, rest: seq<Line>, client: Client, host: string)
    ensures Run(block, [Line(2, ["respond", "@blocked", FORBIDDEN, "403"])] + rest, client, host) ==
      if Matches(Definition(block, "@blocked"), client, host) then Respond(FORBIDDEN, "403")
      else Run(block, rest, client, host)
  {
    hide FORBIDDEN, Matches, Definition;
    assert ([Line(2, ["respond", "@blocked", FORBIDDEN, "403"])] + rest)[1..] == rest;
  }

  lemma BlockedMatches(cidrs: seq<string>, client: Client, host: string)
    ensures Matches(["not", "remote_ip"] + cidrs, client, host) <==> !Permitted(client, cidrs)
  {
    assert (["not", "remote_ip"] + cidrs)[2..] == cidrs;
  }

  /** Run by its lines in order, the block does for every client and every host what the host map promises. */
  lemma BlockMeansHostMap(base: string, cidrs: seq<string>,
      routes: seq<Route>, controlPlane: string, client: Client, host: string)
    requires IsMap(routes)
    ensures var block := RouteBlock(base, cidrs, routes, controlPlane);
      Run(block, block, client, host) == Promised(base, cidrs, routes, controlPlane, client, host)
  {
    assert FORBIDDEN == Quoted("Forbidden: your address is not permitted.");
    assert NO_CLUSTER == Quoted("No running cluster for this hostname.");
    hide FORBIDDEN, NO_CLUSTER, Quoted;
    var block := RouteBlock(base, cidrs, routes, controlPlane);
    var sorted, home := Sorted(routes), HomeLines(base, routes, controlPlane);
    var tail := home + [Line(2, ["respond", NO_CLUSTER, "503"])];
    var routing := RouteLines(sorted, 0) + tail;
    assert block == GateLines(cidrs) + routing;
    MatcherDefinitions(base, cidrs, routes, controlPlane);
    RunRoutes(block, sorted, 0, tail, client, host);
    assert sorted[0..] == sorted;
    RunHome(block, base, routes, controlPlane, client, host);
    var otherwise := if host == base then ProxyTo(controlPlane) else Respond(NO_CLUSTER, "503");
    MappedBySorted(routes, otherwise, host);
    MappedIsLookup(routes, otherwise, host);
    MappedBySorted(routes, Run(block, tail, client, host), host);
    MappedIsLookup(routes, Run(block, tail, client, host), host);
    RunGate(block, cidrs, routing, client, host);
  }

  /** The names of the matchers that the lines define, in order. */
  function MatcherNames(lines: seq<Line>): seq<string> {
    if lines == [] then []
    else if Names(lines[0]) then [lines[0].words[0]] + MatcherNames(lines[1..])
    else MatcherNames(lines[1..])
  }

  lemma {:induction false} MatcherNamesOfBoth(a: seq<Line>, b: seq<Line>)
    ensures MatcherNames(a + b) == MatcherNames(a) + MatcherNames(b)
  {
    if a == [] {
      assert a + b == b;
    } else {
      assert (a + b)[1..] == a[1..] + b;
      MatcherNamesOfBoth(a[1..], b);
    }
  }

  lemma {:induction false} MatcherNamesOfRoutes(sorted: seq<Route>, from: nat)
    requires from <= |sorted|
    ensures |MatcherNames(RouteLines(sorted, from))| == |sorted| - from
    ensures forall i :: 0 <= i < |sorted| - from ==> MatcherNames(RouteLines(sorted, from))[i] == Matcher(from + i)
    decreases |sorted| - from
  {
    if from < |sorted| {
      var lines := RouteLines(sorted, from);
      assert "reverse_proxy"[0] == 'r' && Matcher(from)[0] == '@';
      assert lines[1..][1..] == RouteLines(sorted, from + 1);
      assert MatcherNames(lines) == [Matcher(from)] + MatcherNames(lines[1..][1..]);
      MatcherNamesOfRoutes(sorted, from + 1);
    }
  }

  /** No two lines of the block define the same matcher. */
  lemma MatchersAreDistinct(base: string, cidrs: seq<string>, routes: seq<Route>, controlPlane: string, i: nat, j: nat)
    requires i < j < |MatcherNames(RouteBlock(base, cidrs, routes, controlPlane))|
    ensures MatcherNames(RouteBlock(base, cidrs, routes, controlPlane))[i] !=
      MatcherNames(RouteBlock(base, cidrs, routes, controlPlane))[j]
  {
    var gate, routing, home := GateLines(cidrs), RouteLines(Sorted(routes), 0), HomeLines(base, routes, controlPlane);
    var last := [Line(2, ["respond", NO_CLUSTER, "503"])];
    MatcherNamesOfBoth(gate + routing + home, last);
    MatcherNamesOfBoth(gate + routing, home);
    MatcherNamesOfBoth(gate, routing);
    MatcherNamesOfRoutes(Sorted(routes), 0);
    assert "respond"[0] == 'r' && "reverse_proxy"[0] == 'r' && "@ui"[1] == 'u' && "@blocked"[1] == 'b';
    assert MatcherNames(last) == [];
    GateAndHomeNames(base, cidrs, routes, controlPlane);
    NamesOnce(MatcherNames(gate), MatcherNames(routing), MatcherNames(home), i, j);
  }

  lemma NamesOnce(gate: seq<string>, routing: seq<string>, home: seq<string>, i: nat, j: nat)
    requires gate == [] || gate == ["@blocked"]
    requires home == [] || home == ["@ui"]
    requires forall k: nat :: k < |routing| ==> routing[k] == Matcher(k)
    requires i < j < |gate + routing + home|
    ensures (gate + routing + home)[i] != (gate + routing + home)[j]
  {
    var k, l: int := i - |gate|, j - |gate|;
    var names := gate + routing + home;
    assert names[i] == if k < 0 then "@blocked" else if k < |routing| then Matcher(k) else "@ui";
    assert names[j] == if l < |routing| then Matcher(l) else "@ui";
    assert "@ui"[1] == 'u' && "@blocked"[1] == 'b';
    if 0 <= k < |routing| { MatchersDiffer(k, k); }
    if 0 <= l < |routing| { MatchersDiffer(l, l); }
    if 0 <= k < |routing| && 0 <= l < |routing| { MatchersDiffer(k, l); }
  }

  lemma NamesOfTwo(name: string, a: Line, b: Line)
    requires Names(a) && a.words[0] == name && !Names(b)
    ensures MatcherNames([a, b]) == [name]
  {
    var lines := [a, b];
    assert lines[1..] == [b] && [b][1..] == [];
    assert MatcherNames([]) == [] && MatcherNames([b]) == [];
  }

  lemma GateAndHomeNames(base: string, cidrs: seq<string>, routes: seq<Route>, controlPlane: string)
    ensures MatcherNames(GateLines(cidrs)) == if cidrs == [] then [] else ["@blocked"]
    ensures MatcherNames(HomeLines(base, routes, controlPlane)) == if HasHost(routes, base) then [] else ["@ui"]
  {
    assert "respond"[0] == 'r' && "reverse_proxy"[0] == 'r' && "@ui"[0] == '@' && "@blocked"[0] == '@';
    if cidrs != [] {
      var words := ["@blocked", "not", "remote_ip"] + cidrs;
      assert words[0] == "@blocked";
      NamesOfTwo("@blocked", Line(2, words), Line(2, ["respond", "@blocked", FORBIDDEN, "403"]));
    }
    if !HasHost(routes, base) {
      NamesOfTwo("@ui", Line(2, ["@ui", "host", base]), Line(2, ["reverse_proxy", "@ui", controlPlane]));
    }
  }

  // ----- Site addresses -----

  /** The host is one label, a dot, and the domain. */
  predicate OneLabelUnder(host: string, domain: string) {
    EndsWith(host, "." + domain) && |host| > |domain| + 1 && '.' !in host[..|host| - |domain| - 1]
  }

  predicate Covers(name: string, host: string) {
    name == host || (|name| >= 2 && name[..2] == "*." && OneLabelUnder(host, name[2..]))
  }

  predicate Covered(names: seq<string>, host: string) {
    exists i :: 0 <= i < |names| && Covers(names[i], host)
  }

  lemma {:induction false} SiteNamesAre(base: string, routes: seq<Route>)
    ensures |SiteNames(base, routes)| >= 2 && SiteNames(base, routes)[0] == "*." + base &&
      SiteNames(base, routes)[1] == base
    ensures forall i :: 2 <= i < |SiteNames(base, routes)| ==> !EndsWith(SiteNames(base, routes)[i], "." + base)
    ensures forall i :: 0 <= i < |routes| && routes[i].host != base && !EndsWith(routes[i].host, "." + base) ==>
      routes[i].host in SiteNames(base, routes)
  {
    if routes != [] {
      SiteNamesAre(base, routes[..|routes| - 1]);
    }
  }

  lemma WildcardsStayOutside(name: string, host: string, base: string)
    requires |name| >= 2 && name[..2] == "*." && OneLabelUnder(host, name[2..]) && EndsWith(host, "." + base)
    ensures EndsWith(name, "." + base)
  {
    var domain, dot := name[2..], |host| - |base| - 1;
    assert host[dot] == ("." + base)[0] by { assert host[dot..][0] == host[dot]; }
    var first := host[..|host| - |domain| - 1];
    assert forall k :: 0 <= k < |first| ==> first[k] in first && host[k] == first[k];
    assert dot >= |first|;
    assert name[1..] == "." + domain;
    EndOfEnd(host, |first|, name[1..], dot, "." + base);
  }

  lemma EndOfEnd(s: string, i: nat, a: string, j: nat, b: string)
    requires i <= j <= |s| && s[i..] == a && s[j..] == b
    ensures |b| <= |a| && a[|a| - |b|..] == b
  {
    assert s[i..][j - i..] == s[j..];
  }

  /** A routed host has a site address exactly when it is the base domain, one label under it, or outside it. */
  lemma RoutedHostsAreCovered(base: string, routes: seq<Route>, host: string)
    requires HasHost(routes, host)
    ensures Covered(SiteNames(base, routes), host) <==>
      host == base || OneLabelUnder(host, base) || !EndsWith(host, "." + base)
  {
    var names := SiteNames(base, routes);
    SiteNamesAre(base, routes);
    hide SiteNames;
    if host == base {
      assert Covers(names[1], host);
    } else if OneLabelUnder(host, base) {
      assert names[0][..2] == "*." && names[0][2..] == base;
      assert Covers(names[0], host);
    } else if !EndsWith(host, "." + base) {
      var i :| 0 <= i < |names| && names[i] == host;
      assert Covers(names[i], host);
    } else {
      forall i | 0 <= i < |names| ensures !Covers(names[i], host) { OthersDoNotCover(base, names[i], host, i == 0); }
    }
  }

  lemma OthersDoNotCover(base: string, name: string, host: string, wildcard: bool)
    requires if wildcard then name == "*." + base else name == base || !EndsWith(name, "." + base)
    requires host != base && !OneLabelUnder(host, base) && EndsWith(host, "." + base)
    ensures !Covers(name, host)
  {
    if wildcard {
      assert name[..2] == "*." && name[2..] == base && name[1..] == "." + base && name[..1] == "*";
    } else if |name| >= 2 && name[..2] == "*." && OneLabelUnder(host, name[2..]) {
      WildcardsStayOutside(name, host, base);
    }
  }
}
