/** The ingress rules that a cluster's security group is given, and their removal. */
module SecurityGroups {
  import opened Options

  datatype Source = Group(id: string) | Address(cidr: string)

  datatype Traffic = AllTraffic | Tcp(port: nat)

  /** Members of group accept this traffic from that source. */
  datatype Rule = Rule(group: string, traffic: Traffic, source: Source)

  /** One permission on one group, as it is authorized or revoked. */
  datatype Request = Request(group: string, traffic: Traffic, sources: seq<Source>)

  datatype Answer = Done | Duplicate | NotFound | Refused(code: string)

  /** What the service refuses, and with which code, for reasons of its own. */
  type Faults = Request -> Option<string>

  /** The codes by which a clean-up takes a rule, or its group, to be gone already. */
  const MISSING_CODES := {"InvalidPermission.NotFound", "InvalidGroup.NotFound", "InvalidGroupId.Malformed"}

  const TRINO_HTTP_PORT := 8080
  const NODE_CONFIG_PORT := 8000

  function RulesOf(request: Request): set<Rule> {
    set source | source in request.sources :: Rule(request.group, request.traffic, source)
  }

  // ----- The service -----

  function AuthorizeAnswer(rules: set<Rule>, request: Request, faults: Faults): Answer {
    if faults(request).Some? then Refused(faults(request).value)
    else if RulesOf(request) * rules != {} then Duplicate
    else Done
  }

  function Authorized(rules: set<Rule>, request: Request, faults: Faults): set<Rule> {
    if AuthorizeAnswer(rules, request, faults) == Done then rules + RulesOf(request) else rules
  }

  function RevokeAnswer(rules: set<Rule>, request: Request, faults: Faults): Answer {
    if faults(request).Some? then Refused(faults(request).value)
    else if RulesOf(request) <= rules then Done
    else NotFound
  }

  function Revoked(rules: set<Rule>, request: Request, faults: Faults): set<Rule> {
    if faults(request).Some? then rules else rules - RulesOf(request)
  }

  /** The rules of an account; one request takes effect as a whole or not at all. */
  class Ec2 {
    var rules: set<Rule>
    /** The ids of the groups of a network, by name. */
    var groups: map<string, string>
    const faults: Faults

    constructor (rules: set<Rule>, faults: Faults)
      ensures this.rules == rules && this.groups == map[] && this.faults == faults
    {
      this.rules, this.groups, this.faults := rules, map[], faults;
    }

    method Authorize(request: Request) returns (answer: Answer)
      modifies this`rules
      ensures answer == AuthorizeAnswer(old(rules), request, faults)
      ensures rules == Authorized(old(rules), request, faults)
    {
      if faults(request).Some? { return Refused(faults(request).value); }
      if RulesOf(request) * rules != {} { return Duplicate; }
      rules := rules + RulesOf(request);
      answer := Done;
    }

    method Revoke(request: Request) returns (answer: Answer)
      modifies this`rules
      ensures answer == RevokeAnswer(old(rules), request, faults)
      ensures rules == Revoked(old(rules), request, faults)
    {
      if faults(request).Some? { return Refused(faults(request).value); }
      answer := if RulesOf(request) <= rules then Done else NotFound;
      rules := rules - RulesOf(request);
    }
  }

  // ----- Setting up -----

  /** What the control plane finds out about itself: its groups, and its address ("" when unknown). */
  datatype Network = Network(groupIds: seq<string>, address: string)

  datatype Ingress = ViaGroups(groupIds: seq<string>, duplicate: bool) | ViaCidr(cidr: string,
    duplicate: bool) | NotAuthorized

  datatype Failure = Failure(groupId: string, code: string)

  datatype NodeIngress =
    | NodeIngress(authorized: bool, targets: seq<string>, nodeGroup: string, port: nat, duplicates: seq<string>,
      failed: seq<Failure>)
    | Undiscoverable

  datatype Metadata = Metadata(groupId: string, controlPlane: Ingress, nodes: NodeIngress)

  function Sources(groupIds: seq<string>): seq<Source> {
    seq(|groupIds|, i requires 0 <= i < |groupIds| => Group(groupIds[i]))
  }

  function SelfRequest(group: string): Request {
    Request(group, AllTraffic, [Group(group)])
  }

  function GroupsRequest(group: string, groupIds: seq<string>): Request {
    Request(group, Tcp(TRINO_HTTP_PORT), Sources(groupIds))
  }

  function AddressRequest(group: string, cidr: string): Request {
    Request(group, Tcp(TRINO_HTTP_PORT), [Address(cidr)])
  }

  function NodeRequest(target: string, port: nat, node: string): Request {
    Request(target, Tcp(port), [Group(node)])
  }

  function Cidr(network: Network): string {
    network.address + "/32"
  }

  /** Whether the rules let the control plane in by its groups, by its address, or not at all. */
  function ControlPlaneIngress(rules: set<Rule>, group: string, network: Network, faults: Faults): Ingress {
    if network.groupIds != [] && faults(GroupsRequest(group, network.groupIds)).None? then
      ViaGroups(network.groupIds, AuthorizeAnswer(rules, GroupsRequest(group, network.groupIds), faults) == Duplicate)
    else if network.address != "" && faults(AddressRequest(group, Cidr(network))).None? then
      ViaCidr(Cidr(network), AuthorizeAnswer(rules, AddressRequest(group, Cidr(network)), faults) == Duplicate)
    else NotAuthorized
  }

  function WithControlPlane(rules: set<Rule>, group: string, network: Network, faults: Faults): set<Rule> {
    match ControlPlaneIngress(rules, group, network, faults)
    case ViaGroups(groupIds, _) => Authorized(rules, GroupsRequest(group, groupIds), faults)
    case ViaCidr(cidr, _) => Authorized(rules, AddressRequest(group, cidr), faults)
    case NotAuthorized => rules
  }

  method AuthorizeControlPlaneIngress(ec2: Ec2, group: string, network: Network) returns (ingress: Ingress)
    modifies ec2`rules
    ensures ingress == ControlPlaneIngress(old(ec2.rules), group, network, ec2.faults)
    ensures ec2.rules == WithControlPlane(old(ec2.rules), group, network, ec2.faults)
  {
    if network.groupIds != [] {
      var answer := ec2.Authorize(GroupsRequest(group, network.groupIds));
      if answer == Done || answer == Duplicate { return ViaGroups(network.groupIds, answer == Duplicate); }
    }
    if network.address != "" {
      var answer := ec2.Authorize(AddressRequest(group, Cidr(network)));
      if answer == Done || answer == Duplicate { return ViaCidr(Cidr(network), answer == Duplicate); }
    }
    ingress := NotAuthorized;
  }

  /** The rules that let the node group's members fetch their configuration, where they are not refused. */
  function NodeRules(targets: seq<string>, port: nat, node: string, faults: Faults): set<Rule> {
    set target | target in targets &&
      faults(NodeRequest(target, port, node)).None? :: Rule(target, Tcp(port), Group(node))
  }

  /** The targets that refuse, in their order. */
  function NodeFailures(targets: seq<string>, port: nat, node: string, faults: Faults): seq<Failure> {
    if targets == [] then []
    else
      var target := targets[|targets| - 1];
      var fault := faults(NodeRequest(target, port, node));
      NodeFailures(targets[..|targets| - 1], port, node, faults) +
        if fault.Some? then [Failure(target, fault.value)] else []
  }

  /** The targets that had the rule when their turn came. */
  function NodeDuplicates(rules: set<Rule>, targets: seq<string>, port: nat, node: string,
      faults: Faults): seq<string> {
    if targets == [] then []
    else
      var target, before := targets[|targets| - 1], targets[..|targets| - 1];
      NodeDuplicates(rules, before, port, node, faults) +
        if AuthorizeAnswer(rules + NodeRules(before, port, node, faults), NodeRequest(target, port, node),
          faults) == Duplicate then [target] else []
  }

  function NodesToControlPlane(rules: set<Rule>, node: string, targets: seq<string>, port: nat,
      faults: Faults): NodeIngress {
    if targets == [] then Undiscoverable
    else
      NodeIngress(NodeRules(targets, port, node, faults) != {}, targets, node, port,
                  NodeDuplicates(rules, targets, port, node, faults), NodeFailures(targets, port, node, faults))
  }

  lemma OneMoreTarget(rules: set<Rule>, targets: seq<string>, i: nat, port: nat, node: string, faults: Faults)
    requires i < |targets|
    ensures var request, before := NodeRequest(targets[i], port, node),
      rules + NodeRules(targets[..i], port, node, faults);
      var answer := AuthorizeAnswer(before, request, faults);
      && rules + NodeRules(targets[..i + 1], port, node, faults) == Authorized(before, request, faults)
      && (NodeRules(targets[..i + 1], port, node, faults) != {} <==>
        NodeRules(targets[..i], port, node, faults) != {} || !answer.Refused?)
      && NodeDuplicates(rules, targets[..i + 1], port, node, faults) ==
         NodeDuplicates(rules, targets[..i], port, node, faults) + (if answer == Duplicate then [targets[i]] else [])
      && NodeFailures(targets[..i + 1], port, node, faults) ==
         NodeFailures(targets[..i], port, node, faults) +
           if answer.Refused? then [Failure(targets[i], answer.code)] else []
  {
    assert targets[..i + 1][..i] == targets[..i];
    assert targets[..i + 1] == targets[..i] + [targets[i]];
    var rule := Rule(targets[i], Tcp(port), Group(node));
    assert RulesOf(NodeRequest(targets[i], port, node)) == {rule};
    assert NodeRules(targets[..i + 1], port, node, faults) ==
      NodeRules(targets[..i], port, node, faults) +
      if faults(NodeRequest(targets[i], port, node)).None? then {rule} else {};
  }

  method AuthorizeNodesToControlPlane(ec2: Ec2, node: string, targets: seq<string>,
      port: nat) returns (ingress: NodeIngress)
    modifies ec2`rules
    ensures ec2.rules == old(ec2.rules) + NodeRules(targets, port, node, ec2.faults)
    ensures ingress == NodesToControlPlane(old(ec2.rules), node, targets, port, ec2.faults)
  {
    if targets == [] { return Undiscoverable; }
    var authorized, duplicates, failed := [], [], [];
    assert NodeRules(targets[..0], port, node, ec2.faults) == {};
    for i := 0 to |targets|
      invariant ec2.rules == old(ec2.rules) + NodeRules(targets[..i], port, node, ec2.faults)
      invariant duplicates == NodeDuplicates(old(ec2.rules), targets[..i], port, node, ec2.faults)
      invariant failed == NodeFailures(targets[..i], port, node, ec2.faults)
      invariant authorized != [] || duplicates != [] <==> NodeRules(targets[..i], port, node, ec2.faults) != {}
    {
      OneMoreTarget(old(ec2.rules), targets, i, port, node, ec2.faults);
      hide NodeRules, NodeDuplicates, NodeFailures, RulesOf, Authorized;
      var answer := ec2.Authorize(NodeRequest(targets[i], port, node));
      match answer
      case Done => authorized := authorized + [targets[i]];
      case Duplicate => duplicates := duplicates + [targets[i]];
      case Refused(code) => failed := failed + [Failure(targets[i], code)];
      case NotFound =>
    }
    assert targets[..|targets|] == targets;
    ingress := NodeIngress(authorized != [] || duplicates != [], targets, node, port, duplicates, failed);
  }

  /** The rules once a cluster's group is set up; the network is looked at twice, so the two views may differ. */
  function Ensured(rules: set<Rule>, group: string, network: Network, targets: seq<string>, faults: Faults): set<Rule> {
    WithControlPlane(Authorized(rules, SelfRequest(group), faults), group, network, faults) + NodeRules(targets,
      NODE_CONFIG_PORT, group, faults)
  }

  /** What the caller is told; nothing, when even the group's own rule is refused. */
  function EnsuredMetadata(rules: set<Rule>, group: string, network: Network, targets: seq<string>,
      faults: Faults): Option<Metadata> {
    if faults(SelfRequest(group)).Some? then None
    else
      var own := Authorized(rules, SelfRequest(group), faults);
      Some(Metadata(group, ControlPlaneIngress(own, group, network, faults),
                    NodesToControlPlane(WithControlPlane(own, group, network, faults),
                      group, targets, NODE_CONFIG_PORT, faults)))
  }

  method AuthorizeManagedGroup(ec2: Ec2, group: string, network: Network,
      targets: seq<string>) returns (metadata: Option<Metadata>)
    modifies ec2`rules
    ensures metadata == EnsuredMetadata(old(ec2.rules), group, network, targets, ec2.faults)
    ensures ec2.rules == if metadata.Some? then Ensured(old(ec2.rules), group, network, targets,
      ec2.faults) else old(ec2.rules)
  {
    var answer := ec2.Authorize(SelfRequest(group));
    if answer != Done && answer != Duplicate { return None; }
    var controlPlane := AuthorizeControlPlaneIngress(ec2, group, network);
    var nodes := AuthorizeNodesToControlPlane(ec2, group, targets, NODE_CONFIG_PORT);
    metadata := Some(Metadata(group, controlPlane, nodes));
  }

  /** Finds the group of that name or creates it, under the id that the service gives, and authorizes what it needs. */
  method EnsureManagedSecurityGroup(ec2: Ec2, name: string, newId: string, network: Network, targets: seq<string>)
    returns (created: bool, metadata: Option<Metadata>)
    modifies ec2
    ensures created <==> name !in old(ec2.groups)
    ensures ec2.groups == if created then old(ec2.groups)[name := newId] else old(ec2.groups)
    ensures metadata == EnsuredMetadata(old(ec2.rules), ec2.groups[name], network, targets, ec2.faults)
    ensures ec2.rules == if metadata.Some? then Ensured(old(ec2.rules), ec2.groups[name], network, targets,
      ec2.faults) else old(ec2.rules)
  {
    created := name !in ec2.groups;
    if created { ec2.groups := ec2.groups[name := newId]; }
    metadata := AuthorizeManagedGroup(ec2, ec2.groups[name], network, targets);
  }

  // ----- Taking down -----

  datatype Revocation = Revocation(rule: string, request: Request)

  datatype Report = Report(revoked: seq<Revocation>, missing: seq<Revocation>, failed: seq<Revocation>)

  function NonEmpty(s: seq<string>): seq<string> {
    if s == [] then [] else NonEmpty(s[..|s| - 1]) + if s[|s| - 1] != "" then [s[|s| - 1]] else []
  }

  function ControlPlaneRevocations(group: string, ingress: Ingress): seq<Revocation> {
    match ingress
    case ViaGroups(groupIds, _) =>
      if NonEmpty(groupIds) == [] then []
      else [Revocation("control_plane_to_coordinator", GroupsRequest(group, NonEmpty(groupIds)))]
    case ViaCidr(cidr, _) =>
      if cidr == "" then [] else [Revocation("control_plane_to_coordinator", AddressRequest(group, cidr))]
    case NotAuthorized => []
  }

  function NodeRevocations(targets: seq<string>, port: nat, node: string): seq<Revocation> {
    if targets == [] then []
    else
      var target, before := targets[|targets| - 1], NodeRevocations(targets[..|targets| - 1], port, node);
      if target == "" then before else before + [Revocation("nodes_to_control_plane", NodeRequest(target, port, node))]
  }

  /** The requests that a clean-up makes, in order. */
  function Revocations(group: string, metadata: Metadata): seq<Revocation> {
    [Revocation("node_self_ingress", SelfRequest(group))]
    + ControlPlaneRevocations(group, metadata.controlPlane)
    + if metadata.nodes.Undiscoverable? then []
      else NodeRevocations(metadata.nodes.targets,
        if metadata.nodes.port == 0 then NODE_CONFIG_PORT else metadata.nodes.port,
                           if metadata.nodes.nodeGroup == "" then group else metadata.nodes.nodeGroup)
  }

  /** The rules that the requests name and the service lets go. */
  function Removed(revocations: seq<Revocation>, faults: Faults): set<Rule> {
    set revocation, rule | revocation in revocations && faults(revocation.request).None? &&
      rule in RulesOf(revocation.request) :: rule
  }

  /** The service refuses the request, and not because the rule or its group is gone. */
  predicate Fails(request: Request, faults: Faults) {
    faults(request).Some? && faults(request).value !in MISSING_CODES
  }

  /** The service refuses it because the rule or its group is gone. */
  predicate SaidMissing(request: Request, faults: Faults) {
    faults(request).Some? && faults(request).value in MISSING_CODES
  }

  /** The requests that fail, in order. */
  function Failing(revocations: seq<Revocation>, faults: Faults): seq<Revocation> {
    if revocations == [] then []
    else
      Failing(revocations[..|revocations| - 1], faults) +
        if Fails(revocations[|revocations| - 1].request, faults) then [revocations[|revocations| - 1]] else []
  }

  /** How a revocation ends, when these are the rules: revoked when they hold all that
      it names; missing when they do not, or when the service says by one of three codes
      that the rule or its group is gone; failed for any other code. */
  datatype Verdict = IsRevoked | IsMissing | IsFailed

  ghost function VerdictOn(rules: set<Rule>, request: Request, faults: Faults): Verdict {
    match faults(request)
    case Some(code) =>
      if code == "InvalidPermission.NotFound" || code == "InvalidGroup.NotFound" || code == "InvalidGroupId.Malformed"
      then IsMissing else IsFailed
    case None =>
      if forall i :: 0 <= i < |request.sources| ==> Rule(request.group, request.traffic, request.sources[i]) in rules
      then IsRevoked else IsMissing
  }

  /** Those of the revocations that end in this way, in order, each with the rules that the ones before it leave. */
  ghost function EndingIn(verdict: Verdict, done: seq<Revocation>, before: set<Rule>, faults: Faults): seq<Revocation> {
    if done == [] then []
    else
      var init, last := done[..|done| - 1], done[|done| - 1];
      EndingIn(verdict, init, before, faults) +
        if VerdictOn(before - Removed(init, faults), last.request, faults) == verdict then [last] else []
  }

  /** The report files each of these revocations once, by how it ended, and the rules are what they leave. */
  ghost predicate Filed(done: seq<Revocation>, report: Report, before: set<Rule>, after: set<Rule>, faults: Faults) {
    && after == before - Removed(done, faults)
    && report.failed == Failing(done, faults)
    && report.revoked == EndingIn(IsRevoked, done, before, faults)
    && report.missing == EndingIn(IsMissing, done, before, faults)
    && report.failed == EndingIn(IsFailed, done, before, faults)
    && multiset(report.revoked) + multiset(report.missing) + multiset(report.failed) == multiset(done)
  }

  lemma OneMoreRemoved(before: set<Rule>, done: seq<Revocation>, revocation: Revocation, faults: Faults)
    ensures before - Removed(done + [revocation], faults) ==
      Revoked(before - Removed(done, faults), revocation.request, faults)
    ensures Failing(done + [revocation], faults) ==
            Failing(done, faults) + if Fails(revocation.request, faults) then [revocation] else []
  {
    assert (done + [revocation])[..|done|] == done;
    assert Removed(done + [revocation], faults) ==
           Removed(done, faults) + if faults(revocation.request).None? then RulesOf(revocation.request) else {};
  }

  function WithAnswer(report: Report, revocation: Revocation, answer: Answer): Report {
    match answer
    case NotFound => report.(missing := report.missing + [revocation])
    case Refused(code) =>
      if code in MISSING_CODES then report.(missing := report.missing + [revocation])
      else report.(failed := report.failed + [revocation])
    case _ => report.(revoked := report.revoked + [revocation])
  }

  lemma AnswerIsVerdict(rules: set<Rule>, revocation: Revocation, report: Report, faults: Faults)
    ensures var verdict := VerdictOn(rules, revocation.request, faults);
      WithAnswer(report, revocation, RevokeAnswer(rules, revocation.request, faults)) == Report(
        report.revoked + (if verdict == IsRevoked then [revocation] else []),
        report.missing + (if verdict == IsMissing then [revocation] else []),
        report.failed + (if verdict == IsFailed then [revocation] else []))
    ensures VerdictOn(rules, revocation.request, faults) == IsFailed <==> Fails(revocation.request, faults)
  {
    var request := revocation.request;
    assert RulesOf(request) <= rules <==> forall i :: 0 <= i < |request.sources| ==>
      Rule(request.group, request.traffic, request.sources[i]) in rules;
  }

  lemma OneMoreEnding(verdict: Verdict, done: seq<Revocation>,
      revocation: Revocation, before: set<Rule>, faults: Faults)
    ensures EndingIn(verdict, done + [revocation], before, faults) ==
      EndingIn(verdict, done, before, faults) +
        if VerdictOn(before - Removed(done, faults), revocation.request, faults) == verdict then [revocation] else []
  {
    hide VerdictOn, Removed;
    assert (done + [revocation])[..|done|] == done;
  }

  lemma AddedOnce(a: seq<Revocation>, b: seq<Revocation>, c: seq<Revocation>, revocation: Revocation)
    ensures var all := multiset(a) + multiset(b) + multiset(c) + multiset{revocation};
      && multiset(a + [revocation]) + multiset(b + []) + multiset(c + []) == all
      && multiset(a + []) + multiset(b + [revocation]) + multiset(c + []) == all
      && multiset(a + []) + multiset(b + []) + multiset(c + [revocation]) == all
  {}

  lemma OneMoreFiled(done: seq<Revocation>, revocation: Revocation, report: Report, before: set<Rule>,
      after: set<Rule>, faults: Faults)
    requires Filed(done, report, before, after, faults)
    ensures Filed(done + [revocation], WithAnswer(report, revocation, RevokeAnswer(after, revocation.request, faults)),
                  before, Revoked(after, revocation.request, faults), faults)
  {
    hide Removed, Failing, RulesOf, Revoked, RevokeAnswer, VerdictOn, WithAnswer, EndingIn, Fails;
    OneMoreRemoved(before, done, revocation, faults);
    AnswerIsVerdict(after, revocation, report, faults);
    OneMoreEnding(IsRevoked, done, revocation, before, faults);
    OneMoreEnding(IsMissing, done, revocation, before, faults);
    OneMoreEnding(IsFailed, done, revocation, before, faults);
    AddedOnce(report.revoked, report.missing, report.failed, revocation);
    assert multiset(done + [revocation]) == multiset(done) + multiset{revocation};
  }

  /** Tries one revocation and files it. */
  method Revoke(ec2: Ec2, revocation: Revocation, report: Report, ghost done: seq<Revocation>, ghost before: set<Rule>)
    returns (longer: Report)
    requires Filed(done, report, before, ec2.rules, ec2.faults)
    modifies ec2`rules
    ensures Filed(done + [revocation], longer, before, ec2.rules, ec2.faults)
  {
    OneMoreFiled(done, revocation, report, before, ec2.rules, ec2.faults);
    hide Filed, Revoked, RevokeAnswer;
    var answer := ec2.Revoke(revocation.request);
    longer := WithAnswer(report, revocation, answer);
  }

  method RevokeControlPlane(ec2: Ec2, group: string, ingress: Ingress, report: Report, ghost done: seq<Revocation>,
      ghost before: set<Rule>)
    returns (longer: Report)
    requires Filed(done, report, before, ec2.rules, ec2.faults)
    modifies ec2`rules
    ensures Filed(done + ControlPlaneRevocations(group, ingress), longer, before, ec2.rules, ec2.faults)
  {
    hide Filed, NonEmpty;
    assert done + [] == done;
    longer := report;
    match ingress
    case ViaGroups(groupIds, _) =>
      if NonEmpty(groupIds) != [] {
        longer := Revoke(ec2, Revocation("control_plane_to_coordinator", GroupsRequest(group, NonEmpty(groupIds))),
          report, done, before);
      }
    case ViaCidr(cidr, _) =>
      if cidr != "" {
        longer := Revoke(ec2, Revocation("control_plane_to_coordinator", AddressRequest(group, cidr)),
          report, done, before);
      }
    case NotAuthorized =>
  }

  method RevokeNodes(ec2: Ec2, targets: seq<string>, port: nat, node: string, report: Report,
      ghost done: seq<Revocation>, ghost before: set<Rule>)
    returns (longer: Report)
    requires Filed(done, report, before, ec2.rules, ec2.faults)
    modifies ec2`rules
    ensures Filed(done + NodeRevocations(targets, port, node), longer, before, ec2.rules, ec2.faults)
  {
    hide Filed;
    longer := report;
    assert done + NodeRevocations([], port, node) == done;
    for i := 0 to |targets|
      invariant Filed(done + NodeRevocations(targets[..i], port, node), longer, before, ec2.rules, ec2.faults)
    {
      assert targets[..i + 1][..i] == targets[..i];
      if targets[i] != "" {
        var revocation := Revocation("nodes_to_control_plane", NodeRequest(targets[i], port, node));
        longer := Revoke(ec2, revocation, longer, done + NodeRevocations(targets[..i], port, node), before);
        assert done + NodeRevocations(targets[..i + 1], port, node) ==
          done + NodeRevocations(targets[..i], port, node) + [revocation];
      }
    }
    assert targets[..|targets|] == targets;
  }

  method CleanupManagedSecurityGroupRules(ec2: Ec2, group: string, metadata: Metadata) returns (report: Report)
    modifies ec2`rules
    ensures Filed(Revocations(group, metadata), report, old(ec2.rules), ec2.rules, ec2.faults)
  {
    ghost var before := ec2.rules;
    var self := Revocation("node_self_ingress", SelfRequest(group));
    report := Report([], [], []);
    assert Filed([], report, before, before, ec2.faults);
    hide Filed, ControlPlaneRevocations, NodeRevocations;
    report := Revoke(ec2, self, report, [], before);
    assert [] + [self] == [self];
    report := RevokeControlPlane(ec2, group, metadata.controlPlane, report, [self], before);
    ghost var done := [self] + ControlPlaneRevocations(group, metadata.controlPlane);
    assert done + [] == done;
    if metadata.nodes.NodeIngress? {
      report := RevokeNodes(
        ec2, metadata.nodes.targets, if metadata.nodes.port == 0 then NODE_CONFIG_PORT else metadata.nodes.port,
        if metadata.nodes.nodeGroup == "" then group else metadata.nodes.nodeGroup, report, done, before);
    }
  }

  // ----- Undoing -----

  /** The rules that the clean-up asks to remove. */
  ghost function Named(metadata: Metadata): set<Rule> {
    NamedBy(Revocations(metadata.groupId, metadata))
  }

  ghost function NamedBy(revocations: seq<Revocation>): set<Rule> {
    set revocation, rule | revocation in revocations && rule in RulesOf(revocation.request) :: rule
  }

  /** A network's groups as they are found: no empty names. */
  predicate Clean(groupIds: seq<string>) {
    "" !in groupIds
  }

  /** No rule is about the group, on either side. */
  ghost predicate Unmentioned(rules: set<Rule>, group: string) {
    forall rule :: rule in rules ==> rule.group != group && rule.source != Group(group)
  }

  function ControlPlaneRules(group: string, ingress: Ingress): set<Rule> {
    match ingress
    case ViaGroups(groupIds, _) => RulesOf(GroupsRequest(group, groupIds))
    case ViaCidr(cidr, _) => RulesOf(AddressRequest(group, cidr))
    case NotAuthorized => {}
  }

  function AllNodeRules(targets: seq<string>, node: string): set<Rule> {
    set target | target in targets :: Rule(target, Tcp(NODE_CONFIG_PORT), Group(node))
  }

  lemma {:induction false} NonEmptyOfClean(groupIds: seq<string>)
    requires Clean(groupIds)
    ensures NonEmpty(groupIds) == groupIds
  {
    if groupIds != [] {
      var before := groupIds[..|groupIds| - 1];
      assert groupIds == before + [groupIds[|groupIds| - 1]];
      NonEmptyOfClean(before);
    }
  }

  lemma NamedByBoth(a: seq<Revocation>, b: seq<Revocation>)
    ensures NamedBy(a + b) == NamedBy(a) + NamedBy(b)
  {}

  lemma NamedByOne(revocation: Revocation)
    ensures NamedBy([revocation]) == RulesOf(revocation.request)
  {
    assert revocation in [revocation];
  }

  lemma {:induction false} NodesNamed(targets: seq<string>, node: string)
    requires Clean(targets)
    ensures NamedBy(NodeRevocations(targets, NODE_CONFIG_PORT, node)) == AllNodeRules(targets, node)
  {
    if targets != [] {
      var before, last := targets[..|targets| - 1], targets[|targets| - 1];
      assert targets == before + [last];
      NodesNamed(before, node);
      var revocation := Revocation("nodes_to_control_plane", NodeRequest(last, NODE_CONFIG_PORT, node));
      NamedByBoth(NodeRevocations(before, NODE_CONFIG_PORT, node), [revocation]);
      NamedByOne(revocation);
      assert RulesOf(revocation.request) == {Rule(last, Tcp(NODE_CONFIG_PORT), Group(node))};
    }
  }

  lemma WaysNamed(group: string, ingress: Ingress)
    requires ingress.ViaGroups? ==> Clean(ingress.groupIds) && ingress.groupIds != []
    requires ingress.ViaCidr? ==> ingress.cidr != ""
    ensures NamedBy(ControlPlaneRevocations(group, ingress)) == ControlPlaneRules(group, ingress)
  {
    if ingress.ViaGroups? { NonEmptyOfClean(ingress.groupIds); }
    if !ingress.NotAuthorized? { NamedByOne(ControlPlaneRevocations(group, ingress)[0]); }
  }

  lemma FailingNone(revocations: seq<Revocation>, faults: Faults, revocation: Revocation)
    requires Failing(revocations, faults) == [] && revocation in revocations
    ensures !Fails(revocation.request, faults)
  {
    var before, last := revocations[..|revocations| - 1], revocations[|revocations| - 1];
    assert revocations == before + [last];
    if revocation != last { FailingNone(before, faults, revocation); }
  }

  /** What the clean-up names: the group's own rule, the control
      plane's, and one for each of the control plane's groups. */
  lemma NamedRules(rules: set<Rule>, group: string, network: Network, targets: seq<string>, faults: Faults)
    requires EnsuredMetadata(rules, group, network, targets, faults).Some? && Clean(network.groupIds) && Clean(targets)
    ensures var metadata := EnsuredMetadata(rules, group, network, targets, faults).value;
      Named(metadata) == RulesOf(SelfRequest(group)) + ControlPlaneRules(group,
        metadata.controlPlane) + AllNodeRules(targets, group)
  {
    var metadata := EnsuredMetadata(rules, group, network, targets, faults).value;
    var ingress, nodes := metadata.controlPlane, NodeRevocations(targets, NODE_CONFIG_PORT, group);
    var self, ways := Revocation("node_self_ingress", SelfRequest(group)), ControlPlaneRevocations(group, ingress);
    assert Revocations(group, metadata) == [self] + ways + nodes;
    WaysNamed(group, ingress);
    hide Revocations, NodeRevocations, EnsuredMetadata,
      ControlPlaneRevocations, ControlPlaneRules, NamedBy, AllNodeRules, RulesOf;
    NodesNamed(targets, group);
    NamedByOne(self);
    NamedByBoth([self], ways);
    NamedByBoth([self] + ways, nodes);
  }

  lemma EnsuredAddsNamed(rules: set<Rule>, group: string, network: Network, targets: seq<string>, faults: Faults)
    requires EnsuredMetadata(rules, group, network, targets, faults).Some? && Clean(network.groupIds) && Clean(targets)
    ensures rules <= Ensured(rules, group, network, targets, faults)
    ensures Ensured(rules, group, network, targets, faults) <= rules +
      Named(EnsuredMetadata(rules, group, network, targets, faults).value)
  {
    NamedRules(rules, group, network, targets, faults);
    assert NodeRules(targets, NODE_CONFIG_PORT, group, faults) <= AllNodeRules(targets, group);
  }

  /** Nothing is in the report's failures, and what the service says is gone is gone. */
  ghost predicate CleansUp(before: set<Rule>, metadata: Metadata, faults: Faults) {
    var revocations := Revocations(metadata.groupId, metadata);
    && Failing(revocations, faults) == []
    && forall revocation :: revocation in revocations && SaidMissing(revocation.request, faults) ==>
      RulesOf(revocation.request) !! before
  }

  /** Setting up and cleaning up without a failure leaves what was there, less what the clean-up names;
      so it leaves exactly what was there if and only if none of those rules was there before. */
  lemma CleanupUndoesEnsure(rules: set<Rule>, group: string,
      network: Network, targets: seq<string>, faults: Faults, later: Faults)
    requires EnsuredMetadata(rules, group, network, targets, faults).Some? && Clean(network.groupIds) && Clean(targets)
    requires CleansUp(Ensured(rules, group, network, targets, faults),
      EnsuredMetadata(rules, group, network, targets, faults).value, later)
    ensures var metadata := EnsuredMetadata(rules, group, network, targets, faults).value;
      var after := Ensured(rules, group, network, targets, faults) - Removed(Revocations(group, metadata), later);
      after == rules - Named(metadata) && (after == rules <==> rules !! Named(metadata))
  {
    var metadata := EnsuredMetadata(rules, group, network, targets, faults).value;
    EnsuredAddsNamed(rules, group, network, targets, faults);
    AllRemoved(Ensured(rules, group, network, targets, faults), metadata, later);
  }

  lemma AllRemoved(before: set<Rule>, metadata: Metadata, later: Faults)
    requires CleansUp(before, metadata, later)
    ensures before - Removed(Revocations(metadata.groupId, metadata), later) == before - Named(metadata)
  {
    var revocations := Revocations(metadata.groupId, metadata);
    hide Revocations, RulesOf;
    forall rule | rule in before ensures rule in Removed(revocations, later) <==> rule in Named(metadata) {
      if rule in Named(metadata) {
        var revocation :| revocation in revocations && rule in RulesOf(revocation.request);
        FailingNone(revocations, later, revocation);
      }
    }
  }

  /** No rule of an account that does not mention the group is ever named. */
  lemma FreshGroupsAreRestored(rules: set<Rule>, group: string, network: Network, targets: seq<string>,
      faults: Faults, later: Faults)
    requires Unmentioned(rules, group)
    requires EnsuredMetadata(rules, group, network, targets, faults).Some? && Clean(network.groupIds) && Clean(targets)
    requires CleansUp(Ensured(rules, group, network, targets, faults),
      EnsuredMetadata(rules, group, network, targets, faults).value, later)
    ensures Ensured(rules, group, network, targets, faults)
            - Removed(Revocations(group, EnsuredMetadata(rules, group, network, targets, faults).value), later) == rules
  {
    NamedRules(rules, group, network, targets, faults);
    CleanupUndoesEnsure(rules, group, network, targets, faults, later);
  }

  /** The same service asked again about the same network changes nothing more. */
  lemma EnsureIsIdempotent(rules: set<Rule>, group: string, network: Network, targets: seq<string>, faults: Faults)
    requires faults(SelfRequest(group)).None?
    ensures var once := Ensured(rules, group, network, targets, faults);
      Ensured(once, group, network, targets, faults) == once
  {
    var own := Authorized(rules, SelfRequest(group), faults);
    var once := Ensured(rules, group, network, targets, faults);
    assert SelfRequest(group).sources[0] == Group(group);
    assert Rule(group, AllTraffic, Group(group)) in once;
    assert Authorized(once, SelfRequest(group), faults) == once;
    assert WithControlPlane(once, group, network, faults) == once by {
      NonEmptySources(group, network.groupIds);
      assert AddressRequest(group, Cidr(network)).sources[0] == Address(Cidr(network));
      hide NodeRules;
    }
  }

  lemma NonEmptySources(group: string, groupIds: seq<string>)
    ensures groupIds != [] ==>
      Rule(group, Tcp(TRINO_HTTP_PORT), Group(groupIds[0])) in RulesOf(GroupsRequest(group, groupIds))
  {
    if groupIds != [] { assert Sources(groupIds)[0] == Group(groupIds[0]); }
  }

  /** Set up twice, with refusals that differ, and cleaned up by what the second time reported: the account is as before
      exactly when the first time let the control plane in by the same way as the second, or not at all. */
  lemma SettingUpTwice(rules: set<Rule>, group: string, network: Network, targets: seq<string>, first: Faults,
      second: Faults, later: Faults)
    requires Unmentioned(rules, group) && Clean(network.groupIds) && Clean(targets)
    requires EnsuredMetadata(rules, group, network, targets, first).Some?
    requires second(SelfRequest(group)).None?
    ensures var once := Ensured(rules, group, network, targets, first);
      var m1, m2 := EnsuredMetadata(rules, group, network, targets, first).value, EnsuredMetadata(once, group,
        network, targets, second).value;
      CleansUp(Ensured(once, group, network, targets, second), m2, later) ==>
      (Ensured(once, group, network, targets, second) - Removed(Revocations(group, m2), later) == rules <==>
       m1.controlPlane.NotAuthorized? || (m1.controlPlane.ViaGroups? && m2.controlPlane.ViaGroups?) ||
         (m1.controlPlane.ViaCidr? && m2.controlPlane.ViaCidr?))
  {
    var once := Ensured(rules, group, network, targets, first);
    var m1, m2 := EnsuredMetadata(rules, group, network, targets, first).value,
      EnsuredMetadata(once, group, network, targets, second).value;
    if CleansUp(Ensured(once, group, network, targets, second), m2, later) {
      hide RulesOf, Removed, Revocations, Named, AllNodeRules, NodeRules, Ensured,
        ControlPlaneRules, ControlPlaneIngress, CleansUp, Offers, Authorized;
      hide WithControlPlane, NodesToControlPlane, Unmentioned;
      CleanupUndoesEnsure(once, group, network, targets, second, later);
      NamedRules(once, group, network, targets, second);
      FirstTime(rules, group, network, targets, first);
      IngressIsOffered(Authorized(rules, SelfRequest(group), first), group, network, first);
      IngressIsOffered(Authorized(once, SelfRequest(group), second), group, network, second);
      TwoSetsOfRules(rules, group, network, targets, m1.controlPlane, m2.controlPlane, first);
    }
  }

  lemma TwoSetsOfRules(rules: set<Rule>, group: string, network: Network, targets: seq<string>, one: Ingress,
      other: Ingress, faults: Faults)
    requires Unmentioned(rules, group) && Offers(network, one) && Offers(network, other)
    ensures var own, c1, c2 := RulesOf(SelfRequest(group)),
      ControlPlaneRules(group, one), ControlPlaneRules(group, other);
      rules + own + c1 + NodeRules(targets, NODE_CONFIG_PORT, group, faults) -
        (own + c2 + AllNodeRules(targets, group)) == rules <==>
      one.NotAuthorized? || (one.ViaGroups? && other.ViaGroups?) || (one.ViaCidr? && other.ViaCidr?)
  {
    var own, c1, c2 := RulesOf(SelfRequest(group)), ControlPlaneRules(group, one), ControlPlaneRules(group, other);
    var nodes, targeted := NodeRules(targets, NODE_CONFIG_PORT, group, faults), AllNodeRules(targets, group);
    assert nodes <= targeted;
    assert c1 !! own + targeted;
    assert rules !! own && rules !! c1 && rules !! c2 && rules !! targeted;
    LeftOver(rules, own, c1, c2, nodes, targeted);
    CompareWays(group, network, one, other);
  }

  /** The ways that a network offers. */
  predicate Offers(network: Network, ingress: Ingress) {
    match ingress
    case ViaGroups(groupIds, _) => groupIds == network.groupIds != []
    case ViaCidr(cidr, _) => cidr == Cidr(network)
    case NotAuthorized => true
  }

  lemma IngressIsOffered(rules: set<Rule>, group: string, network: Network, faults: Faults)
    ensures Offers(network, ControlPlaneIngress(rules, group, network, faults))
  {}

  lemma CompareWays(group: string, network: Network, one: Ingress, other: Ingress)
    requires Offers(network, one) && Offers(network, other)
    ensures ControlPlaneRules(group, one) <= ControlPlaneRules(group, other) <==>
            one.NotAuthorized? || (one.ViaGroups? && other.ViaGroups?) || (one.ViaCidr? && other.ViaCidr?)
  {
    WaysAreApart(group, network);
  }

  lemma LeftOver(rules: set<Rule>, own: set<Rule>, granted: set<Rule>,
      named: set<Rule>, nodes: set<Rule>, targets: set<Rule>)
    requires rules !! own + named + targets + granted && nodes <= targets && granted !! own + targets
    ensures rules + own + granted + nodes - (own + named + targets) == rules <==> granted <= named
  {
    if granted <= named {
      assert rules + own + granted + nodes - (own + named + targets) == rules;
    } else {
      var rule :| rule in granted && rule !in named;
      assert rule in rules + own + granted + nodes - (own + named + targets) && rule !in rules;
    }
  }

  /** On a fresh group everything that is not refused is granted. */
  lemma FirstTime(rules: set<Rule>, group: string, network: Network, targets: seq<string>, faults: Faults)
    requires Unmentioned(rules, group) && EnsuredMetadata(rules, group, network, targets, faults).Some?
    ensures Ensured(rules, group, network, targets, faults) ==
            rules + RulesOf(SelfRequest(group))
            + ControlPlaneRules(group, EnsuredMetadata(rules, group, network, targets, faults).value.controlPlane)
            + NodeRules(targets, NODE_CONFIG_PORT, group, faults)
  {}

  lemma WaysAreApart(group: string, network: Network)
    ensures RulesOf(GroupsRequest(group, network.groupIds)) !! RulesOf(AddressRequest(group, Cidr(network)))
    ensures RulesOf(AddressRequest(group, Cidr(network))) != {}
    ensures network.groupIds != [] ==> RulesOf(GroupsRequest(group, network.groupIds)) != {}
  {
    NonEmptySources(group, network.groupIds);
    assert AddressRequest(group, Cidr(network)).sources[0] == Address(Cidr(network));
    assert Rule(group, Tcp(TRINO_HTTP_PORT), Address(Cidr(network))) in RulesOf(AddressRequest(group, Cidr(network)));
  }

  /** "Authorized" is said of a permission of which a part was there already, but then the rest is not granted:
      every group of the control plane gets in exactly when all or none of them could before. */
  lemma AuthorizedMeansAllowed(rules: set<Rule>, group: string, network: Network, faults: Faults)
    requires ControlPlaneIngress(rules, group, network, faults).ViaGroups?
    ensures RulesOf(GroupsRequest(group, network.groupIds)) <= WithControlPlane(rules, group, network, faults) <==>
      RulesOf(GroupsRequest(group, network.groupIds)) <= rules ||
        RulesOf(GroupsRequest(group, network.groupIds)) !! rules
  {
    var request := GroupsRequest(group, network.groupIds);
    NonEmptySources(group, network.groupIds);
    if RulesOf(request) !! rules {
      assert RulesOf(request) * rules == {};
    }
    assert forall rule :: rule in RulesOf(request) && rule in rules ==> rule in RulesOf(request) * rules;
  }

  // ----- What is granted, told and revoked, rule by rule -----

  /** The control plane's groups, and its address, as sources. */
  function GroupSources(groupIds: seq<string>): seq<Source> {
    if groupIds == [] then [] else [Group(groupIds[0])] + GroupSources(groupIds[1..])
  }

  /** The way that is taken: the groups unless there are none or they are
      refused, else the address unless it is unknown or refused, else none. */
  ghost predicate TakesTheWay(group: string, network: Network, faults: Faults, ingress: Ingress) {
    var byGroups := Request(group, Tcp(8080), GroupSources(network.groupIds));
    var byAddress := Request(group, Tcp(8080), [Address(network.address + "/32")]);
    if network.groupIds != [] && faults(byGroups) == None then
      ingress.ViaGroups? && ingress.groupIds == network.groupIds
    else if network.address != "" && faults(byAddress) == None then
      ingress.ViaCidr? && ingress.cidr == network.address + "/32"
    else ingress.NotAuthorized?
  }

  /** The rule lets the control plane in by this way. */
  ghost predicate IsOfTheWay(rule: Rule, group: string, ingress: Ingress) {
    && rule.group == group && rule.traffic == Tcp(8080)
    && match ingress
       case ViaGroups(groupIds, _) => rule.source.Group? && rule.source.id in groupIds
       case ViaCidr(cidr, _) => rule.source == Address(cidr)
       case NotAuthorized => false
  }

  /** The rule lets members of the group fetch their configuration from a target that does not refuse it. */
  ghost predicate IsOfATarget(rule: Rule, group: string, targets: seq<string>, faults: Faults) {
    && rule.group in targets && rule.traffic == Tcp(8000) && rule.source == Group(group)
    && faults(Request(rule.group, Tcp(8000), [Group(group)])) == None
  }

  lemma {:induction false} SourcesAre(groupIds: seq<string>)
    ensures GroupSources(groupIds) == Sources(groupIds)
    ensures forall source :: source in Sources(groupIds) <==> source.Group? && source.id in groupIds
  {
    if groupIds != [] {
      SourcesAre(groupIds[1..]);
      assert groupIds == [groupIds[0]] + groupIds[1..];
      assert Sources(groupIds) == [Group(groupIds[0])] + Sources(groupIds[1..]);
    }
  }

  lemma WayIsTaken(rules: set<Rule>, group: string, network: Network, faults: Faults)
    ensures var ingress := ControlPlaneIngress(rules, group, network, faults);
      && TakesTheWay(group, network, faults, ingress)
      && (!ingress.NotAuthorized? ==>
          (ingress.duplicate <==> exists rule :: rule in rules && IsOfTheWay(rule, group, ingress)))
      && (forall rule :: rule in WithControlPlane(rules, group, network, faults) <==>
            rule in rules || (!ingress.NotAuthorized? && !ingress.duplicate && IsOfTheWay(rule, group, ingress)))
  {
    SourcesAre(network.groupIds);
    var ingress := ControlPlaneIngress(rules, group, network, faults);
    forall rule | !ingress.NotAuthorized?
      ensures IsOfTheWay(rule, group, ingress) <==> rule in ControlPlaneRules(group, ingress) {}
    hide IsOfTheWay, RulesOf;
    if !ingress.NotAuthorized? {
      var granted := ControlPlaneRules(group, ingress);
      assert ingress.duplicate <==> granted * rules != {};
      if granted * rules != {} {
        var rule :| rule in granted * rules;
        assert rule in rules && IsOfTheWay(rule, group, ingress);
      }
      assert forall rule :: rule in rules && rule in granted ==> rule in granted * rules;
    }
  }

  /** What a set-up grants, and what it says of the control plane: the group's members
      reach each other; the control plane comes in by one way, unless a part of it was
      there already; and the targets let the group in where they do not refuse. */
  lemma WhatIsGranted(rules: set<Rule>, group: string, network: Network, targets: seq<string>, faults: Faults)
    ensures EnsuredMetadata(rules, group, network, targets, faults).None? <==>
      faults(Request(group, AllTraffic, [Group(group)])).Some?
    ensures EnsuredMetadata(rules, group, network, targets, faults).Some? ==>
      var told := EnsuredMetadata(rules, group, network, targets, faults).value;
      var own := rules + {Rule(group, AllTraffic, Group(group))};
      var way := told.controlPlane;
      && told.groupId == group && TakesTheWay(group, network, faults, way)
      && (!way.NotAuthorized? ==>
          (way.duplicate <==> exists rule :: rule in own && IsOfTheWay(rule, group, way)))
      && (forall rule :: rule in Ensured(rules, group, network, targets, faults) <==>
            || rule in own
            || (!way.NotAuthorized? && !way.duplicate && IsOfTheWay(rule, group, way))
            || IsOfATarget(rule, group, targets, faults))
  {
    if faults(SelfRequest(group)).None? {
      var own := rules + {Rule(group, AllTraffic, Group(group))};
      assert RulesOf(SelfRequest(group)) == {Rule(group, AllTraffic, Group(group))};
      assert Authorized(rules, SelfRequest(group), faults) == own;
      WayIsTaken(own, group, network, faults);
      var nodes := NodeRules(targets, NODE_CONFIG_PORT, group, faults);
      forall rule ensures rule in nodes <==> IsOfATarget(rule, group, targets, faults) {}
    }
  }

  /** What it says of the targets, target by target: which refuse, and which had the rule when their turn came. */
  lemma WhatIsToldOfTargets(rules: set<Rule>, node: string, targets: seq<string>, faults: Faults)
    ensures var told := NodesToControlPlane(rules, node, targets, 8000, faults);
      if targets == [] then told == Undiscoverable
      else
        && told.NodeIngress? && told.targets == targets && told.nodeGroup == node && told.port == 8000
        && (told.authorized <==> exists i :: 0 <= i < |targets| && Lets(targets[i], node, faults))
        && told.failed == NodeFailures(targets, 8000, node, faults)
        && told.duplicates == NodeDuplicates(rules, targets, 8000, node, faults)
  {
    hide NodeFailures, NodeDuplicates;
    if targets != [] {
      var granted := NodeRules(targets, 8000, node, faults);
      if i :| 0 <= i < |targets| && Lets(targets[i], node, faults) {
        assert Rule(targets[i], Tcp(8000), Group(node)) in granted;
      }
      if granted != {} {
        var rule :| rule in granted;
        assert Lets(rule.group, node, faults);
      }
    }
  }

  predicate Lets(target: string, node: string, faults: Faults) {
    faults(Request(target, Tcp(8000), [Group(node)])) == None
  }

  /** One more target: it is filed with its code when it refuses, and as a duplicate when it does not and the rule was
      there from the start or since an earlier turn of the same target. */
  lemma OneMoreTargetIsFiled(rules: set<Rule>, node: string, targets: seq<string>, i: nat, faults: Faults)
    requires i < |targets|
    ensures NodeFailures([], 8000, node, faults) == [] && NodeDuplicates(rules, [], 8000, node, faults) == []
    ensures var answer, target := faults(Request(targets[i], Tcp(8000), [Group(node)])), targets[i];
      && NodeFailures(targets[..i + 1], 8000, node, faults) ==
         NodeFailures(targets[..i], 8000, node, faults) +
         (match answer case Some(code) => [Failure(target, code)] case None => [])
      && NodeDuplicates(rules, targets[..i + 1], 8000, node, faults) ==
         NodeDuplicates(rules, targets[..i], 8000, node, faults) +
         (if answer == None && (Rule(target, Tcp(8000), Group(node)) in rules || target in targets[..i])
          then [target] else [])
  {
    hide NodeDuplicates, NodeFailures, NodeRules, AuthorizeAnswer, NodeRequest;
    NothingToldYet(rules, node, faults);
    OneMoreTarget(rules, targets, i, 8000, node, faults);
    TargetIsAnswered(rules, targets[..i], targets[i], node, faults);
  }

  lemma NothingToldYet(rules: set<Rule>, node: string, faults: Faults)
    ensures NodeFailures([], 8000, node, faults) == [] && NodeDuplicates(rules, [], 8000, node, faults) == []
  {}

  lemma TargetIsAnswered(rules: set<Rule>, before: seq<string>, target: string, node: string, faults: Faults)
    ensures var answer, told := AuthorizeAnswer(rules + NodeRules(before, 8000, node, faults),
        NodeRequest(target, 8000, node), faults), faults(Request(target, Tcp(8000), [Group(node)]));
      && (answer == Duplicate <==>
          told == None && (Rule(target, Tcp(8000), Group(node)) in rules || target in before))
      && (answer.Refused? <==> told.Some?)
      && (answer.Refused? ==> answer.code == told.value)
  {
    var rule, granted := Rule(target, Tcp(8000), Group(node)), NodeRules(before, 8000, node, faults);
    assert RulesOf(NodeRequest(target, 8000, node)) == {rule};
    assert rule in granted <==> target in before && Lets(target, node, faults);
    if rule in rules + granted {
      assert rule in {rule} * (rules + granted);
    } else {
      assert {rule} * (rules + granted) == {};
    }
  }

  /** What a clean-up asks to remove, in order: the group's own rule, the control plane's, and one for each target; the
      port is 8000 and the members' group the group itself when the metadata does not say. */
  lemma WhatIsRevoked(group: string, metadata: Metadata)
    ensures Revocations(group, metadata) ==
      [Revocation("node_self_ingress", Request(group, AllTraffic, [Group(group)]))] +
      ControlPlaneRevocations(group, metadata.controlPlane) +
      (if metadata.nodes == Undiscoverable then []
       else NodeRevocations(metadata.nodes.targets, if metadata.nodes.port > 0 then metadata.nodes.port else 8000,
                            if metadata.nodes.nodeGroup != "" then metadata.nodes.nodeGroup else group))
  {
    hide NodeRevocations, ControlPlaneRevocations;
  }

  lemma WaysAreRevoked(group: string, groupIds: seq<string>, cidr: string, duplicate: bool)
    ensures ControlPlaneRevocations(group, ViaGroups(groupIds, duplicate)) ==
      if NonEmpty(groupIds) == [] then []
      else [Revocation("control_plane_to_coordinator", Request(group, Tcp(8080), GroupSources(NonEmpty(groupIds))))]
    ensures ControlPlaneRevocations(group, ViaCidr(cidr, duplicate)) ==
      if cidr == "" then []
      else [Revocation("control_plane_to_coordinator", Request(group, Tcp(8080), [Address(cidr)]))]
    ensures ControlPlaneRevocations(group, NotAuthorized) == []
  {
    hide NonEmpty;
    SourcesAre(NonEmpty(groupIds));
  }

  /** Group by group, and target by target, in order, without those that have no name. */
  lemma {:induction false} RevokedInOrder(some: seq<string>, more: seq<string>, port: nat, node: string, name: string)
    ensures NonEmpty(some + more) == NonEmpty(some) + NonEmpty(more)
    ensures NonEmpty([]) == [] && NonEmpty([name]) == if name == "" then [] else [name]
    ensures NodeRevocations(some + more, port, node) ==
            NodeRevocations(some, port, node) + NodeRevocations(more, port, node)
    ensures NodeRevocations([], port, node) == []
    ensures NodeRevocations([name], port, node) ==
      if name == "" then [] else [Revocation("nodes_to_control_plane", Request(name, Tcp(port), [Group(node)]))]
  {
    hide NonEmpty, NodeRevocations;
    OneNamed(port, node, name);
    if more == [] {
      assert some + more == some;
    } else {
      var init, last := more[..|more| - 1], more[|more| - 1];
      assert more == init + [last] && some + more == (some + init) + [last];
      RevokedInOrder(some, init, port, node, name);
      OneMoreNamed(init, last, port, node);
      OneMoreNamed(some + init, last, port, node);
    }
  }

  lemma OneNamed(port: nat, node: string, name: string)
    ensures NonEmpty([]) == [] && NonEmpty([name]) == if name == "" then [] else [name]
    ensures NodeRevocations([], port, node) == []
    ensures NodeRevocations([name], port, node) ==
      if name == "" then [] else [Revocation("nodes_to_control_plane", Request(name, Tcp(port), [Group(node)]))]
  {
    assert [name][..0] == [];
  }

  lemma OneMoreNamed(names: seq<string>, name: string, port: nat, node: string)
    ensures NonEmpty(names + [name]) == NonEmpty(names) + if name == "" then [] else [name]
    ensures NodeRevocations(names + [name], port, node) == NodeRevocations(names, port, node) +
      if name == "" then [] else [Revocation("nodes_to_control_plane", Request(name, Tcp(port), [Group(node)]))]
  {
    assert (names + [name])[..|names|] == names;
  }
}
