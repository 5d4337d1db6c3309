/** The VPC teardown orchestrator `vpc_cleanup` of aws-scavenger.py.

    Its stages run in a fixed order: NAT gateways; internet gateways (detach,
    then delete); the network interfaces of every subnet; the subnets; the
    non-main route-table associations; the route tables; the endpoints; the
    non-default security groups; the non-default network ACLs; the peering
    connections where the VPC is requester, then accepter; and last the VPC
    itself.

    The listings each stage walks are inputs here, read before the teardown
    begins; the calls that read them, which sit outside every `try` in the
    source, are not modelled. Among the delete and detach calls, every stage
    but the internet-gateway one catches every exception, so what those
    stages issue does not depend on any outcome (`SweepCalls` takes no
    oracle). The internet-gateway stage catches only `ClientError`; any other
    exception leaves `vpc_cleanup` (`Raised`) and nothing after it runs. */
module Teardown {
  import opened Seqs
  import opened Cloud

  // ---------------------------------------------------------------- the calls of each stage

  function NatCall(id: Id): Call { DeleteNatGateway(id) }
  function InterfaceCall(id: Id): Call { DeleteNetworkInterface(id) }
  function SubnetCall(s: Subnet): Call { DeleteSubnet(s.subnetId) }
  function AssociationCall(a: Association): Call { DeleteRouteTableAssociation(a.associationId) }
  function RouteTableCall(rt: RouteTable): Call { DeleteRouteTable(rt.routeTableId) }
  function EndpointCall(id: Id): Call { DeleteVpcEndpoint(id) }
  function GroupCall(sg: SecurityGroup): Call { DeleteSecurityGroup(sg.groupId) }
  function AclCall(acl: NetworkAcl): Call { DeleteNetworkAcl(acl.aclId) }
  function PeeringCall(id: Id): Call { DeleteVpcPeeringConnection(id) }

  predicate NotMain(a: Association) { !a.main }
  predicate NotDefaultGroup(sg: SecurityGroup) { sg.groupName != "default" }
  predicate NotDefaultAcl(acl: NetworkAcl) { !acl.isDefault }

  /** The interfaces of all subnets, subnet by subnet. */
  function AllInterfaces(subnets: seq<Subnet>): seq<Id>
  {
    if |subnets| == 0 then []
    else AllInterfaces(subnets[..|subnets| - 1]) + subnets[|subnets| - 1].interfaces
  }

  /** The associations of all route tables, table by table. */
  function AllAssociations(tables: seq<RouteTable>): seq<Association>
  {
    if |tables| == 0 then []
    else AllAssociations(tables[..|tables| - 1]) + tables[|tables| - 1].associations
  }

  /** What the internet-gateway stage issued, and whether an exception escaped it. */
  datatype StageRun = StageRun(calls: seq<Call>, raised: bool)

  function After(prefix: seq<Call>, r: StageRun): StageRun
  {
    StageRun(prefix + r.calls, r.raised)
  }

  lemma AfterAfter(a: seq<Call>, b: seq<Call>, r: StageRun)
    ensures After(a, After(b, r)) == After(a + b, r)
  {
    assert a + (b + r.calls) == (a + b) + r.calls;
  }

  /** One internet gateway: a detach, and a delete only when the detach
      returned; a `ClientError` of either is caught, any other exception escapes. */
  function GatewayAttempt(g: Id, oracle: Oracle, clock: nat): StageRun
  {
    match oracle(clock)
    case OtherError => StageRun([DetachInternetGateway(g)], true)
    case ClientError => StageRun([DetachInternetGateway(g)], false)
    case Succeeded =>
      StageRun([DetachInternetGateway(g), DeleteInternetGateway(g)], oracle(clock + 1) == OtherError)
  }

  /** Stage 2: the gateways one after another, until an exception escapes. */
  function GatewayStage(gateways: seq<Id>, oracle: Oracle, clock: nat): StageRun
    decreases |gateways|
  {
    if |gateways| == 0 then StageRun([], false)
    else
      var first := GatewayAttempt(gateways[0], oracle, clock);
      if first.raised then first
      else After(first.calls, GatewayStage(gateways[1..], oracle, clock + |first.calls|))
  }

  // Stages 3 to 11: what each issues when it runs.

  function InterfaceStage(vpc: Vpc): seq<Call> { Map(InterfaceCall, AllInterfaces(vpc.subnets)) }
  function SubnetStage(vpc: Vpc): seq<Call> { Map(SubnetCall, vpc.subnets) }
  function AssociationStage(vpc: Vpc): seq<Call> { Map(AssociationCall, Filter(AllAssociations(vpc.routeTables), NotMain)) }
  function RouteTableStage(vpc: Vpc): seq<Call> { Map(RouteTableCall, vpc.routeTables) }
  function EndpointStage(vpc: Vpc): seq<Call> { Map(EndpointCall, vpc.endpoints) }
  function GroupStage(vpc: Vpc): seq<Call> { Map(GroupCall, Filter(vpc.securityGroups, NotDefaultGroup)) }
  function AclStage(vpc: Vpc): seq<Call> { Map(AclCall, Filter(vpc.networkAcls, NotDefaultAcl)) }
  /** The requester-side connections, then the accepter-side ones. */
  function PeeringStage(vpc: Vpc): seq<Call> { Map(PeeringCall, vpc.requesterPeerings) + Map(PeeringCall, vpc.accepterPeerings) }

  /** Sweep stages 3 to 6: interfaces, subnets, non-main associations, route tables. */
  function NetworkCalls(vpc: Vpc): seq<Call>
  {
    InterfaceStage(vpc) + SubnetStage(vpc) + AssociationStage(vpc) + RouteTableStage(vpc)
  }

  /** Sweep stages 7 to 10: endpoints, non-default security groups, non-default
      network ACLs, peering connections. */
  function BoundaryCalls(vpc: Vpc): seq<Call>
  {
    EndpointStage(vpc) + GroupStage(vpc) + AclStage(vpc) + PeeringStage(vpc)
  }

  /** Everything after the internet gateways, ending with the VPC itself; it
      runs only when that stage did not raise. */
  function SweepCalls(vpc: Vpc): seq<Call>
  {
    NetworkCalls(vpc) + BoundaryCalls(vpc) + [DeleteVpc(vpc.vpcId)]
  }

  function GatewayRun(vpc: Vpc, oracle: Oracle, clock: nat): StageRun
  {
    GatewayStage(vpc.internetGateways, oracle, clock + |vpc.natGateways|)
  }

  /** `n` stages that issue nothing. */
  function NoCalls(n: nat): (parts: seq<seq<Call>>)
    ensures |parts| == n && forall r :: 0 <= r < n ==> parts[r] == []
  {
    seq(n, _ => [])
  }

  /** The calls of sweep stages 3 to 11, stage by stage. */
  function SweepList(vpc: Vpc): seq<seq<Call>>
  {
    [InterfaceStage(vpc), SubnetStage(vpc), AssociationStage(vpc), RouteTableStage(vpc)]
    + [EndpointStage(vpc), GroupStage(vpc), AclStage(vpc), PeeringStage(vpc)]
    + [[DeleteVpc(vpc.vpcId)]]
  }

  /** The calls of stages 1 to 11 of a teardown started at `clock`, stage by
      stage: the sweep stages are empty when the internet-gateway stage raised. */
  function StageList(vpc: Vpc, oracle: Oracle, clock: nat): seq<seq<Call>>
  {
    var igw := GatewayRun(vpc, oracle, clock);
    [Map(NatCall, vpc.natGateways), igw.calls]
    + if igw.raised then NoCalls(9) else SweepList(vpc)
  }

  /** The parts one after another. */
  function Concat(parts: seq<seq<Call>>): seq<Call>
  {
    if |parts| == 0 then [] else Concat(parts[..|parts| - 1]) + parts[|parts| - 1]
  }

  /** Every call `vpc_cleanup` issues, in order. */
  function CleanupCalls(vpc: Vpc, oracle: Oracle, clock: nat): seq<Call>
  {
    var igw := GatewayRun(vpc, oracle, clock);
    Map(NatCall, vpc.natGateways) + igw.calls + (if igw.raised then [] else SweepCalls(vpc))
  }

  /** How `vpc_cleanup` ends: an exception escaped, or it returned whether `delete_vpc` returned. */
  datatype Cleanup = Raised | Finished(slayed: bool)

  /** Whether an exception escapes `vpc_cleanup`: among the calls modelled, only
      the internet-gateway stage lets one through. */
  predicate Raises(vpc: Vpc, oracle: Oracle, clock: nat)
  {
    GatewayRun(vpc, oracle, clock).raised
  }

  function CleanupResult(vpc: Vpc, oracle: Oracle, clock: nat): Cleanup
  {
    if Raises(vpc, oracle, clock) then Raised
    else Finished(oracle(clock + |CleanupCalls(vpc, oracle, clock)| - 1) == Succeeded)
  }

  // ---------------------------------------------------------------- the stages as loops

  /** A best-effort loop: one call per item, every exception caught. */
  method DeleteEach<T>(items: seq<T>, call: T -> Call, oracle: Oracle, clock: nat)
    returns (next: nat, ghost calls: seq<Call>)
    ensures calls == Map(call, items)
    ensures next == clock + |items|
  {
    next, calls := clock, [];
    for i := 0 to |items|
      invariant calls == Map(call, items[..i])
      invariant next == clock + i
    {
      var outcome := oracle(next);  // whatever it is, the loop goes on
      MapPrefixSnoc(call, items, i);
      calls := calls + [call(items[i])];
      next := next + 1;
    }
    assert items[..|items|] == items;
  }

  /** A best-effort loop over the items that `keep` selects. */
  method DeleteEachWhere<T>(items: seq<T>, keep: T -> bool, call: T -> Call, oracle: Oracle, clock: nat)
    returns (next: nat, ghost calls: seq<Call>)
    ensures calls == Map(call, Filter(items, keep))
    ensures next == clock + |calls|
  {
    next, calls := clock, [];
    for i := 0 to |items|
      invariant calls == Map(call, Filter(items[..i], keep))
      invariant next == clock + |calls|
    {
      CallsSnoc(items, i, keep, call);
      if keep(items[i]) {
        var outcome := oracle(next);  // whatever it is, the loop goes on
        calls := calls + [call(items[i])];
        next := next + 1;
      }
    }
    assert items[..|items|] == items;
  }

  /** The `try` block of stage 2 for one gateway. */
  method DetachAndDelete(g: Id, oracle: Oracle, clock: nat)
    returns (next: nat, raised: bool, ghost calls: seq<Call>)
    ensures StageRun(calls, raised) == GatewayAttempt(g, oracle, clock)
    ensures next == clock + |calls|
  {
    var detached := oracle(clock);
    calls, next, raised := [DetachInternetGateway(g)], clock + 1, detached == OtherError;
    if detached == Succeeded {
      var deleted := oracle(next);
      calls, next, raised := calls + [DeleteInternetGateway(g)], next + 1, deleted == OtherError;
    }
  }

  /** Stage 2: detach and delete every internet gateway of the VPC. */
  method DetachAndDeleteGateways(gateways: seq<Id>, oracle: Oracle, clock: nat)
    returns (next: nat, raised: bool, ghost calls: seq<Call>)
    ensures StageRun(calls, raised) == GatewayStage(gateways, oracle, clock)
    ensures next == clock + |calls|
  {
    next, raised, calls := clock, false, [];
    for i := 0 to |gateways|
      invariant next == clock + |calls|
      invariant GatewayStage(gateways, oracle, clock) == After(calls, GatewayStage(gateways[i..], oracle, next))
    {
      assert gateways[i..][0] == gateways[i] && gateways[i..][1..] == gateways[i + 1..];
      ghost var attempt, before := [], calls;
      next, raised, attempt := DetachAndDelete(gateways[i], oracle, next);
      calls := calls + attempt;
      if raised {
        return;
      }
      AfterAfter(before, attempt, GatewayStage(gateways[i + 1..], oracle, next));
    }
    assert gateways[|gateways|..] == [];
  }

  /** Stage 3: every interface of every subnet. */
  method DeleteInterfaces(subnets: seq<Subnet>, oracle: Oracle, clock: nat)
    returns (next: nat, ghost calls: seq<Call>)
    ensures calls == Map(InterfaceCall, AllInterfaces(subnets))
    ensures next == clock + |calls|
  {
    next, calls := clock, [];
    for i := 0 to |subnets|
      invariant calls == Map(InterfaceCall, AllInterfaces(subnets[..i]))
      invariant next == clock + |calls|
    {
      ghost var stage;
      next, stage := DeleteEach(subnets[i].interfaces, InterfaceCall, oracle, next);
      assert subnets[..i + 1][..i] == subnets[..i];
      MapAppend(InterfaceCall, AllInterfaces(subnets[..i]), subnets[i].interfaces);
      calls := calls + stage;
    }
    assert subnets[..|subnets|] == subnets;
  }

  /** Stage 5: every association of every route table that is not the main one. */
  method DeleteAssociations(tables: seq<RouteTable>, oracle: Oracle, clock: nat)
    returns (next: nat, ghost calls: seq<Call>)
    ensures calls == Map(AssociationCall, Filter(AllAssociations(tables), NotMain))
    ensures next == clock + |calls|
  {
    next, calls := clock, [];
    for i := 0 to |tables|
      invariant calls == Map(AssociationCall, Filter(AllAssociations(tables[..i]), NotMain))
      invariant next == clock + |calls|
    {
      ghost var stage;
      next, stage := DeleteEachWhere(tables[i].associations, NotMain, AssociationCall, oracle, next);
      assert tables[..i + 1][..i] == tables[..i];
      FilterAppend(AllAssociations(tables[..i]), tables[i].associations, NotMain);
      MapAppend(AssociationCall, Filter(AllAssociations(tables[..i]), NotMain), Filter(tables[i].associations, NotMain));
      calls := calls + stage;
    }
    assert tables[..|tables|] == tables;
  }

  /** Stages 3 to 6 of `vpc_cleanup`. */
  method DeleteNetwork(vpc: Vpc, oracle: Oracle, clock: nat)
    returns (next: nat, ghost calls: seq<Call>)
    ensures calls == NetworkCalls(vpc)
    ensures next == clock + |calls|
  {
    ghost var interfaces, subnets, associations, tables;
    next, interfaces := DeleteInterfaces(vpc.subnets, oracle, clock);
    next, subnets := DeleteEach(vpc.subnets, SubnetCall, oracle, next);
    next, associations := DeleteAssociations(vpc.routeTables, oracle, next);
    next, tables := DeleteEach(vpc.routeTables, RouteTableCall, oracle, next);
    calls := interfaces + subnets + associations + tables;
  }

  /** Stages 7 to 10 of `vpc_cleanup`. */
  method DeleteBoundary(vpc: Vpc, oracle: Oracle, clock: nat)
    returns (next: nat, ghost calls: seq<Call>)
    ensures calls == BoundaryCalls(vpc)
    ensures next == clock + |calls|
  {
    ghost var endpoints, groups, acls, requester, accepter;
    next, endpoints := DeleteEach(vpc.endpoints, EndpointCall, oracle, clock);
    next, groups := DeleteEachWhere(vpc.securityGroups, NotDefaultGroup, GroupCall, oracle, next);
    next, acls := DeleteEachWhere(vpc.networkAcls, NotDefaultAcl, AclCall, oracle, next);
    next, requester := DeleteEach(vpc.requesterPeerings, PeeringCall, oracle, next);
    next, accepter := DeleteEach(vpc.accepterPeerings, PeeringCall, oracle, next);
    calls := endpoints + groups + acls + (requester + accepter);
  }

  /** Stages 3 to 11 of `vpc_cleanup`: `deleted` is whether `delete_vpc` returned. */
  method Sweep(vpc: Vpc, oracle: Oracle, clock: nat)
    returns (deleted: bool, next: nat, ghost calls: seq<Call>)
    ensures calls == SweepCalls(vpc)
    ensures next == clock + |calls|
    ensures deleted == (oracle(next - 1) == Succeeded)
  {
    ghost var network, boundary;
    next, network := DeleteNetwork(vpc, oracle, clock);
    next, boundary := DeleteBoundary(vpc, oracle, next);
    var outcome := oracle(next);
    deleted := outcome == Succeeded;
    calls := network + boundary + [DeleteVpc(vpc.vpcId)];
    next := next + 1;
  }

  /** `vpc_cleanup`: the twelve stages in order, then the result of `delete_vpc`. */
  method VpcCleanup(vpc: Vpc, oracle: Oracle, clock: nat)
    returns (result: Cleanup, next: nat, ghost calls: seq<Call>)
    ensures calls == CleanupCalls(vpc, oracle, clock)
    ensures next == clock + |calls|
    ensures result == CleanupResult(vpc, oracle, clock)
  {
    ghost var natCalls, igw, sweep;
    next, natCalls := DeleteEach(vpc.natGateways, NatCall, oracle, clock);
    var raised;
    next, raised, igw := DetachAndDeleteGateways(vpc.internetGateways, oracle, next);
    assert GatewayRun(vpc, oracle, clock) == StageRun(igw, raised);
    if raised {
      calls := natCalls + igw;
      assert calls == CleanupCalls(vpc, oracle, clock);
      result := Raised;
      return;
    }
    var deleted;
    deleted, next, sweep := Sweep(vpc, oracle, next);
    calls := natCalls + igw + sweep;
    assert calls == CleanupCalls(vpc, oracle, clock);
    result := Finished(deleted);
  }

  // ---------------------------------------------------------------- stage order

  /** The stage that issues a call: 1 NAT gateways, 2 internet gateways,
      3 interfaces, 4 subnets, 5 associations, 6 route tables, 7 endpoints,
      8 security groups, 9 network ACLs, 10 peering connections, 11 the VPC;
      0 for the calls the teardown never issues. */
  function Rank(c: Call): nat
  {
    match c
    case ReleaseAddress(_) => 0
    case DeleteVolume(_, _) => 0
    case TerminateInstance(_, _) => 0
    case DeleteLoadBalancer(_) => 0
    case DeleteNatGateway(_) => 1
    case DetachInternetGateway(_) => 2
    case DeleteInternetGateway(_) => 2
    case DeleteNetworkInterface(_) => 3
    case DeleteSubnet(_) => 4
    case DeleteRouteTableAssociation(_) => 5
    case DeleteRouteTable(_) => 6
    case DeleteVpcEndpoint(_) => 7
    case DeleteSecurityGroup(_) => 8
    case DeleteNetworkAcl(_) => 9
    case DeleteVpcPeeringConnection(_) => 10
    case DeleteVpc(_) => 11
  }

  /** Every call of `s` belongs to stage `r`. */
  ghost predicate Uniform(s: seq<Call>, r: nat)
  {
    forall i :: 0 <= i < |s| ==> Rank(s[i]) == r
  }

  /** No call of `s` belongs to a stage after `r`. */
  ghost predicate AtMost(s: seq<Call>, r: nat)
  {
    forall i :: 0 <= i < |s| ==> Rank(s[i]) <= r
  }

  /** No call of `s` comes after a call of a later stage. */
  ghost predicate Staged(s: seq<Call>)
  {
    forall i, j :: 0 <= i < j < |s| ==> Rank(s[i]) <= Rank(s[j])
  }

  /** Part `r` holds only calls of stage `r + 1`. */
  ghost predicate Ranked(parts: seq<seq<Call>>)
  {
    forall r :: 0 <= r < |parts| ==> Uniform(parts[r], r + 1)
  }

  lemma {:induction false} ConcatAppend(p: seq<seq<Call>>, q: seq<seq<Call>>)
    ensures Concat(p + q) == Concat(p) + Concat(q)
  {
    if |q| == 0 {
      assert p + q == p;
    } else {
      var init := q[..|q| - 1];
      assert (p + q)[..|p + q| - 1] == p + init;
      assert (p + q)[|p + q| - 1] == q[|q| - 1];
      ConcatAppend(p, init);
    }
  }

  lemma ConcatFour(a: seq<Call>, b: seq<Call>, c: seq<Call>, d: seq<Call>)
    ensures Concat([a, b, c, d]) == a + b + c + d
  {
    ConcatTwo(a, b);
    assert Concat([a, b, c]) == a + b + c by { assert [a, b, c][..2] == [a, b]; }
    assert [a, b, c, d][..3] == [a, b, c];
  }

  lemma ConcatTwo(a: seq<Call>, b: seq<Call>)
    ensures Concat([a, b]) == a + b && Concat([a]) == a
  {
    assert Concat([a]) == a by { assert [a][..0] == []; }
    assert [a, b][..1] == [a];
  }

  lemma {:induction false} ConcatStaged(parts: seq<seq<Call>>)
    requires Ranked(parts)
    ensures Staged(Concat(parts)) && AtMost(Concat(parts), |parts|)
  {
    if |parts| > 0 {
      var init := parts[..|parts| - 1];
      assert Ranked(init) by {
        forall r | 0 <= r < |init| ensures Uniform(init[r], r + 1) {
          assert init[r] == parts[r];
        }
      }
      ConcatStaged(init);
      StagedAppend(Concat(init), parts[|parts| - 1], |parts|);
    }
  }

  /** In ranked parts, a call occurs as often as in the part of its own stage. */
  lemma {:induction false} ConcatCount(parts: seq<seq<Call>>, c: Call)
    requires Ranked(parts)
    ensures multiset(Concat(parts))[c] == if 1 <= Rank(c) <= |parts| then multiset(parts[Rank(c) - 1])[c] else 0
  {
    if |parts| > 0 {
      var init, last := parts[..|parts| - 1], parts[|parts| - 1];
      assert Ranked(init) by {
        forall r | 0 <= r < |init| ensures Uniform(init[r], r + 1) {
          assert init[r] == parts[r];
        }
      }
      ConcatCount(init, c);
      if Rank(c) != |parts| {
        assert Uniform(last, |parts|);
        assert c !in last;
      }
      if Rank(c) - 1 < |init| && 1 <= Rank(c) {
        assert init[Rank(c) - 1] == parts[Rank(c) - 1];
      }
    }
  }

  lemma MapUniform<T>(f: T -> Call, s: seq<T>, r: nat)
    requires forall x :: Rank(f(x)) == r
    ensures Uniform(Map(f, s), r)
  {
  }

  /** Appending calls of stage `r` to calls of stages up to `r` keeps the order. */
  lemma StagedAppend(a: seq<Call>, b: seq<Call>, r: nat)
    requires Staged(a) && AtMost(a, r) && Uniform(b, r)
    ensures Staged(a + b) && AtMost(a + b, r)
  {
  }

  /** Every call of stage 2 detaches or deletes one of the listed gateways, and
      there are at most two per gateway. */
  lemma {:induction false} GatewayStageCalls(gateways: seq<Id>, oracle: Oracle, clock: nat)
    ensures var r := GatewayStage(gateways, oracle, clock);
      |r.calls| <= 2 * |gateways| &&
      forall i :: 0 <= i < |r.calls| ==>
        (r.calls[i].DetachInternetGateway? || r.calls[i].DeleteInternetGateway?) && r.calls[i].gatewayId in gateways
  {
    if |gateways| > 0 {
      var first := GatewayAttempt(gateways[0], oracle, clock);
      if !first.raised {
        var rest := GatewayStage(gateways[1..], oracle, clock + |first.calls|);
        GatewayStageCalls(gateways[1..], oracle, clock + |first.calls|);
        var r := After(first.calls, rest);
        forall i | 0 <= i < |r.calls|
          ensures (r.calls[i].DetachInternetGateway? || r.calls[i].DeleteInternetGateway?) && r.calls[i].gatewayId in gateways
        {
          if i >= |first.calls| {
            var k := i - |first.calls|;
            assert r.calls[i] == rest.calls[k];
            var j :| 0 <= j < |gateways[1..]| && gateways[1..][j] == rest.calls[k].gatewayId;
            assert gateways[j + 1] == r.calls[i].gatewayId;
          }
        }
      }
    }
  }

  lemma NetworkStagesUniform(vpc: Vpc)
    ensures Uniform(InterfaceStage(vpc), 3) && Uniform(SubnetStage(vpc), 4)
    ensures Uniform(AssociationStage(vpc), 5) && Uniform(RouteTableStage(vpc), 6)
  {
    MapUniform(InterfaceCall, AllInterfaces(vpc.subnets), 3);
    MapUniform(SubnetCall, vpc.subnets, 4);
    MapUniform(AssociationCall, Filter(AllAssociations(vpc.routeTables), NotMain), 5);
    MapUniform(RouteTableCall, vpc.routeTables, 6);
  }

  lemma BoundaryStagesUniform(vpc: Vpc)
    ensures Uniform(EndpointStage(vpc), 7) && Uniform(GroupStage(vpc), 8)
    ensures Uniform(AclStage(vpc), 9) && Uniform(PeeringStage(vpc), 10)
  {
    MapUniform(EndpointCall, vpc.endpoints, 7);
    MapUniform(GroupCall, Filter(vpc.securityGroups, NotDefaultGroup), 8);
    MapUniform(AclCall, Filter(vpc.networkAcls, NotDefaultAcl), 9);
    MapUniform(PeeringCall, vpc.requesterPeerings, 10);
    MapUniform(PeeringCall, vpc.accepterPeerings, 10);
  }

  lemma SweepListRanked(vpc: Vpc)
    ensures forall r :: 0 <= r < 9 ==> Uniform(SweepList(vpc)[r], r + 3)
  {
    NetworkStagesUniform(vpc);
    BoundaryStagesUniform(vpc);
  }

  lemma StageListRanked(vpc: Vpc, oracle: Oracle, clock: nat)
    ensures |StageList(vpc, oracle, clock)| == 11
    ensures Ranked(StageList(vpc, oracle, clock))
  {
    var igw := GatewayRun(vpc, oracle, clock);
    var st := StageList(vpc, oracle, clock);
    MapUniform(NatCall, vpc.natGateways, 1);
    GatewayStageCalls(vpc.internetGateways, oracle, clock + |vpc.natGateways|);
    if !igw.raised {
      SweepListRanked(vpc);
    }
    forall r | 0 <= r < 11 ensures Uniform(st[r], r + 1) {
      if r >= 2 && !igw.raised {
        assert st[r] == SweepList(vpc)[r - 2];
      }
    }
  }

  lemma SweepListConcat(vpc: Vpc)
    ensures Concat(SweepList(vpc)) == SweepCalls(vpc)
  {
    var network := [InterfaceStage(vpc), SubnetStage(vpc), AssociationStage(vpc), RouteTableStage(vpc)];
    var boundary := [EndpointStage(vpc), GroupStage(vpc), AclStage(vpc), PeeringStage(vpc)];
    ConcatFour(InterfaceStage(vpc), SubnetStage(vpc), AssociationStage(vpc), RouteTableStage(vpc));
    ConcatFour(EndpointStage(vpc), GroupStage(vpc), AclStage(vpc), PeeringStage(vpc));
    ConcatTwo([DeleteVpc(vpc.vpcId)], []);
    ConcatAppend(network, boundary);
    ConcatAppend(network + boundary, [[DeleteVpc(vpc.vpcId)]]);
  }

  lemma {:induction false} ConcatEmpty(n: nat)
    ensures Concat(NoCalls(n)) == []
  {
    if n > 0 {
      assert NoCalls(n)[..n - 1] == NoCalls(n - 1);
      ConcatEmpty(n - 1);
    }
  }

  /** The teardown issues its stages one after another. */
  lemma CleanupIsStages(vpc: Vpc, oracle: Oracle, clock: nat)
    ensures CleanupCalls(vpc, oracle, clock) == Concat(StageList(vpc, oracle, clock))
  {
    var igw := GatewayRun(vpc, oracle, clock);
    var front := [Map(NatCall, vpc.natGateways), igw.calls];
    ConcatTwo(Map(NatCall, vpc.natGateways), igw.calls);
    if igw.raised {
      ConcatEmpty(9);
      ConcatAppend(front, NoCalls(9));
    } else {
      SweepListConcat(vpc);
      ConcatAppend(front, SweepList(vpc));
    }
  }

  /** Stage order: no call of `vpc_cleanup` comes after a call of a later stage,
      and every call it issues belongs to one of its eleven stages. Both
      peering loops share stage 10, so this says nothing about their relative
      order: that the requester-side deletes come first is how `PeeringStage`
      is built. */
  lemma CleanupStaged(vpc: Vpc, oracle: Oracle, clock: nat)
    ensures Staged(CleanupCalls(vpc, oracle, clock))
    ensures forall c :: c in CleanupCalls(vpc, oracle, clock) ==> 1 <= Rank(c) <= 11
  {
    CleanupIsStages(vpc, oracle, clock);
    StageListRanked(vpc, oracle, clock);
    ConcatStaged(StageList(vpc, oracle, clock));
    forall c | c in CleanupCalls(vpc, oracle, clock) ensures 1 <= Rank(c) <= 11 {
      ConcatCount(StageList(vpc, oracle, clock), c);
    }
  }

  /** A call is issued as often as its own stage issues it. */
  lemma CleanupCount(vpc: Vpc, oracle: Oracle, clock: nat, c: Call, r: nat, expected: nat)
    requires r < 11 && Rank(c) == r + 1
    requires multiset(StageList(vpc, oracle, clock)[r])[c] == expected
    ensures multiset(CleanupCalls(vpc, oracle, clock))[c] == expected
  {
    CleanupIsStages(vpc, oracle, clock);
    StageListRanked(vpc, oracle, clock);
    ConcatCount(StageList(vpc, oracle, clock), c);
  }

  // ---------------------------------------------------------------- the internet-gateway stage

  /** Stage 2 raises exactly when one of its calls raised something other than a
      `ClientError`, and then that call is the last one it issued. */
  lemma {:induction false} GatewayRaisedIffOtherError(gateways: seq<Id>, oracle: Oracle, clock: nat)
    ensures var r := GatewayStage(gateways, oracle, clock);
      r.raised <==> exists k :: clock <= k < clock + |r.calls| && oracle(k) == OtherError
    ensures var r := GatewayStage(gateways, oracle, clock);
      r.raised ==> |r.calls| > 0 && oracle(clock + |r.calls| - 1) == OtherError
  {
    var r := GatewayStage(gateways, oracle, clock);
    if |gateways| > 0 {
      var first := GatewayAttempt(gateways[0], oracle, clock);
      var n := |first.calls|;
      if first.raised {
        assert r == first;
        assert oracle(clock + n - 1) == OtherError;
      } else {
        var next := clock + n;
        var rest := GatewayStage(gateways[1..], oracle, next);
        assert r == After(first.calls, rest);
        GatewayRaisedIffOtherError(gateways[1..], oracle, next);
        assert forall k :: clock <= k < next ==> oracle(k) != OtherError;
        if rest.raised {
          var k :| next <= k < next + |rest.calls| && oracle(k) == OtherError;
          assert clock <= k < clock + |r.calls|;
        }
      }
    }
  }

  /** Every gateway delete among `calls` (issued from position `clock` on)
      comes right after a detach of the same gateway that returned normally. */
  ghost predicate DeleteFollowsDetach(calls: seq<Call>, oracle: Oracle, clock: nat)
  {
    forall i :: 0 <= i < |calls| && calls[i].DeleteInternetGateway? ==>
      0 < i && calls[i - 1] == DetachInternetGateway(calls[i].gatewayId) && oracle(clock + i - 1) == Succeeded
  }

  /** Runs of calls that each keep deletes behind their detaches keep it one after the other. */
  lemma DeleteFollowsDetachAppend(a: seq<Call>, b: seq<Call>, oracle: Oracle, clock: nat)
    requires DeleteFollowsDetach(a, oracle, clock) && DeleteFollowsDetach(b, oracle, clock + |a|)
    ensures DeleteFollowsDetach(a + b, oracle, clock)
  {
    var ab := a + b;
    forall i | 0 <= i < |ab| && ab[i].DeleteInternetGateway?
      ensures 0 < i && ab[i - 1] == DetachInternetGateway(ab[i].gatewayId) && oracle(clock + i - 1) == Succeeded
    {
      if i >= |a| {
        var k := i - |a|;
        assert ab[i] == b[k];
        assert 0 < k && oracle(clock + |a| + k - 1) == Succeeded;
        assert ab[i - 1] == b[k - 1];
      } else {
        assert ab[i] == a[i];
      }
    }
  }

  /** One gateway is deleted only after its detach returned. */
  lemma AttemptDeleteAfterDetach(g: Id, oracle: Oracle, clock: nat)
    ensures DeleteFollowsDetach(GatewayAttempt(g, oracle, clock).calls, oracle, clock)
  {
  }

  /** Stage 2 deletes a gateway only right after detaching it, and only when the
      detach returned normally. */
  lemma {:induction false} GatewayDeleteAfterDetach(gateways: seq<Id>, oracle: Oracle, clock: nat)
    ensures DeleteFollowsDetach(GatewayStage(gateways, oracle, clock).calls, oracle, clock)
  {
    if |gateways| > 0 {
      var first := GatewayAttempt(gateways[0], oracle, clock);
      AttemptDeleteAfterDetach(gateways[0], oracle, clock);
      if !first.raised {
        GatewayDeleteAfterDetach(gateways[1..], oracle, clock + |first.calls|);
        DeleteFollowsDetachAppend(first.calls, GatewayStage(gateways[1..], oracle, clock + |first.calls|).calls, oracle, clock);
      }
    }
  }

  /** Unless it raised, stage 2 detaches every gateway it was given. */
  lemma {:induction false} GatewayDetachesAll(gateways: seq<Id>, oracle: Oracle, clock: nat)
    ensures var r := GatewayStage(gateways, oracle, clock);
      !r.raised ==> forall g :: g in gateways ==> DetachInternetGateway(g) in r.calls
  {
    if |gateways| > 0 {
      var first := GatewayAttempt(gateways[0], oracle, clock);
      if !first.raised {
        var rest := GatewayStage(gateways[1..], oracle, clock + |first.calls|);
        GatewayDetachesAll(gateways[1..], oracle, clock + |first.calls|);
        assert GatewayStage(gateways, oracle, clock) == After(first.calls, rest);
        assert first.calls[0] == DetachInternetGateway(gateways[0]);
        assert gateways == [gateways[0]] + gateways[1..];
        forall g | g in gateways && !rest.raised ensures DetachInternetGateway(g) in first.calls + rest.calls {
          if g != gateways[0] {
            assert g in gateways[1..];
          }
        }
      }
    }
  }

  /** Stage 2 depends on the outcomes of its own calls and no others. */
  lemma {:induction false} GatewayStageLocal(gateways: seq<Id>, o1: Oracle, o2: Oracle, clock: nat)
    requires forall k :: clock <= k < clock + 2 * |gateways| ==> o1(k) == o2(k)
    ensures GatewayStage(gateways, o1, clock) == GatewayStage(gateways, o2, clock)
  {
    if |gateways| > 0 {
      assert o1(clock) == o2(clock) && o1(clock + 1) == o2(clock + 1);
      var first := GatewayAttempt(gateways[0], o1, clock);
      assert first == GatewayAttempt(gateways[0], o2, clock);
      if !first.raised {
        GatewayStageLocal(gateways[1..], o1, o2, clock + |first.calls|);
      }
    }
  }

  // ---------------------------------------------------------------- the whole teardown

  /** Failures are isolated: what `vpc_cleanup` issues, and whether it raises,
      depends on the outcomes of the internet-gateway calls alone; a failed
      deletion in any other stage changes nothing that follows. */
  lemma CleanupDependsOnGatewaysAlone(vpc: Vpc, o1: Oracle, o2: Oracle, clock: nat)
    requires forall k :: clock + |vpc.natGateways| <= k < clock + |vpc.natGateways| + 2 * |vpc.internetGateways| ==> o1(k) == o2(k)
    ensures CleanupCalls(vpc, o1, clock) == CleanupCalls(vpc, o2, clock)
    ensures CleanupResult(vpc, o1, clock) == Raised <==> CleanupResult(vpc, o2, clock) == Raised
  {
    GatewayStageLocal(vpc.internetGateways, o1, o2, clock + |vpc.natGateways|);
  }

  /** When no call of the internet-gateway stage raises anything but a
      `ClientError`, `vpc_cleanup` runs to the end, its last call deletes the
      VPC, and it reports whether that call returned; the outcomes of the other
      stages do not matter. */
  lemma CleanupWithoutOtherErrors(vpc: Vpc, oracle: Oracle, clock: nat)
    requires forall k :: clock + |vpc.natGateways| <= k < clock + |vpc.natGateways| + 2 * |vpc.internetGateways| ==> oracle(k) != OtherError
    ensures !Raises(vpc, oracle, clock)
    ensures var calls := CleanupCalls(vpc, oracle, clock);
      |calls| > 0 && calls[|calls| - 1] == DeleteVpc(vpc.vpcId) &&
      CleanupResult(vpc, oracle, clock) == Finished(oracle(clock + |calls| - 1) == Succeeded)
  {
    GatewayStageCalls(vpc.internetGateways, oracle, clock + |vpc.natGateways|);
    GatewayRaisedIffOtherError(vpc.internetGateways, oracle, clock + |vpc.natGateways|);
    CleanupEndsWithDeleteVpc(vpc, oracle, clock);
    CleanupResultOfCalls(vpc, oracle, clock);
  }


  lemma {:induction false} AllAssociationsMember(tables: seq<RouteTable>, rt: RouteTable, a: Association)
    requires rt in tables && a in rt.associations
    ensures a in AllAssociations(tables)
  {
    var last := tables[|tables| - 1];
    if rt != last {
      var init := tables[..|tables| - 1];
      assert tables == init + [last];
      AllAssociationsMember(init, rt, a);
    }
  }

  /** The stages of the list that the properties below are about. */
  lemma StageListAt(vpc: Vpc, oracle: Oracle, clock: nat)
    ensures var st, raised := StageList(vpc, oracle, clock), Raises(vpc, oracle, clock);
      |st| == 11 &&
      st[4] == (if raised then [] else AssociationStage(vpc)) &&
      st[7] == (if raised then [] else GroupStage(vpc)) &&
      st[8] == (if raised then [] else AclStage(vpc)) &&
      st[10] == (if raised then [] else [DeleteVpc(vpc.vpcId)])
  {
  }

  // How often stages 5, 8, 9 and 11 issue one call, stated without the rest of the teardown.

  lemma RanksOf(id: Id)
    ensures Rank(DeleteRouteTableAssociation(id)) == 5 && Rank(DeleteSecurityGroup(id)) == 8
    ensures Rank(DeleteNetworkAcl(id)) == 9 && Rank(DeleteVpc(id)) == 11
  {
  }

  lemma VpcStageCount(vpc: Vpc, oracle: Oracle, clock: nat, id: Id)
    ensures multiset(StageList(vpc, oracle, clock)[10])[DeleteVpc(vpc.vpcId)] == if Raises(vpc, oracle, clock) then 0 else 1
    ensures id != vpc.vpcId ==> multiset(StageList(vpc, oracle, clock)[10])[DeleteVpc(id)] == 0
  {
    StageListAt(vpc, oracle, clock);
  }

  lemma GroupCount(vpc: Vpc, sg: SecurityGroup)
    requires sg in vpc.securityGroups
    requires forall i, j :: 0 <= i < j < |vpc.securityGroups| ==> vpc.securityGroups[i].groupId != vpc.securityGroups[j].groupId
    ensures multiset(GroupStage(vpc))[DeleteSecurityGroup(sg.groupId)] == if sg.groupName == "default" then 0 else 1
  {
    assert UniqueKeys(vpc.securityGroups, GroupCall);
    MappedOnce(vpc.securityGroups, NotDefaultGroup, GroupCall, sg);
  }

  lemma GroupStageCount(vpc: Vpc, oracle: Oracle, clock: nat, sg: SecurityGroup)
    requires sg in vpc.securityGroups
    requires forall i, j :: 0 <= i < j < |vpc.securityGroups| ==> vpc.securityGroups[i].groupId != vpc.securityGroups[j].groupId
    ensures multiset(StageList(vpc, oracle, clock)[7])[DeleteSecurityGroup(sg.groupId)] ==
      if Raises(vpc, oracle, clock) || sg.groupName == "default" then 0 else 1
  {
    StageListAt(vpc, oracle, clock);
    GroupCount(vpc, sg);
  }

  lemma AclCount(vpc: Vpc, acl: NetworkAcl)
    requires acl in vpc.networkAcls
    requires forall i, j :: 0 <= i < j < |vpc.networkAcls| ==> vpc.networkAcls[i].aclId != vpc.networkAcls[j].aclId
    ensures multiset(AclStage(vpc))[DeleteNetworkAcl(acl.aclId)] == if acl.isDefault then 0 else 1
  {
    assert UniqueKeys(vpc.networkAcls, AclCall);
    MappedOnce(vpc.networkAcls, NotDefaultAcl, AclCall, acl);
  }

  lemma AclStageCount(vpc: Vpc, oracle: Oracle, clock: nat, acl: NetworkAcl)
    requires acl in vpc.networkAcls
    requires forall i, j :: 0 <= i < j < |vpc.networkAcls| ==> vpc.networkAcls[i].aclId != vpc.networkAcls[j].aclId
    ensures multiset(StageList(vpc, oracle, clock)[8])[DeleteNetworkAcl(acl.aclId)] ==
      if Raises(vpc, oracle, clock) || acl.isDefault then 0 else 1
  {
    StageListAt(vpc, oracle, clock);
    AclCount(vpc, acl);
  }

  lemma AssociationCount(vpc: Vpc, rt: RouteTable, a: Association)
    requires rt in vpc.routeTables && a in rt.associations
    requires var all := AllAssociations(vpc.routeTables);
      forall i, j :: 0 <= i < j < |all| ==> all[i].associationId != all[j].associationId
    ensures multiset(AssociationStage(vpc))[DeleteRouteTableAssociation(a.associationId)] == if a.main then 0 else 1
  {
    var all := AllAssociations(vpc.routeTables);
    AllAssociationsMember(vpc.routeTables, rt, a);
    assert UniqueKeys(all, AssociationCall);
    MappedOnce(all, NotMain, AssociationCall, a);
  }

  lemma AssociationStageCount(vpc: Vpc, oracle: Oracle, clock: nat, rt: RouteTable, a: Association)
    requires rt in vpc.routeTables && a in rt.associations
    requires var all := AllAssociations(vpc.routeTables);
      forall i, j :: 0 <= i < j < |all| ==> all[i].associationId != all[j].associationId
    ensures multiset(StageList(vpc, oracle, clock)[4])[DeleteRouteTableAssociation(a.associationId)] ==
      if Raises(vpc, oracle, clock) || a.main then 0 else 1
  {
    StageListAt(vpc, oracle, clock);
    AssociationCount(vpc, rt, a);
  }

  /** `delete_vpc` is issued for this VPC once when the teardown gets that far,
      and never when it raised. */
  lemma DeleteVpcOnce(vpc: Vpc, oracle: Oracle, clock: nat)
    ensures multiset(CleanupCalls(vpc, oracle, clock))[DeleteVpc(vpc.vpcId)] == if Raises(vpc, oracle, clock) then 0 else 1
  {
    VpcStageCount(vpc, oracle, clock, vpc.vpcId);
    RanksOf(vpc.vpcId);
    CleanupCount(vpc, oracle, clock, DeleteVpc(vpc.vpcId), 10, if Raises(vpc, oracle, clock) then 0 else 1);
  }

  /** The teardown of one VPC never deletes another VPC. */
  lemma NoOtherVpcDeleted(vpc: Vpc, oracle: Oracle, clock: nat, id: Id)
    requires id != vpc.vpcId
    ensures DeleteVpc(id) !in CleanupCalls(vpc, oracle, clock)
  {
    VpcStageCount(vpc, oracle, clock, id);
    RanksOf(id);
    CleanupCount(vpc, oracle, clock, DeleteVpc(id), 10, 0);
  }

  /** A security group is deleted once when it is not the default one and the
      teardown gets that far, and the default group never. */
  lemma GroupDeletedUnlessDefault(vpc: Vpc, oracle: Oracle, clock: nat, sg: SecurityGroup)
    requires sg in vpc.securityGroups
    requires forall i, j :: 0 <= i < j < |vpc.securityGroups| ==> vpc.securityGroups[i].groupId != vpc.securityGroups[j].groupId
    ensures multiset(CleanupCalls(vpc, oracle, clock))[DeleteSecurityGroup(sg.groupId)] ==
      if Raises(vpc, oracle, clock) || sg.groupName == "default" then 0 else 1
  {
    GroupStageCount(vpc, oracle, clock, sg);
    RanksOf(sg.groupId);
    CleanupCount(vpc, oracle, clock, DeleteSecurityGroup(sg.groupId), 7,
      if Raises(vpc, oracle, clock) || sg.groupName == "default" then 0 else 1);
  }

  /** A network ACL is deleted once when it is not a default one and the
      teardown gets that far, and a default ACL never. */
  lemma AclDeletedUnlessDefault(vpc: Vpc, oracle: Oracle, clock: nat, acl: NetworkAcl)
    requires acl in vpc.networkAcls
    requires forall i, j :: 0 <= i < j < |vpc.networkAcls| ==> vpc.networkAcls[i].aclId != vpc.networkAcls[j].aclId
    ensures multiset(CleanupCalls(vpc, oracle, clock))[DeleteNetworkAcl(acl.aclId)] ==
      if Raises(vpc, oracle, clock) || acl.isDefault then 0 else 1
  {
    AclStageCount(vpc, oracle, clock, acl);
    RanksOf(acl.aclId);
    CleanupCount(vpc, oracle, clock, DeleteNetworkAcl(acl.aclId), 8,
      if Raises(vpc, oracle, clock) || acl.isDefault then 0 else 1);
  }

  /** A route-table association is deleted once when it is not a main one and
      the teardown gets that far, and a main association never. */
  lemma AssociationDeletedUnlessMain(vpc: Vpc, oracle: Oracle, clock: nat, rt: RouteTable, a: Association)
    requires rt in vpc.routeTables && a in rt.associations
    requires var all := AllAssociations(vpc.routeTables);
      forall i, j :: 0 <= i < j < |all| ==> all[i].associationId != all[j].associationId
    ensures multiset(CleanupCalls(vpc, oracle, clock))[DeleteRouteTableAssociation(a.associationId)] ==
      if Raises(vpc, oracle, clock) || a.main then 0 else 1
  {
    AssociationStageCount(vpc, oracle, clock, rt, a);
    RanksOf(a.associationId);
    CleanupCount(vpc, oracle, clock, DeleteRouteTableAssociation(a.associationId), 4,
      if Raises(vpc, oracle, clock) || a.main then 0 else 1);
  }

  /** The group named `default` is never deleted, whatever the outcomes. */
  lemma DefaultGroupNeverDeleted(vpc: Vpc, oracle: Oracle, clock: nat, sg: SecurityGroup)
    requires sg in vpc.securityGroups && sg.groupName == "default"
    requires forall i, j :: 0 <= i < j < |vpc.securityGroups| ==> vpc.securityGroups[i].groupId != vpc.securityGroups[j].groupId
    ensures DeleteSecurityGroup(sg.groupId) !in CleanupCalls(vpc, oracle, clock)
  {
    GroupDeletedUnlessDefault(vpc, oracle, clock, sg);
  }

  /** A default network ACL is never deleted, whatever the outcomes. */
  lemma DefaultAclNeverDeleted(vpc: Vpc, oracle: Oracle, clock: nat, acl: NetworkAcl)
    requires acl in vpc.networkAcls && acl.isDefault
    requires forall i, j :: 0 <= i < j < |vpc.networkAcls| ==> vpc.networkAcls[i].aclId != vpc.networkAcls[j].aclId
    ensures DeleteNetworkAcl(acl.aclId) !in CleanupCalls(vpc, oracle, clock)
  {
    AclDeletedUnlessDefault(vpc, oracle, clock, acl);
  }

  /** A main route-table association is never deleted, whatever the outcomes. */
  lemma MainAssociationNeverDeleted(vpc: Vpc, oracle: Oracle, clock: nat, rt: RouteTable, a: Association)
    requires rt in vpc.routeTables && a in rt.associations && a.main
    requires var all := AllAssociations(vpc.routeTables);
      forall i, j :: 0 <= i < j < |all| ==> all[i].associationId != all[j].associationId
    ensures DeleteRouteTableAssociation(a.associationId) !in CleanupCalls(vpc, oracle, clock)
  {
    AssociationDeletedUnlessMain(vpc, oracle, clock, rt, a);
  }

  /** The teardown ends with `delete_vpc` whenever it does not raise. */
  lemma CleanupEndsWithDeleteVpc(vpc: Vpc, oracle: Oracle, clock: nat)
    ensures var calls := CleanupCalls(vpc, oracle, clock);
      !Raises(vpc, oracle, clock) ==> |calls| > 0 && calls[|calls| - 1] == DeleteVpc(vpc.vpcId)
  {
  }

  /** Some `x` call among `calls`, issued from `clock` on, returned normally. */
  ghost predicate SomeSucceeded(calls: seq<Call>, x: Call, oracle: Oracle, clock: nat)
  {
    exists i :: 0 <= i < |calls| && calls[i] == x && oracle(clock + i) == Succeeded
  }

  /** A run whose only `x` call, if any, is its last one reports success
      exactly when some `x` call returned normally. */
  lemma SlayedWhenLastSucceeded(front: seq<Call>, x: Call, oracle: Oracle, clock: nat, raised: bool, calls: seq<Call>, result: Cleanup)
    requires x !in front
    requires calls == front + if raised then [] else [x]
    requires result == if raised then Raised else Finished(oracle(clock + |calls| - 1) == Succeeded)
    ensures result == Finished(true) <==> SomeSucceeded(calls, x, oracle, clock)
  {
    if result == Finished(true) {
      assert calls[|calls| - 1] == x;
    }
    if i :| 0 <= i < |calls| && calls[i] == x && oracle(clock + i) == Succeeded {
      assert i == |front|;
    }
  }

  /** How the teardown ends, in terms of its calls. */
  lemma CleanupResultOfCalls(vpc: Vpc, oracle: Oracle, clock: nat)
    ensures CleanupResult(vpc, oracle, clock) ==
      if Raises(vpc, oracle, clock) then Raised
      else Finished(oracle(clock + |CleanupCalls(vpc, oracle, clock)| - 1) == Succeeded)
  {
  }

  /** `vpc_cleanup` reports success exactly when one of its calls deleted this VPC
      and returned normally. */
  lemma CleanupSlayedIffVpcDeleted(vpc: Vpc, oracle: Oracle, clock: nat)
    ensures CleanupResult(vpc, oracle, clock) == Finished(true) <==>
      SomeSucceeded(CleanupCalls(vpc, oracle, clock), DeleteVpc(vpc.vpcId), oracle, clock)
  {
    CleanupLastStage(vpc, oracle, clock);
    CleanupResultOfCalls(vpc, oracle, clock);
    var front :| AtMost(front, 10) &&
      CleanupCalls(vpc, oracle, clock) == front + (if Raises(vpc, oracle, clock) then [] else [DeleteVpc(vpc.vpcId)]);
    assert DeleteVpc(vpc.vpcId) !in front;
    SlayedWhenLastSucceeded(front, DeleteVpc(vpc.vpcId), oracle, clock,
      Raises(vpc, oracle, clock), CleanupCalls(vpc, oracle, clock), CleanupResult(vpc, oracle, clock));
  }

  // ---------------------------------------------------------------- VPC deletes that returned

  /** How many of `calls`, issued from position `clock` on, delete a VPC and returned normally. */
  function VpcDeletesReturned(calls: seq<Call>, oracle: Oracle, clock: nat): (n: nat)
    ensures n <= |calls|
  {
    if |calls| == 0 then 0
    else VpcDeletesReturned(calls[..|calls| - 1], oracle, clock) + (if calls[|calls| - 1].DeleteVpc? && oracle(clock + |calls| - 1) == Succeeded then 1 else 0)
  }

  /** Counting over two runs of calls issued one after the other. */
  lemma {:induction false} VpcDeletesAppend(a: seq<Call>, b: seq<Call>, oracle: Oracle, clock: nat)
    ensures VpcDeletesReturned(a + b, oracle, clock) == VpcDeletesReturned(a, oracle, clock) + VpcDeletesReturned(b, oracle, clock + |a|)
  {
    if |b| == 0 {
      assert a + b == a;
    } else {
      var init := b[..|b| - 1];
      assert (a + b)[..|a + b| - 1] == a + init;
      VpcDeletesAppend(a, init, oracle, clock);
    }
  }

  /** Calls of the stages before the last one delete no VPC. */
  lemma {:induction false} NoVpcDeletesBefore(s: seq<Call>, oracle: Oracle, clock: nat)
    requires AtMost(s, 10)
    ensures VpcDeletesReturned(s, oracle, clock) == 0
  {
    if |s| > 0 {
      var init := s[..|s| - 1];
      assert AtMost(init, 10) by {
        forall i | 0 <= i < |init| ensures Rank(init[i]) <= 10 {
          assert init[i] == s[i];
        }
      }
      NoVpcDeletesBefore(init, oracle, clock);
      assert Rank(s[|s| - 1]) <= 10;
    }
  }

  /** The teardown is its first ten stages, which delete no VPC, followed by
      the delete of this VPC unless it raised. */
  lemma CleanupLastStage(vpc: Vpc, oracle: Oracle, clock: nat)
    ensures exists front ::
      AtMost(front, 10) && CleanupCalls(vpc, oracle, clock) == front + (if Raises(vpc, oracle, clock) then [] else [DeleteVpc(vpc.vpcId)])
  {
    var st := StageList(vpc, oracle, clock);
    StageListAt(vpc, oracle, clock);
    StageListRanked(vpc, oracle, clock);
    CleanupIsStages(vpc, oracle, clock);
    var front := st[..10];
    assert Ranked(front) by {
      forall r | 0 <= r < 10 ensures Uniform(front[r], r + 1) {
        assert front[r] == st[r];
      }
    }
    ConcatStaged(front);
    assert Concat(st) == Concat(front) + st[10];
  }

  /** A run whose only VPC delete, if any, is its last call counts one returned delete
      exactly when it reports success. */
  lemma LastDeleteReturned(front: seq<Call>, id: Id, oracle: Oracle, clock: nat, raised: bool, calls: seq<Call>, result: Cleanup)
    requires AtMost(front, 10)
    requires calls == front + if raised then [] else [DeleteVpc(id)]
    requires result == if raised then Raised else Finished(oracle(clock + |calls| - 1) == Succeeded)
    ensures VpcDeletesReturned(calls, oracle, clock) == if result == Finished(true) then 1 else 0
  {
    var last: seq<Call> := if raised then [] else [DeleteVpc(id)];
    NoVpcDeletesBefore(front, oracle, clock);
    VpcDeletesAppend(front, last, oracle, clock);
    if !raised {
      assert last[..0] == [];
    }
  }

  /** One teardown adds one to the returned VPC deletes exactly when it reports success. */
  lemma CleanupDeletesReturned(vpc: Vpc, oracle: Oracle, clock: nat)
    ensures VpcDeletesReturned(CleanupCalls(vpc, oracle, clock), oracle, clock) ==
      if CleanupResult(vpc, oracle, clock) == Finished(true) then 1 else 0
  {
    CleanupLastStage(vpc, oracle, clock);
    CleanupResultOfCalls(vpc, oracle, clock);
    var front :| AtMost(front, 10) &&
      CleanupCalls(vpc, oracle, clock) == front + (if Raises(vpc, oracle, clock) then [] else [DeleteVpc(vpc.vpcId)]);
    LastDeleteReturned(front, vpc.vpcId, oracle, clock,
      Raises(vpc, oracle, clock), CleanupCalls(vpc, oracle, clock), CleanupResult(vpc, oracle, clock));
  }
}
