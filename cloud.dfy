/** The cloud provider as the scavenger sees it: the records its listings
    return, the calls it issues, and the outcome of each call.

    Listings are plain input sequences. The outcome of a call is drawn from an
    oracle indexed by the call's position in the run: the k-th call the run
    issues gets `oracle(k)`. Every operation takes `clock`, the position of its
    first call, so that operations run one after another draw successive
    outcomes. */
module Cloud {

  type Id = string

  datatype Option<T> = None | Some(value: T)

  /** What a provider call does: return normally, raise a `ClientError`
      (the SDK's error for a request the service refused, such as a
      dependency violation), or raise any other exception. */
  datatype Outcome = Succeeded | ClientError | OtherError

  type Oracle = nat -> Outcome

  /** Every provider call the scavenger can issue, with the arguments it passes. */
  datatype Call =
    | ReleaseAddress(allocationId: Id)
    | DeleteVolume(volumeId: Id, dryRun: bool)
    | TerminateInstance(instanceId: Id, dryRun: bool)
    | DeleteLoadBalancer(name: Id)
    | DeleteNatGateway(natGatewayId: Id)
    | DetachInternetGateway(gatewayId: Id)
    | DeleteInternetGateway(gatewayId: Id)
    | DeleteNetworkInterface(interfaceId: Id)
    | DeleteSubnet(subnetId: Id)
    | DeleteRouteTableAssociation(associationId: Id)
    | DeleteRouteTable(routeTableId: Id)
    | DeleteVpcEndpoint(endpointId: Id)
    | DeleteSecurityGroup(groupId: Id)
    | DeleteNetworkAcl(aclId: Id)
    | DeleteVpcPeeringConnection(peeringId: Id)
    | DeleteVpc(vpcId: Id)

  /** An elastic IP; `associationId` is absent when the key is missing from the listing. */
  datatype Address = Address(allocationId: Id, associationId: Option<Id>)

  /** An EBS volume; `createTime` is a timestamp on the same clock as the threshold. */
  datatype Volume = Volume(volumeId: Id, attachments: seq<Id>, createTime: int)

  /** The EC2 instance lifecycle states. */
  datatype InstanceState = Pending | Running | ShuttingDown | Terminated | Stopping | Stopped

  datatype Instance = Instance(instanceId: Id, state: InstanceState, launchTime: int)

  /** A classic load balancer with the instances registered with it. */
  datatype LoadBalancer = LoadBalancer(name: Id, instances: seq<Id>, createdTime: int)

  datatype Subnet = Subnet(subnetId: Id, interfaces: seq<Id>)

  datatype Association = Association(associationId: Id, main: bool)

  datatype RouteTable = RouteTable(routeTableId: Id, associations: seq<Association>)

  datatype SecurityGroup = SecurityGroup(groupId: Id, groupName: string)

  datatype NetworkAcl = NetworkAcl(aclId: Id, isDefault: bool)

  /** A non-default VPC with every listing the teardown reads from it. */
  datatype Vpc = Vpc(
    vpcId: Id,
    instances: seq<Instance>,
    natGateways: seq<Id>,
    internetGateways: seq<Id>,
    subnets: seq<Subnet>,
    routeTables: seq<RouteTable>,
    endpoints: seq<Id>,
    securityGroups: seq<SecurityGroup>,
    networkAcls: seq<NetworkAcl>,
    requesterPeerings: seq<Id>,
    accepterPeerings: seq<Id>)

  /** How many of the `n` calls issued from position `from` on did not succeed. */
  function Failures(oracle: Oracle, from: nat, n: nat): (k: nat)
    ensures k <= n
  {
    if n == 0 then 0
    else Failures(oracle, from, n - 1) + (if oracle(from + n - 1) == Succeeded then 0 else 1)
  }

  /** How many of the `n` calls issued from position `from` on succeeded. */
  function Successes(oracle: Oracle, from: nat, n: nat): (k: nat)
    ensures k <= n
  {
    if n == 0 then 0
    else Successes(oracle, from, n - 1) + (if oracle(from + n - 1) == Succeeded then 1 else 0)
  }

  /** One more call adds one to `Failures` exactly when it does not succeed. */
  lemma FailuresStep(oracle: Oracle, from: nat, n: nat)
    ensures Failures(oracle, from, n + 1) == Failures(oracle, from, n) + (if oracle(from + n) == Succeeded then 0 else 1)
  {
  }

  /** One more call adds one to `Successes` exactly when it succeeds. */
  lemma SuccessesStep(oracle: Oracle, from: nat, n: nat)
    ensures Successes(oracle, from, n + 1) == Successes(oracle, from, n) + (if oracle(from + n) == Succeeded then 1 else 0)
  {
  }

  /** Counting failures over two consecutive runs of calls. */
  lemma {:induction false} FailuresSplit(oracle: Oracle, from: nat, m: nat, n: nat)
    ensures Failures(oracle, from, m + n) == Failures(oracle, from, m) + Failures(oracle, from + m, n)
  {
    if n > 0 {
      FailuresSplit(oracle, from, m, n - 1);
    }
  }

  /** Every call either succeeds or fails. */
  lemma {:induction false} SuccessesAndFailures(oracle: Oracle, from: nat, n: nat)
    ensures Successes(oracle, from, n) + Failures(oracle, from, n) == n
  {
    if n > 0 {
      SuccessesAndFailures(oracle, from, n - 1);
    }
  }

  /** None of the calls fail exactly when all of them succeed. */
  lemma {:induction false} NoFailuresMeansAllSucceeded(oracle: Oracle, from: nat, n: nat)
    ensures Failures(oracle, from, n) == 0 <==> forall k :: from <= k < from + n ==> oracle(k) == Succeeded
  {
    if n > 0 {
      NoFailuresMeansAllSucceeded(oracle, from, n - 1);
    }
  }
}
