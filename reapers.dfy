/** The idle-resource reapers of aws-scavenger.py: elastic IPs, EBS volumes,
    EC2 instances of one VPC and classic load balancers, plus the occupancy
    check `ec2_in_vpc`.

    Each reaper is a method that walks its listing the way the source does and
    returns the source's counters; its ghost `calls` out-parameter is the
    sequence of provider calls it issued. Each method is tied to a
    specification function of its listing (`EipCalls`, `EbsCalls`, ...), and
    the lemmas that follow state which resources those functions reach. Every
    reaper catches every exception of its calls, so the calls issued never
    depend on the outcomes; only the counters do. */
module Reapers {
  import opened Seqs
  import opened Cloud

  // ---------------------------------------------------------------- elastic IPs

  predicate Unassociated(a: Address)
  {
    a.associationId.None?
  }

  function ReleaseCall(a: Address): Call
  {
    ReleaseAddress(a.allocationId)
  }

  /** The releases `slay_eips` issues: one per unassociated address, in listing order. */
  function EipCalls(addresses: seq<Address>): seq<Call>
  {
    Map(ReleaseCall, Filter(addresses, Unassociated))
  }

  /** The source's `failed =+ 1` assigns 1: the counter only records whether some call failed. */
  function FailedAsWritten(failures: nat): (r: nat)
    ensures r <= 1
    ensures r == 0 <==> failures == 0
  {
    if failures == 0 then 0 else 1
  }

  /** `slay_eips`: `slayed` is counted before the release is issued, so it is the
      number of unassociated addresses whatever the outcomes; `failed` is 0 or 1. */
  method SlayEips(addresses: seq<Address>, oracle: Oracle, clock: nat)
    returns (slayed: nat, failed: nat, ghost calls: seq<Call>)
    ensures calls == EipCalls(addresses)
    ensures slayed == |Filter(addresses, Unassociated)| == |calls|
    ensures failed == FailedAsWritten(Failures(oracle, clock, slayed))
    ensures failed <= 1
    ensures failed == 0 <==> forall k :: clock <= k < clock + slayed ==> oracle(k) == Succeeded
  {
    slayed, failed := 0, 0;
    calls := [];
    for i := 0 to |addresses|
      invariant calls == Map(ReleaseCall, Filter(addresses[..i], Unassociated))
      invariant slayed == |calls|
      invariant failed == FailedAsWritten(Failures(oracle, clock, slayed))
    {
      CallsSnoc(addresses, i, Unassociated, ReleaseCall);
      if Unassociated(addresses[i]) {
        var position := clock + slayed;
        FailuresStep(oracle, clock, slayed);
        slayed := slayed + 1;
        var outcome := oracle(position);
        calls := calls + [ReleaseCall(addresses[i])];
        if outcome != Succeeded {
          failed := 1;
        }
      }
    }
    assert addresses[..|addresses|] == addresses;
    NoFailuresMeansAllSucceeded(oracle, clock, slayed);
  }

  /** `slay_eips` as evidently intended: `failed` counts the failed releases. */
  method SlayEipsCounted(addresses: seq<Address>, oracle: Oracle, clock: nat)
    returns (slayed: nat, failed: nat, ghost calls: seq<Call>)
    ensures calls == EipCalls(addresses)
    ensures slayed == |calls|
    ensures failed == Failures(oracle, clock, slayed)
    ensures failed == 0 <==> forall k :: clock <= k < clock + slayed ==> oracle(k) == Succeeded
  {
    slayed, failed := 0, 0;
    calls := [];
    for i := 0 to |addresses|
      invariant calls == Map(ReleaseCall, Filter(addresses[..i], Unassociated))
      invariant slayed == |calls|
      invariant failed == Failures(oracle, clock, slayed)
    {
      CallsSnoc(addresses, i, Unassociated, ReleaseCall);
      if Unassociated(addresses[i]) {
        var position := clock + slayed;
        FailuresStep(oracle, clock, slayed);
        slayed := slayed + 1;
        var outcome := oracle(position);
        calls := calls + [ReleaseCall(addresses[i])];
        if outcome != Succeeded {
          failed := failed + 1;
        }
      }
    }
    assert addresses[..|addresses|] == addresses;
    NoFailuresMeansAllSucceeded(oracle, clock, slayed);
  }

  /** With distinct allocation ids, an address is released exactly once if it is
      unassociated and never if it is associated. */
  lemma EipReleasedIffUnassociated(addresses: seq<Address>, a: Address)
    requires forall i, j :: 0 <= i < j < |addresses| ==> addresses[i].allocationId != addresses[j].allocationId
    requires a in addresses
    ensures multiset(EipCalls(addresses))[ReleaseAddress(a.allocationId)] == if a.associationId.None? then 1 else 0
  {
    assert UniqueKeys(addresses, ReleaseCall);
    MappedOnce(addresses, Unassociated, ReleaseCall, a);
  }

  // ---------------------------------------------------------------- EBS volumes

  predicate Unattached(v: Volume)
  {
    |v.attachments| == 0
  }

  function VolumeOlderThan(threshold: int): Volume -> bool
  {
    (v: Volume) => v.createTime < threshold
  }

  function DeleteVolumeCall(dryRun: bool): Volume -> Call
  {
    (v: Volume) => DeleteVolume(v.volumeId, dryRun)
  }

  /** The source's two-phase filter: unattached first, then created before the threshold. */
  function SlayableVolumes(volumes: seq<Volume>, threshold: int): seq<Volume>
  {
    Filter(Filter(volumes, Unattached), VolumeOlderThan(threshold))
  }

  function EbsCalls(volumes: seq<Volume>, threshold: int, dryRun: bool): seq<Call>
  {
    Map(DeleteVolumeCall(dryRun), SlayableVolumes(volumes, threshold))
  }

  /** `ebs_slayer`: the first result is the number of candidates; `failed = + 1`
      assigns 1, so the second is 0 or 1. */
  method EbsSlayer(volumes: seq<Volume>, threshold: int, dryRun: bool, oracle: Oracle, clock: nat)
    returns (candidates: nat, failed: nat, ghost calls: seq<Call>)
    ensures calls == EbsCalls(volumes, threshold, dryRun)
    ensures candidates == |SlayableVolumes(volumes, threshold)| == |calls|
    ensures failed == FailedAsWritten(Failures(oracle, clock, candidates))
    ensures failed == 0 <==> forall k :: clock <= k < clock + candidates ==> oracle(k) == Succeeded
  {
    var unattached, slayable := [], [];
    for i := 0 to |volumes|
      invariant unattached == Filter(volumes[..i], Unattached)
    {
      FilterSnoc(volumes, i, Unattached);
      if |volumes[i].attachments| == 0 {
        unattached := unattached + [volumes[i]];
      }
    }
    assert volumes[..|volumes|] == volumes;
    for i := 0 to |unattached|
      invariant slayable == Filter(unattached[..i], VolumeOlderThan(threshold))
    {
      FilterSnoc(unattached, i, VolumeOlderThan(threshold));
      if unattached[i].createTime < threshold {
        slayable := slayable + [unattached[i]];
      }
    }
    assert unattached[..|unattached|] == unattached;
    failed := 0;
    calls := [];
    for i := 0 to |slayable|
      invariant calls == Map(DeleteVolumeCall(dryRun), slayable[..i])
      invariant failed == FailedAsWritten(Failures(oracle, clock, i))
    {
      var outcome := oracle(clock + i);
      FailuresStep(oracle, clock, i);
      MapPrefixSnoc(DeleteVolumeCall(dryRun), slayable, i);
      calls := calls + [DeleteVolumeCall(dryRun)(slayable[i])];
      if outcome != Succeeded {
        failed := 1;
      }
    }
    assert slayable[..|slayable|] == slayable;
    candidates := |slayable|;
    NoFailuresMeansAllSucceeded(oracle, clock, candidates);
  }

  /** `ebs_slayer` as evidently intended: `failed` counts the failed deletions. */
  method EbsSlayerCounted(volumes: seq<Volume>, threshold: int, dryRun: bool, oracle: Oracle, clock: nat)
    returns (candidates: nat, failed: nat, ghost calls: seq<Call>)
    ensures calls == EbsCalls(volumes, threshold, dryRun)
    ensures candidates == |calls|
    ensures failed == Failures(oracle, clock, candidates)
    ensures failed == 0 <==> forall k :: clock <= k < clock + candidates ==> oracle(k) == Succeeded
  {
    var slayable := [];
    for i := 0 to |volumes|
      invariant slayable == Filter(volumes[..i], Both(Unattached, VolumeOlderThan(threshold)))
    {
      FilterSnoc(volumes, i, Both(Unattached, VolumeOlderThan(threshold)));
      if |volumes[i].attachments| == 0 && volumes[i].createTime < threshold {
        slayable := slayable + [volumes[i]];
      }
    }
    assert volumes[..|volumes|] == volumes;
    FilterFilter(volumes, Unattached, VolumeOlderThan(threshold));
    failed := 0;
    calls := [];
    for i := 0 to |slayable|
      invariant calls == Map(DeleteVolumeCall(dryRun), slayable[..i])
      invariant failed == Failures(oracle, clock, i)
    {
      var outcome := oracle(clock + i);
      FailuresStep(oracle, clock, i);
      MapPrefixSnoc(DeleteVolumeCall(dryRun), slayable, i);
      calls := calls + [DeleteVolumeCall(dryRun)(slayable[i])];
      if outcome != Succeeded {
        failed := failed + 1;
      }
    }
    assert slayable[..|slayable|] == slayable;
    candidates := |slayable|;
    NoFailuresMeansAllSucceeded(oracle, clock, candidates);
  }

  /** With distinct volume ids, a volume is deleted exactly once if it has no
      attachment and was created before the threshold, and never otherwise: in
      particular an attached volume is never deleted, whatever its age. */
  lemma EbsDeletedIffIdleAndOld(volumes: seq<Volume>, threshold: int, dryRun: bool, v: Volume)
    requires forall i, j :: 0 <= i < j < |volumes| ==> volumes[i].volumeId != volumes[j].volumeId
    requires v in volumes
    ensures multiset(EbsCalls(volumes, threshold, dryRun))[DeleteVolume(v.volumeId, dryRun)]
            == if |v.attachments| == 0 && v.createTime < threshold then 1 else 0
  {
    FilterFilter(volumes, Unattached, VolumeOlderThan(threshold));
    assert UniqueKeys(volumes, DeleteVolumeCall(dryRun));
    MappedOnce(volumes, Both(Unattached, VolumeOlderThan(threshold)), DeleteVolumeCall(dryRun), v);
  }

  // ---------------------------------------------------------------- EC2 instances

  /** Running or stopped, and launched before the threshold. */
  function InstanceReapable(threshold: int): Instance -> bool
  {
    (i: Instance) => (i.state == Running || i.state == Stopped) && i.launchTime < threshold
  }

  function TerminateCall(dryRun: bool): Instance -> Call
  {
    (i: Instance) => TerminateInstance(i.instanceId, dryRun)
  }

  function Ec2Calls(instances: seq<Instance>, threshold: int, dryRun: bool): seq<Call>
  {
    Map(TerminateCall(dryRun), Filter(instances, InstanceReapable(threshold)))
  }

  function InstanceId(i: Instance): Id { i.instanceId }

  /** `ec2_in_vpc`: true exactly when the VPC lists at least one instance, in any state. */
  method Ec2InVpc(instances: seq<Instance>) returns (occupied: bool)
    ensures occupied <==> |instances| > 0
    ensures occupied <==> exists i :: i in instances
  {
    var ids: seq<Id> := [];
    for i := 0 to |instances|
      invariant ids == Map(InstanceId, instances[..i])
    {
      MapPrefixSnoc(InstanceId, instances, i);
      ids := ids + [instances[i].instanceId];
    }
    assert instances[..|instances|] == instances;
    if |ids| == 0 {
      occupied := false;
    } else {
      occupied := true;
      assert instances[0] in instances;
    }
  }

  /** `ec2_slayer`: `attempted` counts every terminate issued, `slayed` only
      those that returned normally; the rest raised and were printed. */
  method Ec2Slayer(instances: seq<Instance>, threshold: int, dryRun: bool, oracle: Oracle, clock: nat)
    returns (slayed: nat, attempted: nat, ghost calls: seq<Call>)
    ensures calls == Ec2Calls(instances, threshold, dryRun)
    ensures attempted == |Filter(instances, InstanceReapable(threshold))| == |calls|
    ensures slayed == Successes(oracle, clock, attempted)
    ensures slayed <= attempted
    ensures attempted - slayed == Failures(oracle, clock, attempted)
  {
    var oldEc2 := [];
    for i := 0 to |instances|
      invariant oldEc2 == Filter(instances[..i], InstanceReapable(threshold))
    {
      FilterSnoc(instances, i, InstanceReapable(threshold));
      if instances[i].state == Running || instances[i].state == Stopped {
        if instances[i].launchTime < threshold {
          oldEc2 := oldEc2 + [instances[i]];
        }
      }
    }
    assert instances[..|instances|] == instances;
    slayed, attempted := 0, 0;
    calls := [];
    for i := 0 to |oldEc2|
      invariant attempted == i
      invariant calls == Map(TerminateCall(dryRun), oldEc2[..i])
      invariant slayed == Successes(oracle, clock, i)
    {
      attempted := attempted + 1;
      var outcome := oracle(clock + i);
      SuccessesStep(oracle, clock, i);
      MapPrefixSnoc(TerminateCall(dryRun), oldEc2, i);
      calls := calls + [TerminateCall(dryRun)(oldEc2[i])];
      if outcome == Succeeded {
        slayed := slayed + 1;
      }
    }
    assert oldEc2[..|oldEc2|] == oldEc2;
    SuccessesAndFailures(oracle, clock, attempted);
  }

  /** With distinct instance ids, an instance is terminated exactly once if it is
      running or stopped and launched before the threshold, and never otherwise. */
  lemma Ec2TerminatedIffReapable(instances: seq<Instance>, threshold: int, dryRun: bool, inst: Instance)
    requires forall i, j :: 0 <= i < j < |instances| ==> instances[i].instanceId != instances[j].instanceId
    requires inst in instances
    ensures multiset(Ec2Calls(instances, threshold, dryRun))[TerminateInstance(inst.instanceId, dryRun)]
            == if (inst.state == Running || inst.state == Stopped) && inst.launchTime < threshold then 1 else 0
  {
    assert UniqueKeys(instances, TerminateCall(dryRun));
    MappedOnce(instances, InstanceReapable(threshold), TerminateCall(dryRun), inst);
  }

  // ---------------------------------------------------------------- load balancers

  predicate NoInstances(lb: LoadBalancer)
  {
    |lb.instances| == 0
  }

  function BalancerOlderThan(threshold: int): LoadBalancer -> bool
  {
    (lb: LoadBalancer) => lb.createdTime < threshold
  }

  function DeleteBalancerCall(lb: LoadBalancer): Call
  {
    DeleteLoadBalancer(lb.name)
  }

  /** The two independent passes of `elb_slayer`: balancers with no instances,
      then balancers created before the threshold. */
  function ElbCalls(balancers: seq<LoadBalancer>, threshold: int): seq<Call>
  {
    Map(DeleteBalancerCall, Filter(balancers, NoInstances))
      + Map(DeleteBalancerCall, Filter(balancers, BalancerOlderThan(threshold)))
  }

  /** One pass of `elb_slayer`: a delete for every balancer that `qualifies`,
      counting attempts and failures. */
  method ElbPass(balancers: seq<LoadBalancer>, qualifies: LoadBalancer -> bool, oracle: Oracle, clock: nat)
    returns (tries: nat, fails: nat, ghost calls: seq<Call>)
    ensures calls == Map(DeleteBalancerCall, Filter(balancers, qualifies))
    ensures tries == |calls|
    ensures fails == Failures(oracle, clock, tries)
  {
    tries, fails := 0, 0;
    calls := [];
    for i := 0 to |balancers|
      invariant calls == Map(DeleteBalancerCall, Filter(balancers[..i], qualifies))
      invariant tries == |calls|
      invariant fails == Failures(oracle, clock, tries)
    {
      CallsSnoc(balancers, i, qualifies, DeleteBalancerCall);
      if qualifies(balancers[i]) {
        var position := clock + tries;
        FailuresStep(oracle, clock, tries);
        tries := tries + 1;
        var outcome := oracle(position);
        calls := calls + [DeleteBalancerCall(balancers[i])];
        if outcome != Succeeded {
          fails := fails + 1;
        }
      }
    }
    assert balancers[..|balancers|] == balancers;
  }

  /** `elb_slayer`: the pass over balancers without instances, then the pass
      over old balancers, with `tries` and `fails` running on across both. */
  method ElbSlayer(balancers: seq<LoadBalancer>, threshold: int, oracle: Oracle, clock: nat)
    returns (tries: nat, fails: nat, ghost calls: seq<Call>)
    ensures calls == ElbCalls(balancers, threshold)
    ensures tries == |Filter(balancers, NoInstances)| + |Filter(balancers, BalancerOlderThan(threshold))|
    ensures tries == |calls|
    ensures fails == Failures(oracle, clock, tries)
    ensures fails <= tries
  {
    var emptyTries, emptyFails, oldTries, oldFails;
    ghost var emptyCalls, oldCalls;
    emptyTries, emptyFails, emptyCalls := ElbPass(balancers, NoInstances, oracle, clock);
    oldTries, oldFails, oldCalls := ElbPass(balancers, BalancerOlderThan(threshold), oracle, clock + emptyTries);
    FailuresSplit(oracle, clock, emptyTries, oldTries);
    tries, fails := emptyTries + oldTries, emptyFails + oldFails;
    calls := emptyCalls + oldCalls;
  }

  /** With distinct names, a balancer is attempted once per pass it qualifies for:
      twice when it has no instances and is old, never when it has instances
      and was not created before the threshold. */
  lemma ElbAttemptsPerBalancer(balancers: seq<LoadBalancer>, threshold: int, lb: LoadBalancer)
    requires forall i, j :: 0 <= i < j < |balancers| ==> balancers[i].name != balancers[j].name
    requires lb in balancers
    ensures multiset(ElbCalls(balancers, threshold))[DeleteLoadBalancer(lb.name)]
            == (if |lb.instances| == 0 then 1 else 0) + (if lb.createdTime < threshold then 1 else 0)
  {
    assert UniqueKeys(balancers, DeleteBalancerCall);
    MappedOnce(balancers, NoInstances, DeleteBalancerCall, lb);
    MappedOnce(balancers, BalancerOlderThan(threshold), DeleteBalancerCall, lb);
  }

  // ---------------------------------------------------------------- the failure counter

  /** Two unassociated addresses whose releases both fail: the source reports
      one failure where two happened. */
  lemma EipFailedUndercounts()
    ensures var addresses := [Address("eipalloc-1", None), Address("eipalloc-2", None)];
            var failures := Failures((k: nat) => ClientError, 0, |Filter(addresses, Unassociated)|);
            failures == 2 && FailedAsWritten(failures) == 1
  {
    var addresses := [Address("eipalloc-1", None), Address("eipalloc-2", None)];
    assert addresses[..1][..0] == [];
    assert Filter(addresses[..1], Unassociated) == [addresses[0]];
    assert addresses[..2] == addresses;
    FilterSnoc(addresses, 1, Unassociated);
  }

  /** Any two old, unattached volumes whose deletions both fail: `ebs_slayer`
      reports one failure where two happened. */
  lemma EbsFailedUndercounts(v1: Volume, v2: Volume, threshold: int)
    requires |v1.attachments| == 0 && v1.createTime < threshold
    requires |v2.attachments| == 0 && v2.createTime < threshold
    ensures var failures := Failures((k: nat) => ClientError, 0, |SlayableVolumes([v1, v2], threshold)|);
            failures == 2 && FailedAsWritten(failures) == 1
  {
    var volumes, aged := [v1, v2], VolumeOlderThan(threshold);
    assert volumes[..2] == volumes;
    assert Filter(volumes[..1], Unattached) == [v1] by {
      FilterSnoc(volumes, 0, Unattached);
      assert volumes[..0] == [];
    }
    assert Filter(volumes, Unattached) == volumes by {
      FilterSnoc(volumes, 1, Unattached);
    }
    assert Filter(volumes[..1], aged) == [v1] by {
      FilterSnoc(volumes, 0, aged);
      assert volumes[..0] == [];
    }
    assert Filter(volumes, aged) == volumes by {
      FilterSnoc(volumes, 1, aged);
    }
  }
}
