# aws-scavenger, modelled in Dafny

This project models the resource reapers and the VPC teardown of
`aws-scavenger.py`, a script that deletes idle AWS resources in every region.
It covers four reapers and the occupancy check `ec2_in_vpc`:

- `slay_eips` releases elastic IPs that have no association.
- `ebs_slayer` deletes volumes that are unattached and older than a threshold.
- `ec2_in_vpc` reports whether a VPC holds any instance.
- `ec2_slayer` terminates old instances that are `running` or `stopped`.
- `elb_slayer` deletes classic load balancers that have no instances, then those that are old.

It also covers the VPC teardown `vpc_cleanup`, and the last pass of `main`:

- that pass collects the VPCs in which `ec2_in_vpc` finds no instance;
- unless in dry-run mode, it runs `vpc_cleanup` on each of those VPCs;
- it counts the VPCs that `vpc_cleanup` reports removed.

A provider is modelled by two things. First, the listings it returns are plain
input sequences of records (module `Cloud`). Second, an outcome oracle decides
what a call does: `oracle(k)` is the outcome of the k-th call of the run.

- `Succeeded` means the call returned.
- `ClientError` means the SDK raised the error for a refused request, such as a
  dependency violation.
- `OtherError` means any other exception was raised.

Every operation that issues calls takes `clock`, the position of its first
call. The teardown's operations and the pass of `main` also report `next`, the
position after their last call, so operations run in sequence draw successive
outcomes. The reapers return only the source's counters; `elb_slayer` starts
its second pass at `clock` plus the number of calls of its first. The calls
each operation issues are a ghost output. The counts the source returns are
real outputs.

Modules:

- `Seqs`: `Filter` and `Map`, with their lemmas.
- `Cloud`: the records, the calls, outcomes, and failure and success counting.
- `Reapers`: the four reapers and `ec2_in_vpc`.
- `Teardown`: `vpc_cleanup`, stage by stage, with its stage order and safety properties.
- `Scavenger`: the empty-VPC pass of `main`.

The reapers and the teardown are loops in the source, so they are modelled as
methods with loops. Each method is proved against a specification function:
the calls it issues and the counts it returns are stated in terms of those
functions. The properties the source promises are then lemmas about those
functions.

The specification functions, which carry no contract of their own:

- `Reapers.EipCalls` (aws-scavenger.py:27-31), `Reapers.EbsCalls` (43-55),
  `Reapers.Ec2Calls` (104-113) and `Reapers.ElbCalls` (126-147) are the calls
  each reaper issues, in listing order.
- `Teardown.GatewayAttempt` (183-190) and `Teardown.GatewayStage` (175-190)
  are one internet gateway and the whole gateway stage, with whether an
  exception escaped.
- `Teardown.CleanupCalls` (159-277) is every call of `vpc_cleanup`.
  `Teardown.CleanupResult` (270-277) is whether it raised, or else whether
  `delete_vpc` returned.
- `Scavenger.TallyRun` (346-352) is the removal pass of `main`.

## Model

| member | source | states |
|---|---|---|
| Reapers.FailedAsWritten | aws-scavenger.py:33 | `failed =+ 1` sets the flag to 1: the reported value is at most 1, and is 0 exactly when no release failed |
| Reapers.SlayEips | aws-scavenger.py:21-35 | Issues exactly one release per address without an association, in listing order. `slayed` is the number of such addresses. `failed` is the 0/1 flag the code as written reports, and it is 0 exactly when every release returned |
| Reapers.SlayEipsCounted | aws-scavenger.py:27-35 | Corrected `slay_eips`: the same calls, with `failed` equal to the number of releases that did not return, and 0 exactly when every release returned |
| Reapers.EipReleasedIffUnassociated | aws-scavenger.py:27-31 | When allocation ids are unique, an address is released exactly once if it has no association, and never otherwise |
| Reapers.EbsSlayer | aws-scavenger.py:37-60 | Issues one delete per unattached volume created before the threshold, passing the dry-run flag. Returns the candidate count and the 0/1 failure flag of the code as written. The flag is 0 exactly when every delete returned |
| Reapers.EbsSlayerCounted | aws-scavenger.py:52-60 | Corrected `ebs_slayer`: the same calls, with `failed` equal to the number of deletes that did not return, and 0 exactly when every delete returned |
| Reapers.EbsDeletedIffIdleAndOld | aws-scavenger.py:43-55 | When volume ids are unique, a volume is deleted exactly once if it has no attachment and is older than the threshold, and never otherwise |
| Reapers.Ec2InVpc | aws-scavenger.py:71-85 | Builds the list of instance ids in listing order, and is true exactly when the VPC lists at least one instance |
| Reapers.Ec2Slayer | aws-scavenger.py:91-117 | Attempts a terminate for every instance that is running or stopped and launched before the threshold. `attempted` is their number; `slayed` is the number of terminates that returned, so it is at most `attempted`, and the difference is the number that raised |
| Reapers.Ec2TerminatedIffReapable | aws-scavenger.py:104-113 | When instance ids are unique, an instance is terminated exactly once if it is running or stopped and old, and never otherwise |
| Reapers.ElbPass | aws-scavenger.py:126-134 | One pass over the balancers: a delete for each one the condition selects; `tries` counts them and `fails` counts those that raised |
| Reapers.ElbSlayer | aws-scavenger.py:119-149 | The empty-balancer pass, then the old-balancer pass. `tries` is the sum of the two counts, and `fails` is the number of deletes that raised, at most `tries` |
| Reapers.ElbAttemptsPerBalancer | aws-scavenger.py:126-147 | When names are unique, a balancer is deleted once for having no instances plus once for being old, so an empty old balancer is attempted twice |
| Reapers.EipFailedUndercounts | aws-scavenger.py:33 | Two unassociated addresses whose releases both fail: two failures, but one reported |
| Reapers.EbsFailedUndercounts | aws-scavenger.py:57 | Any two old unattached volumes whose deletes both fail: two failures, but one reported |
| Teardown.DeleteEach | aws-scavenger.py:159-173 | A loop that swallows every exception issues one call per listed item, in order, whatever the outcomes |
| Teardown.DeleteEachWhere | aws-scavenger.py:232-238 | The same for the items a condition selects, such as the non-default security groups |
| Teardown.DetachAndDelete | aws-scavenger.py:183-190 | One internet gateway: a detach, then a delete only if the detach returned. A `ClientError` is caught; any other exception escapes |
| Teardown.DetachAndDeleteGateways | aws-scavenger.py:175-190 | The gateways in turn, stopping at the first exception that escapes |
| Teardown.DeleteInterfaces | aws-scavenger.py:193-198 | One delete per network interface of every subnet, subnet by subnet |
| Teardown.DeleteAssociations | aws-scavenger.py:205-212 | One delete per non-main association of every route table, table by table |
| Teardown.DeleteNetwork | aws-scavenger.py:192-219 | Interfaces, then subnets, then non-main associations, then route tables |
| Teardown.DeleteBoundary | aws-scavenger.py:221-268 | Endpoints, then non-default security groups, then non-default ACLs, then requester-side and accepter-side peering connections |
| Teardown.Sweep | aws-scavenger.py:192-277 | Everything after the gateways, ending with `delete_vpc`. `deleted` is whether that last call returned |
| Teardown.VpcCleanup | aws-scavenger.py:152-277 | The whole teardown: its calls, the position after them, and whether it raised or returned. The returned value is whether `delete_vpc` returned |
| Teardown.CleanupStaged | aws-scavenger.py:159-277 | Every call belongs to one of the eleven stages, and the stage numbers never decrease along the run |
| Teardown.GatewayStageCalls | aws-scavenger.py:176-186 | The gateway stage issues only detaches and deletes of listed gateways, at most two per gateway |
| Teardown.GatewayRaisedIffOtherError | aws-scavenger.py:183-190 | The gateway stage raises exactly when one of its calls raised something other than a `ClientError`, and that call is its last |
| Teardown.GatewayDeleteAfterDetach | aws-scavenger.py:184-186 | Every gateway delete comes right after the detach of the same gateway, and that detach returned |
| Teardown.GatewayDetachesAll | aws-scavenger.py:176-190 | When the stage does not raise, every listed gateway was detached |
| Teardown.GatewayStageLocal | aws-scavenger.py:183-190 | The stage depends only on the outcomes of its own calls |
| Teardown.CleanupDependsOnGatewaysAlone | aws-scavenger.py:159-277 | Failure isolation: the calls, and whether the teardown raises, depend only on the outcomes of the gateway calls. Among the calls the model issues, every other failure is swallowed |
| Teardown.CleanupWithoutOtherErrors | aws-scavenger.py:175-190 | If every error of the gateway stage is a `ClientError`, nothing escapes: `delete_vpc` is always attempted last, and the result is whether it returned |
| Teardown.CleanupEndsWithDeleteVpc | aws-scavenger.py:270-272 | When nothing escapes, the last call is `delete_vpc` of this VPC |
| Teardown.DeleteVpcOnce | aws-scavenger.py:270-273 | `delete_vpc` of this VPC is issued once when nothing escapes, and not at all otherwise |
| Teardown.NoOtherVpcDeleted | aws-scavenger.py:272 | No other VPC is ever deleted |
| Teardown.GroupDeletedUnlessDefault | aws-scavenger.py:232-238 | When group ids are unique, a security group is deleted once if it is not named `default` and the teardown gets that far, and never otherwise |
| Teardown.AclDeletedUnlessDefault | aws-scavenger.py:240-246 | When ACL ids are unique, a network ACL is deleted once if it is not the default one and the teardown gets that far, and never otherwise |
| Teardown.AssociationDeletedUnlessMain | aws-scavenger.py:205-212 | When association ids are unique, an association is deleted once if it is not the main one and the teardown gets that far, and never otherwise |
| Teardown.DefaultGroupNeverDeleted | aws-scavenger.py:234 | The group named `default` is never deleted, whatever the outcomes |
| Teardown.DefaultAclNeverDeleted | aws-scavenger.py:242 | A default network ACL is never deleted, whatever the outcomes |
| Teardown.MainAssociationNeverDeleted | aws-scavenger.py:208 | A main route-table association is never deleted, whatever the outcomes |
| Teardown.CleanupSlayedIffVpcDeleted | aws-scavenger.py:270-277 | The teardown reports removal exactly when `delete_vpc` of this VPC was issued and returned |
| Teardown.CleanupDeletesReturned | aws-scavenger.py:270-277 | The number of VPC deletes in the run that returned is 1 if it reports removal, and 0 otherwise |
| Scavenger.TallyRun | aws-scavenger.py:346-352 | The removal pass over the empty VPCs: the headcount never exceeds the number of empty VPCs |
| Scavenger.Remove | aws-scavenger.py:350 | One `vpc_cleanup` call, as the pass's teardown sees it |
| Scavenger.RemoveEach | aws-scavenger.py:346-352 | The loop over the empty VPCs computes exactly the pass `TallyRun` defines, stopping at an exception that escapes |
| Scavenger.RemoveEmptyVpcs | aws-scavenger.py:327-354 | For one region: the empty VPCs are those with no instance. In dry-run mode nothing is issued and the headcount is 0; otherwise the result is the pass over them. The headcount is at most their number |
| Scavenger.TallyDeletesOnlyListed | aws-scavenger.py:346-352 | A VPC that no teardown of the pass deletes is not deleted by the pass |
| Scavenger.OnlyEmptyVpcsDeleted | aws-scavenger.py:336-350 | With `vpc_cleanup` as the teardown and unique VPC ids, a VPC that holds an instance is never deleted |
| Scavenger.TallyCompletes | aws-scavenger.py:346-352 | If no teardown raises and each deletes its own VPC, the pass completes, and every listed VPC had its delete attempted |
| Scavenger.EveryEmptyVpcAttempted | aws-scavenger.py:346-350 | With `vpc_cleanup` as the teardown and every error a `ClientError`, the pass does not raise, and every empty VPC had `delete_vpc` attempted |
| Scavenger.TallyCountsDeletes | aws-scavenger.py:346-352 | If each teardown reports removal exactly when one of its VPC deletes returned, the headcount is the number of VPC deletes that returned |
| Scavenger.HeadcountIsReturnedDeletes | aws-scavenger.py:350-354 | With `vpc_cleanup` as the teardown, the reported headcount is exactly the number of `delete_vpc` calls that returned |

## Left out

- Creating boto3 clients and resources, the describe and list calls, `get_vpcs` and `get_regions` are left out. Listings are inputs, and the model covers one region, not the loop over regions.
- `datetime` arithmetic and float timestamps are left out. Ages are integers compared with an integer threshold that the caller supplies.
- `time.sleep`, logging and `print` are left out because they have no effect on the counts or the calls.
- `rds_slayer` is left out because its body is empty.
- The EC2 and ELB timestamps are assumed to be on one clock. The `tzinfo` stripping at line 139 compares a UTC creation time with a local `now()`, which the model does not reproduce.
- Provider-side semantics are left out, and a provider call is only its outcome. A resource whose delete succeeded does not leave later listings: every listing is read once, before the teardown begins. The effect of `DryRun=True` (a `DryRunOperation` error) is just another oracle outcome.
- A listing call that raises is not modelled. In the source, every describe call and collection read of `vpc_cleanup` (for example lines 160-167, 193 and 233) sits outside its `try`, so such an exception escapes `vpc_cleanup` and ends `main`. In the model, only the internet-gateway stage can raise.
- Teardown.DetachAndDelete: the `DependencyViolation` code check only logs a warning, so it is not modelled.
- The other loops of `main` are left out: the EC2 sums at lines 304-315, and the ELB, EIP and EBS passes. Those passes only add up or print what the reapers return, and the reapers themselves are modelled.
- `main` fixes `dryrun = False` (line 282). The model takes the flag as a parameter.
- The `stoped_running` list (line 102) and the `slayed_vpcs` list (line 349) are never read, so they are left out.
- `vpc_slayed` starts as `0` and may become `True`; it is modelled as a boolean in `Finished(slayed)`.

## Findings

| source | as written | input that shows it | evidently intended | confidence | as-written member | corrected member |
|---|---|---|---|---|---|---|
| aws-scavenger.py:33 | `failed =+ 1` assigns `+1`, so `failed` is 1 after any failure | two unassociated addresses whose releases both raise: two failures, `failed == 1` | `failed += 1`, counting every failed release | not executed | Reapers.EipFailedUndercounts | Reapers.SlayEipsCounted |
| aws-scavenger.py:57 | `failed = + 1` assigns `+1`, so `failed` is 1 after any failure | two unattached old volumes whose deletes both raise: two failures, `failed == 1` | `failed += 1`, counting every failed delete | not executed | Reapers.EbsFailedUndercounts | Reapers.EbsSlayerCounted |
