/** The last pass of `main` in aws-scavenger.py, for one region: find the
    VPCs in which `ec2_in_vpc` sees no instance, then, unless in dry-run mode,
    run `vpc_cleanup` on each of them in turn and count the ones it reports
    removed. An exception that escapes `vpc_cleanup` ends the pass.

    The pass is defined over any teardown (`Remover`), and its properties are
    proved from what the teardown guarantees; `Cleaner` is `vpc_cleanup`. The
    lemmas about the pass of `main` hold for every teardown that `IsCleaner`,
    that is, every one that agrees with `vpc_cleanup`, as `Cleaner` does. */
module Scavenger {
  import opened Seqs
  import opened Cloud
  import opened Reapers
  import opened Teardown

  /** A VPC in which `ec2_in_vpc` finds no instance. */
  predicate Unoccupied(v: Vpc) { |v.instances| == 0 }

  function VpcKey(v: Vpc): Id { v.vpcId }

  /** How one teardown ended and the calls it issued. */
  datatype Removal = Removal(result: Cleanup, calls: seq<Call>)

  /** A teardown of a VPC whose first call is issued at the given position. */
  type Remover = (Vpc, nat) -> Removal

  /** `vpc_cleanup` against the outcomes `oracle` gives. */
  function Cleaner(oracle: Oracle): Remover
  {
    (v: Vpc, clock: nat) => Removal(CleanupResult(v, oracle, clock), CleanupCalls(v, oracle, clock))
  }

  /** What the removal pass did: how many VPCs it counted as removed, whether
      an exception escaped it, and the calls it issued. */
  datatype Tally = Tally(headcount: nat, raised: bool, calls: seq<Call>)

  /** A pass that had already counted `count` removals and issued `calls`
      before it went on as `t`. */
  function Behind(count: nat, calls: seq<Call>, t: Tally): Tally
  {
    Tally(count + t.headcount, t.raised, calls + t.calls)
  }

  lemma BehindBehind(a: nat, x: seq<Call>, b: nat, y: seq<Call>, t: Tally)
    ensures Behind(a, x, Behind(b, y, t)) == Behind(a + b, x + y, t)
  {
    assert x + (y + t.calls) == (x + y) + t.calls;
  }

  /** The teardown of each VPC of `empty` in turn, from position `clock` on,
      counting those reported removed, until one of them raises. */
  function TallyRun(empty: seq<Vpc>, remove: Remover, clock: nat): (t: Tally)
    ensures t.headcount <= |empty|
    decreases |empty|
  {
    if |empty| == 0 then Tally(0, false, [])
    else
      var first := remove(empty[0], clock);
      match first.result
      case Raised => Tally(0, true, first.calls)
      case Finished(slayed) => Behind(if slayed then 1 else 0, first.calls, TallyRun(empty[1..], remove, clock + |first.calls|))
  }

  /** A pass that has reached the `i`-th VPC goes on after its teardown ... */
  lemma TallyAdvance(empty: seq<Vpc>, remove: Remover, clock: nat, i: nat, headcount: nat, calls: seq<Call>, next: nat,
                     result: Cleanup, issued: seq<Call>)
    requires i < |empty| && remove(empty[i], next) == Removal(result, issued) && result != Raised
    requires TallyRun(empty, remove, clock) == Behind(headcount, calls, TallyRun(empty[i..], remove, next))
    ensures TallyRun(empty, remove, clock) ==
      Behind(headcount + (if result == Finished(true) then 1 else 0), calls + issued, TallyRun(empty[i + 1..], remove, next + |issued|))
  {
    assert empty[i..][0] == empty[i] && empty[i..][1..] == empty[i + 1..];
    BehindBehind(headcount, calls, if result == Finished(true) then 1 else 0, issued, TallyRun(empty[i + 1..], remove, next + |issued|));
  }

  /** ... or ends with it when it raises. */
  lemma TallyStop(empty: seq<Vpc>, remove: Remover, clock: nat, i: nat, headcount: nat, calls: seq<Call>, next: nat,
                  result: Cleanup, issued: seq<Call>)
    requires i < |empty| && remove(empty[i], next) == Removal(result, issued) && result == Raised
    requires TallyRun(empty, remove, clock) == Behind(headcount, calls, TallyRun(empty[i..], remove, next))
    ensures TallyRun(empty, remove, clock) == Tally(headcount, true, calls + issued)
  {
    assert empty[i..][0] == empty[i];
  }

  /** `remove` does what `vpc_cleanup` does against `oracle`; stated so that
      it is used only for the teardowns actually run. */
  ghost predicate IsCleaner(remove: Remover, oracle: Oracle)
  {
    forall v, c {:trigger CleanupCalls(v, oracle, c)} ::
      remove(v, c) == Removal(CleanupResult(v, oracle, c), CleanupCalls(v, oracle, c))
  }

  lemma CleanerIsCleaner(oracle: Oracle)
    ensures IsCleaner(Cleaner(oracle), oracle)
  {
  }

  /** `vpc_cleanup` on one VPC, in terms of the teardown `remove` it is. */
  method Remove(v: Vpc, oracle: Oracle, clock: nat, ghost remove: Remover)
    returns (result: Cleanup, next: nat, ghost calls: seq<Call>)
    requires IsCleaner(remove, oracle)
    ensures remove(v, clock) == Removal(result, calls)
    ensures next == clock + |calls|
  {
    result, next, calls := VpcCleanup(v, oracle, clock);
  }

  /** The removal loop of `main`: `vpc_cleanup` on each VPC of `empty` in turn,
      counting the ones it reports removed; an exception ends it. */
  method RemoveEach(empty: seq<Vpc>, oracle: Oracle, clock: nat, ghost remove: Remover)
    returns (headcount: nat, raised: bool, next: nat, ghost calls: seq<Call>)
    requires IsCleaner(remove, oracle)
    ensures Tally(headcount, raised, calls) == TallyRun(empty, remove, clock)
    ensures next == clock + |calls|
  {
    headcount, raised, next, calls := 0, false, clock, [];
    for i := 0 to |empty|
      invariant next == clock + |calls|
      invariant TallyRun(empty, remove, clock) == Behind(headcount, calls, TallyRun(empty[i..], remove, next))
    {
      var result, after, issued := Remove(empty[i], oracle, next, remove);
      if result == Raised {
        TallyStop(empty, remove, clock, i, headcount, calls, next, result, issued);
        calls, next, raised := calls + issued, after, true;
        return;
      }
      TallyAdvance(empty, remove, clock, i, headcount, calls, next, result, issued);
      headcount := headcount + if result == Finished(true) then 1 else 0;
      calls, next := calls + issued, after;
    }
    assert calls + [] == calls;
  }

  /** The last pass of `main` for one region: the VPCs without instances,
      then, unless in dry-run mode, the removal loop over them. */
  method RemoveEmptyVpcs(vpcs: seq<Vpc>, dryRun: bool, oracle: Oracle, clock: nat)
    returns (headcount: nat, raised: bool, next: nat, ghost calls: seq<Call>)
    ensures Tally(headcount, raised, calls) ==
      if dryRun then Tally(0, false, []) else TallyRun(Filter(vpcs, Unoccupied), Cleaner(oracle), clock)
    ensures next == clock + |calls|
    ensures headcount <= |Filter(vpcs, Unoccupied)|
  {
    var empty: seq<Vpc> := [];
    for i := 0 to |vpcs|
      invariant empty == Filter(vpcs[..i], Unoccupied)
    {
      var occupied := Ec2InVpc(vpcs[i].instances);
      FilterSnoc(vpcs, i, Unoccupied);
      if !occupied {
        empty := empty + [vpcs[i]];
      }
    }
    assert vpcs[..|vpcs|] == vpcs;
    if dryRun {
      headcount, raised, next, calls := 0, false, clock, [];
    } else {
      CleanerIsCleaner(oracle);
      headcount, raised, next, calls := RemoveEach(empty, oracle, clock, Cleaner(oracle));
    }
  }

  // ---------------------------------------------------------------- what the pass removes

  /** A pass issues `delete_vpc` for no VPC its teardowns leave alone. */
  lemma {:induction false} TallyDeletesOnlyListed(empty: seq<Vpc>, remove: Remover, clock: nat, id: Id)
    requires forall i, c :: 0 <= i < |empty| ==> DeleteVpc(id) !in remove(empty[i], c).calls
    ensures DeleteVpc(id) !in TallyRun(empty, remove, clock).calls
  {
    if |empty| > 0 {
      var first := remove(empty[0], clock);
      if first.result != Raised {
        var rest := empty[1..];
        forall i, c | 0 <= i < |rest| ensures DeleteVpc(id) !in remove(rest[i], c).calls {
          assert rest[i] == empty[i + 1];
        }
        TallyDeletesOnlyListed(rest, remove, clock + |first.calls|, id);
      }
    }
  }

  /** `vpc_cleanup` never reaches a VPC in which `ec2_in_vpc` found an instance:
      no `delete_vpc` for it is issued. */
  lemma OnlyEmptyVpcsDeleted(vpcs: seq<Vpc>, oracle: Oracle, clock: nat, v: Vpc, remove: Remover)
    requires IsCleaner(remove, oracle)
    requires v in vpcs && !Unoccupied(v)
    requires UniqueKeys(vpcs, VpcKey)
    ensures DeleteVpc(v.vpcId) !in TallyRun(Filter(vpcs, Unoccupied), remove, clock).calls
  {
    var empty := Filter(vpcs, Unoccupied);
    forall i, c | 0 <= i < |empty| ensures DeleteVpc(v.vpcId) !in remove(empty[i], c).calls {
      FilterMember(vpcs, Unoccupied, empty[i]);
      var j :| 0 <= j < |vpcs| && vpcs[j] == empty[i];
      var k :| 0 <= k < |vpcs| && vpcs[k] == v;
      assert VpcKey(vpcs[j]) != VpcKey(vpcs[k]);
      NoOtherVpcDeleted(empty[i], oracle, c, v.vpcId);
    }
    TallyDeletesOnlyListed(empty, remove, clock, v.vpcId);
  }

  /** A teardown that, started anywhere from `clock` on, runs to the end and
      whose last call deletes its VPC. */
  ghost predicate Completes(remove: Remover, clock: nat)
  {
    forall v, c :: clock <= c ==>
      remove(v, c).result != Raised && |remove(v, c).calls| > 0 &&
      remove(v, c).calls[|remove(v, c).calls| - 1] == DeleteVpc(v.vpcId)
  }

  /** With such teardowns the pass runs to the end and issues `delete_vpc`
      for every VPC it was given. */
  lemma {:induction false} TallyCompletes(empty: seq<Vpc>, remove: Remover, clock: nat)
    requires Completes(remove, clock)
    ensures !TallyRun(empty, remove, clock).raised
    ensures forall v :: v in empty ==> DeleteVpc(v.vpcId) in TallyRun(empty, remove, clock).calls
  {
    if |empty| > 0 {
      var first := remove(empty[0], clock);
      var rest := empty[1..];
      assert Completes(remove, clock + |first.calls|);
      TallyCompletes(rest, remove, clock + |first.calls|);
      assert TallyRun(empty, remove, clock).calls == first.calls + TallyRun(rest, remove, clock + |first.calls|).calls;
      assert first.calls[|first.calls| - 1] == DeleteVpc(empty[0].vpcId);
      assert empty == [empty[0]] + rest;
    }
  }

  /** With no exception other than a `ClientError`, the pass runs to the end
      and `delete_vpc` is attempted for every VPC in which `ec2_in_vpc` found
      no instance. */
  lemma EveryEmptyVpcAttempted(vpcs: seq<Vpc>, oracle: Oracle, clock: nat, v: Vpc, remove: Remover)
    requires IsCleaner(remove, oracle)
    requires forall k :: clock <= k ==> oracle(k) != OtherError
    requires v in vpcs && Unoccupied(v)
    ensures !TallyRun(Filter(vpcs, Unoccupied), remove, clock).raised
    ensures DeleteVpc(v.vpcId) in TallyRun(Filter(vpcs, Unoccupied), remove, clock).calls
  {
    forall u: Vpc, c: nat | clock <= c
      ensures remove(u, c).result != Raised && |remove(u, c).calls| > 0 &&
        remove(u, c).calls[|remove(u, c).calls| - 1] == DeleteVpc(u.vpcId)
    {
      CleanupWithoutOtherErrors(u, oracle, c);
    }
    FilterMember(vpcs, Unoccupied, v);
    TallyCompletes(Filter(vpcs, Unoccupied), remove, clock);
  }

  /** A teardown that adds one to the returned VPC deletes exactly when it
      reports success. */
  ghost predicate CountsItsDelete(remove: Remover, oracle: Oracle)
  {
    forall v, c :: VpcDeletesReturned(remove(v, c).calls, oracle, c) == if remove(v, c).result == Finished(true) then 1 else 0
  }

  lemma {:induction false} TallyCountsDeletes(empty: seq<Vpc>, remove: Remover, oracle: Oracle, clock: nat)
    requires CountsItsDelete(remove, oracle)
    ensures TallyRun(empty, remove, clock).headcount == VpcDeletesReturned(TallyRun(empty, remove, clock).calls, oracle, clock)
  {
    if |empty| > 0 {
      var first := remove(empty[0], clock);
      assert VpcDeletesReturned(first.calls, oracle, clock) == if first.result == Finished(true) then 1 else 0;
      if first.result == Raised {
        assert TallyRun(empty, remove, clock) == Tally(0, true, first.calls);
      } else {
        var rest := TallyRun(empty[1..], remove, clock + |first.calls|);
        assert TallyRun(empty, remove, clock) == Behind(if first.result == Finished(true) then 1 else 0, first.calls, rest);
        TallyCountsDeletes(empty[1..], remove, oracle, clock + |first.calls|);
        VpcDeletesAppend(first.calls, rest.calls, oracle, clock);
      }
    }
  }

  /** The headcount `main` prints is the number of `delete_vpc` calls of the
      pass that returned normally. */
  lemma HeadcountIsReturnedDeletes(empty: seq<Vpc>, oracle: Oracle, clock: nat, remove: Remover)
    requires IsCleaner(remove, oracle)
    ensures TallyRun(empty, remove, clock).headcount == VpcDeletesReturned(TallyRun(empty, remove, clock).calls, oracle, clock)
  {
    forall v, c ensures VpcDeletesReturned(remove(v, c).calls, oracle, c) == if remove(v, c).result == Finished(true) then 1 else 0
    {
      CleanupDeletesReturned(v, oracle, c);
    }
    TallyCountsDeletes(empty, remove, oracle, clock);
  }
}
