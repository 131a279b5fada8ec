/** The Terminator: lifetime policy, usage reports and its lock as one thread
    sees it (`Terminator.cc`). */
module Terminator {
  import opened Pool
  import opened Wrappers
  import StdMap

  /** `one.vm.recover` with operation delete, or `one.vm.action`. */
  datatype Command = Delete(oid: int) | Operate(action: string, oid: int)

  // ----- policy -----

  predicate Operation(action: string) {
    action == "suspend" || action == "poweroff" || action == "reboot"
  }

  predicate KnownAction(action: string) {
    action == "kill" || Operation(action)
  }

  /** Dynamic, with a start time, and older than its time to live. */
  predicate Overdue(vm: VM, now: int, ttl: int) {
    vm.start != 0 && now - vm.start > ttl && vm.staticVm == 0
  }

  /** The command for an active VM examined at time `now`. */
  function CommandFor(vm: VM, now: int, ttl: int, action: string): Option<Command> {
    if vm.start == 0 then None
    else if now - vm.start > ttl && vm.staticVm == 0 && action == "kill" then Some(Delete(vm.oid))
    else if now - vm.start > ttl && vm.staticVm == 0 && Operation(action) then Some(Operate(action, vm.oid))
    else None
  }

  /** The command for a VM that is still pending. */
  function PendingCommand(vm: VM, now: int, maxWait: int): Option<Command> {
    if now - vm.birth > maxWait && vm.staticVm == 0 then Some(Delete(vm.oid)) else None
  }

  function Append(commands: seq<Command>, c: Option<Command>): seq<Command> {
    match c case None => commands case Some(x) => commands + [x]
  }

  /** The commands one call issues, in id order; `now` is the clock as read when a VM is examined. */
  function RunningCommands(ids: seq<int>, pool: map<int, VM>, ttl: int, action: string, now: int -> int): seq<Command>
    requires forall i :: 0 <= i < |ids| ==> ids[i] in pool
  {
    if ids == [] then [] else
      var k := |ids| - 1;
      Append(RunningCommands(ids[..k], pool, ttl, action, now), CommandFor(pool[ids[k]], now(ids[k]), ttl, action))
  }

  function PendingCommands(ids: seq<int>, pool: map<int, VM>, maxWait: int, now: int -> int): seq<Command>
    requires forall i :: 0 <= i < |ids| ==> ids[i] in pool
  {
    if ids == [] then [] else
      var k := |ids| - 1;
      Append(PendingCommands(ids[..k], pool, maxWait, now), PendingCommand(pool[ids[k]], now(ids[k]), maxWait))
  }

  /** What is issued for an overdue VM. */
  lemma CommandIs(vm: VM, now: int, ttl: int, action: string, c: Option<Command>)
    requires c.Some? <==> Overdue(vm, now, ttl) && KnownAction(action)
    requires c.Some? ==> c.value == if action == "kill" then Delete(vm.oid) else Operate(action, vm.oid)
    ensures c == CommandFor(vm, now, ttl, action)
  {
  }

  // ----- usage reports -----

  ghost function CpuOf(pool: map<int, VM>): int -> real {
    oid => if oid in pool then pool[oid].cpu else 0.0
  }

  ghost function MemoryOf(pool: map<int, VM>): int -> real {
    oid => if oid in pool then pool[oid].memory as real else 0.0
  }

  /** Load of the VMs of a snapshot that a search selects. */
  ghost function SelectedCpu(search: Search, vms: seq<VM>): real {
    if vms == [] then 0.0
    else SelectedCpu(search, vms[..|vms| - 1]) + if Enters(search, vms[|vms| - 1]) then vms[|vms| - 1].cpu else 0.0
  }

  ghost function SelectedMemory(search: Search, vms: seq<VM>): real {
    if vms == [] then 0.0
    else SelectedMemory(search, vms[..|vms| - 1])
         + if Enters(search, vms[|vms| - 1]) then vms[|vms| - 1].memory as real else 0.0
  }

  /** The sum over the pool is the sum over the snapshot. */
  lemma {:induction false} PoolSumIsSnapshotSum(search: Search, vms: seq<VM>)
    requires DistinctIds(vms)
    ensures var pool := Gather(search, vms);
            && StdMap.SumOver(pool.Keys, CpuOf(pool)) == SelectedCpu(search, vms)
            && StdMap.SumOver(pool.Keys, MemoryOf(pool)) == SelectedMemory(search, vms)
  {
    if vms != [] {
      var front, last := vms[..|vms| - 1], vms[|vms| - 1];
      PoolSumIsSnapshotSum(search, front);
      var before, pool := Gather(search, front), Gather(search, vms);
      NotGathered(search, front, last.oid);
      if Enters(search, last) {
        assert pool == before[last.oid := last];
        AddToSum(before, last.oid, last);
      }
    }
  }

  /** Cpu and memory of a user's active VMs in a snapshot. */
  ghost function ActiveCpu(uid: int, vms: seq<VM>): real {
    if vms == [] then 0.0 else
      var vm := vms[|vms| - 1];
      ActiveCpu(uid, vms[..|vms| - 1]) + if vm.state == 3 && vm.uid == uid && vm.children >= 2 then vm.cpu else 0.0
  }

  ghost function ActiveMemory(uid: int, vms: seq<VM>): int {
    if vms == [] then 0 else
      var vm := vms[|vms| - 1];
      ActiveMemory(uid, vms[..|vms| - 1]) + if vm.state == 3 && vm.uid == uid && vm.children >= 2 then vm.memory else 0
  }

  lemma {:induction false} SelectedIsActive(uid: int, vms: seq<VM>)
    ensures SelectedCpu(Running(uid), vms) == ActiveCpu(uid, vms)
    ensures SelectedMemory(Running(uid), vms) == ActiveMemory(uid, vms) as real
  {
    if vms != [] {
      SelectedIsActive(uid, vms[..|vms| - 1]);
    }
  }

  /** With distinct ids the pool of a user holds exactly the load of the user's
      active VMs in the snapshot. */
  lemma PoolSumIsActive(uid: int, fetch: Fetch)
    requires fetch.Snapshot? && DistinctIds(fetch.vms)
    ensures var pool := Refreshed(Running(uid), fetch);
            && StdMap.SumOver(pool.Keys, CpuOf(pool)) == ActiveCpu(uid, fetch.vms)
            && StdMap.SumOver(pool.Keys, MemoryOf(pool)) == ActiveMemory(uid, fetch.vms) as real
  {
    hide StdMap.SumOver, CpuOf, MemoryOf, SelectedCpu, SelectedMemory, ActiveCpu, ActiveMemory, Gather;
    PoolSumIsSnapshotSum(Running(uid), fetch.vms);
    SelectedIsActive(uid, fetch.vms);
  }

  lemma AddToSum(before: map<int, VM>, oid: int, vm: VM)
    requires oid !in before
    ensures var pool := before[oid := vm];
            && StdMap.SumOver(pool.Keys, CpuOf(pool)) == StdMap.SumOver(before.Keys, CpuOf(before)) + vm.cpu
            && StdMap.SumOver(pool.Keys, MemoryOf(pool)) == StdMap.SumOver(before.Keys, MemoryOf(before)) + vm.memory as real
  {
    var pool := before[oid := vm];
    assert pool.Keys - {oid} == before.Keys;
    StdMap.SumSplit(pool.Keys, CpuOf(pool), oid);
    StdMap.SumSplit(pool.Keys, MemoryOf(pool), oid);
    StdMap.SumCongruence(before.Keys, CpuOf(pool), CpuOf(before));
    StdMap.SumCongruence(before.Keys, MemoryOf(pool), MemoryOf(before));
  }

  /** Sum over a listing of keys, as the loop accumulates it. */
  ghost function ListSum(ids: seq<int>, f: int -> real): real {
    if ids == [] then 0.0 else ListSum(ids[..|ids| - 1], f) + f(ids[|ids| - 1])
  }

  lemma NothingListed(pool: map<int, VM>, ttl: int, action: string, now: int -> int)
    ensures ListSum([], CpuOf(pool)) == 0.0 && ListSum([], MemoryOf(pool)) == 0.0
    ensures RunningCommands([], pool, ttl, action, now) == []
  {
  }

  lemma NextListed(ids: seq<int>, i: nat, pool: map<int, VM>, ttl: int, action: string, now: int -> int)
    requires i < |ids| && forall j :: 0 <= j < |ids| ==> ids[j] in pool
    ensures ListSum(ids[..i + 1], CpuOf(pool)) == ListSum(ids[..i], CpuOf(pool)) + pool[ids[i]].cpu
    ensures ListSum(ids[..i + 1], MemoryOf(pool)) == ListSum(ids[..i], MemoryOf(pool)) + pool[ids[i]].memory as real
    ensures RunningCommands(ids[..i + 1], pool, ttl, action, now)
         == Append(RunningCommands(ids[..i], pool, ttl, action, now), CommandFor(pool[ids[i]], now(ids[i]), ttl, action))
  {
    hide CommandFor;
    assert ids[..i + 1][..i] == ids[..i];
  }

  lemma {:induction false} ListSumIsSetSum(ids: seq<int>, s: set<int>, f: int -> real)
    requires StdMap.Ascending(ids) && forall x :: x in ids <==> x in s
    ensures ListSum(ids, f) == StdMap.SumOver(s, f)
  {
    if ids == [] {
      assert forall x :: x !in s;
      assert s == {};
    } else {
      var front, last := ids[..|ids| - 1], ids[|ids| - 1];
      assert ids == front + [last];
      assert last in ids;
      forall x
        ensures x in front <==> x in s - {last}
      {
        assert x in ids <==> x in front || x == last;
      }
      ListSumIsSetSum(front, s - {last}, f);
      StdMap.SumSplit(s, f, last);
    }
  }

  // ----- passes over the users -----

  /** A configured user as the loop reads it: id and time to live. */
  datatype Limit = Limit(uid: int, ttl: int)

  /** What one pass receives: a fetch per user, and the clock as read when the VM
      with a given id is examined for the user at a given place in the list. */
  datatype Pass = Pass(fetches: seq<Fetch>, clock: (int, int) -> int)
  {
    function ClockFor(i: int): int -> int {
      oid => clock(i, oid)
    }

    predicate AllFetched() {
      forall i :: 0 <= i < |fetches| ==> fetches[i].Snapshot?
    }
  }

  /** The VMs a pass finds for one user. */
  function Observed(users: seq<Limit>, pass: Pass, i: nat): map<int, VM>
    requires i < |users| == |pass.fetches|
  {
    Refreshed(Running(users[i].uid), pass.fetches[i])
  }

  function UserCommands(users: seq<Limit>, pass: Pass, action: string, i: nat): seq<Command>
    requires i < |users| == |pass.fetches|
  {
    var pool := Observed(users, pass, i);
    KeysListed(pool);
    RunningCommands(StdMap.Traverse(pool.Keys), pool, users[i].ttl, action, pass.ClockFor(i))
  }

  /** The commands of a pass over the first `n` users. */
  function PassCommands(users: seq<Limit>, pass: Pass, action: string, n: nat): seq<Command>
    requires n <= |users| == |pass.fetches|
  {
    if n == 0 then [] else PassCommands(users, pass, action, n - 1) + UserCommands(users, pass, action, n - 1)
  }

  ghost predicate FetchPerUser(users: seq<Limit>, passes: seq<Pass>) {
    forall p :: 0 <= p < |passes| ==> |passes[p].fetches| == |users|
  }

  /** The commands of a run of the loop. */
  function RunCommands(users: seq<Limit>, passes: seq<Pass>, action: string): seq<Command>
    requires forall p :: 0 <= p < |passes| ==> |passes[p].fetches| == |users|
  {
    if passes == [] then [] else
      var k := |passes| - 1;
      RunCommands(users, passes[..k], action) + PassCommands(users, passes[k], action, |users|)
  }

  lemma NothingRun(users: seq<Limit>, action: string)
    ensures RunCommands(users, [], action) == []
  {
  }

  lemma NextPass(users: seq<Limit>, passes: seq<Pass>, action: string, p: nat)
    requires p < |passes| && FetchPerUser(users, passes)
    ensures RunCommands(users, passes[..p + 1], action)
         == RunCommands(users, passes[..p], action) + PassCommands(users, passes[p], action, |users|)
  {
    hide PassCommands;
    assert passes[..p + 1][..p] == passes[..p];
  }

  lemma NothingForFailedFetch(users: seq<Limit>, pass: Pass, action: string, i: nat)
    requires i < |users| == |pass.fetches| && !pass.fetches[i].Snapshot?
    ensures UserCommands(users, pass, action, i) == []
  {
    assert Observed(users, pass, i).Keys == {};
  }

  // ----- the manager -----

  datatype Report = Report(uid: int, cpu: real, memory: int)

  class Terminator {
    const maxWait: int
    const action: string
    const vmpool: VMPool
    var locked: bool
    var commands: seq<Command>

    constructor (maxWait: int, action: string)
      ensures this.maxWait == maxWait && this.action == action
      ensures !locked && commands == [] && fresh(vmpool)
    {
      this.maxWait, this.action := maxWait, action;
      vmpool := new VMPool();
      locked, commands := false, [];
    }

    /** Blocks forever on a mutex that is never released: no call with `locked`. */
    method Lock()
      requires !locked
      modifies this`locked
      ensures locked
    {
      locked := true;
    }

    method Unlock()
      requires locked
      modifies this`locked
      ensures !locked
    {
      locked := false;
    }

    /** Command the overdue VMs of one user and add up what all of them use.  A
        failed fetch returns with the mutex still held. */
    method KillRunning(uid: int, ttl: int, cpuIn: real, memoryIn: int, fetch: Fetch, now: int -> int)
      returns (rc: int, cpu: real, memory: int)
      requires !locked
      modifies this`locked, this`commands, vmpool
      ensures rc == if fetch.Snapshot? then 0 else -1
      ensures locked <==> rc != 0
      ensures vmpool.objects == Refreshed(Running(uid), fetch)
      ensures rc != 0 ==> cpu == cpuIn && memory == memoryIn && commands == old(commands)
      ensures rc == 0 ==>
        var pool := vmpool.objects;
        && Listed(pool)
        && cpu == cpuIn + StdMap.SumOver(pool.Keys, CpuOf(pool))
        && memory as real == memoryIn as real + StdMap.SumOver(pool.Keys, MemoryOf(pool))
        && commands == old(commands) + RunningCommands(StdMap.Traverse(pool.Keys), pool, ttl, action, now)
      ensures rc == 0 && DistinctIds(fetch.vms) ==>
        cpu == cpuIn + ActiveCpu(uid, fetch.vms) && memory == memoryIn + ActiveMemory(uid, fetch.vms)
    {
      hide *;
      cpu, memory := cpuIn, memoryIn;
      Lock();
      rc := vmpool.GetRunning(uid, fetch);
      if rc != 0 {
        return;
      }
      cpu, memory := CommandRunning(vmpool.objects, ttl, cpuIn, memoryIn, now);
      if DistinctIds(fetch.vms) {
        PoolSumIsActive(uid, fetch);
      }
      Unlock();
      rc := 0;
    }

    /** The loop over the running VMs. */
    method CommandRunning(vms: map<int, VM>, ttl: int, cpuIn: real, memoryIn: int, now: int -> int)
      returns (cpu: real, memory: int)
      modifies this`commands
      ensures Listed(vms)
      ensures cpu == cpuIn + StdMap.SumOver(vms.Keys, CpuOf(vms))
      ensures memory as real == memoryIn as real + StdMap.SumOver(vms.Keys, MemoryOf(vms))
      ensures commands == old(commands) + RunningCommands(StdMap.Traverse(vms.Keys), vms, ttl, action, now)
    {
      hide StdMap.Traverse, StdMap.SumOver, CommandFor, RunningCommands, ListSum, CpuOf, MemoryOf;
      cpu, memory := cpuIn, memoryIn;
      KeysListed(vms);
      var ids := StdMap.Traverse(vms.Keys);
      assert ids[..0] == [];
      NothingListed(vms, ttl, action, now);
      for i := 0 to |ids|
        invariant cpu == cpuIn + ListSum(ids[..i], CpuOf(vms))
        invariant memory as real == memoryIn as real + ListSum(ids[..i], MemoryOf(vms))
        invariant commands == old(commands) + RunningCommands(ids[..i], vms, ttl, action, now)
      {
        NextListed(ids, i, vms, ttl, action, now);
        var vm := vms[ids[i]];
        cpu := cpu + vm.cpu;
        memory := memory + vm.memory;
        var issued := Examine(vm, now(ids[i]), ttl);
        CommandIs(vm, now(ids[i]), ttl, action, issued);
        commands := Append(commands, issued);
      }
      assert ids[..|ids|] == ids;
      ListSumIsSetSum(ids, vms.Keys, CpuOf(vms));
      ListSumIsSetSum(ids, vms.Keys, MemoryOf(vms));
    }

    /** The branches of the loop body. */
    method Examine(vm: VM, stop: int, ttl: int) returns (issued: Option<Command>)
      ensures issued.Some? <==> Overdue(vm, stop, ttl) && KnownAction(action)
      ensures issued.Some? ==> issued.value == if action == "kill" then Delete(vm.oid) else Operate(action, vm.oid)
    {
      issued := None;
      if vm.start == 0 {
        return;
      }
      var life := stop - vm.start;
      if life > ttl && vm.staticVm == 0 && action == "kill" {
        issued := Some(Delete(vm.oid));
      } else if life > ttl && vm.staticVm == 0 && (action == "suspend" || action == "poweroff" || action == "reboot") {
        issued := Some(Operate(action, vm.oid));
      }
    }

    /** Delete the dynamic VMs that wait for too long; same locking. */
    method KillPending(uid: int, fetch: Fetch, now: int -> int) returns (rc: int)
      requires !locked
      modifies this`locked, this`commands, vmpool
      ensures rc == if fetch.Snapshot? then 0 else -1
      ensures locked <==> rc != 0
      ensures vmpool.objects == Refreshed(PendingSearch(uid), fetch)
      ensures rc != 0 ==> commands == old(commands)
      ensures rc == 0 ==>
        && Listed(vmpool.objects)
        && commands == old(commands)
             + PendingCommands(StdMap.Traverse(vmpool.objects.Keys), vmpool.objects, maxWait, now)
    {
      hide StdMap.Traverse, PendingCommands, Refreshed;
      Lock();
      rc := vmpool.GetPending(uid, fetch);
      if rc != 0 {
        return;
      }
      DeletePending(vmpool.objects, now);
      Unlock();
      rc := 0;
    }

    /** The loop over the pending VMs. */
    method DeletePending(vms: map<int, VM>, now: int -> int)
      modifies this`commands
      ensures Listed(vms)
      ensures commands == old(commands) + PendingCommands(StdMap.Traverse(vms.Keys), vms, maxWait, now)
    {
      hide StdMap.Traverse;
      KeysListed(vms);
      var ids := StdMap.Traverse(vms.Keys);
      assert ids[..0] == [];
      for i := 0 to |ids|
        invariant commands == old(commands) + PendingCommands(ids[..i], vms, maxWait, now)
      {
        assert ids[..i + 1][..i] == ids[..i];
        var vm := vms[ids[i]];
        var wait := now(ids[i]) - vm.birth;
        if wait > maxWait && vm.staticVm == 0 {
          commands := commands + [Delete(vm.oid)];
        }
      }
      assert ids[..|ids|] == ids;
    }

    /** One pass over the users.  After a failed fetch the next `lock()` of the
        same thread never returns: `blocked`. */
    method Tick(users: seq<Limit>, pass: Pass) returns (reported: seq<Report>, blocked: bool)
      requires !locked && |pass.fetches| == |users|
      modifies this`locked, this`commands, vmpool
      ensures |reported| <= |users| && (blocked <==> |reported| < |users|)
      ensures blocked <==> exists i :: 0 <= i < |users| - 1 && !pass.fetches[i].Snapshot?
      ensures locked <==> !pass.AllFetched()
      ensures locked ==> |reported| > 0 && !pass.fetches[|reported| - 1].Snapshot?
      ensures forall i :: 0 <= i < |reported| ==> Reports(reported[i], users[i].uid, pass.fetches[i])
      ensures commands == old(commands) + PassCommands(users, pass, action, |reported|)
    {
      hide RunningCommands, UserCommands, Gather, StdMap.SumOver, CpuOf, MemoryOf, Refreshed, Reports;
      reported, blocked := [], false;
      for i := 0 to |users|
        invariant |reported| == i
        invariant locked <==> i > 0 && !pass.fetches[i - 1].Snapshot?
        invariant forall j :: 0 <= j < i - 1 ==> pass.fetches[j].Snapshot?
        invariant forall j :: 0 <= j < i ==> Reports(reported[j], users[j].uid, pass.fetches[j])
        invariant commands == old(commands) + PassCommands(users, pass, action, i)
      {
        if locked {
          blocked := true;
          assert !pass.fetches[i - 1].Snapshot?;
          return;
        }
        var report := Serve(users, pass, i);
        reported := reported + [report];
      }
    }

    /** One round of the loop over users. */
    method Serve(users: seq<Limit>, pass: Pass, i: nat) returns (report: Report)
      requires !locked && i < |users| == |pass.fetches|
      modifies this`locked, this`commands, vmpool
      ensures locked <==> !pass.fetches[i].Snapshot?
      ensures Reports(report, users[i].uid, pass.fetches[i])
      ensures commands == old(commands) + UserCommands(users, pass, action, i)
    {
      hide RunningCommands, Gather, StdMap.SumOver, StdMap.Traverse, CpuOf, MemoryOf, Refreshed;
      var rc, cpu, mem := KillRunning(users[i].uid, users[i].ttl, 0.0, 0, pass.fetches[i], pass.ClockFor(i));
      report := Report(users[i].uid, cpu, mem);
      if rc != 0 {
        NothingReported(users[i].uid, pass.fetches[i]);
        NothingForFailedFetch(users, pass, action, i);
      }
    }

    /** The thread's loop over passes, until a failed fetch leaves the mutex held;
        of that pass only the users up to the failure are served. */
    method Loop(users: seq<Limit>, passes: seq<Pass>) returns (finished: nat, served: nat)
      requires !locked && FetchPerUser(users, passes)
      modifies this`locked, this`commands, vmpool
      ensures finished <= |passes| && (locked <==> finished < |passes|)
      ensures forall p :: 0 <= p < finished ==> passes[p].AllFetched()
      ensures FetchPerUser(users, passes[..finished])
      ensures locked ==>
        0 < served <= |users| && !passes[finished].fetches[served - 1].Snapshot?
        && commands == old(commands) + RunCommands(users, passes[..finished], action)
                       + PassCommands(users, passes[finished], action, served)
      ensures !locked ==> commands == old(commands) + RunCommands(users, passes, action)
    {
      hide PassCommands, RunCommands;
      NothingRun(users, action);
      finished, served := 0, |users|;
      assert passes[..0] == [];
      while finished < |passes|
        invariant finished <= |passes| && !locked
        invariant forall p :: 0 <= p < finished ==> passes[p].AllFetched()
        invariant commands == old(commands) + RunCommands(users, passes[..finished], action)
      {
        var reported, blocked := Tick(users, passes[finished]);
        if locked {
          served := |reported|;
          return;
        }
        NextPass(users, passes, action, finished);
        finished := finished + 1;
      }
      assert passes[..|passes|] == passes;
    }
  }

  /** A report carries the load of all running VMs of the user, or nothing when
      the fetch failed. */
  ghost predicate Reports(r: Report, uid: int, fetch: Fetch) {
    var pool := Refreshed(Running(uid), fetch);
    && r.uid == uid
    && r.cpu == StdMap.SumOver(pool.Keys, CpuOf(pool))
    && r.memory as real == StdMap.SumOver(pool.Keys, MemoryOf(pool))
  }

  lemma NothingReported(uid: int, fetch: Fetch)
    requires !fetch.Snapshot?
    ensures Reports(Report(uid, 0.0, 0), uid, fetch)
  {
    assert Refreshed(Running(uid), fetch).Keys == {};
  }

  // ----- what the policy amounts to -----

  /** The commands of a call name exactly the VMs the policy picks, each once. */
  lemma {:induction false} CommandedIff(ids: seq<int>, pool: map<int, VM>, ttl: int, action: string, now: int -> int,
                                        c: Command)
    requires forall i :: 0 <= i < |ids| ==> ids[i] in pool
    ensures c in RunningCommands(ids, pool, ttl, action, now)
       <==> exists i :: 0 <= i < |ids| && CommandFor(pool[ids[i]], now(ids[i]), ttl, action) == Some(c)
  {
    hide CommandFor;
    if ids != [] {
      var k := |ids| - 1;
      var front := ids[..k];
      CommandedIff(front, pool, ttl, action, now, c);
      if i :| 0 <= i < |front| && CommandFor(pool[front[i]], now(front[i]), ttl, action) == Some(c) {
        assert ids[i] == front[i];
      }
      if i :| 0 <= i < |ids| && CommandFor(pool[ids[i]], now(ids[i]), ttl, action) == Some(c) {
        assert i < k ==> ids[i] == front[i];
      }
    }
  }

  lemma {:induction false} PendingCommandedIff(ids: seq<int>, pool: map<int, VM>, maxWait: int, now: int -> int, c: Command)
    requires forall i :: 0 <= i < |ids| ==> ids[i] in pool
    ensures c in PendingCommands(ids, pool, maxWait, now)
       <==> exists i :: 0 <= i < |ids| && c == Delete(pool[ids[i]].oid)
              && now(ids[i]) - pool[ids[i]].birth > maxWait && pool[ids[i]].staticVm == 0
  {
    if ids != [] {
      var k := |ids| - 1;
      var front := ids[..k];
      PendingCommandedIff(front, pool, maxWait, now, c);
      if i :| 0 <= i < |front| && PendingCommand(pool[front[i]], now(front[i]), maxWait) == Some(c) {
        assert ids[i] == front[i];
      }
      if i :| 0 <= i < |ids| && PendingCommand(pool[ids[i]], now(ids[i]), maxWait) == Some(c) {
        assert i < k ==> ids[i] == front[i];
      }
    }
  }

  /** When an active VM is commanded, and that the command is about it. */
  lemma CommandedExactlyWhen(vm: VM, now: int, ttl: int, action: string)
    ensures CommandFor(vm, now, ttl, action).Some? <==> Overdue(vm, now, ttl) && KnownAction(action)
    ensures CommandFor(vm, now, ttl, action).Some? ==> CommandFor(vm, now, ttl, action).value.oid == vm.oid
  {
  }

  ghost predicate Names(commands: seq<Command>, oid: int) {
    exists c :: c in commands && c.oid == oid
  }

  lemma NamesConcat(a: seq<Command>, b: seq<Command>, oid: int)
    ensures Names(a + b, oid) <==> Names(a, oid) || Names(b, oid)
  {
    if c :| c in a && c.oid == oid {
      assert c in a + b;
    }
    if c :| c in b && c.oid == oid {
      assert c in a + b;
    }
  }

  /** The calls for one user name exactly the user's overdue VMs. */
  lemma UserNamesIff(users: seq<Limit>, pass: Pass, action: string, i: nat, oid: int)
    requires i < |users| == |pass.fetches|
    ensures Names(UserCommands(users, pass, action, i), oid)
       <==> oid in Observed(users, pass, i) && KnownAction(action)
            && Overdue(Observed(users, pass, i)[oid], pass.clock(i, oid), users[i].ttl)
  {
    hide StdMap.Traverse, RunningCommands, CommandFor, Overdue, KnownAction, Gather;
    var pool, now, ttl := Observed(users, pass, i), pass.ClockFor(i), users[i].ttl;
    KeysListed(pool);
    var ids := StdMap.Traverse(pool.Keys);
    var commands := UserCommands(users, pass, action, i);
    if c :| c in commands && c.oid == oid {
      CommandedIff(ids, pool, ttl, action, now, c);
      var k :| 0 <= k < |ids| && CommandFor(pool[ids[k]], now(ids[k]), ttl, action) == Some(c);
      CommandedExactlyWhen(pool[ids[k]], now(ids[k]), ttl, action);
    }
    if oid in pool && KnownAction(action) && Overdue(pool[oid], pass.clock(i, oid), ttl) {
      CommandedExactlyWhen(pool[oid], pass.clock(i, oid), ttl, action);
      var c := CommandFor(pool[oid], pass.clock(i, oid), ttl, action).value;
      assert oid in ids;
      var k :| 0 <= k < |ids| && ids[k] == oid;
      CommandedIff(ids, pool, ttl, action, now, c);
    }
  }

  /** A pass names a VM exactly if, for some user, it finds the VM overdue. */
  lemma {:induction false} PassNamesIff(users: seq<Limit>, pass: Pass, action: string, n: nat, oid: int)
    requires n <= |users| == |pass.fetches|
    ensures Names(PassCommands(users, pass, action, n), oid)
       <==> exists i :: 0 <= i < n && oid in Observed(users, pass, i) && KnownAction(action)
              && Overdue(Observed(users, pass, i)[oid], pass.clock(i, oid), users[i].ttl)
  {
    hide UserCommands, Observed, KnownAction, Overdue;
    if n > 0 {
      PassNamesIff(users, pass, action, n - 1, oid);
      UserNamesIff(users, pass, action, n - 1, oid);
      NamesConcat(PassCommands(users, pass, action, n - 1), UserCommands(users, pass, action, n - 1), oid);
    }
  }

  /** A run names a VM exactly if one of its passes does. */
  lemma {:induction false} RunNamesIff(users: seq<Limit>, passes: seq<Pass>, action: string, oid: int)
    requires FetchPerUser(users, passes)
    ensures Names(RunCommands(users, passes, action), oid)
       <==> exists p :: 0 <= p < |passes| && Names(PassCommands(users, passes[p], action, |users|), oid)
  {
    hide PassCommands, Names;
    if passes != [] {
      var k := |passes| - 1;
      var front := passes[..k];
      RunNamesIff(users, front, action, oid);
      NamesConcat(RunCommands(users, front, action), PassCommands(users, passes[k], action, |users|), oid);
      if p :| 0 <= p < |front| && Names(PassCommands(users, front[p], action, |users|), oid) {
        assert Names(PassCommands(users, passes[p], action, |users|), oid);
      }
      if p :| 0 <= p < |passes| && Names(PassCommands(users, passes[p], action, |users|), oid) {
        assert p < k ==> Names(PassCommands(users, front[p], action, |users|), oid);
      }
    } else {
      NothingNamed(oid);
    }
  }

  lemma NothingNamed(oid: int)
    ensures !Names([], oid)
  {
  }

  // ----- from snapshots to commands -----

  /** The answer shows an active, dynamic VM of this user with this id and a start
      time, older than the user's time to live. */
  ghost predicate ShowsOverdue(fetch: Fetch, user: Limit, oid: int, now: int) {
    fetch.Snapshot?
    && exists vm :: vm in fetch.vms && vm.oid == oid && vm.state == 3 && vm.uid == user.uid && vm.children >= 2
         && vm.start != 0 && vm.staticVm == 0 && now - vm.start > user.ttl
  }

  lemma ObservedOverdue(users: seq<Limit>, pass: Pass, i: nat, oid: int)
    requires i < |users| == |pass.fetches| && oid in Observed(users, pass, i)
    requires Overdue(Observed(users, pass, i)[oid], pass.clock(i, oid), users[i].ttl)
    ensures ShowsOverdue(pass.fetches[i], users[i], oid, pass.clock(i, oid))
  {
    assert Observed(users, pass, i)[oid] in pass.fetches[i].vms;
  }

  lemma ShownIsObserved(users: seq<Limit>, pass: Pass, i: nat, oid: int)
    requires i < |users| == |pass.fetches| && ShowsOverdue(pass.fetches[i], users[i], oid, pass.clock(i, oid))
    requires DistinctIds(pass.fetches[i].vms)
    ensures oid in Observed(users, pass, i)
    ensures Overdue(Observed(users, pass, i)[oid], pass.clock(i, oid), users[i].ttl)
  {
    hide DistinctIds;
    var vms := pass.fetches[i].vms;
    var vm :| vm in vms && vm.oid == oid && vm.state == 3 && vm.uid == users[i].uid && vm.children >= 2
              && vm.start != 0 && vm.staticVm == 0 && pass.clock(i, oid) - vm.start > users[i].ttl;
    assert Enters(Running(users[i].uid), vm);
    IdDecides(vms, vm, Observed(users, pass, i)[oid]);
  }

  ghost predicate ShownInRun(users: seq<Limit>, passes: seq<Pass>, oid: int)
    requires FetchPerUser(users, passes)
  {
    exists p, i :: 0 <= p < |passes| && 0 <= i < |users|
      && ShowsOverdue(passes[p].fetches[i], users[i], oid, passes[p].clock(i, oid))
  }

  /** Whoever a run names was shown by a snapshot: an active VM of a configured user
      whom it had outlived, and the action is one of the four. */
  lemma NamedWasShown(users: seq<Limit>, passes: seq<Pass>, action: string, oid: int)
    requires FetchPerUser(users, passes) && Names(RunCommands(users, passes, action), oid)
    ensures ShownInRun(users, passes, oid)
    ensures action == "kill" || action == "suspend" || action == "poweroff" || action == "reboot"
  {
    hide PassCommands, RunCommands, Names, Observed, Overdue, ShowsOverdue;
    RunNamesIff(users, passes, action, oid);
    var p :| 0 <= p < |passes| && Names(PassCommands(users, passes[p], action, |users|), oid);
    PassNamesIff(users, passes[p], action, |users|, oid);
    var i :| 0 <= i < |users| && oid in Observed(users, passes[p], i)
             && Overdue(Observed(users, passes[p], i)[oid], passes[p].clock(i, oid), users[i].ttl);
    ObservedOverdue(users, passes[p], i, oid);
  }

  /** If no snapshot repeats an id, a run names exactly the VMs its snapshots show overdue. */
  lemma NamedIffShown(users: seq<Limit>, passes: seq<Pass>, action: string, oid: int)
    requires FetchPerUser(users, passes)
    requires forall p, i :: 0 <= p < |passes| && 0 <= i < |users| && passes[p].fetches[i].Snapshot? ==>
      DistinctIds(passes[p].fetches[i].vms)
    requires action == "kill" || action == "suspend" || action == "poweroff" || action == "reboot"
    ensures Names(RunCommands(users, passes, action), oid) <==> ShownInRun(users, passes, oid)
  {
    hide PassCommands, RunCommands, Names, Observed, Overdue, ShowsOverdue, DistinctIds;
    if Names(RunCommands(users, passes, action), oid) {
      NamedWasShown(users, passes, action, oid);
    }
    if ShownInRun(users, passes, oid) {
      var p, i :| 0 <= p < |passes| && 0 <= i < |users|
                  && ShowsOverdue(passes[p].fetches[i], users[i], oid, passes[p].clock(i, oid));
      ShownSnapshot(passes[p].fetches[i], users[i], oid, passes[p].clock(i, oid));
      ShownIsObserved(users, passes[p], i, oid);
      PassNamesIff(users, passes[p], action, |users|, oid);
      RunNamesIff(users, passes, action, oid);
    }
  }

  lemma ShownSnapshot(fetch: Fetch, user: Limit, oid: int, now: int)
    requires ShowsOverdue(fetch, user, oid, now)
    ensures fetch.Snapshot?
  {
  }

  /** A VM that belongs to no configured user is never named; nor is one that is
      static or has start time 0 wherever it is shown. */
  lemma ExemptNeverNamed(users: seq<Limit>, passes: seq<Pass>, action: string, oid: int)
    requires FetchPerUser(users, passes)
    requires forall p, i, vm ::
      (0 <= p < |passes| && 0 <= i < |users| && passes[p].fetches[i].Snapshot?
       && vm in passes[p].fetches[i].vms && vm.oid == oid) ==>
        vm.staticVm != 0 || vm.start == 0 || forall u :: 0 <= u < |users| ==> users[u].uid != vm.uid
    ensures !Names(RunCommands(users, passes, action), oid)
  {
    hide PassCommands, RunCommands, Names;
    if Names(RunCommands(users, passes, action), oid) {
      NamedWasShown(users, passes, action, oid);
    }
  }

  // ----- which commands, and in which order -----

  /** Deletions for the action kill, that operation for any other. */
  ghost predicate AllOfKind(commands: seq<Command>, action: string) {
    forall k :: 0 <= k < |commands| ==>
      commands[k] == if action == "kill" then Delete(commands[k].oid) else Operate(action, commands[k].oid)
  }

  lemma {:induction false} RunningOfKind(ids: seq<int>, pool: map<int, VM>, ttl: int, action: string, now: int -> int)
    requires forall i :: 0 <= i < |ids| ==> ids[i] in pool
    ensures AllOfKind(RunningCommands(ids, pool, ttl, action, now), action)
  {
    if ids != [] {
      RunningOfKind(ids[..|ids| - 1], pool, ttl, action, now);
    }
  }

  lemma {:induction false} PassOfKind(users: seq<Limit>, pass: Pass, action: string, n: nat)
    requires n <= |users| == |pass.fetches|
    ensures AllOfKind(PassCommands(users, pass, action, n), action)
  {
    hide RunningCommands, StdMap.Traverse, Observed;
    if n > 0 {
      PassOfKind(users, pass, action, n - 1);
      var pool := Observed(users, pass, n - 1);
      KeysListed(pool);
      RunningOfKind(StdMap.Traverse(pool.Keys), pool, users[n - 1].ttl, action, pass.ClockFor(n - 1));
    }
  }

  /** Every command of a run is the one its action asks for. */
  lemma {:induction false} RunOfKind(users: seq<Limit>, passes: seq<Pass>, action: string)
    requires FetchPerUser(users, passes)
    ensures AllOfKind(RunCommands(users, passes, action), action)
  {
    hide PassCommands;
    if passes != [] {
      RunOfKind(users, passes[..|passes| - 1], action);
      PassOfKind(users, passes[|passes| - 1], action, |users|);
    }
  }

  /** Ids strictly ascend: no VM is named twice. */
  ghost predicate InIdOrder(commands: seq<Command>) {
    forall j, k :: 0 <= j < k < |commands| ==> commands[j].oid < commands[k].oid
  }

  lemma {:induction false} RunningInOrder(ids: seq<int>, pool: map<int, VM>, ttl: int, action: string, now: int -> int)
    requires StdMap.Ascending(ids) && forall i :: 0 <= i < |ids| ==> ids[i] in pool && pool[ids[i]].oid == ids[i]
    ensures var commands := RunningCommands(ids, pool, ttl, action, now);
            InIdOrder(commands) && forall k :: 0 <= k < |commands| ==> ids != [] && commands[k].oid <= ids[|ids| - 1]
  {
    hide CommandFor;
    if ids != [] {
      RunningInOrder(ids[..|ids| - 1], pool, ttl, action, now);
      CommandedExactlyWhen(pool[ids[|ids| - 1]], now(ids[|ids| - 1]), ttl, action);
    }
  }

  lemma {:induction false} PendingInOrder(ids: seq<int>, pool: map<int, VM>, maxWait: int, now: int -> int)
    requires StdMap.Ascending(ids) && forall i :: 0 <= i < |ids| ==> ids[i] in pool && pool[ids[i]].oid == ids[i]
    ensures var commands := PendingCommands(ids, pool, maxWait, now);
            InIdOrder(commands) && forall k :: 0 <= k < |commands| ==> ids != [] && commands[k].oid <= ids[|ids| - 1]
  {
    if ids != [] {
      PendingInOrder(ids[..|ids| - 1], pool, maxWait, now);
    }
  }

  /** The commands for one user come in id order, each VM once. */
  lemma UserCommandsInOrder(users: seq<Limit>, pass: Pass, action: string, i: nat)
    requires i < |users| == |pass.fetches|
    ensures InIdOrder(UserCommands(users, pass, action, i))
  {
    hide RunningCommands, StdMap.Traverse, InIdOrder, Gather;
    var pool := Observed(users, pass, i);
    KeysListed(pool);
    RunningInOrder(StdMap.Traverse(pool.Keys), pool, users[i].ttl, action, pass.ClockFor(i));
  }

  /** What `kill_pending` deletes: in id order, exactly the dynamic VMs the snapshot
      shows pending that have waited for longer than allowed. */
  lemma PendingDeletions(vms: seq<VM>, uid: int, maxWait: int, now: int -> int, oid: int)
    requires DistinctIds(vms)
    ensures var pool := Refreshed(PendingSearch(uid), Fetch.Snapshot(vms));
            && Listed(pool)
            && var commands := PendingCommands(StdMap.Traverse(pool.Keys), pool, maxWait, now);
            && InIdOrder(commands)
            && (Names(commands, oid) <==> Delete(oid) in commands)
            && (Delete(oid) in commands <==>
                  exists vm :: vm in vms && vm.oid == oid && vm.children >= 2 && (uid == -1 || vm.uid == uid)
                    && (vm.state == 1 || (vm.resched == 1 && (vm.lcmState == 3 || vm.lcmState == 16)))
                    && vm.staticVm == 0 && now(oid) - vm.birth > maxWait)
  {
    hide PendingCommands, StdMap.Traverse, InIdOrder, Gather, Names, DistinctIds, StdMap.Ascending;
    var fetch := Fetch.Snapshot(vms);
    var pool := Refreshed(PendingSearch(uid), fetch);
    KeysListed(pool);
    var ids := StdMap.Traverse(pool.Keys);
    PendingInOrder(ids, pool, maxWait, now);
    PendingNamesIff(ids, pool, maxWait, now, oid);
    if vm :| vm in vms && vm.oid == oid && vm.children >= 2 && (uid == -1 || vm.uid == uid)
             && (vm.state == 1 || (vm.resched == 1 && (vm.lcmState == 3 || vm.lcmState == 16)))
             && vm.staticVm == 0 && now(oid) - vm.birth > maxWait {
      assert Enters(PendingSearch(uid), vm);
      IdDecides(vms, vm, pool[oid]);
    }
    if oid in pool {
      assert pool[oid] in vms && Enters(PendingSearch(uid), pool[oid]);
    }
  }

  lemma PendingNamesIff(ids: seq<int>, pool: map<int, VM>, maxWait: int, now: int -> int, oid: int)
    requires forall i :: 0 <= i < |ids| ==> ids[i] in pool && pool[ids[i]].oid == ids[i]
    requires forall x :: x in ids <==> x in pool
    ensures var commands := PendingCommands(ids, pool, maxWait, now);
            && (Names(commands, oid) <==> Delete(oid) in commands)
            && (Delete(oid) in commands <==> oid in pool && pool[oid].staticVm == 0 && now(oid) - pool[oid].birth > maxWait)
  {
    hide PendingCommands;
    var commands := PendingCommands(ids, pool, maxWait, now);
    PendingCommandedIff(ids, pool, maxWait, now, Delete(oid));
    if oid in pool {
      var i :| 0 <= i < |ids| && ids[i] == oid;
    }
    if c :| c in commands && c.oid == oid {
      PendingCommandedIff(ids, pool, maxWait, now, c);
    }
  }

  // ----- lifetimes over runs -----

  ghost predicate DistinctUsers(users: seq<Limit>) {
    forall i, j :: 0 <= i < j < |users| ==> users[i].uid != users[j].uid
  }

  /** The user's snapshot shows the VM active, and wherever a snapshot of the pass
      shows it, it is the user's, dynamic, with this start time. */
  ghost predicate SeenAs(users: seq<Limit>, pass: Pass, u: nat, oid: int, start: int)
    requires u < |users| == |pass.fetches|
  {
    && ShowsActive(pass.fetches[u], users[u].uid, oid)
    && forall i, vm :: 0 <= i < |users| && pass.fetches[i].Snapshot? && vm in pass.fetches[i].vms && vm.oid == oid ==>
         vm.uid == users[u].uid && vm.start == start && vm.staticVm == 0
  }

  lemma SeenIsObserved(users: seq<Limit>, pass: Pass, u: nat, oid: int, start: int)
    requires u < |users| == |pass.fetches| && DistinctUsers(users) && SeenAs(users, pass, u, oid, start)
    ensures oid in Observed(users, pass, u)
    ensures Observed(users, pass, u)[oid].start == start && Observed(users, pass, u)[oid].staticVm == 0
    ensures forall i :: 0 <= i < |users| && i != u ==> oid !in Observed(users, pass, i)
  {
    hide Gather;
    ActiveIsPooled(pass.fetches[u], users[u].uid);
    assert Observed(users, pass, u)[oid] in pass.fetches[u].vms;
    forall i | 0 <= i < |users| && i != u
      ensures oid !in Observed(users, pass, i)
    {
      ActiveIsPooled(pass.fetches[i], users[i].uid);
    }
  }

  /** Every fetch of every pass succeeds and shows the VM, whose examinations are
      at most `gap` apart. */
  ghost predicate Watched(users: seq<Limit>, passes: seq<Pass>, u: nat, oid: int, start: int, gap: int)
    requires u < |users|
  {
    && FetchPerUser(users, passes) && DistinctUsers(users) && start > 0
    && (forall p :: 0 <= p < |passes| ==> passes[p].AllFetched() && SeenAs(users, passes[p], u, oid, start))
    && (forall p :: 0 < p < |passes| ==> passes[p].clock(u, oid) - passes[p - 1].clock(u, oid) <= gap)
  }

  /** Pass `p` is the first to name the VM. */
  ghost predicate FirstNamed(users: seq<Limit>, passes: seq<Pass>, action: string, oid: int, p: int)
    requires FetchPerUser(users, passes)
  {
    && 0 <= p < |passes| && Names(PassCommands(users, passes[p], action, |users|), oid)
    && forall i :: 0 <= i < p ==> !Names(PassCommands(users, passes[i], action, |users|), oid)
  }

  lemma WatchedNamedIff(users: seq<Limit>, passes: seq<Pass>, u: nat, oid: int, start: int, gap: int, action: string, p: nat)
    requires u < |users| && Watched(users, passes, u, oid, start, gap) && KnownAction(action) && p < |passes|
    ensures Names(PassCommands(users, passes[p], action, |users|), oid)
       <==> passes[p].clock(u, oid) - start > users[u].ttl
  {
    hide PassCommands, Observed, Names, SeenAs, DistinctUsers;
    PassNamesIff(users, passes[p], action, |users|, oid);
    assert SeenAs(users, passes[p], u, oid, start);
    SeenIsObserved(users, passes[p], u, oid, start);
  }

  /** Lifetime bound over runs: a user's VM that is shown at every pass, and at the
      first within its time to live, is first commanded at an age in `(ttl, ttl + gap]`;
      and it is commanded at all exactly if some pass examines it beyond its time to live. */
  lemma LifetimeBound(users: seq<Limit>, passes: seq<Pass>, u: nat, oid: int, start: int, gap: int, action: string)
    requires u < |users| && Watched(users, passes, u, oid, start, gap) && KnownAction(action)
    requires passes != [] && passes[0].clock(u, oid) - start <= users[u].ttl
    ensures forall p :: FirstNamed(users, passes, action, oid, p) ==>
      users[u].ttl < passes[p].clock(u, oid) - start <= users[u].ttl + gap
    ensures Names(RunCommands(users, passes, action), oid)
       <==> exists p :: 0 <= p < |passes| && passes[p].clock(u, oid) - start > users[u].ttl
    ensures Names(RunCommands(users, passes, action), oid)
       <==> exists p :: FirstNamed(users, passes, action, oid, p)
  {
    hide PassCommands, RunCommands, Names;
    forall p | 0 <= p < |passes|
      ensures Names(PassCommands(users, passes[p], action, |users|), oid) <==> passes[p].clock(u, oid) - start > users[u].ttl
    {
      WatchedNamedIff(users, passes, u, oid, start, gap, action, p);
    }
    RunNamesIff(users, passes, action, oid);
    if p :| 0 <= p < |passes| && Names(PassCommands(users, passes[p], action, |users|), oid) {
      FirstExists(users, passes, action, oid, p);
    }
    forall p | FirstNamed(users, passes, action, oid, p)
      ensures users[u].ttl < passes[p].clock(u, oid) - start <= users[u].ttl + gap
    {
      assert p > 0;
      assert passes[p].clock(u, oid) - passes[p - 1].clock(u, oid) <= gap;
      assert !Names(PassCommands(users, passes[p - 1], action, |users|), oid);
    }
  }

  lemma {:induction false} FirstExists(users: seq<Limit>, passes: seq<Pass>, action: string, oid: int, p: nat)
    requires FetchPerUser(users, passes) && p < |passes|
    requires Names(PassCommands(users, passes[p], action, |users|), oid)
    ensures exists j :: FirstNamed(users, passes, action, oid, j)
    decreases p
  {
    hide PassCommands, Names;
    if k :| 0 <= k < p && Names(PassCommands(users, passes[k], action, |users|), oid) {
      FirstExists(users, passes, action, oid, k);
    } else {
      assert FirstNamed(users, passes, action, oid, p);
    }
  }

  /** A VM that is static whenever a pass finds it is named by no command of the
      run, whatever its age, and with an unknown action nothing is. */
  lemma StaticNeverCommanded(users: seq<Limit>, passes: seq<Pass>, action: string, oid: int)
    requires FetchPerUser(users, passes)
    requires KnownAction(action) ==>
      forall p, i :: 0 <= p < |passes| && 0 <= i < |users| && oid in Observed(users, passes[p], i) ==>
        Observed(users, passes[p], i)[oid].staticVm != 0
    ensures !Names(RunCommands(users, passes, action), oid)
  {
    hide PassCommands, RunCommands, Names, Observed, KnownAction;
    RunNamesIff(users, passes, action, oid);
    forall p | 0 <= p < |passes|
      ensures !Names(PassCommands(users, passes[p], action, |users|), oid)
    {
      PassNamesIff(users, passes[p], action, |users|, oid);
    }
  }

  /** A VM without start time carries -1, which the test for 0 lets through: a
      dynamic one is named by a command as soon as the clock itself has reached
      the time to live, whatever the known action. */
  lemma MissingStartIsOverdue(users: seq<Limit>, pass: Pass, action: string, i: nat, oid: int)
    requires i < |users| == |pass.fetches| && KnownAction(action) && oid in Observed(users, pass, i)
    requires Observed(users, pass, i)[oid].start == -1 && Observed(users, pass, i)[oid].staticVm == 0
    ensures Names(UserCommands(users, pass, action, i), oid) <==> pass.clock(i, oid) >= users[i].ttl
  {
    hide UserCommands, Observed, Names, KnownAction;
    UserNamesIff(users, pass, action, i, oid);
  }
}
