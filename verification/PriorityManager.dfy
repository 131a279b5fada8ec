/** The priority manager: the state it keeps between cycles and the cycle itself
    (`PriorityManager.cc`). */
module PriorityManager {
  import opened Accounting
  import opened FairShare
  import opened Pool
  import opened QueueDocument
  import opened Scheduling
  import opened Users
  import opened Wrappers
  import PriorityMap
  import StdMap

  class PriorityManager {
    const config: Config
    const userList: seq<User>
    const vmpool: VMPool
    const acctpool: AcctPool
    var priorities: map<real, int>
    var queue: string

    constructor (config: Config, users: seq<User>)
      requires config.nPeriods <= 3
      requires forall i, j :: 0 <= i < j < |users| ==> users[i] != users[j]
      ensures Valid() && this.config == config && userList == users
      ensures queue == "<VM_POOL></VM_POOL>"
      ensures fresh(vmpool) && fresh(acctpool)
    {
      this.config, userList := config, users;
      vmpool := new VMPool();
      acctpool := new AcctPool();
      priorities, queue := map[], "<VM_POOL></VM_POOL>";
    }

    /** Holds between cycles: the priority map is empty. */
    ghost predicate Valid()
      reads this
    {
      && config.nPeriods <= 3
      && (forall i, j :: 0 <= i < j < |userList| ==> userList[i] != userList[j])
      && priorities == map[]
    }

    method GetPending(fetch: Fetch) returns (rc: int)
      modifies vmpool
      ensures rc == if fetch.Snapshot? then 0 else -1
      ensures vmpool.objects == Refreshed(Pending, fetch)
    {
      rc := vmpool.GetPending(-1, fetch);
    }

    /** Refresh the accounting pool and evaluate every user, whatever the fetch gave. */
    method HistoricalUsage(timestamp: int, fetch: AcctFetch)
      requires Valid()
      modifies acctpool, userList
      ensures Views(userList) == MeasuredAll(old(Views(userList)), fetch,
                SpanAt(timestamp, config.managerTimer, config.period, config.nPeriods), config.nPeriods + 1)
    {
      hide Entries, Evaluated, MeasuredAll, Accepted, Views, Uids, Lookup;
      ghost var was := Views(userList);
      var uids := Uids(Views(userList));
      var timeStart := timestamp - (config.managerTimer * config.period * (config.nPeriods + 1));
      var rc := acctpool.SetUp(uids, fetch);
      var periodS := config.managerTimer * config.period;
      var span := Span(timeStart, timestamp, periodS);
      ghost var objects := acctpool.objects;
      assert forall uid :: Lookup(objects, uid) == acctpool.Get(uid);
      rc := acctpool.EvalUsage(userList, span, config.nPeriods);
      EvaluatedIsMeasured(was, objects, fetch, span, config.nPeriods + 1);
    }

    /** Insert every pending VM under its rounded priority, in id order. */
    method DoPrioritize()
      requires AllReady(vmpool.objects, Views(userList), KeptTotals(CpuRows(Views(userList))), config)
      requires forall oid :: oid in vmpool.objects ==> vmpool.objects[oid].oid == oid
      requires priorities == map[]
      modifies this`priorities
      ensures priorities == Priorities(vmpool.objects,
                Keys(vmpool.objects, Views(userList), KeptTotals(CpuRows(Views(userList))), config))
    {
      hide StdMap.Traverse, PriorityMap.InsertAll, KeptTotals, CpuRows, MemoryRows, Views, KeyOf, Ready, Owner, Keys,
           Priorities;
      var pendingVms := vmpool.objects;
      var accounts := Views(userList);
      var plugin := new BasicPlugin();
      var ok := plugin.EvaluateTotalUsage(accounts);
      KeysListed(pendingVms);
      InsertPending(plugin, pendingVms, accounts);
    }

    /** The loop over the pending VMs, in id order. */
    method InsertPending(plugin: BasicPlugin, pendingVms: map<int, VM>, accounts: seq<Account>)
      requires AllReady(pendingVms, accounts, plugin.totCpu, config)
      requires forall oid :: oid in pendingVms ==> pendingVms[oid].oid == oid
      requires priorities == map[]
      modifies this`priorities
      ensures priorities == Priorities(pendingVms, Keys(pendingVms, accounts, plugin.totCpu, config))
    {
      hide StdMap.Traverse, PriorityMap.InsertAll, KeyOf, Ready;
      ghost var totals := plugin.totCpu;
      ghost var key := Keys(pendingVms, accounts, totals, config);
      KeysListed(pendingVms);
      var ids := StdMap.Traverse(pendingVms.Keys);
      InsertNone(key);
      assert ids[..0] == [];
      for i := 0 to |ids|
        invariant priorities == PriorityMap.InsertAll(ids[..i], key)
      {
        var vm := pendingVms[ids[i]];
        var vmPrio := Prioritize(plugin, vm, accounts);
        priorities := StdMap.Insert(priorities, vmPrio, vm.oid);
        InsertNext(ids, key, i);
      }
      assert ids[..|ids|] == ids;
    }

    /** Find the owner, ask the plugin, round to `float`. */
    method Prioritize(plugin: BasicPlugin, vm: VM, accounts: seq<Account>) returns (vmPrio: real)
      requires config.debug ==> Ready(vm, accounts) && HasFourTotals(plugin.totCpu)
      ensures vmPrio == KeyOf(vm, accounts, plugin.totCpu, config)
    {
      var user := Account(0, 0, 0.0, 0, map[], map[]);
      for i := 0 to |accounts|
        invariant Owner(accounts[..i], vm.uid).Some? ==> user == Owner(accounts[..i], vm.uid).value
      {
        assert accounts[..i + 1][..i] == accounts[..i];
        if accounts[i].uid == vm.uid {
          user := accounts[i];
        }
      }
      assert accounts[..|accounts|] == accounts;
      vmPrio := config.arithmetic.float(
        plugin.UpdatePrio(config.arithmetic, vm.oid, user.cpu, user.share, config.debug));
    }

    /** Publish and clear the priorities; a throwing edit leaves both untouched. */
    method MakeQueue() returns (r: Result<string>)
      requires forall p :: p in priorities ==> priorities[p] in vmpool.objects
      modifies this`priorities, this`queue
      ensures KeysOk(old(priorities), vmpool.objects)
      ensures r == Document(QueueEntries(StdMap.TraverseDown(old(priorities).Keys), old(priorities),
                                         vmpool.objects, config.text))
      ensures r.Ok? ==> queue == r.value && priorities == map[]
      ensures r.OutOfRange? ==> queue == old(queue) && priorities == old(priorities)
    {
      hide StdMap.TraverseDown, QueueEntries, Document;
      KeysKnown(priorities, vmpool.objects);
      r := vmpool.MakeQueue(priorities, config.text);
      if r.Ok? {
        queue := r.value;
        priorities := map[];
      }
    }

    /** One cycle of the loop.  The published text is a function of the
        configuration and this cycle's inputs; nothing of earlier cycles matters. */
    method Cycle(input: CycleInput) returns (r: Result<string>)
      requires Valid() && Supported(config, Views(userList), input)
      modifies this`priorities, this`queue, vmpool, acctpool, userList
      ensures r == PublishedQueue(config, old(Views(userList)), input)
      ensures Views(userList) == AccountsOf(config, old(Views(userList)), input)
      ensures r.Ok? ==> Valid() && queue == r.value
      ensures r.OutOfRange? ==> queue == old(queue)
    {
      hide *;
      ghost var was := Views(userList);
      var rc := GetPending(input.pending);
      HistoricalUsage(input.timestamp, input.accounting);
      CycleState(config, was, input);
      r := Publish(was, input);
    }

    /** The second half of a cycle: rank the pooled VMs and publish them. */
    method Publish(ghost was: seq<Account>, input: CycleInput) returns (r: Result<string>)
      requires Valid() && Supported(config, was, input)
      requires vmpool.objects == PoolOf(input) && Views(userList) == AccountsOf(config, was, input)
      modifies this`priorities, this`queue
      ensures r == PublishedQueue(config, was, input)
      ensures r.Ok? ==> Valid() && queue == r.value
      ensures r.OutOfRange? ==> queue == old(queue)
    {
      hide Priorities, Keys, KeptTotals, CpuRows, Views, Document, QueueEntries, StdMap.TraverseDown,
           AllReady, Supported, PublishedQueue, KeysOk, PoolOf, AccountsOf;
      CycleState(config, was, input);
      PublishedText(config, was, input);
      DoPrioritize();
      r := MakeQueue();
    }

    /** Every run of the loop up to a throwing edit: cycle `i` publishes what its
        own inputs alone determine. */
    method Run(inputs: seq<CycleInput>) returns (published: seq<string>)
      requires Valid()
      requires forall i :: 0 <= i < |inputs| ==> Supported(config, Views(userList), inputs[i])
      modifies this`priorities, this`queue, vmpool, acctpool, userList
      ensures |published| <= |inputs|
      ensures forall i :: 0 <= i < |published| ==>
        PublishedQueue(config, old(Views(userList)), inputs[i]) == Ok(published[i])
      ensures |published| < |inputs| ==>
        PublishedQueue(config, old(Views(userList)), inputs[|published|]).OutOfRange?
      ensures queue == if published == [] then old(queue) else published[|published| - 1]
      ensures |published| == |inputs| ==> Valid()
    {
      hide PublishedQueue, MeasuredAll, Supported, Views, AccountsOf, SameConfigured;
      SameAtFirst(Views(userList));
      ghost var first := Views(userList);
      published := [];
      for i := 0 to |inputs|
        invariant |published| == i && Valid()
        invariant SameConfigured(first, Views(userList))
        invariant forall j :: 0 <= j < i ==> PublishedQueue(config, first, inputs[j]) == Ok(published[j])
        invariant queue == if published == [] then old(queue) else published[|published| - 1]
      {
        ghost var now := Views(userList);
        ConfiguredSuffices(config, first, now, inputs[i]);
        var r := Cycle(inputs[i]);
        StillConfigured(config, first, now, inputs[i]);
        if r.OutOfRange? {
          return;
        }
        published := published + [r.value];
      }
    }
  }

  ghost predicate KeysOk(prios: map<real, int>, objects: map<int, VM>) {
    var keys := StdMap.TraverseDown(prios.Keys);
    forall i :: 0 <= i < |keys| ==> keys[i] in prios && prios[keys[i]] in objects
  }

  function Uids(accounts: seq<Account>): (r: seq<int>)
    ensures forall i :: 0 <= i < |accounts| ==> accounts[i].uid in r
  {
    if accounts == [] then [] else Uids(accounts[..|accounts| - 1]) + [accounts[|accounts| - 1].uid]
  }

  lemma EvaluatedIsMeasured(was: seq<Account>, objects: map<int, seq<Record>>, fetch: AcctFetch, span: Span, n: int)
    requires forall uid :: Lookup(objects, uid) == if uid in Uids(was) then Accepted(fetch, uid) else []
    ensures Evaluated(was, objects, span, n) == MeasuredAll(was, fetch, span, n)
  {
    hide Entries, Uids, Accepted, Lookup;
    forall i | 0 <= i < |was|
      ensures EvaluatedOne(was[i], objects, span, n) == Measured(was[i], fetch, span, n)
    {
      assert was[i].uid in Uids(was);
    }
    var a, b := Evaluated(was, objects, span, n), MeasuredAll(was, fetch, span, n);
    assert forall i :: 0 <= i < |was| ==> a[i] == b[i];
  }

  /** What a cycle's pool and accounts are, spelled out. */
  lemma CycleState(config: Config, accounts: seq<Account>, input: CycleInput)
    ensures PoolOf(input) == Refreshed(Pending, input.pending)
    ensures forall oid :: oid in PoolOf(input) ==> PoolOf(input)[oid].oid == oid
    ensures AccountsOf(config, accounts, input) == MeasuredAll(accounts, input.accounting,
              SpanAt(input.timestamp, config.managerTimer, config.period, config.nPeriods), config.nPeriods + 1)
  {
  }

  /** What is published, spelled out. */
  lemma PublishedText(config: Config, accounts: seq<Account>, input: CycleInput)
    requires Supported(config, accounts, input)
    ensures var pool, now := PoolOf(input), AccountsOf(config, accounts, input);
            && AllReady(pool, now, KeptTotals(CpuRows(now)), config)
            && var prios := Priorities(pool, Keys(pool, now, KeptTotals(CpuRows(now)), config));
            && (forall p :: p in prios ==> prios[p] in pool)
            && KeysOk(prios, pool)
            && PublishedQueue(config, accounts, input)
               == Document(QueueEntries(StdMap.TraverseDown(prios.Keys), prios, pool, config.text))
  {
    hide Priorities, Keys, KeptTotals, CpuRows, MeasuredAll, Document, QueueEntries, StdMap.TraverseDown, AllReady, Supported;
    SupportedIsReady(config, accounts, input);
    HeldInPool(PoolOf(input), KeysOf(config, accounts, input));
    KeysKnown(Priorities(PoolOf(input), KeysOf(config, accounts, input)), PoolOf(input));
  }

  lemma InsertNone(key: map<int, real>)
    ensures PriorityMap.InsertAll([], key) == map[]
  {
  }

  lemma InsertNext(ids: seq<int>, key: map<int, real>, i: nat)
    requires PriorityMap.Keyed(ids, key) && i < |ids|
    ensures PriorityMap.InsertAll(ids[..i + 1], key)
         == StdMap.Insert(PriorityMap.InsertAll(ids[..i], key), key[ids[i]], ids[i])
  {
    assert ids[..i + 1][..i] == ids[..i];
  }

  // ----- what stays the same from cycle to cycle -----

  /** The same users with the same shares; usage figures may differ. */
  ghost predicate SameConfigured(first: seq<Account>, now: seq<Account>) {
    && |first| == |now|
    && forall i :: 0 <= i < |first| ==> now[i].(cpu := first[i].cpu, memory := first[i].memory) == first[i]
  }

  lemma SameAtFirst(accounts: seq<Account>)
    ensures SameConfigured(accounts, accounts)
  {
  }

  lemma SameMeasured(first: seq<Account>, now: seq<Account>, fetch: AcctFetch, span: Span, n: int)
    requires SameConfigured(first, now)
    ensures MeasuredAll(now, fetch, span, n) == MeasuredAll(first, fetch, span, n)
    ensures SameConfigured(first, MeasuredAll(now, fetch, span, n))
  {
    hide Entries;
    var a, b := MeasuredAll(now, fetch, span, n), MeasuredAll(first, fetch, span, n);
    forall i | 0 <= i < |first|
      ensures a[i] == b[i]
    {
      assert now[i].(cpu := first[i].cpu, memory := first[i].memory) == first[i];
    }
  }

  lemma {:induction false} SameOwner(first: seq<Account>, now: seq<Account>, uid: int)
    requires SameConfigured(first, now)
    ensures Owner(first, uid).Some? == Owner(now, uid).Some?
    ensures Owner(first, uid).Some? ==> Owner(first, uid).value.share == Owner(now, uid).value.share
  {
    if first != [] {
      var k := |first| - 1;
      assert now[k].(cpu := first[k].cpu, memory := first[k].memory) == first[k];
      assert SameConfigured(first[..k], now[..k]);
      SameOwner(first[..k], now[..k], uid);
    }
  }

  /** Whether a cycle is supported, and what it publishes, does not depend on the
      usage figures left by earlier cycles. */
  lemma ConfiguredSuffices(config: Config, first: seq<Account>, now: seq<Account>, input: CycleInput)
    requires SameConfigured(first, now) && Supported(config, first, input)
    ensures Supported(config, now, input)
    ensures PublishedQueue(config, now, input) == PublishedQueue(config, first, input)
  {
    hide Owner, MeasuredAll, SameConfigured, QueueOf, Keys, KeptTotals, CpuRows;
    forall oid | oid in PoolOf(input)
      ensures Owner(now, PoolOf(input)[oid].uid).Some? == Owner(first, PoolOf(input)[oid].uid).Some?
      ensures Owner(first, PoolOf(input)[oid].uid).Some? ==>
        Owner(now, PoolOf(input)[oid].uid).value.share == Owner(first, PoolOf(input)[oid].uid).value.share
    {
      SameOwner(first, now, PoolOf(input)[oid].uid);
    }
    SameMeasured(first, now, input.accounting,
                 SpanAt(input.timestamp, config.managerTimer, config.period, config.nPeriods), config.nPeriods + 1);
  }

  lemma StillConfigured(config: Config, first: seq<Account>, now: seq<Account>, input: CycleInput)
    requires SameConfigured(first, now)
    ensures SameConfigured(first, AccountsOf(config, now, input))
  {
    hide MeasuredAll, SameConfigured;
    SameMeasured(first, now, input.accounting,
                 SpanAt(input.timestamp, config.managerTimer, config.period, config.nPeriods), config.nPeriods + 1);
  }
}
