/** One scheduling cycle as a function of its inputs: which VMs are published,
    under which priority, and in which order (`PriorityManager.cc`). */
module Scheduling {
  import opened Accounting
  import opened FairShare
  import opened Fairness
  import opened Pool
  import opened QueueDocument
  import opened Users
  import opened Wrappers
  import PriorityMap
  import StdMap

  /** Configuration: `debug` is the plugin flag, `text` renders a float. */
  datatype Config = Config(managerTimer: int, period: int, nPeriods: int, debug: bool,
                           arithmetic: Arithmetic, text: real -> string)

  /** What one cycle receives from outside. */
  datatype CycleInput = CycleInput(pending: Fetch, accounting: AcctFetch, timestamp: int)

  /** The last configured user with the id, as the scan of the list leaves it. */
  function Owner(accounts: seq<Account>, uid: int): (r: Option<Account>)
    ensures r.Some? ==> r.value in accounts && r.value.uid == uid
  {
    if accounts == [] then None
    else if accounts[|accounts| - 1].uid == uid then Some(accounts[|accounts| - 1])
    else Owner(accounts[..|accounts| - 1], uid)
  }

  /** The scan ends with the last account that has the id, if any has it. */
  lemma {:induction false} OwnerIsLast(accounts: seq<Account>, uid: int, i: nat)
    requires i < |accounts| && accounts[i].uid == uid
    requires forall j :: i < j < |accounts| ==> accounts[j].uid != uid
    ensures Owner(accounts, uid) == Some(accounts[i])
  {
    if i < |accounts| - 1 {
      OwnerIsLast(accounts[..|accounts| - 1], uid, i);
    }
  }

  /** What the plugin needs of a pending VM: a positive id and a configured owner
      with a positive share and four usage entries. */
  predicate Ready(vm: VM, accounts: seq<Account>) {
    var owner := Owner(accounts, vm.uid);
    vm.oid > 0 && owner.Some? && owner.value.share > 0.0 && HasFour(owner.value.cpu)
  }

  predicate AllReady(pool: map<int, VM>, accounts: seq<Account>, totals: map<int, int>, config: Config) {
    config.debug ==> forall oid :: oid in pool ==> Ready(pool[oid], accounts) && HasFourTotals(totals)
  }

  /** Usage per share of the VM's owner. */
  function Exponent(vm: VM, accounts: seq<Account>, totals: map<int, int>): real
    requires Ready(vm, accounts) && HasFourTotals(totals)
  {
    var owner := Owner(accounts, vm.uid).value;
    Quotient(owner.cpu, totals, owner.share)
  }

  /** The rounded priority of a VM. */
  function KeyOf(vm: VM, accounts: seq<Account>, totals: map<int, int>, config: Config): real
    requires config.debug ==> Ready(vm, accounts) && HasFourTotals(totals)
  {
    if config.debug then Score(config.arithmetic, vm.oid, Exponent(vm, accounts, totals))
    else config.arithmetic.float(vm.oid as real)
  }

  function Keys(pool: map<int, VM>, accounts: seq<Account>, totals: map<int, int>, config: Config)
    : (key: map<int, real>)
    requires AllReady(pool, accounts, totals, config)
    ensures key.Keys == pool.Keys
    ensures forall oid :: oid in pool ==> key[oid] == KeyOf(pool[oid], accounts, totals, config)
  {
    map oid | oid in pool :: KeyOf(pool[oid], accounts, totals, config)
  }

  /** The priority map of a cycle. */
  function Priorities(pool: map<int, VM>, key: map<int, real>): map<real, int>
    requires key.Keys == pool.Keys
  {
    KeysListed(pool);
    PriorityMap.InsertAll(StdMap.Traverse(pool.Keys), key)
  }

  // ----- the accounts a cycle works with -----

  ghost function Measured(a: Account, fetch: AcctFetch, span: Span, n: int): Account {
    a.(cpu := Entries(Accepted(fetch, a.uid), Cpu, span, n),
       memory := Entries(Accepted(fetch, a.uid), Memory, span, n))
  }

  ghost function MeasuredAll(accounts: seq<Account>, fetch: AcctFetch, span: Span, n: int): (r: seq<Account>)
    ensures |r| == |accounts|
    ensures forall i :: 0 <= i < |r| ==> r[i] == Measured(accounts[i], fetch, span, n)
  {
    if accounts == [] then [] else
      MeasuredAll(accounts[..|accounts| - 1], fetch, span, n)
      + [Measured(accounts[|accounts| - 1], fetch, span, n)]
  }

  ghost function AccountsOf(config: Config, accounts: seq<Account>, input: CycleInput): seq<Account> {
    MeasuredAll(accounts, input.accounting,
                SpanAt(input.timestamp, config.managerTimer, config.period, config.nPeriods), config.nPeriods + 1)
  }

  /** `n` is `x` cut off to a whole number, toward zero. */
  predicate CutOff(n: int, x: real) {
    if x >= 0.0 then n as real <= x < n as real + 1.0 else n as real - 1.0 < x <= n as real
  }

  /** What a cycle would measure for one user over one window. */
  ghost function MeasuredUsage(fetch: AcctFetch, uid: int, what: Resource, lo: int, hi: int): real {
    if fetch.Answer? && UserWellFormed(fetch.records, uid) then UserUsage(fetch.records, uid, what, lo, hi) else 0.0
  }

  /** From the answer to the stored figures: figure `k` of a user is what all of its
      records together used from the start of the span to `k` periods before now,
      cut off to whole seconds; configured values stay. */
  lemma CycleFigures(config: Config, accounts: seq<Account>, input: CycleInput, i: nat, k: nat)
    requires i < |accounts| && k <= config.nPeriods
    ensures var now := AccountsOf(config, accounts, input);
            var fetch, uid, period := input.accounting, accounts[i].uid, config.managerTimer * config.period;
            var lo, hi := input.timestamp - period * (config.nPeriods + 1), input.timestamp - k * period;
            && |now| == |accounts| && k in now[i].cpu && k in now[i].memory
            && now[i].(cpu := accounts[i].cpu, memory := accounts[i].memory) == accounts[i]
            && CutOff(now[i].cpu[k].usage, MeasuredUsage(fetch, uid, Cpu, lo, hi))
            && CutOff(now[i].memory[k].usage, MeasuredUsage(fetch, uid, Memory, lo, hi))
            && (forall j :: j in now[i].cpu <==> 0 <= j <= config.nPeriods)
            && (forall j :: j in now[i].memory <==> 0 <= j <= config.nPeriods)
  {
    hide MeasuredAll, Accepted, Truncate, WindowUsage, UserUsage, CutOff, UserWellFormed;
    var period := config.managerTimer * config.period;
    var lo, hi := input.timestamp - period * (config.nPeriods + 1), input.timestamp - k * period;
    AcceptedUsage(input.accounting, accounts[i].uid, Cpu, lo, hi);
    AcceptedUsage(input.accounting, accounts[i].uid, Memory, lo, hi);
    TruncateCutsOff(MeasuredUsage(input.accounting, accounts[i].uid, Cpu, lo, hi));
    TruncateCutsOff(MeasuredUsage(input.accounting, accounts[i].uid, Memory, lo, hi));
  }

  lemma TruncateCutsOff(x: real)
    ensures CutOff(Truncate(x), x)
  {
  }

  function PoolOf(input: CycleInput): map<int, VM> {
    Refreshed(Pending, input.pending)
  }

  /** The plugin reads four usage entries of the owner of every pending VM. */
  predicate Supported(config: Config, accounts: seq<Account>, input: CycleInput) {
    config.debug ==>
      && config.nPeriods == 3
      && forall oid :: oid in PoolOf(input) ==>
           oid > 0 && Owner(accounts, PoolOf(input)[oid].uid).Some?
           && Owner(accounts, PoolOf(input)[oid].uid).value.share > 0.0
  }

  lemma {:induction false} OwnerMeasured(accounts: seq<Account>, uid: int, fetch: AcctFetch, span: Span, n: int)
    ensures Owner(MeasuredAll(accounts, fetch, span, n), uid)
         == match Owner(accounts, uid) case None => None case Some(a) => Some(Measured(a, fetch, span, n))
  {
    if accounts != [] {
      var front := accounts[..|accounts| - 1];
      OwnerMeasured(front, uid, fetch, span, n);
      var r := MeasuredAll(accounts, fetch, span, n);
      assert r[..|r| - 1] == MeasuredAll(front, fetch, span, n);
    }
  }

  /** The totals as the loops leave them, for the accounts of this cycle. */
  ghost function TotalsOf(config: Config, accounts: seq<Account>, input: CycleInput): map<int, int> {
    KeptTotals(CpuRows(AccountsOf(config, accounts, input)))
  }

  lemma FourTotals(accounts: seq<Account>, fetch: AcctFetch, span: Span)
    requires accounts != []
    ensures HasFourTotals(KeptTotals(CpuRows(MeasuredAll(accounts, fetch, span, 4))))
  {
    hide KeptTotals, MeasuredAll, Row;
    var rows := CpuRows(MeasuredAll(accounts, fetch, span, 4));
    RowLength(Accepted(fetch, accounts[0].uid), span);
    KeptIsFirst(rows, 0, 0);
    KeptIsFirst(rows, 1, 0);
    KeptIsFirst(rows, 2, 0);
    KeptIsFirst(rows, 3, 0);
  }

  lemma RowLength(rs: seq<Record>, span: Span)
    ensures |Row(Entries(rs, Cpu, span, 4))| == 4
  {
    hide Row;
    RowOfFour(Entries(rs, Cpu, span, 4));
  }

  lemma SupportedIsReady(config: Config, accounts: seq<Account>, input: CycleInput)
    requires Supported(config, accounts, input)
    ensures AllReady(PoolOf(input), AccountsOf(config, accounts, input), TotalsOf(config, accounts, input), config)
  {
    hide Ready, Owner, AccountsOf, TotalsOf;
    forall oid | oid in PoolOf(input) && config.debug
      ensures Ready(PoolOf(input)[oid], AccountsOf(config, accounts, input))
      ensures HasFourTotals(TotalsOf(config, accounts, input))
    {
      OwnerReady(config, accounts, input, PoolOf(input)[oid]);
    }
  }

  lemma OwnerReady(config: Config, accounts: seq<Account>, input: CycleInput, vm: VM)
    requires config.nPeriods == 3 && vm.oid > 0
    requires Owner(accounts, vm.uid).Some? && Owner(accounts, vm.uid).value.share > 0.0
    ensures Ready(vm, AccountsOf(config, accounts, input)) && HasFourTotals(TotalsOf(config, accounts, input))
  {
    hide KeptTotals, MeasuredAll, Owner, Entries, CpuRows;
    var span := SpanAt(input.timestamp, config.managerTimer, config.period, config.nPeriods);
    OwnerMeasured(accounts, vm.uid, input.accounting, span, 4);
    OwnerPresent(accounts, vm.uid);
    FourTotals(accounts, input.accounting, span);
    FourEntries(Accepted(input.accounting, vm.uid), span);
  }

  lemma OwnerPresent(accounts: seq<Account>, uid: int)
    requires Owner(accounts, uid).Some?
    ensures accounts != [] && Owner(accounts, uid).value.uid == uid
  {
  }

  lemma FourEntries(rs: seq<Record>, span: Span)
    ensures HasFour(Entries(rs, Cpu, span, 4))
  {
  }

  // ----- the published queue -----

  /** The map of rounded priorities of a cycle. */
  ghost function KeysOf(config: Config, accounts: seq<Account>, input: CycleInput): (key: map<int, real>)
    requires Supported(config, accounts, input)
    ensures key.Keys == PoolOf(input).Keys
  {
    SupportedIsReady(config, accounts, input);
    Keys(PoolOf(input), AccountsOf(config, accounts, input), TotalsOf(config, accounts, input), config)
  }

  lemma {:induction false} HeldInPool(pool: map<int, VM>, key: map<int, real>)
    requires key.Keys == pool.Keys
    ensures forall p :: p in Priorities(pool, key) ==> Priorities(pool, key)[p] in pool
  {
    hide StdMap.Traverse, PriorityMap.InsertAll;
    KeysListed(pool);
    var ids := StdMap.Traverse(pool.Keys);
    forall p | p in PriorityMap.InsertAll(ids, key)
      ensures PriorityMap.InsertAll(ids, key)[p] in pool
    {
      PriorityMap.HeldIsKeyed(ids, key, p);
    }
  }

  /** The queue text published for a pool and its priorities. */
  function QueueOf(pool: map<int, VM>, key: map<int, real>, text: real -> string): Result<string>
    requires key.Keys == pool.Keys
  {
    hide StdMap.TraverseDown, Priorities, Document, QueueEntries;
    var prios := Priorities(pool, key);
    HeldInPool(pool, key);
    KeysKnown(prios, pool);
    Document(QueueEntries(StdMap.TraverseDown(prios.Keys), prios, pool, text))
  }

  /** The published queue depends on the configuration and this cycle's inputs only. */
  ghost function PublishedQueue(config: Config, accounts: seq<Account>, input: CycleInput): Result<string>
    requires Supported(config, accounts, input)
  {
    QueueOf(PoolOf(input), KeysOf(config, accounts, input), config.text)
  }

  /** The published ids in order. */
  function PublishedIds(pool: map<int, VM>, key: map<int, real>): seq<int>
    requires key.Keys == pool.Keys
  {
    PriorityMap.Published(Priorities(pool, key))
  }

  // ----- what is published -----

  lemma TraversalAscending(pool: map<int, VM>)
    ensures StdMap.Ascending(StdMap.Traverse(pool.Keys))
    ensures forall oid :: oid in StdMap.Traverse(pool.Keys) <==> oid in pool
  {
  }

  /** Every published id is a pending VM of this cycle's snapshot, and the queue
      is strictly descending in rounded priority. */
  lemma PublishedComesFromSnapshot(input: CycleInput, key: map<int, real>)
    requires key.Keys == PoolOf(input).Keys
    ensures var q := PublishedIds(PoolOf(input), key);
            && (forall i :: 0 <= i < |q| ==>
                  q[i] in key && ShowsPending(input.pending, -1, q[i]))
            && (forall i, j :: 0 <= i < j < |q| ==> key[q[i]] > key[q[j]])
  {
    hide PriorityMap.Published, StdMap.Traverse, PriorityMap.InsertAll, PoolOf, ShowsPending;
    var pool := PoolOf(input);
    KeysListed(pool);
    var q := PublishedIds(pool, key);
    PriorityMap.QueueContents(StdMap.Traverse(pool.Keys), key);
    forall i | 0 <= i < |q|
      ensures q[i] in key && ShowsPending(input.pending, -1, q[i])
    {
      PooledIsPending(input);
    }
  }

  /** The pool of a cycle holds exactly the VMs its snapshot shows pending. */
  lemma PooledIsPending(input: CycleInput)
    ensures forall oid :: oid in PoolOf(input) <==> ShowsPending(input.pending, -1, oid)
  {
    hide Refreshed;
    PendingIsPooled(input.pending, -1);
  }

  /** Conservation: the published ids are the pending ids, each once, exactly when
      the rounded priorities are pairwise distinct. */
  lemma NothingDroppedIff(pool: map<int, VM>, key: map<int, real>)
    requires key.Keys == pool.Keys
    ensures multiset(PublishedIds(pool, key)) == multiset(StdMap.Traverse(pool.Keys))
       <==> forall u, v :: u in pool && v in pool && u != v ==> key[u] != key[v]
  {
    hide PriorityMap.Published, StdMap.Traverse, PriorityMap.InsertAll, PriorityMap.Injective, StdMap.Ascending;
    KeysListed(pool);
    TraversalAscending(pool);
    var ids := StdMap.Traverse(pool.Keys);
    PriorityMap.PermutationIffInjective(ids, key);
    InjectiveIff(ids, key);
  }

  /** Over a listing without repetition, keys that differ at different positions
      are keys that differ for different ids. */
  lemma InjectiveIff(ids: seq<int>, key: map<int, real>)
    requires StdMap.Ascending(ids) && PriorityMap.Keyed(ids, key) && forall u :: u in ids <==> u in key
    ensures PriorityMap.Injective(ids, key) <==> forall u, v :: u in key && v in key && u != v ==> key[u] != key[v]
  {
    if PriorityMap.Injective(ids, key) {
      forall u, v | u in key && v in key && u != v
        ensures key[u] != key[v]
      {
        var i :| 0 <= i < |ids| && ids[i] == u;
        var j :| 0 <= j < |ids| && ids[j] == v;
      }
    }
  }

  /** A failed fetch publishes the empty document. */
  lemma FailedFetchPublishesNothing(config: Config, accounts: seq<Account>, input: CycleInput)
    requires Supported(config, accounts, input) && !input.pending.Snapshot?
    ensures PublishedQueue(config, accounts, input) == Ok("<VM_POOL></VM_POOL>")
  {
    hide QueueOf, KeysOf;
    EmptyPoolEmptyDocument(PoolOf(input), KeysOf(config, accounts, input), config.text);
  }

  lemma EmptyPoolEmptyDocument(pool: map<int, VM>, key: map<int, real>, text: real -> string)
    requires key.Keys == pool.Keys && pool == map[]
    ensures QueueOf(pool, key, text) == Ok("<VM_POOL></VM_POOL>")
  {
    assert pool.Keys == {};
    var prios := Priorities(pool, key);
    assert prios.Keys == {};
    assert StdMap.TraverseDown(prios.Keys) == [];
    HeldInPool(pool, key);
    KeysKnown(prios, pool);
    assert QueueEntries([], prios, pool, text) == [];
    assert RenderAll([]) == Ok([]);
    assert HEADER + Concat([]) + FOOTER == "<VM_POOL></VM_POOL>";
  }

  /** The entries of a queue are those of the published VMs, in order. */
  lemma EntriesOfPublished(pool: map<int, VM>, key: map<int, real>, text: real -> string) returns (entries: seq<Entry>)
    requires key.Keys == pool.Keys
    ensures QueueOf(pool, key, text) == Document(entries)
    ensures |entries| == |PublishedIds(pool, key)|
    ensures forall i :: 0 <= i < |entries| ==>
      PublishedIds(pool, key)[i] in pool
      && entries[i] == Entry(pool[PublishedIds(pool, key)[i]].dump, text(key[PublishedIds(pool, key)[i]]))
  {
    hide StdMap.TraverseDown, StdMap.Traverse, PriorityMap.InsertAll, Document, QueueEntries;
    var prios := Priorities(pool, key);
    HeldInPool(pool, key);
    KeysKnown(prios, pool);
    KeysListed(pool);
    var keys, q := StdMap.TraverseDown(prios.Keys), PublishedIds(pool, key);
    entries := QueueEntries(keys, prios, pool, text);
    PriorityMap.SameLength(prios);
    forall i | 0 <= i < |q|
      ensures q[i] in pool && entries[i] == Entry(pool[q[i]].dump, text(key[q[i]]))
    {
      PriorityMap.PublishedAt(StdMap.Traverse(pool.Keys), key, i);
      QueueEntryAt(keys, prios, pool, text, i);
    }
  }

  /** A cycle throws, and with it the run ends, exactly when the dump of one of the
      VMs it would publish cannot be trimmed or edited. */
  lemma CycleThrowsIff(config: Config, accounts: seq<Account>, input: CycleInput)
    requires Supported(config, accounts, input)
    ensures PublishedQueue(config, accounts, input).OutOfRange?
       <==> exists i :: 0 <= i < |PublishedIds(PoolOf(input), KeysOf(config, accounts, input))|
              && PublishedIds(PoolOf(input), KeysOf(config, accounts, input))[i] in PoolOf(input)
              && Throwing(PoolOf(input)[PublishedIds(PoolOf(input), KeysOf(config, accounts, input))[i]].dump)
  {
    hide QueueOf, KeysOf, PublishedIds, Throwing, Document, PoolOf;
    var entries := EntriesOfPublished(PoolOf(input), KeysOf(config, accounts, input), config.text);
    DocumentThrowsIff(entries);
    var q := PublishedIds(PoolOf(input), KeysOf(config, accounts, input));
    if i :| 0 <= i < |entries| && Throwing(entries[i].dump) {
      assert q[i] in PoolOf(input) && Throwing(PoolOf(input)[q[i]].dump);
    }
    if i :| 0 <= i < |q| && q[i] in PoolOf(input) && Throwing(PoolOf(input)[q[i]].dump) {
      assert Throwing(entries[i].dump);
    }
  }

  /** End to end: if every pending VM can be rendered, the published document
      splits into the nodes of the published VMs, in queue order, and each node
      carries the text of its VM's rounded priority and is otherwise the node
      text of its VM's dump. */
  lemma PublishedDocumentRoundTrip(pool: map<int, VM>, key: map<int, real>, text: real -> string)
    requires key.Keys == pool.Keys
    requires forall oid :: oid in pool ==> Publishable(Entry(pool[oid].dump, text(key[oid])))
    ensures QueueOf(pool, key, text).Ok?
    ensures var q, nodes := PublishedIds(pool, key), ParseDocument(QueueOf(pool, key, text).value);
            && nodes.Some? && |nodes.value| == |q|
            && forall i :: 0 <= i < |q| ==>
                 && q[i] in pool
                 && Render(Entry(pool[q[i]].dump, text(key[q[i]]))) == Ok(nodes.value[i])
                 && ReadPriority(nodes.value[i]) == Some(text(key[q[i]]))
                 && CarriesOver(pool[q[i]].dump, text(key[q[i]]), nodes.value[i])
  {
    hide QueueOf, Document, ParseDocument, Render, ReadPriority, Publishable, PublishedIds, CarriesOver;
    var entries := EntriesOfPublished(pool, key, text);
    forall i | 0 <= i < |entries|
      ensures Publishable(entries[i])
    {
      var v := PublishedIds(pool, key)[i];
      assert v in pool;
      assert Publishable(Entry(pool[v].dump, text(key[v])));
    }
    QueueRoundTrip(entries);
  }
}
