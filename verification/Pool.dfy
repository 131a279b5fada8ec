/** Virtual machines and the pool that caches them (`VMObject`, `VMPool`). */
module Pool {
  import opened QueueDocument
  import opened StdString
  import opened Wrappers
  import StdMap

  /** The attributes read from a VM node, the document dump of the node, and the
      number of its child elements. */
  datatype VM = VM(oid: int, uid: int, gid: int, state: int, lcmState: int, resched: int,
                   start: int, birth: int, memory: int, cpu: real, staticVm: int,
                   dump: string, children: nat)

  /** The answer to `one.vmpool.info`. */
  datatype Fetch = Unreachable | Refused(message: string) | Snapshot(vms: seq<VM>)

  /** The XPath searches the daemon uses. */
  datatype Search = Running(uid: int) | Pending | PendingOf(uid: int)
  {
    predicate Selects(vm: VM) {
      match this
      case Running(u) => vm.state == 3 && vm.uid == u
      case Pending => IsPending(vm)
      case PendingOf(u) => IsPending(vm) && vm.uid == u
    }
  }

  predicate IsPending(vm: VM) {
    vm.state == 1 || ((vm.lcmState == 3 || vm.lcmState == 16) && vm.resched == 1)
  }

  /** Selected and well formed: such a node enters the pool. */
  predicate Enters(search: Search, vm: VM) {
    search.Selects(vm) && vm.children >= 2
  }

  /** The pool after inserting the selected nodes in document order. */
  function Gather(search: Search, vms: seq<VM>): (objects: map<int, VM>)
    ensures forall oid :: oid in objects ==> objects[oid] in vms && Enters(search, objects[oid]) && objects[oid].oid == oid
    ensures forall vm :: vm in vms && Enters(search, vm) ==> vm.oid in objects
  {
    if vms == [] then map[] else
      var front, last := Gather(search, vms[..|vms| - 1]), vms[|vms| - 1];
      assert forall vm :: vm in vms ==> vm in vms[..|vms| - 1] || vm == last;
      if Enters(search, last) then StdMap.Insert(front, last.oid, last) else front
  }

  /** What a refresh leaves in the pool: nothing if the fetch failed. */
  function Refreshed(search: Search, fetch: Fetch): map<int, VM> {
    if fetch.Snapshot? then Gather(search, fetch.vms) else map[]
  }

  // ----- what the searches select, attribute by attribute -----

  /** The answer shows an active VM of this user with this id. */
  ghost predicate ShowsActive(fetch: Fetch, uid: int, oid: int) {
    fetch.Snapshot?
    && exists vm :: vm in fetch.vms && vm.oid == oid && vm.state == 3 && vm.uid == uid && vm.children >= 2
  }

  /** The answer shows a VM with this id that waits to be placed or placed anew, of
      this user or, for -1, of anybody. */
  ghost predicate ShowsPending(fetch: Fetch, uid: int, oid: int) {
    fetch.Snapshot?
    && exists vm :: vm in fetch.vms && vm.oid == oid && vm.children >= 2 && (uid == -1 || vm.uid == uid)
         && (vm.state == 1 || (vm.resched == 1 && (vm.lcmState == 3 || vm.lcmState == 16)))
  }

  /** The search behind `get_pending(uid)`. */
  function PendingSearch(uid: int): Search {
    if uid == -1 then Pending else PendingOf(uid)
  }

  lemma ActiveIsPooled(fetch: Fetch, uid: int)
    ensures forall oid :: oid in Refreshed(Running(uid), fetch) <==> ShowsActive(fetch, uid, oid)
  {
    var pool := Refreshed(Running(uid), fetch);
    forall oid
      ensures oid in pool <==> ShowsActive(fetch, uid, oid)
    {
      if oid in pool {
        assert pool[oid] in fetch.vms;
      }
      if ShowsActive(fetch, uid, oid) {
        var vm :| vm in fetch.vms && vm.oid == oid && vm.state == 3 && vm.uid == uid && vm.children >= 2;
        assert Enters(Running(uid), vm);
      }
    }
  }

  lemma PendingIsPooled(fetch: Fetch, uid: int)
    ensures forall oid :: oid in Refreshed(PendingSearch(uid), fetch) <==> ShowsPending(fetch, uid, oid)
  {
    var pool := Refreshed(PendingSearch(uid), fetch);
    forall oid
      ensures oid in pool <==> ShowsPending(fetch, uid, oid)
    {
      if oid in pool {
        assert pool[oid] in fetch.vms;
      }
      if ShowsPending(fetch, uid, oid) {
        var vm :| vm in fetch.vms && vm.oid == oid && vm.children >= 2 && (uid == -1 || vm.uid == uid)
                  && (vm.state == 1 || (vm.resched == 1 && (vm.lcmState == 3 || vm.lcmState == 16)));
        assert Enters(PendingSearch(uid), vm);
      }
    }
  }

  ghost predicate DistinctIds(vms: seq<VM>) {
    forall i, j :: 0 <= i < j < |vms| ==> vms[i].oid != vms[j].oid
  }

  lemma IdDecides(vms: seq<VM>, u: VM, v: VM)
    requires DistinctIds(vms) && u in vms && v in vms && u.oid == v.oid
    ensures u == v
  {
  }

  class VMPool {
    var objects: map<int, VM>

    constructor ()
      ensures objects == map[]
    {
      objects := map[];
    }

    function Get(oid: int): Option<VM>
      reads this
    {
      if oid in objects then Some(objects[oid]) else None
    }

    method Flush()
      modifies this
      ensures objects == map[]
    {
      objects := map[];
    }

    method AddObject(vm: VM)
      modifies this
      ensures vm.children < 2 || vm.oid in old(objects) ==> objects == old(objects)
      ensures vm.children >= 2 && vm.oid !in old(objects) ==> objects == old(objects)[vm.oid := vm]
    {
      if vm.children < 2 {
        return;
      }
      objects := StdMap.Insert(objects, vm.oid, vm);
    }

    method SetUp(search: Search, fetch: Fetch) returns (rc: int)
      modifies this
      ensures rc == if fetch.Snapshot? then 0 else -1
      ensures objects == Refreshed(search, fetch)
    {
      Flush();
      if fetch.Unreachable? || fetch.Refused? {
        return -1;
      }
      for i := 0 to |fetch.vms|
        invariant objects == Gather(search, fetch.vms[..i])
      {
        assert fetch.vms[..i + 1][..i] == fetch.vms[..i];
        if search.Selects(fetch.vms[i]) {
          AddObject(fetch.vms[i]);
        }
      }
      assert fetch.vms[..|fetch.vms|] == fetch.vms;
      rc := 0;
    }

    /** `get_pending(uid)`; the user id -1 stands for everybody. */
    method GetPending(uid: int, fetch: Fetch) returns (rc: int)
      modifies this
      ensures rc == if fetch.Snapshot? then 0 else -1
      ensures objects == Refreshed(PendingSearch(uid), fetch)
      ensures forall oid :: oid in objects <==> ShowsPending(fetch, uid, oid)
    {
      hide Refreshed;
      PendingIsPooled(fetch, uid);
      if uid == -1 {
        rc := SetUp(Pending, fetch);
      } else {
        rc := SetUp(PendingOf(uid), fetch);
      }
    }

    method GetRunning(uid: int, fetch: Fetch) returns (rc: int)
      modifies this
      ensures rc == if fetch.Snapshot? then 0 else -1
      ensures objects == Refreshed(Running(uid), fetch)
      ensures forall oid :: oid in objects <==> ShowsActive(fetch, uid, oid)
    {
      hide Refreshed;
      ActiveIsPooled(fetch, uid);
      rc := SetUp(Running(uid), fetch);
    }

    /** The queue document: the nodes in descending priority order, each with its
        priority spliced in.  A failed edit throws. */
    method MakeQueue(prios: map<real, int>, text: real -> string) returns (r: Result<string>)
      requires forall p :: p in prios ==> prios[p] in objects
      ensures r == Document(QueueEntries(StdMap.TraverseDown(prios.Keys), prios, objects, text))
    {
      hide Render, QueueEntries, StdMap.TraverseDown, Document, Concat;
      KeysKnown(prios, objects);
      var keys := StdMap.TraverseDown(prios.Keys);
      ghost var entries := QueueEntries(keys, prios, objects, text);
      var oss := "<VM_POOL>";
      ghost var nodes: seq<string> := [];
      ConcatNone();
      for i := 0 to |keys|
        invariant |nodes| == i && forall j :: 0 <= j < i ==> Render(entries[j]) == Ok(nodes[j])
        invariant oss == HEADER + Concat(nodes)
      {
        QueueEntryAt(keys, prios, objects, text, i);
        var vm := Get(prios[keys[i]]).value;
        var node := RenderNode(vm, text(keys[i]));
        if node.OutOfRange? {
          DocumentThrows(entries, i);
          return OutOfRange;
        }
        ConcatAppend(nodes, node.value);
        oss := oss + node.value;
        nodes := nodes + [node.value];
      }
      oss := oss + "</VM_POOL>";
      DocumentOf(entries, nodes);
      r := Ok(oss);
    }

    /** One round of the loop: trim the dump, then edit the priority in. */
    static method RenderNode(vm: VM, prio: string) returns (r: Result<string>)
      ensures r == Render(Entry(vm.dump, prio))
    {
      var node := DumpNode(vm.dump);
      if node.OutOfRange? {
        return OutOfRange;
      }
      r := SplicePriority(node.value, prio);
    }

    /** The edit of one node: erase the old element, insert the new one. */
    static method SplicePriority(text: string, prio: string) returns (r: Result<string>)
      ensures r == Splice(text, prio)
    {
      var node := text;
      var prioNode := "<USER_PRIORITY>" + prio + "</USER_PRIORITY>";
      if Find(node, "USER_PRIORITY").Some? {
        var start := Find(node, "<USER_PRIORITY>");
        var end := Find(node, "</USER_PRIORITY>");
        if start.None? {
          return OutOfRange;
        }
        node := Erase(node, start.value, Offset(end, 16) - start.value).value;
        r := InsertAt(node, start.value, prioNode);
      } else {
        var pos := Find(node, "<USER_TEMPLATE>");
        r := InsertAt(node, Offset(pos, 15), prioNode);
      }
    }
  }

  /** The entries the loop renders, in the order of `keys`. */
  function QueueEntries(keys: seq<real>, prios: map<real, int>, objects: map<int, VM>, text: real -> string)
    : (entries: seq<Entry>)
    requires forall i :: 0 <= i < |keys| ==> keys[i] in prios && prios[keys[i]] in objects
    ensures |entries| == |keys|
  {
    if keys == [] then [] else
      [Entry(objects[prios[keys[0]]].dump, text(keys[0]))] + QueueEntries(keys[1..], prios, objects, text)
  }

  lemma {:induction false} QueueEntryAt(keys: seq<real>, prios: map<real, int>, objects: map<int, VM>,
                                        text: real -> string, i: nat)
    requires forall i :: 0 <= i < |keys| ==> keys[i] in prios && prios[keys[i]] in objects
    requires i < |keys|
    ensures QueueEntries(keys, prios, objects, text)[i] == Entry(objects[prios[keys[i]]].dump, text(keys[i]))
  {
    if i > 0 {
      QueueEntryAt(keys[1..], prios, objects, text, i - 1);
    }
  }

  lemma KeysKnown(prios: map<real, int>, objects: map<int, VM>)
    requires forall p :: p in prios ==> prios[p] in objects
    ensures var keys := StdMap.TraverseDown(prios.Keys);
            forall i :: 0 <= i < |keys| ==> keys[i] in prios && prios[keys[i]] in objects
  {
    hide StdMap.TraverseDown;
    var keys := StdMap.TraverseDown(prios.Keys);
    forall i | 0 <= i < |keys|
      ensures keys[i] in prios
    {
      assert keys[i] in keys;
    }
  }

  lemma ConcatNone()
    ensures Concat([]) == ""
  {
  }

  lemma DocumentThrows(entries: seq<Entry>, i: nat)
    requires i < |entries| && Render(entries[i]).OutOfRange?
    ensures Document(entries).OutOfRange?
  {
    hide RenderAll, Render;
    RenderAllThrowsIff(entries);
  }

  lemma DocumentOf(entries: seq<Entry>, nodes: seq<string>)
    requires |nodes| == |entries| && forall i :: 0 <= i < |entries| ==> Render(entries[i]) == Ok(nodes[i])
    ensures Document(entries) == Ok(HEADER + Concat(nodes) + FOOTER)
  {
    hide RenderAll, Render;
    RenderAllThrowsIff(entries);
    assert RenderAll(entries).value == nodes;
  }

  // ----- traversing a pool -----

  /** The ids a traversal lists are in the pool. */
  ghost predicate Listed(pool: map<int, VM>) {
    forall i :: 0 <= i < |StdMap.Traverse(pool.Keys)| ==> StdMap.Traverse(pool.Keys)[i] in pool
  }

  lemma KeysListed(pool: map<int, VM>)
    ensures Listed(pool)
  {
    hide StdMap.Traverse;
    forall i | 0 <= i < |StdMap.Traverse(pool.Keys)|
      ensures StdMap.Traverse(pool.Keys)[i] in pool
    {
      assert StdMap.Traverse(pool.Keys)[i] in StdMap.Traverse(pool.Keys);
    }
  }

  // ----- which VM a pool holds -----

  predicate IsFirstNode(search: Search, vms: seq<VM>, i: nat) {
    && i < |vms| && Enters(search, vms[i])
    && forall j :: 0 <= j < i && Enters(search, vms[j]) ==> vms[j].oid != vms[i].oid
  }

  /** Of several nodes with one id the first in the document stays. */
  lemma {:induction false} FirstNodeStays(search: Search, vms: seq<VM>, i: nat)
    requires IsFirstNode(search, vms, i)
    ensures vms[i].oid in Gather(search, vms) && Gather(search, vms)[vms[i].oid] == vms[i]
  {
    var front := vms[..|vms| - 1];
    if i < |front| {
      FirstNodeStays(search, front, i);
    } else {
      NotGathered(search, front, vms[i].oid);
    }
  }

  lemma {:induction false} NotGathered(search: Search, vms: seq<VM>, oid: int)
    requires forall j :: 0 <= j < |vms| && Enters(search, vms[j]) ==> vms[j].oid != oid
    ensures oid !in Gather(search, vms)
  {
    if vms != [] {
      NotGathered(search, vms[..|vms| - 1], oid);
    }
  }
}
