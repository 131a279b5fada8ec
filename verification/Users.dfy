/** A configured user and the usage figures recorded for it (`User.h`). */
module Users {
  import StdMap

  /** `struct Usage`. */
  datatype Usage = Usage(usage: int, startTime: int, stopTime: int)

  /** The value of a `User` at some moment. */
  datatype Account = Account(uid: int, gid: int, share: real, ttl: int,
                             cpu: map<int, Usage>, memory: map<int, Usage>)

  class User {
    var userID: int
    var groupID: int
    var share: real
    var ttl: int
    var cpuUsage: map<int, Usage>
    var memoryUsage: map<int, Usage>

    constructor (uid: int, gid: int, share: real, ttl: int)
      ensures View() == Account(uid, gid, share, ttl, map[], map[])
    {
      userID, groupID := uid, gid;
      this.share, this.ttl := share, ttl;
      cpuUsage, memoryUsage := map[], map[];
    }

    function View(): Account
      reads this
    {
      Account(userID, groupID, share, ttl, cpuUsage, memoryUsage)
    }

    /** Insert-only: an entry that is already there keeps its figure. */
    method SetCpuUsage(entry: int, usage: Usage)
      modifies this`cpuUsage
      ensures entry in old(cpuUsage) ==> cpuUsage == old(cpuUsage)
      ensures entry !in old(cpuUsage) ==> cpuUsage == old(cpuUsage)[entry := usage]
    {
      cpuUsage := StdMap.Insert(cpuUsage, entry, usage);
    }

    method SetMemoryUsage(entry: int, usage: Usage)
      modifies this`memoryUsage
      ensures entry in old(memoryUsage) ==> memoryUsage == old(memoryUsage)
      ensures entry !in old(memoryUsage) ==> memoryUsage == old(memoryUsage)[entry := usage]
    {
      memoryUsage := StdMap.Insert(memoryUsage, entry, usage);
    }

    method FlushUsage()
      modifies this`cpuUsage, this`memoryUsage
      ensures cpuUsage == map[] && memoryUsage == map[]
    {
      cpuUsage, memoryUsage := map[], map[];
    }
  }

  /** The accounts of a list of users, in list order. */
  function Views(users: seq<User>): (r: seq<Account>)
    reads users
    ensures |r| == |users|
    ensures forall i :: 0 <= i < |users| ==> r[i] == users[i].View()
  {
    if users == [] then [] else [users[0].View()] + Views(users[1..])
  }
}
