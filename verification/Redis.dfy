/** The Redis server and its client, one command at a time. Any command may fail, before or
    after it took effect. */
module Redis {
  import opened Common
  import opened RedisStore

  class Client {
    var db: Store
    ghost var faulted: bool   // some command has failed

    /** A connection to a server that may hold sessions already; faulted says whether a command
        on it has ever failed. */
    constructor (db: Store, ghost faulted: bool)
      ensures this.db == db && this.faulted == faulted
    {
      this.db := db;
      this.faulted := faulted;
    }

    method Do(cmd: Command) returns (res: Result, ghost fault: Fault, ghost order: seq<Key>)
      modifies this
      ensures (db, res) == Execute(old(db), cmd, fault, order)
      ensures ResultFits(cmd, res)
      ensures cmd.SMembers? ==> IsListing(order, Members(old(db), cmd.uid))
      ensures faulted == (old(faulted) || fault.Lost?)
    {
      var listing := [];
      if cmd.SMembers? { listing := Enumerate(Members(db, cmd.uid)); }
      var f: Fault := *;
      var next := Execute(db, cmd, f, listing);
      db := next.0;
      res := next.1;
      fault, order := f, listing;
      faulted := faulted || f.Lost?;
    }

    method Elapse(seconds: nat)
      modifies this`db
      ensures db == Later(old(db), seconds)
    {
      db := Later(db, seconds);
    }
  }

  method Enumerate(members: set<Key>) returns (keys: seq<Key>)
    ensures IsListing(keys, members)
  {
    keys := [];
    var left := members;
    while left != {}
      invariant left <= members && NoDuplicates(keys) && Elements(keys) == members - left
    {
      var k :| k in left;
      assert k !in Elements(keys);
      assert Elements(keys + [k]) == Elements(keys) + {k};
      keys := keys + [k];
      left := left - {k};
    }
  }
}
