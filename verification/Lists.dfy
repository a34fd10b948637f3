/** The array lists that the programs share between threads. */
module Lists {
  import opened Text

  const ADD_SIZE := 5

  function Without<T>(s: seq<T>, idx: int): seq<T> {
    if 0 <= idx < |s| then s[..idx] + s[idx + 1..] else s
  }

  /** A list that grows by ADD_SIZE: the server list of HW4, and the client list and the
      name list of the chat server, which have the same code. */
  class GrowingList<T(0)> {
    var items: array<T>
    var size: nat
    var occupied: nat

    ghost predicate Valid()
      reads this
    {
      size == items.Length && occupied <= size
    }

    ghost function Contents(): seq<T>
      reads this, items
      requires Valid()
    {
      items[..occupied]
    }

    constructor ()
      ensures Valid() && fresh(items) && Contents() == [] && size == 5
    {
      items := new T[ADD_SIZE];
      size, occupied := ADD_SIZE, 0;
    }

    method Add(item: T)
      requires Valid()
      modifies this, items
      ensures Valid() && (items == old(items) || fresh(items))
      ensures Contents() == old(Contents()) + [item]
      ensures size == if old(occupied) == old(size) then old(size) + 5 else old(size)
    {
      if size == occupied {
        var grown := new T[ADD_SIZE + size];
        forall i | 0 <= i < occupied { grown[i] := items[i]; }
        items, size := grown, ADD_SIZE + size;
      }
      items[occupied] := item;
      occupied := occupied + 1;
    }

    method Get(idx: nat) returns (item: Option<T>)
      requires Valid()
      ensures item == if idx < |Contents()| then Some(Contents()[idx]) else None
    {
      if idx >= occupied { return None; }
      item := Some(items[idx]);
    }

    /** Shifts the later items one place to the left. */
    method Remove(idx: int)
      requires Valid()
      modifies this`occupied, items
      ensures Valid() && Contents() == Without(old(Contents()), idx)
    {
      if idx < 0 || idx >= occupied { return; }
      ghost var before := Contents();
      var t := idx;
      while t < occupied - 1
        invariant idx <= t <= occupied - 1 && occupied == old(occupied)
        invariant items[..t] == before[..idx] + before[idx + 1..t + 1]
        invariant forall i :: t <= i < occupied ==> items[i] == before[i]
      {
        assert items[t + 1] == before[t + 1];
        items[t] := items[t + 1];
        assert items[..t + 1] == items[..t] + [before[t + 1]];
        t := t + 1;
      }
      occupied := occupied - 1;
    }

    method Pop(idx: int) returns (item: Option<T>)
      requires Valid()
      modifies this`occupied, items
      ensures Valid() && Contents() == Without(old(Contents()), idx)
      ensures item == if 0 <= idx < old(occupied) then Some(old(Contents())[idx]) else None
    {
      if idx < 0 || idx >= occupied { return None; }
      item := Get(idx);
      Remove(idx);
    }
  }

  datatype Job = Job(id: nat, fileName: string, start: int, end: int)

  /** The job stack: its array never grows, and AddJobItem does not test for room. */
  class JobList {
    var jobs: array<Job>
    var size: nat
    var occupied: nat

    ghost predicate Valid()
      reads this
    {
      size == jobs.Length && occupied <= size
    }

    ghost function Contents(): seq<Job>
      reads this, jobs
      requires Valid()
    {
      jobs[..occupied]
    }

    constructor (jobSize: nat)
      ensures Valid() && fresh(jobs) && Contents() == [] && size == jobSize
    {
      jobs := new Job[jobSize](_ => Job(0, "", 0, 0));
      size, occupied := jobSize, 0;
    }

    method AddJobItem(item: Job)
      requires Valid() && occupied < size
      modifies this`occupied, jobs
      ensures Valid() && Contents() == old(Contents()) + [item]
    {
      jobs[occupied] := item;
      occupied := occupied + 1;
    }

    method RemoveJobItem(idx: int)
      requires Valid()
      modifies this`occupied, jobs
      ensures Valid() && Contents() == Without(old(Contents()), idx)
    {
      if idx < 0 || idx >= occupied { return; }
      ghost var before := Contents();
      var t := idx;
      while t < occupied - 1
        invariant idx <= t <= occupied - 1 && occupied == old(occupied)
        invariant jobs[..t] == before[..idx] + before[idx + 1..t + 1]
        invariant forall i :: t <= i < occupied ==> jobs[i] == before[i]
      {
        assert jobs[t + 1] == before[t + 1];
        jobs[t] := jobs[t + 1];
        assert jobs[..t + 1] == jobs[..t] + [before[t + 1]];
        t := t + 1;
      }
      occupied := occupied - 1;
    }

    method PopJobItem() returns (item: Option<Job>)
      requires Valid()
      modifies this`occupied, jobs
      ensures Valid()
      ensures old(Contents()) == [] ==> item == None && Contents() == []
      ensures old(Contents()) != [] ==> item.Some? && old(Contents()) == Contents() + [item.value]
    {
      if occupied == 0 { return None; }
      item := Some(jobs[occupied - 1]);
      RemoveJobItem(occupied - 1);
    }
  }
}
