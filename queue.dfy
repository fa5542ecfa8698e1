/** The Redis list "taskQueue". Index 0 is the head, where LPUSH writes; BRPOP
    takes the tail, so the list read from the tail is the arrival order. */
module Queue {
  import opened Jobs

  /** The jobs still waiting, oldest first: the list read from its tail. */
  function Pending(items: seq<Payload>): (r: seq<Payload>)
    ensures |r| == |items|
    ensures forall i :: 0 <= i < |items| ==> r[i] == items[|items| - 1 - i]
  {
    if items == [] then [] else Pending(items[1..]) + [items[0]]
  }

  /** Pushing at the head makes the new element the youngest pending one. */
  lemma PendingPush(items: seq<Payload>, p: Payload)
    ensures Pending([p] + items) == Pending(items) + [p]
  {
  }

  /** The tail is the oldest pending element; removing it leaves the rest in order. */
  lemma {:induction false} PendingPop(items: seq<Payload>)
    requires items != []
    ensures Pending(items) == [items[|items| - 1]] + Pending(items[..|items| - 1])
  {
    if |items| > 1 {
      var n := |items|;
      PendingPop(items[1..]);
      assert items[1..][..n - 2] == items[..n - 1][1..];
    }
  }

  class TaskQueue {
    var items: seq<Payload>

    constructor ()
      ensures items == []
    {
      items := [];
    }

    /** LPUSH: the payload becomes the head of the list and the youngest pending job. */
    method LPush(p: Payload)
      modifies this
      ensures items == [p] + old(items)
      ensures Pending(items) == Pending(old(items)) + [p]
    {
      PendingPush(items, p);
      items := [p] + items;
    }

    /** BRPOP with a timeout: an empty list yields nothing and stays empty;
        otherwise the tail, the oldest pending job, is removed and returned. */
    method BRPop() returns (r: Option<Payload>)
      modifies this
      ensures old(items) == [] ==> r == None && items == old(items)
      ensures old(items) != [] ==>
                r == Some(old(items)[|old(items)| - 1]) && items == old(items)[..|old(items)| - 1]
      ensures old(items) != [] ==>
                r == Some(Pending(old(items))[0]) && Pending(items) == Pending(old(items))[1..]
    {
      if items == [] {
        r := None;
      } else {
        PendingPop(items);
        r := Some(items[|items| - 1]);
        items := items[..|items| - 1];
      }
    }
  }
}
