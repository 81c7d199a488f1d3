/** The FIFO through which client threads talk to the encoder thread (av_wrapper/message_queue.h).
    Every method body runs under the queue's own mutex, so each is one atomic step. */
module MessageQueues {

  datatype Message<+Id, +Body> = Message(id: Id, body: Body)

  /** The messages that stay when every message of an id is pulled out. */
  function Without<Id(==), Body>(q: seq<Message<Id, Body>>, id: Id): seq<Message<Id, Body>> {
    if q == [] then []
    else (if q[0].id == id then [] else [q[0]]) + Without(q[1..], id)
  }

  /** The messages pulled out, in queue order. */
  function OfId<Id(==), Body>(q: seq<Message<Id, Body>>, id: Id): seq<Message<Id, Body>> {
    if q == [] then []
    else (if q[0].id == id then [q[0]] else []) + OfId(q[1..], id)
  }

  lemma FirstOf<Id, Body>(q: seq<Message<Id, Body>>, i: nat, id: Id)
    requires i < |q|
    ensures Without(q[i..], id) == (if q[i].id == id then [] else [q[i]]) + Without(q[i + 1..], id)
    ensures OfId(q[i..], id) == (if q[i].id == id then [q[i]] else []) + OfId(q[i + 1..], id)
  {
    assert q[i..] == [q[i]] + q[i + 1..];
  }

  /** One turn of the loop over the queue: erasing the message, or stepping past it, leaves what is kept and what is
      pulled as they were. */
  lemma TurnKeeps<Id, Body>(q: seq<Message<Id, Body>>, i: nat, id: Id, popped: seq<Message<Id, Body>>)
    requires i < |q|
    ensures var r := q[..i] + q[i + 1..];
            q[i].id == id ==>
              && r[..i] + Without(r[i..], id) == q[..i] + Without(q[i..], id)
              && popped + [q[i]] + OfId(r[i..], id) == popped + OfId(q[i..], id)
    ensures q[i].id != id ==>
              && q[..i + 1] + Without(q[i + 1..], id) == q[..i] + Without(q[i..], id)
              && popped + OfId(q[i + 1..], id) == popped + OfId(q[i..], id)
  {
    hide Without, OfId;
    FirstOf(q, i, id);
    if q[i].id == id {
      var r := q[..i] + q[i + 1..];
      assert r[i..] == q[i + 1..] && r[..i] == q[..i];
      assert Without(q[i..], id) == Without(q[i + 1..], id);
      assert popped + [q[i]] + OfId(r[i..], id) == popped + ([q[i]] + OfId(r[i..], id));
    } else {
      assert q[..i + 1] + Without(q[i + 1..], id) == q[..i] + ([q[i]] + Without(q[i + 1..], id));
      assert OfId(q[i..], id) == OfId(q[i + 1..], id);
    }
  }

  lemma NothingOf<Id, Body>(q: seq<Message<Id, Body>>, id: Id)
    requires q == []
    ensures Without(q, id) == [] && OfId(q, id) == []
  {
  }

  class MessageQueue<Id(==), Body> {
    var list: seq<Message<Id, Body>>

    constructor ()
      ensures list == []
    {
      list := [];
    }

    method Push(m: Message<Id, Body>)
      modifies this
      ensures list == old(list) + [m]
    {
      list := list + [m];
    }

    method PopFront() returns (m: Message<Id, Body>)
      requires list != []
      modifies this
      ensures old(list) == [m] + list
    {
      m := list[0];
      list := list[1..];
    }

    /** Erases while iterating: the index stays put after an erase. */
    method PopMessageOfId(id: Id, store: seq<Message<Id, Body>>) returns (popped: seq<Message<Id, Body>>)
      modifies this
      ensures list == Without(old(list), id)
      ensures popped == store + OfId(old(list), id)
    {
      popped := store;
      if list == [] {
        return;
      }
      hide Without, OfId;
      var it := 0;
      while it < |list|
        invariant 0 <= it <= |list|
        invariant list[..it] + Without(list[it..], id) == Without(old(list), id)
        invariant popped + OfId(list[it..], id) == store + OfId(old(list), id)
        decreases |list| - it
      {
        var m := list[it];
        TurnKeeps(list, it, id, popped);
        if m.id == id {
          list := list[..it] + list[it + 1..];
          popped := popped + [m];
        } else {
          it := it + 1;
        }
      }
      NothingOf(list[it..], id);
      assert list[..it] == list;
    }

    method Empty() returns (r: bool)
      ensures r <==> list == []
    {
      r := list == [];
    }
  }

  /** Pulling out an id loses and invents nothing: the two parts are a partition of the queue. */
  lemma {:induction false} PopPartitions<Id, Body>(q: seq<Message<Id, Body>>, id: Id)
    ensures multiset(q) == multiset(Without(q, id)) + multiset(OfId(q, id))
    ensures forall m | m in Without(q, id) :: m.id != id
    ensures forall m | m in OfId(q, id) :: m.id == id
  {
    if q != [] {
      PopPartitions(q[1..], id);
      assert q == [q[0]] + q[1..];
    }
  }

  /** The messages of part sit in q at these increasing positions. */
  predicate InOrder<Id(==), Body(==)>(q: seq<Message<Id, Body>>, part: seq<Message<Id, Body>>, at: seq<nat>) {
    && |at| == |part|
    && (forall i | 0 <= i < |at| :: at[i] < |q| && q[at[i]] == part[i])
    && (forall i, j | 0 <= i < j < |at| :: at[i] < at[j])
  }

  lemma NothingInOrder<Id, Body>(q: seq<Message<Id, Body>>)
    ensures InOrder(q, [], [])
  {
  }

  /** Positions in the rest of a queue, with or without its first message. */
  lemma OneFurther<Id, Body>(q: seq<Message<Id, Body>>, part: seq<Message<Id, Body>>, rest: seq<nat>, first: bool)
    returns (at: seq<nat>)
    requires q != [] && InOrder(q[1..], part, rest)
    ensures InOrder(q, (if first then [q[0]] else []) + part, at)
  {
    var moved := Raised(rest);
    if first {
      at := [0] + moved;
      forall i | 0 <= i < |at|
        ensures at[i] < |q| && q[at[i]] == ([q[0]] + part)[i]
      {
        assert i > 0 ==> at[i] == rest[i - 1] + 1;
      }
      assert forall i, j | 0 <= i < j < |at| :: at[i] < at[j];
    } else {
      at := moved;
      assert [] + part == part;
    }
  }

  function Raised(at: seq<nat>): (r: seq<nat>)
    ensures |r| == |at| && forall i :: 0 <= i < |at| ==> r[i] == at[i] + 1
  {
    seq(|at|, i requires 0 <= i < |at| => at[i] + 1)
  }

  /** The order of the messages that stay is the queue's own: they sit at increasing positions. */
  lemma {:induction false} WithoutKeepsOrder<Id, Body>(q: seq<Message<Id, Body>>, id: Id) returns (at: seq<nat>)
    ensures InOrder(q, Without(q, id), at)
  {
    hide InOrder;
    if q == [] {
      at := [];
      NothingInOrder(q);
    } else {
      at := WithoutKeepsOrder(q[1..], id);
      at := OneFurther(q, Without(q[1..], id), at, q[0].id != id);
    }
  }

  /** And so is the order of those pulled out. */
  lemma {:induction false} OfIdKeepsOrder<Id, Body>(q: seq<Message<Id, Body>>, id: Id) returns (at: seq<nat>)
    ensures InOrder(q, OfId(q, id), at)
  {
    hide InOrder;
    if q == [] {
      at := [];
      NothingInOrder(q);
    } else {
      at := OfIdKeepsOrder(q[1..], id);
      at := OneFurther(q, OfId(q[1..], id), at, q[0].id == id);
    }
  }
}
