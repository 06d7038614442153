/** The sender's ring buffer, as the bounded first-in first-out queue it stands for. */
module MessageQueue {
  import opened Wire

  const QUEUE_CAPACITY := 256

  /** The `count` ring entries from `head` on, wrapping at the end of the array. */
  ghost function Window<T>(items: seq<T>, head: nat, count: nat): (window: seq<T>)
    requires |items| == QUEUE_CAPACITY && head < QUEUE_CAPACITY
    ensures |window| == count
    ensures forall i :: 0 <= i < count ==> window[i] == items[(head + i) % QUEUE_CAPACITY]
  {
    if count == 0 then []
    else Window(items, head, count - 1) + [items[(head + count - 1) % QUEUE_CAPACITY]]
  }

  /** Within one turn of the ring the entry after the window is not in it. */
  lemma {:induction false} TailOutside(head: nat, count: nat, i: nat)
    requires head < QUEUE_CAPACITY && i < count < QUEUE_CAPACITY
    ensures (head + i) % QUEUE_CAPACITY != (head + count) % QUEUE_CAPACITY
  {
    var a, b := head + i, head + count;
    assert a % QUEUE_CAPACITY == if a < QUEUE_CAPACITY then a else a - QUEUE_CAPACITY;
    assert b % QUEUE_CAPACITY == if b < QUEUE_CAPACITY then b else b - QUEUE_CAPACITY;
  }

  lemma {:induction false} WindowPushed<T>(items: seq<T>, head: nat, count: nat, x: T)
    requires |items| == QUEUE_CAPACITY && head < QUEUE_CAPACITY && count < QUEUE_CAPACITY
    ensures Window(items[(head + count) % QUEUE_CAPACITY := x], head, count + 1) == Window(items, head, count) + [x]
  {
    hide Window;
    var tail := (head + count) % QUEUE_CAPACITY;
    var before, later := Window(items, head, count), Window(items[tail := x], head, count + 1);
    forall i | 0 <= i < count
      ensures later[i] == before[i]
    {
      TailOutside(head, count, i);
    }
  }

  lemma {:induction false} WindowPopped<T>(items: seq<T>, head: nat, count: nat)
    requires |items| == QUEUE_CAPACITY && head < QUEUE_CAPACITY && 0 < count <= QUEUE_CAPACITY
    ensures Window(items, (head + 1) % QUEUE_CAPACITY, count - 1) == Window(items, head, count)[1..]
    ensures items[head] == Window(items, head, count)[0]
  {
    hide Window;
    var next := (head + 1) % QUEUE_CAPACITY;
    var before, later := Window(items, head, count), Window(items, next, count - 1);
    forall i | 0 <= i < count - 1
      ensures later[i] == before[i + 1]
    {
      assert (next + i) % QUEUE_CAPACITY == (head + (i + 1)) % QUEUE_CAPACITY;
    }
  }

  class MessageQueue<T(0)> {
    const items: array<T>
    var head: nat
    var count: nat

    ghost predicate Valid()
      reads this, items
    {
      items.Length == QUEUE_CAPACITY && head < QUEUE_CAPACITY && count <= QUEUE_CAPACITY
    }

    ghost function Contents(): (contents: seq<T>)
      requires Valid()
      reads this, items
      ensures |contents| == count
    {
      Window(items[..], head, count)
    }

    constructor ()
      ensures Valid() && fresh(items) && Contents() == []
    {
      items := new T[QUEUE_CAPACITY];
      head, count := 0, 0;
    }

    method Clear()
      requires Valid()
      modifies this
      ensures Valid() && Contents() == []
    {
      head := 0;
      count := 0;
    }

    /** Refuses exactly when 256 messages are waiting. */
    method Push(message: T) returns (accepted: bool)
      requires Valid()
      modifies this, items
      ensures Valid()
      ensures accepted == (|old(Contents())| < 256)
      ensures Contents() == if accepted then old(Contents()) + [message] else old(Contents())
    {
      accepted := true;
      if count == QUEUE_CAPACITY {
        accepted := false;
      } else {
        var tail := (head + count) % QUEUE_CAPACITY;
        ghost var before := items[..];
        WindowPushed(before, head, count, message);
        items[tail] := message;
        assert items[..] == before[tail := message];
        count := count + 1;
      }
    }

    /** What the wait ends with: the oldest message, or nothing. */
    method Pop() returns (message: Option<T>)
      requires Valid()
      modifies this
      ensures Valid()
      ensures message == if old(Contents()) == [] then None else Some(old(Contents())[0])
      ensures Contents() == if old(Contents()) == [] then [] else old(Contents())[1..]
    {
      if count == 0 {
        return None;
      }
      WindowPopped(items[..], head, count);
      message := Some(items[head]);
      head := (head + 1) % QUEUE_CAPACITY;
      count := count - 1;
    }
  }

  /** Any sequence of queue calls, over the bounded queue the ring refines. */
  datatype Call<T> = DoPush(message: T) | DoPop | DoClear

  /** `accepted` and `taken` are everything pushed and popped since the last clear. */
  datatype Fifo<T> = Fifo(contents: seq<T>, accepted: seq<T>, taken: seq<T>)

  function FifoStep<T>(q: Fifo<T>, call: Call<T>): Fifo<T> {
    match call
    case DoClear => Fifo([], [], [])
    case DoPush(x) =>
      if |q.contents| == QUEUE_CAPACITY then q
      else q.(contents := q.contents + [x], accepted := q.accepted + [x])
    case DoPop =>
      if q.contents == [] then q
      else q.(contents := q.contents[1..], taken := q.taken + [q.contents[0]])
  }

  function FifoRun<T>(calls: seq<Call<T>>): Fifo<T> {
    if calls == [] then Fifo([], [], [])
    else FifoStep(FifoRun(calls[..|calls| - 1]), calls[|calls| - 1])
  }

  /** Nothing is lost, duplicated or reordered between two clears. */
  lemma {:induction false} FifoConserves<T>(calls: seq<Call<T>>)
    ensures var q := FifoRun(calls);
      q.taken + q.contents == q.accepted && |q.contents| <= 256
  {
    if calls != [] {
      var before := FifoRun(calls[..|calls| - 1]);
      FifoConserves(calls[..|calls| - 1]);
      match calls[|calls| - 1] {
        case DoClear =>
        case DoPush(x) =>
          assert before.taken + (before.contents + [x]) == (before.taken + before.contents) + [x];
        case DoPop =>
          if before.contents != [] {
            assert before.contents == [before.contents[0]] + before.contents[1..];
          }
      }
    }
  }
}
