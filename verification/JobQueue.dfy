/**
 * The daemon's linked list of jobs, as the critical sections of enqueue and
 * dequeue leave it. Both run under one mutex, so every interleaving of the
 * threads is some sequence of these calls.
 */
module JobQueue {
  import opened Paths

  // ----- what the listener makes of a message -----

  datatype Message = Ignored | Terminate | Path(path: string)

  /** strncmp with the nine letters of the command. */
  predicate IsTerminate(msg: string) {
    "terminate" <= msg
  }

  /** The text before the first newline. */
  function Line(msg: string): (line: string)
    ensures line <= msg && forall i :: 0 <= i < |line| ==> line[i] != '\n'
    ensures line == msg || msg[|line|] == '\n'
  {
    if msg == [] || msg[0] == '\n' then [] else [msg[0]] + Line(msg[1..])
  }

  function Receive(msg: string): Message {
    if msg == [] then Ignored
    else if IsTerminate(msg) then Terminate
    else Path(CutPath(Line(msg)))
  }

  /** The first line of a message has n letters. */
  predicate FirstLine(msg: string, n: nat) {
    n <= |msg| && (forall i :: 0 <= i < n ==> msg[i] != '\n') && (n == |msg| || msg[n] == '\n')
  }

  /**
   * An empty message is passed over, one that begins with the nine letters
   * shuts down whatever follows them, any other is a path: its first line, cut
   * to the buffer.
   */
  lemma ReceiveExactly(msg: string)
    ensures Receive(msg) == Ignored <==> msg == []
    ensures Receive(msg) == Terminate <==> |msg| >= 9 && msg[..9] == "terminate"
    ensures exists n: nat :: FirstLine(msg, n)
    ensures forall n: nat :: FirstLine(msg, n) && Receive(msg).Path? ==>
              Receive(msg).path == msg[..if n < 4096 then n else 4095]
  {
    var line := Line(msg);
    assert forall i :: 0 <= i < |line| ==> line[i] == msg[i];
    assert FirstLine(msg, |line|);
    assert forall n: nat :: FirstLine(msg, n) ==> n == |line|;
    assert CutPath(line) == msg[..if |line| < 4096 then |line| else 4095];
  }

  /** The line that bbviewd wait sends is the command, newline and all. */
  lemma WaitTerminates()
    ensures Receive("terminate\n") == Terminate
  {
    ReceiveExactly("terminate\n");
    assert "terminate\n"[..9] == "terminate";
  }

  /** A name is queued as it was sent exactly when it is one short line that is not the command. */
  lemma NameArrivesExactly(name: string)
    requires name != []
    ensures Receive(name) == Path(name) <==>
            !(|name| >= 9 && name[..9] == "terminate") && '\n' !in name && |name| < 4096
  {
    if Receive(name) == Path(name) {
      assert |name| <= |Line(name)|;
      assert Line(name) == name;
    }
  }

  class Job {
    var src: string
    var next: Job?

    constructor (path: string)
      ensures src == path && next == null
    {
      src, next := path, null;
    }
  }

  class Queue {
    var head: Job?
    var tail: Job?
    ghost var nodes: seq<Job>         // the jobs reachable from head, in order
    ghost var enqueued: seq<string>   // every path ever accepted
    ghost var dequeued: seq<string>   // every path ever handed out

    ghost function Contents(): (paths: seq<string>)
      reads this, nodes
      ensures |paths| == |nodes|
    {
      seq(|nodes|, i requires 0 <= i < |nodes| reads this, nodes => nodes[i].src)
    }

    ghost predicate Linked()
      reads this, nodes
    {
      && (head == null <==> nodes == [])
      && (tail == null <==> nodes == [])
      && (nodes != [] ==> head == nodes[0] && tail == nodes[|nodes| - 1] && tail.next == null)
      && (forall i :: 0 < i < |nodes| ==> nodes[i - 1].next == nodes[i])
      && (forall i, j :: 0 <= i < j < |nodes| ==> nodes[i] != nodes[j])
    }

    /** The list is well linked, and what went in is what came out followed by what is there. */
    ghost predicate Valid()
      reads this, nodes
    {
      Linked() && enqueued == dequeued + Contents()
    }

    constructor ()
      ensures Valid() && enqueued == [] && dequeued == [] && nodes == []
    {
      head, tail := null, null;
      nodes, enqueued, dequeued := [], [], [];
    }

    method Enqueue(path: string)
      requires Valid()
      modifies this, nodes
      ensures Valid() && nodes != [] && nodes == old(nodes) + [nodes[|nodes| - 1]] && fresh(nodes[|nodes| - 1])
      ensures Contents() == old(Contents()) + [CutPath(path)]
      ensures enqueued == old(enqueued) + [CutPath(path)] && dequeued == old(dequeued)
    {
      ghost var before := Contents();
      var j := new Job(CutPath(path));
      if tail == null {
        head, tail := j, j;
      } else {
        tail.next := j;
        tail := j;
      }
      nodes := nodes + [j];
      enqueued := enqueued + [j.src];
      assert Contents() == before + [j.src];
    }

    /** Takes the first job, or reports that there is none. */
    method Dequeue() returns (taken: bool, out: string)
      requires Valid()
      modifies this
      ensures Valid() && enqueued == old(enqueued)
      ensures taken <==> old(Contents()) != []
      ensures taken ==> [out] + Contents() == old(Contents()) && dequeued == old(dequeued) + [out]
      ensures !taken ==> Contents() == [] && dequeued == old(dequeued)
      ensures nodes == if taken then old(nodes)[1..] else old(nodes)
    {
      taken, out := false, "";
      if head != null {
        ghost var before := Contents();
        var j := head;
        assert |nodes| > 1 ==> nodes[1 - 1].next == nodes[1];
        head := j.next;
        if head == null {
          tail := null;
        }
        nodes := nodes[1..];
        taken, out := true, j.src;
        dequeued := dequeued + [out];
        assert Contents() == before[1..];
      }
    }
  }

  datatype Op = Put(path: string) | Take

  /** What a run of calls hands out, against a plain sequence. */
  function Served(queue: seq<string>, ops: seq<Op>): seq<string>
    decreases |ops|
  {
    if ops == [] then []
    else match ops[0]
      case Put(path) => Served(queue + [CutPath(path)], ops[1..])
      case Take => if queue == [] then Served(queue, ops[1..]) else [queue[0]] + Served(queue[1..], ops[1..])
  }

  /** What a run of calls puts into the queue. */
  function Puts(ops: seq<Op>): seq<string> {
    if ops == [] then [] else (if ops[0].Put? then [CutPath(ops[0].path)] else []) + Puts(ops[1..])
  }

  /** Of all the paths there were or were put, in order, the run has handed out the first; one more call may bring the next. */
  ghost predicate ServesNext(queue: seq<string>, ops: seq<Op>, op: Op) {
    var all, out := queue + Puts(ops), Served(queue, ops);
    out <= all && Served(queue, ops + [op]) == if op.Take? && |out| < |all| then out + [all[|out|]] else out
  }

  lemma OneMoreTail(ops: seq<Op>, op: Op)
    requires ops != []
    ensures (ops + [op])[0] == ops[0] && (ops + [op])[1..] == ops[1..] + [op]
  {
  }

  lemma PutsFirst(queue: seq<string>, ops: seq<Op>)
    requires ops != [] && ops[0].Put?
    ensures queue + Puts(ops) == queue + [CutPath(ops[0].path)] + Puts(ops[1..])
    ensures Served(queue, ops) == Served(queue + [CutPath(ops[0].path)], ops[1..])
  {
  }

  lemma NextAfterPut(queue: seq<string>, ops: seq<Op>, op: Op)
    requires ops != [] && ops[0].Put? && ServesNext(queue + [CutPath(ops[0].path)], ops[1..], op)
    ensures ServesNext(queue, ops, op)
  {
    OneMoreTail(ops, op);
    PutsFirst(queue, ops);
  }

  /** Behind the first of the queue come the others, and what is put. */
  lemma NextInQueue(queue: seq<string>, puts: seq<string>, out: seq<string>)
    requires queue != [] && out <= queue[1..] + puts
    ensures [queue[0]] + out <= queue + puts
    ensures |out| < |queue[1..] + puts| <==> |[queue[0]] + out| < |queue + puts|
    ensures |out| < |queue[1..] + puts| ==>
              [queue[0]] + (out + [(queue[1..] + puts)[|out|]]) == [queue[0]] + out + [(queue + puts)[|[queue[0]] + out|]]
  {
    assert queue + puts == [queue[0]] + (queue[1..] + puts);
  }

  lemma NextAfterTake(queue: seq<string>, ops: seq<Op>, op: Op)
    requires ops != [] && ops[0].Take? && ServesNext(if queue == [] then queue else queue[1..], ops[1..], op)
    ensures ServesNext(queue, ops, op)
  {
    OneMoreTail(ops, op);
    assert Puts(ops) == Puts(ops[1..]);
    if queue != [] {
      NextInQueue(queue, Puts(ops), Served(queue[1..], ops[1..]));
    }
  }

  lemma NextAlone(queue: seq<string>, op: Op)
    ensures ServesNext(queue, [], op)
  {
    assert [] + [op] == [op] && [op][1..] == [];
  }

  /**
   * One more call: a put hands out nothing, and a take hands out the next of
   * all the paths that were there or were put, if not all of them are out.
   */
  lemma {:induction false} ServedOneMore(queue: seq<string>, ops: seq<Op>, op: Op)
    ensures var all, out := queue + Puts(ops), Served(queue, ops);
            && out <= all
            && Served(queue, ops + [op]) == if op.Take? && |out| < |all| then out + [all[|out|]] else out
    decreases |ops|
  {
    if ops == [] {
      NextAlone(queue, op);
    } else if ops[0].Put? {
      ServedOneMore(queue + [CutPath(ops[0].path)], ops[1..], op);
      NextAfterPut(queue, ops, op);
    } else {
      ServedOneMore(if queue == [] then queue else queue[1..], ops[1..], op);
      NextAfterTake(queue, ops, op);
    }
  }

  method ServeOne(q: Queue, op: Op, ghost rest: seq<Op>) returns (out: seq<string>)
    requires q.Valid()
    modifies q, q.nodes
    ensures q.Valid() && q.dequeued == old(q.dequeued) + out && q.enqueued == old(q.enqueued) + Puts([op])
    ensures forall k :: 0 <= k < |q.nodes| ==> q.nodes[k] in old(q.nodes) || fresh(q.nodes[k])
    ensures Served(old(q.Contents()), [op] + rest) == out + Served(q.Contents(), rest)
  {
    out := [];
    ghost var before := q.Contents();
    assert ([op] + rest)[1..] == rest && [op][1..] == [];
    match op
    case Put(path) =>
      q.Enqueue(path);
    case Take =>
      var taken, path := q.Dequeue();
      if taken {
        assert q.Contents() == before[1..] && path == before[0];
        out := [path];
      }
  }

  lemma {:induction false} PutsSplit(a: seq<Op>, b: seq<Op>)
    ensures Puts(a + b) == Puts(a) + Puts(b)
  {
    if a == [] {
      assert a + b == b;
    } else {
      assert (a + b)[1..] == a[1..] + b;
      PutsSplit(a[1..], b);
    }
  }

  lemma PutsNext(before: seq<string>, ops: seq<Op>, i: nat)
    requires i < |ops|
    ensures before + Puts(ops[..i]) + Puts([ops[i]]) == before + Puts(ops[..i + 1])
  {
    assert ops[..i + 1] == ops[..i] + [ops[i]];
    PutsSplit(ops[..i], [ops[i]]);
  }

  /**
   * Any interleaving of calls on the linked list serves what the plain
   * sequence serves, and takes in each path that was put, cut to the buffer.
   */
  method Serve(q: Queue, ops: seq<Op>) returns (out: seq<string>)
    requires q.Valid()
    modifies q, q.nodes
    ensures q.Valid()
    ensures out == Served(old(q.Contents()), ops)
    ensures q.dequeued == old(q.dequeued) + out && q.enqueued == old(q.enqueued) + Puts(ops)
  {
    out := [];
    for i := 0 to |ops|
      invariant q.Valid()
      invariant forall k :: 0 <= k < |q.nodes| ==> q.nodes[k] in old(q.nodes) || fresh(q.nodes[k])
      invariant Served(old(q.Contents()), ops) == out + Served(q.Contents(), ops[i..])
      invariant q.dequeued == old(q.dequeued) + out && q.enqueued == old(q.enqueued) + Puts(ops[..i])
    {
      PutsNext(old(q.enqueued), ops, i);
      assert ops[i..] == [ops[i]] + ops[i + 1..];
      var part := ServeOne(q, ops[i], ops[i + 1..]);
      out := out + part;
    }
    assert ops[..|ops|] == ops;
  }
}
