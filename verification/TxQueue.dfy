// The payload queue in front of the stream peripheral: a write to a full queue
// is lost, so its depth has to cover the payload.
module TxQueue {
  import SlinkPlane

  datatype Op<T> = Push(word: T) | Pop

  datatype Queue<T> = Queue(items: seq<T>, taken: seq<T>)

  function Apply<T>(depth: nat, q: Queue<T>, op: Op<T>): Queue<T>
  {
    match op
    case Push(w) => if |q.items| < depth then q.(items := q.items + [w]) else q
    case Pop => if |q.items| > 0 then Queue(q.items[1..], q.taken + [q.items[0]]) else q
  }

  function Run<T>(depth: nat, q: Queue<T>, ops: seq<Op<T>>): Queue<T>
    decreases |ops|
  {
    if |ops| == 0 then q else Run(depth, Apply(depth, q, ops[0]), ops[1..])
  }

  function Pushed<T>(ops: seq<Op<T>>): seq<T>
  {
    if |ops| == 0 then [] else if ops[0].Push? then [ops[0].word] + Pushed(ops[1..]) else Pushed(ops[1..])
  }

  // Every word pushed has been taken, in order, or is still queued.
  predicate Lossless<T(==)>(depth: nat, ops: seq<Op<T>>)
  {
    var q := Run(depth, Queue([], []), ops);
    q.taken + q.items == Pushed(ops)
  }

  lemma {:induction false} RoomForAll<T>(depth: nat, q: Queue<T>, ops: seq<Op<T>>)
    requires |q.items| + |Pushed(ops)| <= depth
    ensures var r := Run(depth, q, ops);
            r.taken + r.items == q.taken + q.items + Pushed(ops)
    decreases |ops|
  {
    if |ops| > 0 {
      var r := Apply(depth, q, ops[0]);
      RoomForAll(depth, r, ops[1..]);
      if ops[0].Push? {
        assert r.taken + r.items + Pushed(ops[1..]) == q.taken + q.items + Pushed(ops);
      } else if |q.items| > 0 {
        assert r.taken + r.items == q.taken + q.items;
      }
    }
  }

  // A writer that never waits for the reader.
  function AllPushes<T>(w: T, n: nat): (ops: seq<Op<T>>)
    ensures |ops| == n && forall k :: 0 <= k < n ==> ops[k] == Push(w)
  {
    seq(n, _ => Push(w))
  }

  lemma {:induction false} PushesOverflow<T>(depth: nat, q: Queue<T>, w: T, n: nat)
    requires |q.items| <= depth
    ensures |Pushed(AllPushes(w, n))| == n
    ensures Run(depth, q, AllPushes(w, n)).taken == q.taken && |Run(depth, q, AllPushes(w, n)).items| <= depth
    decreases n
  {
    if n > 0 {
      PushesOverflow(depth, Apply(depth, q, Push(w)), w, n - 1);
      assert AllPushes(w, n)[1..] == AllPushes(w, n - 1);
    }
  }

  // A reader that goes on long enough.
  function AllPops<T>(n: nat): (ops: seq<Op<T>>)
    ensures |ops| == n && forall k :: 0 <= k < n ==> ops[k] == Pop
  {
    seq(n, _ => Pop)
  }

  lemma {:induction false} PopsDrain<T>(depth: nat, q: Queue<T>, n: nat)
    requires n >= |q.items|
    ensures Run(depth, q, AllPops(n)) == Queue([], q.taken + q.items)
    decreases n
  {
    if n > 0 {
      var q' := Apply(depth, q, Pop);
      PopsDrain(depth, q', n - 1);
      assert AllPops<T>(n)[1..] == AllPops(n - 1);
      assert q'.taken + q'.items == q.taken + q.items;
    } else {
      assert q.taken + q.items == q.taken;
    }
  }

  lemma {:induction false} RunConcat<T>(depth: nat, q: Queue<T>, a: seq<Op<T>>, b: seq<Op<T>>)
    ensures Run(depth, q, a + b) == Run(depth, Run(depth, q, a), b)
    decreases |a|
  {
    if |a| == 0 {
      assert a + b == b;
    } else {
      assert (a + b)[1..] == a[1..] + b;
      RunConcat(depth, Apply(depth, q, a[0]), a[1..], b);
    }
  }

  // With the depth for it, the reader gets the whole payload in order.
  lemma PayloadArrives<T>(depth: nat, ops: seq<Op<T>>, n: nat)
    requires depth >= |Pushed(ops)| && n >= |Pushed(ops)|
    ensures Run(depth, Queue([], []), ops + AllPops(n)) == Queue([], Pushed(ops))
  {
    var q := Run(depth, Queue([], []), ops);
    RoomForAll(depth, Queue([], []), ops);
    RunConcat(depth, Queue([], []), ops, AllPops(n));
    PopsDrain(depth, q, n);
  }

  // A queue keeps every word of the payload, under every interleaving of
  // writes and reads, exactly when it holds the whole payload.
  lemma DepthDecides<T(!new)>(w: T, adLen: nat, msgLen: nat, depth: nat)
    ensures var n := SlinkPlane.WordsFor(adLen) + SlinkPlane.WordsFor(msgLen);
            depth >= n <==> forall ops: seq<Op<T>> :: |Pushed(ops)| == n ==> Lossless(depth, ops)
  {
    var n := SlinkPlane.WordsFor(adLen) + SlinkPlane.WordsFor(msgLen);
    if depth >= n {
      forall ops: seq<Op<T>> | |Pushed(ops)| == n ensures Lossless(depth, ops) {
        RoomForAll(depth, Queue([], []), ops);
      }
    } else {
      PushesOverflow(depth, Queue([], []), w, n);
      assert !Lossless(depth, AllPushes(w, n));
    }
  }
}
