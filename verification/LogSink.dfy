/** The log writer: a bounded queue, batches, and a count of what did not fit
    (logging/sink.go). Any goroutine may enqueue between the writer's steps. */
module LogSink {

  const QUEUE_SIZE := 10000
  const BATCH_SIZE := 500

  /** A row handed to the database: a logged row, or the writer's note of dropped ones. */
  datatype Line<R> = Logged(row: R) | Dropped(count: nat)

  function Logs<R>(lines: seq<Line<R>>): seq<R> {
    if lines == [] then []
    else
      var l := lines[|lines| - 1];
      Logs(lines[..|lines| - 1]) + if l.Logged? then [l.row] else []
  }

  function Drops<R>(lines: seq<Line<R>>): nat {
    if lines == [] then 0
    else
      var l := lines[|lines| - 1];
      Drops(lines[..|lines| - 1]) + if l.Dropped? then l.count else 0
  }

  function Flat<T>(batches: seq<seq<T>>): seq<T> {
    if batches == [] then [] else Flat(batches[..|batches| - 1]) + batches[|batches| - 1]
  }

  lemma {:induction false} Append<R>(a: seq<Line<R>>, b: seq<Line<R>>)
    ensures Logs(a + b) == Logs(a) + Logs(b) && Drops(a + b) == Drops(a) + Drops(b)
  {
    if b == [] {
      assert a + b == a;
    } else {
      var n := |b| - 1;
      Append(a, b[..n]);
      assert (a + b)[..|a| + n] == a + b[..n] && (a + b)[|a| + n] == b[n];
    }
  }

  lemma AppendOne<R>(a: seq<Line<R>>, l: Line<R>)
    ensures Logs(a + [l]) == Logs(a) + (if l.Logged? then [l.row] else [])
    ensures Drops(a + [l]) == Drops(a) + if l.Dropped? then l.count else 0
  {
    assert (a + [l])[..|a|] == a;
  }

  /** What has been handed to the database, the writer's batch, the queue and the counter
      together account for every row that was logged. */
  ghost predicate Accounts<R>(writes: seq<seq<Line<R>>>, batch: seq<Line<R>>, queue: seq<R>, dropped: nat,
                              accepted: seq<R>, refused: nat)
  {
    && Logs(Flat(writes)) + Logs(batch) + queue == accepted
    && Drops(Flat(writes)) + Drops(batch) + dropped == refused
  }

  /** The batch that a flush hands over, with the note of what was dropped. */
  function Flushed<R>(batch: seq<Line<R>>, dropped: nat): seq<Line<R>> {
    batch + if dropped > 0 then [Dropped(dropped)] else []
  }

  lemma FlushAccounts<R>(writes: seq<seq<Line<R>>>, batch: seq<Line<R>>, queue: seq<R>, dropped: nat, accepted: seq<R>, refused: nat)
    requires Accounts(writes, batch, queue, dropped, accepted, refused)
    ensures Accounts(writes + [Flushed(batch, dropped)], [], queue, 0, accepted, refused)
  {
    var b := Flushed(batch, dropped);
    assert (writes + [b])[..|writes|] == writes;
    Append(batch, if dropped > 0 then [Dropped(dropped)] else []);
    var note: Line<R> := Dropped(dropped);
    AppendOne([], note);
    assert [] + [note] == [note];
    Append(Flat(writes), b);
  }

  lemma TakeAccounts<R>(writes: seq<seq<Line<R>>>, batch: seq<Line<R>>, queue: seq<R>, dropped: nat, accepted: seq<R>, refused: nat)
    requires Accounts(writes, batch, queue, dropped, accepted, refused) && queue != []
    ensures Accounts(writes, batch + [Logged(queue[0])], queue[1..], dropped, accepted, refused)
  {
    AppendOne(batch, Logged(queue[0]));
    assert Logs(Flat(writes)) + (Logs(batch) + [queue[0]]) + queue[1..] == Logs(Flat(writes)) + Logs(batch) + queue;
  }

  /** Once nothing is pending the database has been handed every accepted row, in order, and
      told of every refused one. */
  lemma NothingPending<R>(writes: seq<seq<Line<R>>>, accepted: seq<R>, refused: nat)
    requires Accounts(writes, [], [], 0, accepted, refused)
    ensures Logs(Flat(writes)) == accepted && Drops(Flat(writes)) == refused
  {
  }

  class Sink<R> {
    var queue: seq<R>
    var dropped: nat
    var batch: seq<Line<R>>
    var writes: seq<seq<Line<R>>> // the batches handed to the database
    ghost var accepted: seq<R>
    ghost var refused: nat

    ghost predicate Valid()
      reads this
    {
      && Accounts(writes, batch, queue, dropped, accepted, refused)
      && |queue| <= QUEUE_SIZE && |batch| < BATCH_SIZE && (forall l :: l in batch ==> l.Logged?)
      && (forall b :: b in writes ==> 0 < |b| <= BATCH_SIZE + 1)
    }

    constructor ()
      ensures Valid() && accepted == [] && refused == 0 && writes == []
    {
      queue, dropped, batch, writes, accepted, refused := [], 0, [], [], [], 0;
    }

    /** A row is refused exactly when the queue is full, and then it is counted. */
    method Enqueue(r: R)
      requires Valid()
      modifies this`queue, this`dropped, this`accepted, this`refused
      ensures Valid()
      ensures if |old(queue)| < QUEUE_SIZE then accepted == old(accepted) + [r] && refused == old(refused)
              else accepted == old(accepted) && refused == old(refused) + 1
    {
      if |queue| < QUEUE_SIZE {
        queue := queue + [r];
        accepted := accepted + [r];
      } else {
        dropped := dropped + 1;
        refused := refused + 1;
      }
    }

    /** Adds the note of what was dropped, and hands the batch over unless it is empty. */
    method Flush()
      requires Accounts(writes, batch, queue, dropped, accepted, refused) && |queue| <= QUEUE_SIZE
      requires |batch| <= BATCH_SIZE && forall b :: b in writes ==> 0 < |b| <= BATCH_SIZE + 1
      modifies this`dropped, this`batch, this`writes
      ensures Valid() && batch == [] && dropped == 0
      ensures var b := Flushed(old(batch), old(dropped)); writes == old(writes) + if b == [] then [] else [b]
    {
      FlushAccounts(writes, batch, queue, dropped, accepted, refused);
      ghost var b := Flushed(batch, dropped);
      var n := dropped;
      dropped := 0;
      if n > 0 {
        batch := batch + [Dropped(n)];
      }
      assert batch == b;
      if |batch| == 0 {
        assert writes + [] == writes;
        return;
      }
      writes := writes + [batch];
      batch := [];
      assert Accounts(writes, batch, queue, dropped, accepted, refused);
    }

    /** The writer receives one row, which joins the batch; the batch is handed over, with the
        note of what was dropped, when that fills it and not before. */
    method TakeRow()
      requires Valid() && queue != []
      modifies this`queue, this`batch, this`writes, this`dropped
      ensures Valid() && [old(queue)[0]] + queue == old(queue)
      ensures var b := old(batch) + [Logged(old(queue)[0])];
              if |b| >= BATCH_SIZE
              then batch == [] && writes == old(writes) + [Flushed(b, old(dropped))] && dropped == 0
              else batch == b && writes == old(writes) && dropped == old(dropped)
    {
      TakeAccounts(writes, batch, queue, dropped, accepted, refused);
      batch := batch + [Logged(queue[0])];
      queue := queue[1..];
      if |batch| >= BATCH_SIZE {
        Flush();
      }
    }

    /** On cancellation everything queued is written before the writer stops. */
    method Drain()
      requires Valid()
      modifies this`queue, this`batch, this`writes, this`dropped
      ensures Valid() && queue == [] && batch == [] && dropped == 0
      ensures Logs(Flat(writes)) == accepted && Drops(Flat(writes)) == refused
    {
      while |queue| > 0
        invariant Valid()
        decreases |queue|
      {
        TakeRow();
      }
      Flush();
      NothingPending(writes, accepted, refused);
    }
  }
}
