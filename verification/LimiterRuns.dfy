/** Runs of a rate limiter: requests of clients, and clean-ups, at given times. */
module LimiterRuns {

  datatype Op = Ask(key: string, now: real) | Clean(now: real)

  ghost predicate InOrder(ops: seq<Op>) {
    forall i, j :: 0 <= i <= j < |ops| ==> ops[i].now <= ops[j].now
  }

  /** The prefix of a run in time order is one, and lies before its last operation. */
  lemma Earlier(ops: seq<Op>)
    requires InOrder(ops) && ops != []
    ensures InOrder(ops[..|ops| - 1]) && ops[|ops| - 1] in ops
    ensures forall op :: op in ops[..|ops| - 1] ==> op.now <= ops[|ops| - 1].now
  {
  }

  lemma AppendInOrder(ops: seq<Op>, op: Op)
    requires InOrder(ops) && forall x :: x in ops ==> x.now <= op.now
    ensures InOrder(ops + [op]) && forall x :: x in ops + [op] ==> x.now <= op.now
  {
  }

  /** The asks of a run, without its clean-ups. */
  function Asks(ops: seq<Op>): seq<Op> {
    if ops == [] then []
    else Asks(ops[..|ops| - 1]) + (if ops[|ops| - 1].Ask? then [ops[|ops| - 1]] else [])
  }

  lemma NoAsks()
    ensures Asks([]) == []
  {
  }

  lemma AsksSnoc(ops: seq<Op>, op: Op)
    ensures Asks(ops + [op]) == if op.Ask? then Asks(ops) + [op] else Asks(ops)
  {
    assert (ops + [op])[..|ops|] == ops;
  }

  lemma {:induction false} AsksInOrder(ops: seq<Op>)
    requires InOrder(ops)
    ensures InOrder(Asks(ops)) && forall op :: op in Asks(ops) ==> op in ops
  {
    if ops != [] {
      Earlier(ops);
      AsksInOrder(ops[..|ops| - 1]);
    }
  }
}
