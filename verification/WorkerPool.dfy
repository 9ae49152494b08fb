/** What the fan-out and the sidecar build share: a fixed pool of workers fed
    one job at a time over an unbuffered channel. Jobs are positions in the
    list of names, so a name listed twice is two jobs. */
module WorkerPool {
  import opened Wrappers

  datatype Outcome = Built(sidecar: Option<string>) | BuildError(error: string)

  /** What a worker sends to the consumer about one job. */
  datatype Item = Item(job: nat, outcome: Outcome)

  datatype Failure = Failure(job: nat, error: string)

  /** `Nil` is success; the context's own error comes without job errors. */
  datatype RunResult = Nil | Joined(errs: seq<Failure>) | ContextError

  /** `Cancelling` lies between recording a first error and calling cancel. */
  datatype Phase = Idle | Running(job: nat) | Sending(item: Item) | Cancelling | Exited

  predicate Holds(p: Phase, job: nat) {
    (p.Running? && p.job == job) || (p.Sending? && p.item.job == job)
  }

  /** How many workers have the job in hand. */
  function Holding(ws: seq<Phase>, job: nat): nat {
    if ws == [] then 0
    else Holding(ws[..|ws| - 1], job) + if Holds(ws[|ws| - 1], job) then 1 else 0
  }

  lemma {:induction false} HoldingUpdate(ws: seq<Phase>, w: nat, p: Phase, job: nat)
    requires w < |ws|
    ensures Holding(ws[w := p], job) + (if Holds(ws[w], job) then 1 else 0)
      == Holding(ws, job) + if Holds(p, job) then 1 else 0
    decreases |ws|
  {
    var n := |ws| - 1;
    if w == n {
      assert ws[w := p][..n] == ws[..n];
    } else {
      assert ws[w := p][..n] == ws[..n][w := p];
      HoldingUpdate(ws[..n], w, p, job);
    }
  }

  lemma {:induction false} NobodyHolds(ws: seq<Phase>, job: nat)
    requires forall w :: 0 <= w < |ws| ==> !Holds(ws[w], job)
    ensures Holding(ws, job) == 0
    decreases |ws|
  {
    if ws != [] { NobodyHolds(ws[..|ws| - 1], job); }
  }

  lemma HolderCounts(ws: seq<Phase>, w: nat, job: nat)
    requires w < |ws| && Holds(ws[w], job)
    ensures Holding(ws, job) >= 1
    ensures forall v :: 0 <= v < |ws| && v != w && Holds(ws[v], job) ==> Holding(ws, job) >= 2
  {
    var rest := ws[w := Exited];
    HoldingUpdate(ws, w, Exited, job);
    forall v | 0 <= v < |ws| && v != w && Holds(ws[v], job) ensures Holding(rest, job) >= 1 {
      HoldingUpdate(rest, v, Exited, job);
    }
  }

  /** What a worker can still set off at most, counting three steps of the
      consumer for each item. */
  function StepsLeft(p: Phase): nat {
    match p
    case Exited => 0
    case Cancelling => 1
    case Idle => 2
    case Sending(_) => 6
    case Running(_) => 7
  }

  function TotalSteps(ws: seq<Phase>): nat {
    if ws == [] then 0 else TotalSteps(ws[..|ws| - 1]) + StepsLeft(ws[|ws| - 1])
  }

  lemma {:induction false} TotalUpdate(ws: seq<Phase>, w: nat, p: Phase)
    requires w < |ws|
    ensures TotalSteps(ws[w := p]) + StepsLeft(ws[w]) == TotalSteps(ws) + StepsLeft(p)
    decreases |ws|
  {
    var n := |ws| - 1;
    if w == n {
      assert ws[w := p][..n] == ws[..n];
    } else {
      assert ws[w := p][..n] == ws[..n][w := p];
      TotalUpdate(ws[..n], w, p);
    }
  }

  lemma {:induction false} IdlePool(ws: seq<Phase>)
    requires forall w :: 0 <= w < |ws| ==> ws[w] == Idle
    ensures TotalSteps(ws) == 2 * |ws|
  {
    if ws != [] { IdlePool(ws[..|ws| - 1]); }
  }

  /** Each of the first `n` jobs once and nothing else. */
  ghost predicate EachOnce(m: multiset<nat>, n: nat) {
    forall job: nat :: m[job] == if job < n then 1 else 0
  }

  lemma {:induction false} EachOnceSize(m: multiset<nat>, n: nat)
    requires EachOnce(m, n)
    ensures |m| == n
    decreases n
  {
    if n == 0 {
      assert forall job: nat :: job !in m;
      assert m == multiset{};
    } else {
      assert EachOnce(m - multiset{n - 1}, n - 1);
      EachOnceSize(m - multiset{n - 1}, n - 1);
      assert m[n - 1] == 1;
      assert m == m - multiset{n - 1} + multiset{n - 1};
    }
  }
}
