/** The workers of src/natsune/executor.py over their work-stealing deques, one
    locked deque operation per step, in any schedule. */
module Executor {
  import opened Options
  import opened Deque

  // A connected pair, numbered in order of creation.
  type Task = nat

  /* A worker between pops, looking for work to steal after its own deque was
     empty, executing a pair, or dead of an exception in the middle of one. */
  datatype Worker = Idle | Searching | Holding(task: Task) | Raised(task: Task)

  datatype Pool = Pool(
    queues: seq<seq<Task>>, workers: seq<Worker>, executed: seq<Task>, next: Task,
    ended: bool, capacity: nat, reserve: nat)

  datatype Move =
    | Pop(worker: nat)
    | Steal(worker: nat, victim: nat)
    | GiveUp(worker: nat)
    | Push(worker: nat)
    | Raise(worker: nat)
    | Report(worker: nat)
    | Complete(worker: nat)
    | End
    | Drop(worker: nat)

  predicate Shaped(p: Pool) {
    |p.queues| == |p.workers| && 1 <= p.reserve <= p.capacity
  }

  predicate Enabled(p: Pool, move: Move)
    requires Shaped(p)
  {
    match move
    case Pop(w) => w < |p.workers| && p.workers[w].Idle?
    case Steal(w, v) => w < |p.workers| && p.workers[w].Searching? && v < |p.workers| && v != w
    case GiveUp(w) => w < |p.workers| && p.workers[w].Searching?
    // An interaction may connect any number of pairs while they fit.
    case Push(w) => w < |p.workers| && p.workers[w].Holding? && |p.queues[w]| < p.capacity
    // The assertion of a push that does not fit, or any other exception.
    case Raise(w) => w < |p.workers| && p.workers[w].Holding?
    // The callback on the worker's future sets the event.
    case Report(w) => w < |p.workers| && p.workers[w].Raised?
    case Complete(w) => w < |p.workers| && p.workers[w].Holding?
    case End => true
    // process_pair returns without executing once the event is set.
    case Drop(w) => w < |p.workers| && p.workers[w].Holding? && p.ended
  }

  function Step(p: Pool, move: Move): (p': Pool)
    requires Shaped(p) && Enabled(p, move)
    ensures Shaped(p')
  {
    match move
    case Pop(w) =>
      var (r, q) := PopSpec(p.queues[w], p.capacity, p.reserve);
      p.(queues := p.queues[w := q],
         workers := p.workers[w := match r
                                   case Empty => Searching
                                   case NoRoom => Idle
                                   case Task(t) => Holding(t)])
    case Steal(w, v) =>
      var (r, q) := StealSpec(p.queues[v]);
      p.(queues := p.queues[v := q],
         workers := if r.Some? then p.workers[w := Holding(r.value)] else p.workers)
    case GiveUp(w) => p.(workers := p.workers[w := Idle])
    case Push(w) => p.(queues := p.queues[w := p.queues[w] + [p.next]], next := p.next + 1)
    case Raise(w) => p.(workers := p.workers[w := Raised(p.workers[w].task)])
    case Report(w) => p.(ended := true)
    case Complete(w) => p.(workers := p.workers[w := Idle], executed := p.executed + [p.workers[w].task])
    case End => p.(ended := true)
    case Drop(w) => p.(workers := p.workers[w := Idle])
  }

  /** What a step does to the deques, from which end: pops and pushes at the worker's
      own right end, steals at another's left, and nothing else touches one. */
  lemma StepUsesEnds(p: Pool, move: Move)
    requires Shaped(p) && Enabled(p, move)
    ensures var p' := Step(p, move);
            match move
            case Pop(w) =>
              && (forall v :: 0 <= v < |p.queues| && v != w ==> p'.queues[v] == p.queues[v])
              && if p'.workers[w].Holding? then p.queues[w] == p'.queues[w] + [p'.workers[w].task]
                 else p'.queues == p.queues
            case Steal(w, v) =>
              && (forall u :: 0 <= u < |p.queues| && u != v ==> p'.queues[u] == p.queues[u])
              && if p'.workers[w].Holding? then p.queues[v] == [p'.workers[w].task] + p'.queues[v]
                 else p'.queues == p.queues && p.queues[v] == []
            case Push(w) =>
              && (forall v :: 0 <= v < |p.queues| && v != w ==> p'.queues[v] == p.queues[v])
              && p'.queues[w] == p.queues[w] + [p.next] && p'.workers == p.workers
            case _ => p'.queues == p.queues
  {
    match move
    case Pop(w) => SpecsTakeEnds(p.queues[w], p.capacity, p.reserve);
    case Steal(w, v) => SpecsTakeEnds(p.queues[v], p.capacity, p.reserve);
    case _ =>
  }

  // The event is set by a worker's failure or from outside, and by nothing else.
  lemma {:induction false} EndedExactly(pools: seq<Pool>, moves: seq<Move>, i: nat)
    requires Run(pools, moves) && !pools[0].ended && i < |pools|
    ensures pools[i].ended <==> exists j :: 0 <= j < i && (moves[j].End? || moves[j].Report?)
    decreases i
  {
    if i > 0 {
      EndedExactly(pools, moves, i - 1);
      assert Enabled(pools[i - 1], moves[i - 1]);
    }
  }

  /** What a step does to the workers: the one that moves holds the task it took, looks
      further exactly when its own deque was empty, and is idle when it is done. */
  lemma StepMovesOne(p: Pool, move: Move)
    requires Shaped(p) && Enabled(p, move)
    ensures var p' := Step(p, move);
            match move
            case Pop(w) =>
              && OthersStay(p, p', w)
              && (p'.workers[w].Searching? <==> p.queues[w] == [])
              && (p'.workers[w].Idle? <==> p.queues[w] != [] && |p.queues[w]| > p.capacity - p.reserve)
              && !p'.workers[w].Raised?
            case Steal(w, v) =>
              OthersStay(p, p', w) && (if p.queues[v] == [] then p'.workers == p.workers else p'.workers[w].Holding?)
            case GiveUp(w) => OthersStay(p, p', w) && p'.workers[w] == Idle
            case Raise(w) => OthersStay(p, p', w) && p'.workers[w] == Raised(p.workers[w].task)
            case Complete(w) =>
              OthersStay(p, p', w) && p'.workers[w] == Idle && p'.executed == p.executed + [p.workers[w].task]
            case Drop(w) => OthersStay(p, p', w) && p'.workers[w] == Idle
            case _ => p'.workers == p.workers
    ensures !move.Complete? ==> Step(p, move).executed == p.executed
  {
  }

  predicate OthersStay(p: Pool, p': Pool, w: nat) {
    |p'.workers| == |p.workers| && forall v :: 0 <= v < |p.workers| && v != w ==> p'.workers[v] == p.workers[v]
  }

  /* ---- Where a task is ---- */

  function Times(s: seq<Task>, t: Task): nat {
    if s == [] then 0 else Times(s[..|s| - 1], t) + if s[|s| - 1] == t then 1 else 0
  }

  function Queued(queues: seq<seq<Task>>, t: Task): nat {
    if queues == [] then 0 else Queued(queues[..|queues| - 1], t) + Times(queues[|queues| - 1], t)
  }

  function InHand(worker: Worker, t: Task): nat {
    if (worker.Holding? || worker.Raised?) && worker.task == t then 1 else 0
  }

  function Held(workers: seq<Worker>, t: Task): nat {
    if workers == [] then 0 else Held(workers[..|workers| - 1], t) + InHand(workers[|workers| - 1], t)
  }

  function Places(p: Pool, t: Task): nat {
    Queued(p.queues, t) + Held(p.workers, t) + Times(p.executed, t)
  }

  lemma TimesAdd(s: seq<Task>, u: Task, t: Task)
    ensures Times(s + [u], t) == Times(s, t) + if u == t then 1 else 0
  {
    assert (s + [u])[..|s|] == s;
  }

  lemma {:induction false} TimesTail(s: seq<Task>, t: Task)
    requires s != []
    ensures Times(s, t) == Times(s[1..], t) + if s[0] == t then 1 else 0
    decreases |s|
  {
    if |s| > 1 {
      var front := s[..|s| - 1];
      TimesTail(front, t);
      assert s[1..] == front[1..] + [s[|s| - 1]];
      TimesAdd(front[1..], s[|s| - 1], t);
    } else {
      assert s[1..] == [] && s[..0] == [];
    }
  }

  lemma {:induction false} QueuedUpdate(queues: seq<seq<Task>>, w: nat, q: seq<Task>, t: Task)
    requires w < |queues|
    ensures Queued(queues[w := q], t) + Times(queues[w], t) == Queued(queues, t) + Times(q, t)
    decreases |queues|
  {
    var last := |queues| - 1;
    var front := queues[..last];
    if w == last {
      assert queues[w := q][..last] == front;
    } else {
      QueuedUpdate(front, w, q, t);
      assert queues[w := q][..last] == front[w := q];
    }
  }

  lemma {:induction false} HeldUpdate(workers: seq<Worker>, w: nat, worker: Worker, t: Task)
    requires w < |workers|
    ensures Held(workers[w := worker], t) + InHand(workers[w], t) == Held(workers, t) + InHand(worker, t)
    decreases |workers|
  {
    var last := |workers| - 1;
    var front := workers[..last];
    if w == last {
      assert workers[w := worker][..last] == front;
    } else {
      HeldUpdate(front, w, worker, t);
      assert workers[w := worker][..last] == front[w := worker];
    }
  }

  /* ---- The invariant ---- */

  // Every pair created is in one place; none is anywhere twice, and none is lost
  // before the end event.
  ghost predicate Conserved(p: Pool) {
    forall t: Task {:trigger Places(p, t)} ::
      (t >= p.next ==> Places(p, t) == 0)
      && Places(p, t) <= 1
      && (!p.ended && t < p.next ==> Places(p, t) == 1)
  }

  // A step moves one task at most, or creates one.
  lemma PlacesAfter(p: Pool, move: Move, t: Task)
    requires Shaped(p) && Enabled(p, move)
    ensures match move
            case Push(_) => Places(Step(p, move), t) == Places(p, t) + if t == p.next then 1 else 0
            case Drop(w) => Places(Step(p, move), t) + InHand(p.workers[w], t) == Places(p, t)
            case _ => Places(Step(p, move), t) == Places(p, t)
  {
    var p' := Step(p, move);
    match move
    case Pop(w) =>
      QueuedUpdate(p.queues, w, p'.queues[w], t);
      HeldUpdate(p.workers, w, p'.workers[w], t);
      assert p'.queues == p.queues[w := p'.queues[w]] && p'.workers == p.workers[w := p'.workers[w]];
    case Steal(w, v) =>
      QueuedUpdate(p.queues, v, p'.queues[v], t);
      HeldUpdate(p.workers, w, p'.workers[w], t);
      assert p'.queues == p.queues[v := p'.queues[v]] && p'.workers == p.workers[w := p'.workers[w]];
      if p.queues[v] != [] {
        TimesTail(p.queues[v], t);
      }
    case GiveUp(w) => HeldUpdate(p.workers, w, Idle, t);
    case Push(w) =>
      QueuedUpdate(p.queues, w, p.queues[w] + [p.next], t);
      TimesAdd(p.queues[w], p.next, t);
    case Raise(w) => HeldUpdate(p.workers, w, Raised(p.workers[w].task), t);
    case Report(w) =>
    case Complete(w) =>
      HeldUpdate(p.workers, w, Idle, t);
      TimesAdd(p.executed, p.workers[w].task, t);
    case End =>
    case Drop(w) => HeldUpdate(p.workers, w, Idle, t);
  }

  lemma StepConserves(p: Pool, move: Move)
    requires Shaped(p) && Enabled(p, move) && Conserved(p)
    ensures Conserved(Step(p, move))
  {
    var p' := Step(p, move);
    forall t: Task
      ensures (t >= p'.next ==> Places(p', t) == 0) && Places(p', t) <= 1
              && (!p'.ended && t < p'.next ==> Places(p', t) == 1)
    {
      PlacesAfter(p, move, t);
      assert Places(p, t) <= 1;
    }
  }

  ghost predicate Run(pools: seq<Pool>, moves: seq<Move>) {
    |pools| == |moves| + 1
    && (forall i :: 0 <= i < |pools| ==> Shaped(pools[i]))
    && forall i :: 0 <= i < |moves| ==> Enabled(pools[i], moves[i]) && pools[i + 1] == Step(pools[i], moves[i])
  }

  // Pairs loaded before the run, numbered from 0, on idle workers.
  ghost predicate Loaded(p: Pool) {
    Shaped(p) && !p.ended && p.executed == [] && Conserved(p)
    && forall w :: 0 <= w < |p.workers| ==> p.workers[w].Idle? && |p.queues[w]| <= p.capacity
  }

  /** Work conservation, for any number of workers, any schedule and any number of
      pairs connected by an interaction, exceptions included. */
  lemma {:induction false} WorkIsConserved(pools: seq<Pool>, moves: seq<Move>, i: nat)
    requires Run(pools, moves) && Loaded(pools[0]) && i < |pools|
    ensures Conserved(pools[i])
    decreases i
  {
    if i > 0 {
      WorkIsConserved(pools, moves, i - 1);
      assert Enabled(pools[i - 1], moves[i - 1]);
      StepConserves(pools[i - 1], moves[i - 1]);
    }
  }

  /** When the queues and hands are empty before the end event, every pair ever
      created has been executed, exactly once. */
  lemma QuiescentMeansDone(pools: seq<Pool>, moves: seq<Move>, i: nat, t: Task)
    requires Run(pools, moves) && Loaded(pools[0]) && i < |pools| && !pools[i].ended
    requires forall w :: 0 <= w < |pools[i].workers| ==>
               pools[i].queues[w] == [] && (pools[i].workers[w].Idle? || pools[i].workers[w].Searching?)
    ensures Times(pools[i].executed, t) == if t < pools[i].next then 1 else 0
  {
    WorkIsConserved(pools, moves, i);
    NothingQueued(pools[i].queues, t);
    NothingHeld(pools[i].workers, t);
    assert Places(pools[i], t) <= 1;
  }

  lemma {:induction false} NothingQueued(queues: seq<seq<Task>>, t: Task)
    requires forall w :: 0 <= w < |queues| ==> queues[w] == []
    ensures Queued(queues, t) == 0
    decreases |queues|
  {
    if queues != [] {
      NothingQueued(queues[..|queues| - 1], t);
    }
  }

  lemma {:induction false} NothingHeld(workers: seq<Worker>, t: Task)
    requires forall w :: 0 <= w < |workers| ==> workers[w].Idle? || workers[w].Searching?
    ensures Held(workers, t) == 0
    decreases |workers|
  {
    if workers != [] {
      NothingHeld(workers[..|workers| - 1], t);
    }
  }

  /* ---- Room for the pushes of one interaction ---- */

  // The pushes of worker w since it last took a pair.
  function PushesSince(moves: seq<Move>, w: nat): nat {
    if moves == [] then 0
    else
      var before := PushesSince(moves[..|moves| - 1], w);
      match moves[|moves| - 1]
      case Push(v) => if v == w then before + 1 else before
      case Pop(v) => if v == w then 0 else before
      case Steal(v, _) => if v == w then 0 else before
      case _ => before
  }

  // What an interaction may still push is kept free in its worker's deque.
  ghost predicate Roomy(p: Pool, moves: seq<Move>)
    requires Shaped(p)
  {
    forall w {:trigger p.workers[w]} :: 0 <= w < |p.workers| ==>
      |p.queues[w]| <= p.capacity
      && (p.workers[w].Searching? ==> p.queues[w] == [])
      && (p.workers[w].Holding? ==> |p.queues[w]| + p.reserve <= p.capacity + PushesSince(moves, w))
  }

  lemma StepKeepsRoom(p: Pool, moves: seq<Move>, move: Move)
    requires Shaped(p) && Enabled(p, move) && Roomy(p, moves)
    ensures Roomy(Step(p, move), moves + [move])
  {
    var p' := Step(p, move);
    assert (moves + [move])[..|moves|] == moves;
    forall w | 0 <= w < |p'.workers|
      ensures |p'.queues[w]| <= p'.capacity
      ensures p'.workers[w].Searching? ==> p'.queues[w] == []
      ensures p'.workers[w].Holding? ==> |p'.queues[w]| + p'.reserve <= p'.capacity + PushesSince(moves + [move], w)
    {
      var worker := p.workers[w];
      assert |p.queues[w]| <= p.capacity;
    }
  }

  /** The assertion of a push cannot fail within the first max_reentrant_push pushes
      of an interaction. */
  lemma {:induction false} PushesFit(pools: seq<Pool>, moves: seq<Move>, i: nat)
    requires Run(pools, moves) && Loaded(pools[0]) && i < |pools|
    ensures Roomy(pools[i], moves[..i])
    ensures forall w :: (0 <= w < |pools[i].workers| && pools[i].workers[w].Holding?
                         && PushesSince(moves[..i], w) < pools[i].reserve) ==> Enabled(pools[i], Push(w))
    decreases i
  {
    if i > 0 {
      PushesFit(pools, moves, i - 1);
      assert Enabled(pools[i - 1], moves[i - 1]);
      StepKeepsRoom(pools[i - 1], moves[..i - 1], moves[i - 1]);
      assert moves[..i - 1] + [moves[i - 1]] == moves[..i];
    }
  }

  /* ---- Pools that are stuck ---- */

  // Worker w takes a pair on its next call of process_pair.
  predicate CanTake(p: Pool, w: nat)
    requires Shaped(p) && w < |p.workers| && p.workers[w].Idle?
  {
    var p' := Step(p, Pop(w));
    || p'.workers[w].Holding?
    || (exists v :: 0 <= v < |p.workers| && Enabled(p', Steal(w, v)) && Step(p', Steal(w, v)).workers[w].Holding?)
  }

  predicate AllIdle(p: Pool) {
    forall w :: 0 <= w < |p.workers| ==> p.workers[w].Idle?
  }

  predicate TasksRemain(p: Pool) {
    exists w :: 0 <= w < |p.queues| && p.queues[w] != []
  }

  predicate Overfull(p: Pool) {
    forall w :: 0 <= w < |p.queues| ==> |p.queues[w]| > p.capacity - p.reserve
  }

  /** With every worker between pairs and pairs left, no worker can take one exactly
      when every deque holds more than capacity - max_reentrant_push of them. One
      deque below that, and its own worker pops it or, if it is empty, steals. */
  lemma StuckExactly(p: Pool)
    requires Shaped(p) && AllIdle(p) && TasksRemain(p)
    ensures (forall w :: 0 <= w < |p.workers| ==> !CanTake(p, w)) <==> Overfull(p)
  {
    if !Overfull(p) {
      var w :| 0 <= w < |p.queues| && |p.queues[w]| <= p.capacity - p.reserve;
      if p.queues[w] != [] {
        assert CanTake(p, w);
      } else {
        var v :| 0 <= v < |p.queues| && p.queues[v] != [];
        var p' := Step(p, Pop(w));
        assert Enabled(p', Steal(w, v)) && Step(p', Steal(w, v)).workers[w].Holding?;
        assert CanTake(p, w);
      }
    }
  }

  /** And such a pool stays stuck: apart from the end event nothing in it changes. */
  lemma {:induction false} StuckForever(pools: seq<Pool>, moves: seq<Move>, i: nat)
    requires Run(pools, moves) && AllIdle(pools[0]) && Overfull(pools[0]) && i < |pools|
    ensures pools[i] == pools[0].(ended := pools[i].ended)
    decreases i
  {
    if i > 0 {
      StuckForever(pools, moves, i - 1);
      assert Enabled(pools[i - 1], moves[i - 1]);
      if moves[i - 1].Pop? {
        assert pools[i - 1].queues[moves[i - 1].worker] != [];
      }
    }
  }
}
