/** Progress of the aggregator's protocol.  Whatever the interleaving, threads that are inside
    execute take only so many steps that change anything until all of them have returned, every
    operation submitted having been applied.  A swap is lost only to a change of the mailbox. */
module AggregatorProgress {

  import opened Common
  import opened Aggregator

  // ---------------------------------------------------------------- what is left to do

  /** The steps a thread has before it, a successful swap being ahead of all that follows it, and
      an operation that is not finished standing for the handler's round that finishes it. */
  function Work(th: Thread): (w: nat)
    ensures w <= 12
  {
    match th.pc
    case Idle => 0
    case ReadBox => 12
    case HaveRead => 12
    case _ => Stage(th.pc) + if th.finished then 0 else 3
  }

  function Stage(pc: Pc): (n: nat)
    ensures n <= 8
  {
    match pc
    case SpinBusy => 8
    case SetBusy => 7
    case Grab => 6
    case Handling => 5
    case Applying => 4
    case Finishing => 3
    case Release => 2
    case WaitStatus => 2
    case _ => 1
  }

  /** How far a thread is from a swap that would succeed now. */
  function Stale(th: Thread, mailbox: Ref): (n: nat)
    ensures n <= 2
  {
    match th.pc
    case ReadBox => 1
    case HaveRead => if th.res == mailbox then 0 else 2
    case _ => 0
  }

  function AllWork(threads: seq<Thread>): nat {
    if threads == [] then 0 else AllWork(threads[..|threads| - 1]) + Work(threads[|threads| - 1])
  }

  function AllStale(threads: seq<Thread>, mailbox: Ref): (n: nat)
    ensures n <= 2 * |threads|
  {
    if threads == [] then 0 else AllStale(threads[..|threads| - 1], mailbox) + Stale(threads[|threads| - 1], mailbox)
  }

  /** Attempts to swap come second to everything else. */
  function Rank(s: State): nat {
    Scaled(2 * |s.threads| + 1, AllWork(s.threads)) + AllStale(s.threads, s.mailbox)
  }

  lemma {:induction false} WorkOfOne(threads: seq<Thread>, t: nat, th: Thread)
    requires t < |threads|
    ensures AllWork(threads[t := th]) + Work(threads[t]) == AllWork(threads) + Work(th)
    decreases |threads|
  {
    var n := |threads| - 1;
    if t < n {
      WorkOfOne(threads[..n], t, th);
      assert threads[t := th][..n] == threads[..n][t := th];
    } else {
      assert threads[t := th][..n] == threads[..n];
    }
  }

  lemma {:induction false} StaleOfOne(threads: seq<Thread>, mailbox: Ref, t: nat, th: Thread)
    requires t < |threads|
    ensures AllStale(threads[t := th], mailbox) + Stale(threads[t], mailbox) == AllStale(threads, mailbox) + Stale(th, mailbox)
    decreases |threads|
  {
    var n := |threads| - 1;
    if t < n {
      StaleOfOne(threads[..n], mailbox, t, th);
      assert threads[t := th][..n] == threads[..n][t := th];
    } else {
      assert threads[t := th][..n] == threads[..n];
    }
  }

  lemma {:induction false} WorkBound(threads: seq<Thread>)
    ensures AllWork(threads) <= 12 * |threads|
    decreases |threads|
  {
    if threads != [] {
      WorkBound(threads[..|threads| - 1]);
    }
  }

  /** Less work is a lower rank, whatever swaps have become stale. */
  lemma LessWork(s: State, s': State)
    requires |s'.threads| == |s.threads| && AllWork(s'.threads) < AllWork(s.threads)
    ensures Rank(s') < Rank(s)
  {
    hide Scaled;
    ScaledApart(2 * |s.threads| + 1, AllWork(s'.threads), AllWork(s.threads));
  }

  // ---------------------------------------------------------------- every step counts

  /** A swap attempt that fails, or is prepared, brings the thread nearer to one that succeeds. */
  lemma AttemptRanks(s: State, t: nat)
    requires t < |s.threads| && (s.threads[t].pc.ReadBox? || (s.threads[t].pc.HaveRead? && s.mailbox != s.threads[t].res))
    ensures Rank(Step(s, t)) < Rank(s)
  {
    var th := Step(s, t).threads[t];
    WorkOfOne(s.threads, t, th);
    StaleOfOne(s.threads, s.mailbox, t, th);
  }

  /** The steps that change one thread's work. */
  lemma OwnWork(s: State, t: nat)
    requires t < |s.threads| && Step(s, t) != s
    requires match s.threads[t].pc
             case Idle => false
             case ReadBox => false
             case HaveRead => s.mailbox == s.threads[t].res && !s.threads[t].finished
             case Applying => false
             case Finishing => false
             case _ => true
    ensures AllWork(Step(s, t).threads) < AllWork(s.threads)
  {
    WorkOfOne(s.threads, t, Step(s, t).threads[t]);
  }

  /** Applying changes nobody else's work, and finishing lessens the submitter's. */
  lemma HandlerWork(s: State, t: nat, r: nat)
    requires t < |s.threads| && r < |s.threads| && (s.threads[t].pc.Applying? || s.threads[t].pc.Finishing?)
    requires s.threads[t].request == To(r)
    requires s.threads[t].pc.Finishing? ==>
               !s.threads[r].finished && !s.threads[r].pc.Idle? && !s.threads[r].pc.ReadBox? && !s.threads[r].pc.HaveRead?
    ensures AllWork(Step(s, t).threads) < AllWork(s.threads)
  {
    var moved := s.threads[t].(pc := if s.threads[t].pc.Applying? then Finishing else Handling);
    var mid := s.threads[t := moved];
    WorkOfOne(s.threads, t, moved);
    WorkOfOne(mid, r, Step(s, t).threads[r]);
    assert Step(s, t).threads == mid[r := Step(s, t).threads[r]];
  }

  /** Every step of a thread inside execute that changes anything lowers the rank. */
  lemma StepRanks(s: State, box: seq<nat>, todo: seq<nat>, h: nat, t: nat)
    requires Inv(s, box, todo, h) && t < |s.threads| && !s.threads[t].pc.Idle? && Step(s, t) != s
    ensures Rank(Step(s, t)) < Rank(s)
  {
    var th := s.threads[t];
    assert ThreadOk(s, box, todo, h, t);
    if th.pc.ReadBox? || (th.pc.HaveRead? && s.mailbox != th.res) {
      AttemptRanks(s, t);
      return;
    }
    if th.pc.Applying? || th.pc.Finishing? {
      var r := th.request.index;
      assert IsRequest(s, h, r);
      assert ThreadOk(s, box, todo, h, r);
      HandlerWork(s, t, r);
    } else {
      OwnWork(s, t);
    }
    LessWork(s, Step(s, t));
  }

  // ---------------------------------------------------------------- every run

  /** In `cont` nobody starts a new call. */
  predicate NoCalls(s: State, cont: seq<nat>)
    requires Schedule(s, cont)
    decreases |cont|
  {
    cont == [] ||
    (NoCalls(s, cont[..|cont| - 1]) && !Run(s, cont[..|cont| - 1]).threads[cont[|cont| - 1]].pc.Idle?)
  }

  /** How many steps of `cont` change anything; the others are those of threads that wait. */
  function Moves(s: State, cont: seq<nat>): nat
    requires Schedule(s, cont)
    decreases |cont|
  {
    if cont == [] then 0
    else
      var n := |cont| - 1;
      Moves(s, cont[..n]) + if Run(s, cont) != Run(s, cont[..n]) then 1 else 0
  }

  lemma {:induction false} MovesRank(s: State, box: seq<nat>, todo: seq<nat>, h: nat, cont: seq<nat>)
    returns (box': seq<nat>, todo': seq<nat>, h': nat)
    requires Inv(s, box, todo, h) && Schedule(s, cont) && NoCalls(s, cont)
    ensures Inv(Run(s, cont), box', todo', h')
    ensures Moves(s, cont) + Rank(Run(s, cont)) <= Rank(s)
    decreases |cont|
  {
    hide Inv;
    hide Step;
    hide Rank;
    box', todo', h' := box, todo, h;
    if cont != [] {
      var n := |cont| - 1;
      var r, t := Run(s, cont[..n]), cont[n];
      box', todo', h' := MovesRank(s, box, todo, h, cont[..n]);
      if Step(r, t) != r {
        StepRanks(r, box', todo', h', t);
      }
      box', todo', h' := StepKeeps(r, box', todo', h', t);
    }
  }

  /** Whatever the interleaving, from any reached state on the threads inside execute take no more
      than this many steps that change anything, unless new calls begin.  `NeverStuck` says that
      there is such a step as long as anybody is inside. */
  lemma {:induction false} BoundedWork(s: State, schedule: seq<nat>, cont: seq<nat>)
    requires Initial(s) && Schedule(s, schedule) && Schedule(s, cont) && NoCalls(Run(s, schedule), cont)
    ensures Moves(Run(s, schedule), cont) <= (2 * |s.threads| + 1) * (12 * |s.threads|) + 2 * |s.threads|
  {
    hide Inv;
    hide Moves;
    hide NoCalls;
    var r, n := Run(s, schedule), |s.threads|;
    var box, todo, h := RunKeeps(s, schedule);
    box, todo, h := MovesRank(r, box, todo, h, cont);
    WorkBound(r.threads);
    ScaledApart(2 * n + 1, AllWork(r.threads), 12 * n);
  }

  /** The run goes on with one more step first. */
  lemma {:induction false} RunFrom(s: State, t: nat, cont: seq<nat>)
    requires t < |s.threads| && Schedule(s, cont)
    ensures Schedule(s, [t] + cont) && Run(s, [t] + cont) == Run(Step(s, t), cont)
    ensures !s.threads[t].pc.Idle? && NoCalls(Step(s, t), cont) ==> NoCalls(s, [t] + cont)
    decreases |cont|
  {
    hide Step;
    if cont == [] {
      assert [t] + cont == [t] && [t][..0] == [];
      assert Run(s, []) == s && NoCalls(s, []);
    } else {
      var n := |cont| - 1;
      RunFrom(s, t, cont[..n]);
      assert ([t] + cont)[..n + 1] == [t] + cont[..n];
    }
  }

  lemma {:induction false} RunOn(s: State, first: seq<nat>, cont: seq<nat>)
    requires Schedule(s, first) && Schedule(s, cont)
    ensures Schedule(s, first + cont) && Run(s, first + cont) == Run(Run(s, first), cont)
    decreases |cont|
  {
    hide Step;
    if cont == [] {
      assert first + cont == first;
    } else {
      var n := |cont| - 1;
      RunOn(s, first, cont[..n]);
      assert (first + cont)[..|first| + n] == first + cont[..n];
    }
  }

  predicate AllIdle(s: State) {
    forall t | 0 <= t < |s.threads| :: s.threads[t].pc.Idle?
  }

  /** Steps of threads that are inside begin no call, of their own or another's. */
  lemma SubmittedStays(s: State, t: nat, u: nat)
    requires t < |s.threads| && u < |s.threads| && !s.threads[t].pc.Idle?
    ensures Step(s, t).threads[u].submitted == s.threads[u].submitted
  {
  }

  lemma IdleApplied(s: State, box: seq<nat>, todo: seq<nat>, h: nat, u: nat)
    requires Inv(s, box, todo, h) && u < |s.threads| && s.threads[u].pc.Idle?
    ensures s.threads[u].applied == s.threads[u].submitted
  {
    assert ThreadOk(s, box, todo, h, u);
  }

  lemma {:induction false} Drains(s: State, box: seq<nat>, todo: seq<nat>, h: nat) returns (cont: seq<nat>)
    requires Inv(s, box, todo, h)
    ensures Schedule(s, cont) && NoCalls(s, cont) && AllIdle(Run(s, cont))
    ensures forall u | 0 <= u < |s.threads| ::
              Run(s, cont).threads[u].submitted == Run(s, cont).threads[u].applied == s.threads[u].submitted
    decreases Rank(s)
  {
    hide Inv;
    hide Step;
    hide Rank;
    if AllIdle(s) {
      cont := [];
      forall u: nat | u < |s.threads|
        ensures s.threads[u].applied == s.threads[u].submitted
      {
        IdleApplied(s, box, todo, h, u);
      }
    } else {
      var t: nat :| t < |s.threads| && !s.threads[t].pc.Idle?;
      var u := SomeoneMoves(s, box, todo, h, t);
      StepRanks(s, box, todo, h, u);
      RunFrom(s, u, []);
      forall v: nat | v < |s.threads|
        ensures Step(s, u).threads[v].submitted == s.threads[v].submitted
      {
        SubmittedStays(s, u, v);
      }
      var box', todo', h' := StepKeeps(s, box, todo, h, u);
      var rest := Drains(Step(s, u), box', todo', h');
      RunFrom(s, u, rest);
      cont := [u] + rest;
    }
  }

  /** From every reached state the calls that are under way can be brought to their end, without
      new ones: every thread gets out, and every operation submitted has been applied. */
  lemma {:induction false} AllReturn(s: State, schedule: seq<nat>) returns (cont: seq<nat>)
    requires Initial(s) && Schedule(s, schedule)
    ensures Schedule(s, schedule + cont) && Schedule(s, cont) && NoCalls(Run(s, schedule), cont)
    ensures AllIdle(Run(s, schedule + cont))
    ensures forall u | 0 <= u < |s.threads| ::
              var th := Run(s, schedule + cont).threads[u];
              th.submitted == th.applied == Run(s, schedule).threads[u].submitted
  {
    var box, todo, h := RunKeeps(s, schedule);
    cont := Drains(Run(s, schedule), box, todo, h);
    RunOn(s, schedule, cont);
  }

  /** In particular a thread that calls execute, wherever the others are, can get out again, and
      its operation has been applied then. */
  lemma {:induction false} CallReturns(s: State, schedule: seq<nat>, t: nat) returns (cont: seq<nat>)
    requires Initial(s) && Schedule(s, schedule) && t < |s.threads| && Run(s, schedule).threads[t].pc.Idle?
    ensures Schedule(s, schedule + [t] + cont) && Run(s, schedule + [t] + cont).threads[t].pc.Idle?
    ensures var before, after := Run(s, schedule).threads[t], Run(s, schedule + [t] + cont).threads[t];
            after.submitted == after.applied == before.applied + 1 == before.submitted + 1
  {
    var first := schedule + [t];
    cont := AllReturn(s, first);
    AppliedExactlyOnce(s, schedule, t);
    assert first[..|schedule|] == schedule && first[|schedule|] == t;
    assert Run(s, first) == Step(Run(s, schedule), t);
  }

  // ---------------------------------------------------------------- when a swap fails

  lemma {:induction false} OthersLeave(s: State, cont: seq<nat>, t: nat)
    requires t < |s.threads| && Schedule(s, cont) && t !in cont
    ensures Run(s, cont).threads[t].pc == s.threads[t].pc && Run(s, cont).threads[t].res == s.threads[t].res
    decreases |cont|
  {
    hide Step;
    if cont != [] {
      var n := |cont| - 1;
      OthersLeave(s, cont[..n], t);
      OtherLeaves(Run(s, cont[..n]), cont[n], t);
    }
  }

  lemma OtherLeaves(s: State, u: nat, t: nat)
    requires t < |s.threads| && u < |s.threads| && u != t
    ensures Step(s, u).threads[t].pc == s.threads[t].pc && Step(s, u).threads[t].res == s.threads[t].res
  {
  }

  /** A swap fails only if the mailbox is no longer what the thread read, whatever others have done
      in between.  When it succeeds the operation is in the mailbox, and its thread leads exactly
      when it found the mailbox empty. */
  lemma {:induction false} SwapLosesOnlyToChange(s: State, cont: seq<nat>, t: nat)
    requires t < |s.threads| && s.threads[t].pc.ReadBox? && Schedule(s, cont) && t !in cont
    ensures var r := Run(Step(s, t), cont);
            var r' := Step(r, t);
            if r.mailbox == s.mailbox then
              r'.mailbox == To(t) && (if s.mailbox == Null then r'.threads[t].pc.SpinBusy? else r'.threads[t].pc.WaitStatus?)
            else r'.mailbox == r.mailbox && r'.threads[t].pc.ReadBox?
  {
    OthersLeave(Step(s, t), cont, t);
  }
}
