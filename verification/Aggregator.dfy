/** The aggregator's lock-free protocol as a step machine: every step reads or writes shared
    memory once.  An operation lives on its submitter's stack, so a thread that submits
    again reuses the address, and a compare-and-swap may succeed on a reused address.  A
    pointer to an operation is written as a reference to its owner. */
module Aggregator {

  import opened Common

  datatype Pc =
    | Idle          // outside execute
    | ReadBox       // reads the mailbox into res and my_next
    | HaveRead      // tries to swap its operation in for res
    | SpinBusy      // first in the list: waits for handler_busy to be 0
    | SetBusy       // stores 1 into handler_busy
    | Grab          // takes the whole list, leaving NULL
    | Handling      // head of the handler's loop
    | Applying      // has advanced the list past the request, applies it
    | Finishing     // stores the request's status
    | Release       // stores 0 into handler_busy
    | WaitStatus    // not first: waits for its own status
    | Done          // about to return from execute

  /** A thread's locals, and its operation object (`finished`, `next`).  `submitted` and
      `applied` count the thread's calls and the times a body of its was run. */
  datatype Thread = Thread(pc: Pc, res: Ref, opList: Ref, request: Ref, finished: bool, next: Ref, submitted: nat, applied: nat)

  datatype State = State(mailbox: Ref, busy: bool, threads: seq<Thread>)

  function Put(s: State, t: nat, th: Thread): State
    requires t < |s.threads|
  {
    s.(threads := s.threads[t := th])
  }

  /** One step of thread `t`; a spinning thread whose condition does not hold stays put. */
  function Step(s: State, t: nat): State
    requires t < |s.threads|
  {
    var th := s.threads[t];
    match th.pc
    case Idle => Put(s, t, th.(pc := ReadBox, finished := false, next := Null, submitted := th.submitted + 1))
    case ReadBox => Put(s, t, th.(pc := HaveRead, res := s.mailbox, next := s.mailbox))
    case HaveRead =>
      if s.mailbox != th.res then Put(s, t, th.(pc := ReadBox))
      else Put(s.(mailbox := To(t)), t, th.(pc := if th.res == Null then SpinBusy else WaitStatus))
    case SpinBusy => if s.busy then s else Put(s, t, th.(pc := SetBusy))
    case SetBusy => Put(s.(busy := true), t, th.(pc := Grab))
    case Grab => Put(s.(mailbox := Null), t, th.(pc := Handling, opList := s.mailbox))
    case Handling =>
      if th.opList.To? && th.opList.index < |s.threads| then
        Put(s, t, th.(pc := Applying, request := th.opList, opList := s.threads[th.opList.index].next))
      else Put(s, t, th.(pc := Release))
    case Applying =>
      var s1 := Put(s, t, th.(pc := Finishing));
      if th.request.To? && th.request.index < |s.threads| then
        var r := th.request.index;
        Put(s1, r, s1.threads[r].(applied := s1.threads[r].applied + 1))
      else s1
    case Finishing =>
      var s1 := Put(s, t, th.(pc := Handling));
      if th.request.To? && th.request.index < |s.threads| then
        var r := th.request.index;
        Put(s1, r, s1.threads[r].(finished := true))
      else s1
    case Release => Put(s.(busy := false), t, th.(pc := Done))
    case WaitStatus => if th.finished then Put(s, t, th.(pc := Done)) else s
    case Done => Put(s, t, th.(pc := Idle))
  }

  predicate Initial(s: State) {
    && s.mailbox == Null && !s.busy
    && forall t | 0 <= t < |s.threads| :: s.threads[t].pc == Idle && s.threads[t].submitted == s.threads[t].applied == 0
  }

  /** The state after the threads in `schedule` have stepped in that order. */
  function Run(s: State, schedule: seq<nat>): State
    requires forall k | 0 <= k < |schedule| :: schedule[k] < |s.threads|
    ensures |Run(s, schedule).threads| == |s.threads|
    decreases |schedule|
  {
    if schedule == [] then s else Step(Run(s, schedule[..|schedule| - 1]), schedule[|schedule| - 1])
  }

  // ---------------------------------------------------------------- the invariant

  predicate Leading(pc: Pc) {
    pc.SpinBusy? || pc.SetBusy? || pc.Grab?
  }

  /** The thread owns handler_busy. */
  predicate Holding(pc: Pc) {
    pc.Grab? || pc.Handling? || pc.Applying? || pc.Finishing? || pc.Release?
  }

  predicate Submitting(pc: Pc) {
    pc.ReadBox? || pc.HaveRead?
  }

  /** The operations of `list` are chained in this order. */
  predicate Chained(threads: seq<Thread>, list: seq<nat>) {
    && (forall k {:trigger list[k]} | 0 <= k < |list| :: list[k] < |threads| && threads[list[k]].next == NextIn(list, k))
    && (forall i, j {:trigger list[i], list[j]} | 0 <= i < j < |list| :: list[i] != list[j])
  }

  /** The request that the handler `h` has taken off its list and not finished. */
  predicate IsRequest(s: State, h: nat, t: nat) {
    h < |s.threads| && (s.threads[h].pc.Applying? || s.threads[h].pc.Finishing?) && s.threads[h].request == To(t)
  }

  predicate Pending(s: State, box: seq<nat>, todo: seq<nat>, h: nat, t: nat) {
    t in box || t in todo || IsRequest(s, h, t)
  }

  /** The operation has been submitted and its body has not been run. */
  predicate Unapplied(s: State, box: seq<nat>, todo: seq<nat>, h: nat, t: nat)
    requires t < |s.threads|
  {
    Submitting(s.threads[t].pc) || t in box || t in todo || (IsRequest(s, h, t) && s.threads[h].pc.Applying?)
  }

  predicate ThreadOk(s: State, box: seq<nat>, todo: seq<nat>, h: nat, t: nat)
    requires t < |s.threads|
  {
    var th := s.threads[t];
    && (Leading(th.pc) ==> box != [] && t == box[|box| - 1])
    && (Holding(th.pc) ==> s.busy && t == h)
    && (Holding(th.pc) && !th.pc.Grab? ==> t !in box)
    && (th.pc.SetBusy? ==> !s.busy)
    && (th.pc.HaveRead? ==> th.next == th.res)
    && (if th.pc.Idle? || Submitting(th.pc) then !Pending(s, box, todo, h, t)
        else th.finished <==> !Pending(s, box, todo, h, t))
    && (Submitting(th.pc) ==> !th.finished)
    && (th.pc.Done? ==> th.finished)
    && th.submitted == th.applied + (if Unapplied(s, box, todo, h, t) then 1 else 0)
  }

  /** `box` is what is in the mailbox, `todo` what the handler `h` still has on its list. */
  ghost predicate Lists(s: State, box: seq<nat>, todo: seq<nat>, h: nat) {
    && Chained(s.threads, box) && Chained(s.threads, todo)
    && (forall x {:trigger x in box} | x in box :: x !in todo && !IsRequest(s, h, x))
    && (forall x {:trigger x in todo} | x in todo :: !IsRequest(s, h, x))
    && s.mailbox == Head(box)
    && (box != [] ==> Leading(s.threads[box[|box| - 1]].pc))
    && (s.busy ==> h < |s.threads| && Holding(s.threads[h].pc))
    && (!s.busy || s.threads[h].pc.Grab? || s.threads[h].pc.Release? ==> todo == [])
    && (s.busy && !s.threads[h].pc.Grab? ==> s.threads[h].opList == Head(todo))
    && (s.busy && (s.threads[h].pc.Applying? || s.threads[h].pc.Finishing?) ==>
          s.threads[h].request.To? && s.threads[h].request.index < |s.threads|)
  }

  ghost predicate Inv(s: State, box: seq<nat>, todo: seq<nat>, h: nat) {
    Lists(s, box, todo, h) && forall t: nat {:trigger ThreadOk(s, box, todo, h, t)} | t < |s.threads| :: ThreadOk(s, box, todo, h, t)
  }

  lemma InitialOk(s: State)
    requires Initial(s)
    ensures Inv(s, [], [], 0)
  {
  }

  // ---------------------------------------------------------------- each step keeps it

  /** Steps that only move a thread on, outside the handler. */
  predicate Plain(pc: Pc) {
    pc.Idle? || pc.ReadBox? || pc.SpinBusy? || pc.WaitStatus? || pc.Done?
  }

  lemma PlainThread(s: State, box: seq<nat>, todo: seq<nat>, h: nat, t: nat, u: nat)
    requires t < |s.threads| && u < |s.threads| && Plain(s.threads[t].pc)
    requires ThreadOk(s, box, todo, h, t) && ThreadOk(s, box, todo, h, u)
    requires s.busy ==> h < |s.threads| && Holding(s.threads[h].pc)
    ensures ThreadOk(Step(s, t), box, todo, h, u)
  {
  }

  /** Chains do not care about threads that are not on them, nor about anything but next pointers. */
  lemma ChainStays(threads: seq<Thread>, threads': seq<Thread>, list: seq<nat>)
    requires Chained(threads, list) && |threads'| == |threads|
    requires forall t: nat {:trigger threads'[t]} | t < |threads| && t in list :: threads'[t].next == threads[t].next
    ensures Chained(threads', list)
  {
  }

  lemma PlainLists(s: State, box: seq<nat>, todo: seq<nat>, h: nat, t: nat)
    requires t < |s.threads| && Plain(s.threads[t].pc) && ThreadOk(s, box, todo, h, t) && Lists(s, box, todo, h)
    ensures Lists(Step(s, t), box, todo, h)
  {
    var s' := Step(s, t);
    ChainStays(s.threads, s'.threads, box);
    ChainStays(s.threads, s'.threads, todo);
    forall u: nat
      ensures IsRequest(s', h, u) == IsRequest(s, h, u)
    {
    }
  }

  lemma PlainKeeps(s: State, box: seq<nat>, todo: seq<nat>, h: nat, t: nat)
    requires Inv(s, box, todo, h) && t < |s.threads| && Plain(s.threads[t].pc)
    ensures Inv(Step(s, t), box, todo, h)
  {
    assert ThreadOk(s, box, todo, h, t);
    PlainLists(s, box, todo, h, t);
    forall u: nat | u < |s.threads|
      ensures ThreadOk(Step(s, t), box, todo, h, u)
    {
      assert ThreadOk(s, box, todo, h, u);
      PlainThread(s, box, todo, h, t, u);
    }
  }

  lemma SwapThread(s: State, box: seq<nat>, todo: seq<nat>, h: nat, t: nat, u: nat)
    requires t < |s.threads| && u < |s.threads| && s.mailbox == s.threads[t].res && s.threads[t].pc.HaveRead?
    requires ThreadOk(s, box, todo, h, t) && ThreadOk(s, box, todo, h, u)
    requires box != [] <==> s.mailbox != Null
    requires s.busy ==> h < |s.threads| && Holding(s.threads[h].pc)
    ensures ThreadOk(Step(s, t), [t] + box, todo, h, u)
  {
  }

  lemma ChainGrows(threads: seq<Thread>, list: seq<nat>, t: nat)
    requires Chained(threads, list) && t < |threads| && t !in list && threads[t].next == Head(list)
    ensures Chained(threads, [t] + list)
  {
  }

  lemma SwapLists(s: State, box: seq<nat>, todo: seq<nat>, h: nat, t: nat)
    requires t < |s.threads| && s.mailbox == s.threads[t].res && s.threads[t].pc.HaveRead? && ThreadOk(s, box, todo, h, t) && Lists(s, box, todo, h)
    ensures Lists(Step(s, t), [t] + box, todo, h)
  {
    hide Chained;
    var s', box' := Step(s, t), [t] + box;
    ChainStays(s.threads, s'.threads, box);
    ChainStays(s.threads, s'.threads, todo);
    ChainGrows(s'.threads, box, t);
    assert box != [] ==> box'[|box'| - 1] == box[|box| - 1];
    forall x | x in box'
      ensures x !in todo && !IsRequest(s', h, x)
    {
      assert x == t || x in box;
    }
  }

  /** The compare-and-swap needs only the value: when it succeeds, the operation's own next
      pointer is the mailbox, whatever happened since the mailbox was read. */
  lemma SwapKeeps(s: State, box: seq<nat>, todo: seq<nat>, h: nat, t: nat)
    requires Inv(s, box, todo, h) && t < |s.threads| && s.mailbox == s.threads[t].res && s.threads[t].pc.HaveRead?
    ensures Inv(Step(s, t), [t] + box, todo, h)
  {
    assert ThreadOk(s, box, todo, h, t);
    SwapLists(s, box, todo, h, t);
    forall u: nat | u < |s.threads|
      ensures ThreadOk(Step(s, t), [t] + box, todo, h, u)
    {
      assert ThreadOk(s, box, todo, h, u);
      SwapThread(s, box, todo, h, t, u);
    }
  }

  lemma RetryThread(s: State, box: seq<nat>, todo: seq<nat>, h: nat, t: nat, u: nat)
    requires t < |s.threads| && u < |s.threads| && s.mailbox != s.threads[t].res && s.threads[t].pc.HaveRead?
    requires ThreadOk(s, box, todo, h, t) && ThreadOk(s, box, todo, h, u)
    requires s.busy ==> h < |s.threads| && Holding(s.threads[h].pc)
    ensures ThreadOk(Step(s, t), box, todo, h, u)
  {
  }

  lemma RetryLists(s: State, box: seq<nat>, todo: seq<nat>, h: nat, t: nat)
    requires t < |s.threads| && s.mailbox != s.threads[t].res && s.threads[t].pc.HaveRead? && ThreadOk(s, box, todo, h, t) && Lists(s, box, todo, h)
    ensures Lists(Step(s, t), box, todo, h)
  {
    var s' := Step(s, t);
    ChainStays(s.threads, s'.threads, box);
    ChainStays(s.threads, s'.threads, todo);
  }

  lemma RetryKeeps(s: State, box: seq<nat>, todo: seq<nat>, h: nat, t: nat)
    requires Inv(s, box, todo, h) && t < |s.threads| && s.mailbox != s.threads[t].res && s.threads[t].pc.HaveRead?
    ensures Inv(Step(s, t), box, todo, h)
  {
    assert ThreadOk(s, box, todo, h, t);
    RetryLists(s, box, todo, h, t);
    forall u: nat | u < |s.threads|
      ensures ThreadOk(Step(s, t), box, todo, h, u)
    {
      assert ThreadOk(s, box, todo, h, u);
      RetryThread(s, box, todo, h, t, u);
    }
  }

  lemma SetBusyThread(s: State, box: seq<nat>, todo: seq<nat>, h: nat, t: nat, u: nat)
    requires t < |s.threads| && u < |s.threads| && s.threads[t].pc.SetBusy?
    requires ThreadOk(s, box, todo, h, t) && ThreadOk(s, box, todo, h, u)
    requires forall v: nat :: !IsRequest(s, h, v)
    ensures ThreadOk(Step(s, t), box, todo, t, u)
  {
  }

  lemma SetBusyLists(s: State, box: seq<nat>, todo: seq<nat>, h: nat, t: nat)
    requires t < |s.threads| && s.threads[t].pc.SetBusy? && ThreadOk(s, box, todo, h, t) && Lists(s, box, todo, h)
    ensures Lists(Step(s, t), box, todo, t)
  {
  }

  /** The plain store is safe: only the leader can be here, and nobody holds the flag. */
  lemma SetBusyKeeps(s: State, box: seq<nat>, todo: seq<nat>, h: nat, t: nat)
    requires Inv(s, box, todo, h) && t < |s.threads| && s.threads[t].pc.SetBusy?
    ensures Inv(Step(s, t), box, todo, t)
  {
    assert ThreadOk(s, box, todo, h, t);
    assert h < |s.threads| ==> ThreadOk(s, box, todo, h, h);
    SetBusyLists(s, box, todo, h, t);
    forall u: nat | u < |s.threads|
      ensures ThreadOk(Step(s, t), box, todo, t, u)
    {
      assert ThreadOk(s, box, todo, h, u);
      SetBusyThread(s, box, todo, h, t, u);
    }
  }

  lemma GrabThread(s: State, box: seq<nat>, todo: seq<nat>, h: nat, t: nat, u: nat)
    requires t < |s.threads| && u < |s.threads| && s.threads[t].pc.Grab?
    requires ThreadOk(s, box, todo, h, t) && ThreadOk(s, box, todo, h, u)
    requires todo == []
    ensures ThreadOk(Step(s, t), [], box, h, u)
  {
  }

  lemma GrabLists(s: State, box: seq<nat>, todo: seq<nat>, h: nat, t: nat)
    requires t < |s.threads| && s.threads[t].pc.Grab? && ThreadOk(s, box, todo, h, t) && Lists(s, box, todo, h)
    ensures Lists(Step(s, t), [], box, h)
  {
  }

  lemma GrabKeeps(s: State, box: seq<nat>, todo: seq<nat>, h: nat, t: nat)
    requires Inv(s, box, todo, h) && t < |s.threads| && s.threads[t].pc.Grab?
    ensures Inv(Step(s, t), [], box, h)
  {
    assert ThreadOk(s, box, todo, h, t);
    GrabLists(s, box, todo, h, t);
    forall u: nat | u < |s.threads|
      ensures ThreadOk(Step(s, t), [], box, h, u)
    {
      assert ThreadOk(s, box, todo, h, u);
      GrabThread(s, box, todo, h, t, u);
    }
  }

  lemma TakeThread(s: State, box: seq<nat>, todo: seq<nat>, h: nat, t: nat, u: nat)
    requires t < |s.threads| && u < |s.threads| && todo != [] && s.threads[t].pc.Handling?
    requires ThreadOk(s, box, todo, h, t) && ThreadOk(s, box, todo, h, u)
    requires Chained(s.threads, todo) && s.threads[t].opList == Head(todo)
    ensures ThreadOk(Step(s, t), box, todo[1..], h, u)
  {
  }

  /** Without its first element a chain is a chain from there. */
  lemma ChainTail(threads: seq<Thread>, list: seq<nat>)
    requires Chained(threads, list) && list != []
    ensures Chained(threads, list[1..]) && Head(list[1..]) == threads[list[0]].next && list[0] !in list[1..]
  {
  }

  lemma TakeLists(s: State, box: seq<nat>, todo: seq<nat>, h: nat, t: nat)
    requires t < |s.threads| && todo != [] && s.threads[t].pc.Handling? && ThreadOk(s, box, todo, h, t) && Lists(s, box, todo, h)
    ensures Lists(Step(s, t), box, todo[1..], h)
  {
    var s' := Step(s, t);
    ChainTail(s.threads, todo);
    assert s'.threads == s.threads[t := s.threads[t].(pc := Applying, request := To(todo[0]), opList := Head(todo[1..]))];
    assert s'.mailbox == s.mailbox && s'.busy == s.busy;
    hide Step;
    ChainStays(s.threads, s'.threads, box);
    ChainStays(s.threads, s'.threads, todo[1..]);
    assert box != [] ==> box[|box| - 1] in box;
    hide Chained;
    assert todo[0] in todo;
    forall x | x in todo[1..]
      ensures x in todo && x != todo[0]
    {
    }
  }

  lemma TakeKeeps(s: State, box: seq<nat>, todo: seq<nat>, h: nat, t: nat)
    requires Inv(s, box, todo, h) && t < |s.threads| && todo != [] && s.threads[t].pc.Handling?
    ensures Inv(Step(s, t), box, todo[1..], h)
  {
    assert ThreadOk(s, box, todo, h, t);
    TakeLists(s, box, todo, h, t);
    forall u: nat | u < |s.threads|
      ensures ThreadOk(Step(s, t), box, todo[1..], h, u)
    {
      assert ThreadOk(s, box, todo, h, u);
      TakeThread(s, box, todo, h, t, u);
    }
  }

  lemma DrainedThread(s: State, box: seq<nat>, todo: seq<nat>, h: nat, t: nat, u: nat)
    requires t < |s.threads| && u < |s.threads| && todo == [] && s.threads[t].pc.Handling?
    requires ThreadOk(s, box, todo, h, t) && ThreadOk(s, box, todo, h, u)
    requires s.threads[t].opList == Null
    ensures ThreadOk(Step(s, t), box, todo, h, u)
  {
  }

  lemma DrainedLists(s: State, box: seq<nat>, todo: seq<nat>, h: nat, t: nat)
    requires t < |s.threads| && todo == [] && s.threads[t].pc.Handling? && ThreadOk(s, box, todo, h, t) && Lists(s, box, todo, h)
    ensures Lists(Step(s, t), box, todo, h)
  {
  }

  lemma DrainedKeeps(s: State, box: seq<nat>, todo: seq<nat>, h: nat, t: nat)
    requires Inv(s, box, todo, h) && t < |s.threads| && todo == [] && s.threads[t].pc.Handling?
    ensures Inv(Step(s, t), box, todo, h)
  {
    assert ThreadOk(s, box, todo, h, t);
    DrainedLists(s, box, todo, h, t);
    forall u: nat | u < |s.threads|
      ensures ThreadOk(Step(s, t), box, todo, h, u)
    {
      assert ThreadOk(s, box, todo, h, u);
      DrainedThread(s, box, todo, h, t, u);
    }
  }

  lemma ApplyThread(s: State, box: seq<nat>, todo: seq<nat>, h: nat, t: nat, u: nat)
    requires t < |s.threads| && u < |s.threads| && s.threads[t].pc.Applying?
    requires ThreadOk(s, box, todo, h, t) && ThreadOk(s, box, todo, h, u)
    requires s.threads[t].request.To? && s.threads[t].request.index < |s.threads|
    requires forall v: nat | IsRequest(s, h, v) :: v !in box && v !in todo
    ensures ThreadOk(Step(s, t), box, todo, h, u)
  {
  }

  lemma ApplyLists(s: State, box: seq<nat>, todo: seq<nat>, h: nat, t: nat)
    requires t < |s.threads| && s.threads[t].pc.Applying? && ThreadOk(s, box, todo, h, t) && Lists(s, box, todo, h)
    ensures Lists(Step(s, t), box, todo, h)
  {
    var s' := Step(s, t);
    ChainStays(s.threads, s'.threads, box);
    ChainStays(s.threads, s'.threads, todo);
  }

  lemma ApplyKeeps(s: State, box: seq<nat>, todo: seq<nat>, h: nat, t: nat)
    requires Inv(s, box, todo, h) && t < |s.threads| && s.threads[t].pc.Applying?
    ensures Inv(Step(s, t), box, todo, h)
  {
    assert ThreadOk(s, box, todo, h, t);
    ApplyLists(s, box, todo, h, t);
    forall u: nat | u < |s.threads|
      ensures ThreadOk(Step(s, t), box, todo, h, u)
    {
      assert ThreadOk(s, box, todo, h, u);
      ApplyThread(s, box, todo, h, t, u);
    }
  }

  lemma FinishThread(s: State, box: seq<nat>, todo: seq<nat>, h: nat, t: nat, u: nat)
    requires t < |s.threads| && u < |s.threads| && s.threads[t].pc.Finishing?
    requires ThreadOk(s, box, todo, h, t) && ThreadOk(s, box, todo, h, u)
    requires s.threads[t].request.To? && s.threads[t].request.index < |s.threads|
    requires forall v: nat | IsRequest(s, h, v) :: v !in box && v !in todo
    ensures ThreadOk(Step(s, t), box, todo, h, u)
  {
  }

  lemma FinishLists(s: State, box: seq<nat>, todo: seq<nat>, h: nat, t: nat)
    requires t < |s.threads| && s.threads[t].pc.Finishing? && ThreadOk(s, box, todo, h, t) && Lists(s, box, todo, h)
    ensures Lists(Step(s, t), box, todo, h)
  {
    var s' := Step(s, t);
    ChainStays(s.threads, s'.threads, box);
    ChainStays(s.threads, s'.threads, todo);
  }

  lemma FinishKeeps(s: State, box: seq<nat>, todo: seq<nat>, h: nat, t: nat)
    requires Inv(s, box, todo, h) && t < |s.threads| && s.threads[t].pc.Finishing?
    ensures Inv(Step(s, t), box, todo, h)
  {
    assert ThreadOk(s, box, todo, h, t);
    FinishLists(s, box, todo, h, t);
    forall u: nat | u < |s.threads|
      ensures ThreadOk(Step(s, t), box, todo, h, u)
    {
      assert ThreadOk(s, box, todo, h, u);
      FinishThread(s, box, todo, h, t, u);
    }
  }

  lemma ReleaseThread(s: State, box: seq<nat>, todo: seq<nat>, h: nat, t: nat, u: nat)
    requires t < |s.threads| && u < |s.threads| && s.threads[t].pc.Release?
    requires ThreadOk(s, box, todo, h, t) && ThreadOk(s, box, todo, h, u)
    requires todo == []
    ensures ThreadOk(Step(s, t), box, todo, h, u)
  {
  }

  lemma ReleaseLists(s: State, box: seq<nat>, todo: seq<nat>, h: nat, t: nat)
    requires t < |s.threads| && s.threads[t].pc.Release? && ThreadOk(s, box, todo, h, t) && Lists(s, box, todo, h)
    ensures Lists(Step(s, t), box, todo, h)
  {
  }

  lemma ReleaseKeeps(s: State, box: seq<nat>, todo: seq<nat>, h: nat, t: nat)
    requires Inv(s, box, todo, h) && t < |s.threads| && s.threads[t].pc.Release?
    ensures Inv(Step(s, t), box, todo, h)
  {
    assert ThreadOk(s, box, todo, h, t);
    ReleaseLists(s, box, todo, h, t);
    forall u: nat | u < |s.threads|
      ensures ThreadOk(Step(s, t), box, todo, h, u)
    {
      assert ThreadOk(s, box, todo, h, u);
      ReleaseThread(s, box, todo, h, t, u);
    }
  }

  // ---------------------------------------------------------------- every run

  lemma StepKeeps(s: State, box: seq<nat>, todo: seq<nat>, h: nat, t: nat)
    returns (box': seq<nat>, todo': seq<nat>, h': nat)
    requires Inv(s, box, todo, h) && t < |s.threads|
    ensures Inv(Step(s, t), box', todo', h')
  {
    box', todo', h' := box, todo, h;
    match s.threads[t].pc {
      case HaveRead =>
        if s.mailbox == s.threads[t].res {
          SwapKeeps(s, box, todo, h, t);
          box' := [t] + box;
        } else {
          RetryKeeps(s, box, todo, h, t);
        }
      case SetBusy =>
        SetBusyKeeps(s, box, todo, h, t);
        h' := t;
      case Grab =>
        GrabKeeps(s, box, todo, h, t);
        box', todo' := [], box;
      case Handling =>
        if todo == [] {
          DrainedKeeps(s, box, todo, h, t);
        } else {
          TakeKeeps(s, box, todo, h, t);
          todo' := todo[1..];
        }
      case Applying => ApplyKeeps(s, box, todo, h, t);
      case Finishing => FinishKeeps(s, box, todo, h, t);
      case Release => ReleaseKeeps(s, box, todo, h, t);
      case _ => PlainKeeps(s, box, todo, h, t);
    }
  }

  predicate Schedule(s: State, schedule: seq<nat>) {
    forall k | 0 <= k < |schedule| :: schedule[k] < |s.threads|
  }

  lemma {:induction false} RunKeeps(s: State, schedule: seq<nat>) returns (box: seq<nat>, todo: seq<nat>, h: nat)
    requires Initial(s) && Schedule(s, schedule)
    ensures Inv(Run(s, schedule), box, todo, h)
    decreases |schedule|
  {
    if schedule == [] {
      InitialOk(s);
      box, todo, h := [], [], 0;
    } else {
      var n := |schedule| - 1;
      box, todo, h := RunKeeps(s, schedule[..n]);
      box, todo, h := StepKeeps(Run(s, schedule[..n]), box, todo, h, schedule[n]);
    }
  }

  /** In every interleaving at most one thread is past its winning swap and before taking the
      list; so at most one ever waits for handler_busy. */
  lemma {:induction false} OneLeader(s: State, schedule: seq<nat>, t: nat, u: nat)
    requires Initial(s) && Schedule(s, schedule) && t < |s.threads| && u < |s.threads|
    requires Leading(Run(s, schedule).threads[t].pc) && Leading(Run(s, schedule).threads[u].pc)
    ensures t == u
  {
    var box, todo, h := RunKeeps(s, schedule);
    assert ThreadOk(Run(s, schedule), box, todo, h, t) && ThreadOk(Run(s, schedule), box, todo, h, u);
  }

  /** At most one thread runs the handler; handler_busy is up exactly while one does, and the
      plain store that raises it never finds it up. */
  lemma {:induction false} OneHandler(s: State, schedule: seq<nat>, t: nat, u: nat)
    requires Initial(s) && Schedule(s, schedule) && t < |s.threads| && u < |s.threads|
    ensures var r := Run(s, schedule);
            && (Holding(r.threads[t].pc) && Holding(r.threads[u].pc) ==> t == u)
            && (Holding(r.threads[t].pc) ==> r.busy)
            && (r.threads[t].pc.SetBusy? ==> !r.busy && !Holding(r.threads[u].pc))
  {
    var box, todo, h := RunKeeps(s, schedule);
    assert ThreadOk(Run(s, schedule), box, todo, h, t) && ThreadOk(Run(s, schedule), box, todo, h, u);
  }

  /** The mailbox is occupied exactly while some thread leads, and the flag up exactly while one handles. */
  lemma {:induction false} FlagsMeanThreads(s: State, schedule: seq<nat>)
    requires Initial(s) && Schedule(s, schedule)
    ensures var r := Run(s, schedule);
            && (r.mailbox != Null <==> exists t: nat :: t < |r.threads| && Leading(r.threads[t].pc))
            && (r.busy <==> exists t: nat :: t < |r.threads| && Holding(r.threads[t].pc))
  {
    var r := Run(s, schedule);
    var box, todo, h := RunKeeps(s, schedule);
    if r.mailbox != Null {
      assert Leading(r.threads[box[|box| - 1]].pc);
    }
    forall t: nat | t < |r.threads|
      ensures Leading(r.threads[t].pc) ==> r.mailbox != Null
      ensures Holding(r.threads[t].pc) ==> r.busy
    {
      assert ThreadOk(r, box, todo, h, t);
    }
  }

  /** Every submitted operation is applied exactly once: never twice, and by the time its
      submitter returns it has been applied and marked finished. */
  lemma {:induction false} AppliedExactlyOnce(s: State, schedule: seq<nat>, t: nat)
    requires Initial(s) && Schedule(s, schedule) && t < |s.threads|
    ensures var th := Run(s, schedule).threads[t];
            && th.applied <= th.submitted <= th.applied + 1
            && (th.pc.Idle? || th.pc.Done? ==> th.applied == th.submitted)
            && (th.pc.Done? ==> th.finished)
  {
    var box, todo, h := RunKeeps(s, schedule);
    assert ThreadOk(Run(s, schedule), box, todo, h, t);
  }

  /** No submitter gets past its wait before its operation has been applied. */
  lemma {:induction false} NoEarlyReturn(s: State, schedule: seq<nat>, t: nat)
    requires Initial(s) && Schedule(s, schedule) && t < |s.threads|
    ensures var r := Run(s, schedule);
            r.threads[t].pc.WaitStatus? && Step(r, t) != r ==> r.threads[t].applied == r.threads[t].submitted
  {
    var box, todo, h := RunKeeps(s, schedule);
    assert ThreadOk(Run(s, schedule), box, todo, h, t);
  }

  lemma SomeoneMoves(s: State, box: seq<nat>, todo: seq<nat>, h: nat, t: nat) returns (u: nat)
    requires Inv(s, box, todo, h) && t < |s.threads| && !s.threads[t].pc.Idle?
    ensures u < |s.threads| && !s.threads[u].pc.Idle? && Step(s, u) != s
  {
    assert ThreadOk(s, box, todo, h, t);
    if s.busy {
      u := h;
      assert ThreadOk(s, box, todo, h, h);
    } else if box != [] {
      u := box[|box| - 1];
    } else {
      u := t;
      assert h < |s.threads| ==> ThreadOk(s, box, todo, h, h);
    }
    MovesOn(s, u);
  }

  /** The protocol never gets stuck: while a thread is inside execute, some thread inside can move. */
  lemma NeverStuck(s: State, schedule: seq<nat>, t: nat) returns (u: nat)
    requires Initial(s) && Schedule(s, schedule) && t < |s.threads| && !Run(s, schedule).threads[t].pc.Idle?
    ensures u < |s.threads| && !Run(s, schedule).threads[u].pc.Idle?
    ensures Step(Run(s, schedule), u) != Run(s, schedule)
  {
    var box, todo, h := RunKeeps(s, schedule);
    u := SomeoneMoves(Run(s, schedule), box, todo, h, t);
  }

  /** Only the two waits can leave a thread where it is. */
  lemma MovesOn(s: State, t: nat)
    requires t < |s.threads|
    requires s.threads[t].pc.SpinBusy? ==> !s.busy
    requires s.threads[t].pc.WaitStatus? ==> s.threads[t].finished
    ensures Step(s, t) != s
  {
  }
}
