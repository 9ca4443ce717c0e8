/** Any number of threads on one queue. The locked part of an operation and its
    semaphore action are separate steps, so other threads can act in between. */
module QueueProtocol {
  datatype Pc =
    | Idle
    | Posting     // a message was stored and the semaphore is still to be posted
    | Entitled    // the semaphore was taken and the message is still to be

  datatype State<T> = State(
    contents: seq<T>,
    semaphore: nat,
    pc: map<int, Pc>,
    stored: seq<T>,     // history: every message pushed
    taken: seq<T>)      // history: every message popped and not returned since

  datatype Step<T> =
    | Store(thread: int, msg: T)
    | Restore(thread: int, msg: T)
    | Post(thread: int)
    | Wait(thread: int)
    | Take(thread: int)

  ghost function Initial<T>(threads: set<int>): State<T> {
    State([], 0, map t | t in threads :: Idle, [], [])
  }

  /** What a thread may do next. A take checks nothing: whoever passed the
      semaphore reads the front slot. */
  predicate Enabled<T>(s: State<T>, step: Step<T>) {
    step.thread in s.pc &&
    match step
    case Store(t, _) => s.pc[t] == Idle
    case Restore(t, _) => s.pc[t] == Idle
    case Post(t) => s.pc[t] == Posting
    case Wait(t) => s.pc[t] == Idle && s.semaphore > 0
    case Take(t) => s.pc[t] == Entitled
  }

  function Next<T(==)>(s: State<T>, step: Step<T>): State<T>
    requires Enabled(s, step)
  {
    match step
    case Store(t, msg) =>
      s.(contents := s.contents + [msg], pc := s.pc[t := Posting], stored := s.stored + [msg])
    case Restore(t, msg) =>
      s.(contents := [msg] + s.contents, pc := s.pc[t := Posting],
         taken := if Returns(s, step) then s.taken[..|s.taken| - 1] else s.taken)
    case Post(t) =>
      s.(semaphore := s.semaphore + 1, pc := s.pc[t := Idle])
    case Wait(t) =>
      s.(semaphore := s.semaphore - 1, pc := s.pc[t := Entitled])
    case Take(t) =>
      if s.contents == [] then s.(pc := s.pc[t := Idle])
      else s.(contents := s.contents[1..], pc := s.pc[t := Idle], taken := s.taken + [s.contents[0]])
  }

  /** An unpop that puts back the message taken last. */
  predicate Returns<T(==)>(s: State<T>, step: Step<T>) {
    step.Restore? ==> s.taken != [] && s.taken[|s.taken| - 1] == step.msg
  }

  ghost predicate Reaches<T>(s: State<T>, steps: seq<Step<T>>, end: State<T>)
    decreases |steps|
  {
    if steps == [] then end == s
    else Enabled(s, steps[0]) && Reaches(Next(s, steps[0]), steps[1..], end)
  }

  ghost predicate OnlyReturns<T>(s: State<T>, steps: seq<Step<T>>)
    decreases |steps|
  {
    steps == [] || (Enabled(s, steps[0]) && Returns(s, steps[0]) && OnlyReturns(Next(s, steps[0]), steps[1..]))
  }

  // Safety

  ghost function At(pc: map<int, Pc>, where: Pc): set<int> {
    set t | t in pc && pc[t] == where
  }

  lemma ThreadMoves(pc: map<int, Pc>, t: int, to: Pc)
    requires t in pc && pc[t] != to
    ensures |At(pc[t := to], to)| == |At(pc, to)| + 1
    ensures |At(pc[t := to], pc[t])| == |At(pc, pc[t])| - 1
    ensures forall other | other != to && other != pc[t] :: At(pc[t := to], other) == At(pc, other)
  {
    assert At(pc[t := to], to) == At(pc, to) + {t};
    assert t in At(pc, pc[t]) && At(pc[t := to], pc[t]) == At(pc, pc[t]) - {t};
  }

  /** Every stored message is accounted for by the semaphore, by a post still to
      come, or by a thread entitled to it. */
  ghost predicate Balanced<T>(s: State<T>) {
    |s.contents| == s.semaphore + |At(s.pc, Posting)| + |At(s.pc, Entitled)|
  }

  lemma InitialBalanced<T>(threads: set<int>)
    ensures Balanced(Initial<T>(threads))
  {
    var s := Initial<T>(threads);
    assert At(s.pc, Posting) == {} && At(s.pc, Entitled) == {};
  }

  lemma BalancedNext<T>(s: State<T>, step: Step<T>)
    requires Balanced(s) && Enabled(s, step)
    ensures Balanced(Next(s, step))
  {
    ThreadMoves(s.pc, step.thread, Next(s, step).pc[step.thread]);
    if step.Take? {
      assert step.thread in At(s.pc, Entitled);
    }
  }

  lemma {:induction false} BalancedAlong<T>(s: State<T>, steps: seq<Step<T>>, end: State<T>)
    requires Balanced(s) && Reaches(s, steps, end)
    ensures Balanced(end)
    decreases |steps|
  {
    if steps != [] {
      BalancedNext(s, steps[0]);
      BalancedAlong(Next(s, steps[0]), steps[1..], end);
    }
  }

  /** In every reachable state there are at least as many messages stored as
      there are threads entitled to one: no pop ever reads an empty slot, and
      the semaphore never promises more than is stored. */
  lemma PopsFindMessages<T>(threads: set<int>, steps: seq<Step<T>>, end: State<T>)
    requires Reaches(Initial(threads), steps, end)
    ensures |end.contents| == end.semaphore + |At(end.pc, Posting)| + |At(end.pc, Entitled)|
    ensures forall t :: t in end.pc && end.pc[t] == Entitled ==> end.contents != [] && end.semaphore < |end.contents|
  {
    var s := Initial<T>(threads);
    InitialBalanced<T>(threads);
    BalancedAlong(s, steps, end);
    forall t | t in end.pc && end.pc[t] == Entitled
      ensures end.contents != [] && end.semaphore < |end.contents|
    {
      assert t in At(end.pc, Entitled);
    }
  }

  // Order

  lemma OrderNext<T>(s: State<T>, step: Step<T>)
    requires Balanced(s) && Enabled(s, step) && Returns(s, step)
    requires s.taken + s.contents == s.stored
    ensures Next(s, step).taken + Next(s, step).contents == Next(s, step).stored
  {
    var s' := Next(s, step);
    match step {
      case Restore(_, msg) =>
        assert s.taken == s'.taken + [msg];
      case Take(t) =>
        assert t in At(s.pc, Entitled);
        assert s.contents == [s.contents[0]] + s.contents[1..];
      case _ =>
    }
  }

  lemma {:induction false} OrderAlong<T>(s: State<T>, steps: seq<Step<T>>, end: State<T>)
    requires Balanced(s) && Reaches(s, steps, end) && OnlyReturns(s, steps)
    requires s.taken + s.contents == s.stored
    ensures end.taken + end.contents == end.stored
    decreases |steps|
  {
    if steps != [] {
      BalancedNext(s, steps[0]);
      OrderNext(s, steps[0]);
      OrderAlong(Next(s, steps[0]), steps[1..], end);
    }
  }

  /** First in, first out, whatever the interleaving: the messages taken and not
      put back are the first ones stored, in order, and the rest is still there. */
  lemma FirstInFirstOut<T>(threads: set<int>, steps: seq<Step<T>>, end: State<T>)
    requires Reaches(Initial(threads), steps, end) && OnlyReturns(Initial(threads), steps)
    ensures end.taken + end.contents == end.stored
  {
    var s := Initial<T>(threads);
    InitialBalanced<T>(threads);
    OrderAlong(s, steps, end);
  }
}

/** The threads of the protocol on the linked queue. */
module SharedQueues {
  import opened QueueProtocol
  import opened MessageQueues

  /** Executes any interleaving of the threads' steps on a new queue. Whenever a
      step is due the queue allows it: a take always finds its message, so it
      reads a filled slot and follows no null link. */
  method Execute<T(0, ==)>(chunkSize: nat, ghost threads: set<int>, steps: seq<Step<T>>, ghost end: State<T>)
    returns (queue: MessageQueue<T>)
    requires chunkSize > 0 && Reaches(Initial(threads), steps, end)
    ensures fresh(queue) && fresh(queue.Repr) && queue.Valid()
    ensures queue.Contents() == end.contents && queue.semaphore == end.semaphore
  {
    queue := new MessageQueue<T>.Init(chunkSize);
    ghost var s := Initial<T>(threads);
    InitialBalanced<T>(threads);
    var i := 0;
    while i < |steps|
      invariant 0 <= i <= |steps| && Reaches(s, steps[i..], end) && Balanced(s)
      invariant queue.Valid() && fresh(queue) && fresh(queue.Repr)
      invariant queue.Contents() == s.contents && queue.semaphore == s.semaphore
    {
      assert steps[i..][0] == steps[i] && steps[i..][1..] == steps[i + 1..];
      StepAllowed(s, steps[i]);
      BalancedNext(s, steps[i]);
      ExecuteStep(queue, s, steps[i]);
      s := Next(s, steps[i]);
      i := i + 1;
    }
  }

  method ExecuteStep<T(0, ==)>(queue: MessageQueue<T>, ghost s: State<T>, step: Step<T>)
    requires queue.Valid() && queue.Contents() == s.contents && queue.semaphore == s.semaphore
    requires Enabled(s, step) && Allowed(s, step)
    modifies queue.Repr
    ensures queue.Valid() && fresh(queue.Repr - old(queue.Repr))
    ensures queue.Contents() == Next(s, step).contents && queue.semaphore == Next(s, step).semaphore
  {
    match step
    case Store(_, msg) => queue.Store(msg);
    case Restore(_, msg) => queue.Restore(msg);
    case Post(_) => queue.Post();
    case Wait(_) => queue.Wait();
    case Take(_) =>
      var msg := queue.Take();
      assert s.contents == [msg] + queue.Contents();
  }

  /** What the queue demands of its callers. */
  predicate Allowed<T>(s: State<T>, step: Step<T>) {
    && (step.Post? ==> s.semaphore < |s.contents|)
    && (step.Wait? ==> s.semaphore > 0)
    && (step.Take? ==> s.semaphore < |s.contents|)
  }

  lemma StepAllowed<T>(s: State<T>, step: Step<T>)
    requires Balanced(s) && Enabled(s, step)
    ensures Allowed(s, step)
  {
    assert step.Post? ==> step.thread in At(s.pc, Posting);
    assert step.Take? ==> step.thread in At(s.pc, Entitled);
  }
}
