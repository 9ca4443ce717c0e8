/** The logger and its surroundings as a step system. One step is one action
    another thread can come in between: a locked queue operation, a semaphore
    action, or an action on what belongs to the logger alone. */
module LoggerModel {
  import opened Lines
  import opened Wrappers

  /** What the queue stores: a message, or the null that ends it. */
  datatype Item = Line(text: seq<byte>) | Sentinel

  /** Why a message is popped: to be held for delivery, or to be spilled to the
      backlog file, with so many pops still to do. A starting spill is one that
      begins the backlog; nothing is held then. */
  datatype Goal = ForDelivery | ForSpill(starting: bool, left: nat)

  /** Where to go on after an unpop. */
  datatype Back = ToHolding | ToResuming(starting: bool)

  datatype Exit =
    | Drained      // the sentinel was taken in the main loop
    | Spilled      // the sentinel was taken while spilling
    | Aborted      // spilling was attempted without an open backlog
    | NothingRead  // the backlog just started was found empty

  datatype Pc =
    | Opening                     // before looking for an old backlog
    | Waiting(goal: Goal)         // before the semaphore of a pop
    | Taking(goal: Goal)          // before the locked part of a pop
    | Holding                     // loop head, a message held
    | Sampling(starting: bool)       // before reading the queue size
    | Writing(starting: bool, left: nat)   // a popped message in hand, before it is appended
    | Unpopping(back: Back)       // before the locked part of an unpop
    | Reposting(back: Back)       // before the semaphore action of an unpop
    | Resuming(starting: bool, failed: bool)   // after a spill, which an append may have ended
    | Stopped(exit: Exit)

  datatype State = State(
    pc: Pc,
    held: Option<seq<byte>>,      // the message to be delivered
    hand: Option<seq<byte>>,      // the message being spilled
    disk: Disk,
    shared: Shared,
    past: Past)

  /** The backlog file and the logger's two handles on it. */
  datatype Disk = Disk(
    hasBacklog: bool,             // a backlog file was configured
    file: seq<seq<byte>>,         // its lines
    reading: Option<nat>,         // the handle for reading, and how many lines it has read
    appending: bool)              // the handle for appending is open

  /** The queue, and what the reader has done to it. */
  datatype Shared = Shared(
    queue: seq<Item>,
    semaphore: nat,
    unposted: nat,                // messages stored by the reader, its post still to come
    finished: bool,               // the sentinel was pushed
    pushed: seq<seq<byte>>)       // every message pushed

  /** History. A message is known by its number among those due, which are the
      lines of the old backlog and then the messages pushed. */
  datatype Past = Past(
    initial: seq<seq<byte>>,      // the lines of the backlog found at the start
    delivered: seq<seq<byte>>,
    numbers: seq<nat>,            // of the messages delivered and those on their way, in order
    doubled: multiset<nat>,       // messages put back on the queue while they stayed held
    lost: multiset<nat>)          // messages freed that never got to the backlog

  function UpTo(n: nat): (s: seq<nat>)
    ensures |s| == n && forall i | 0 <= i < n :: s[i] == i
  {
    seq(n, (i: nat) => i)
  }

  /** The message at place `k` of those on their way is lost. */
  function Lose(past: Past, k: nat): Past {
    if k < |past.numbers| then
      past.(numbers := past.numbers[..k] + past.numbers[k + 1..], lost := past.lost + multiset{past.numbers[k]})
    else past
  }

  /** The message at place `k` of those on their way gets a copy right behind it. */
  function Double(past: Past, k: nat): Past {
    if k < |past.numbers| then
      past.(numbers := past.numbers[..k + 1] + past.numbers[k..], doubled := past.doubled + multiset{past.numbers[k]})
    else past
  }

  /** What becomes of a line written to the backlog. */
  datatype Write =
    | Written      // it is in the file
    | Refused      // `fputs` reports an error
    | Lost         // `fputs` takes it, and the flush whose result is ignored fails

  datatype Event =
    | Store(item: Item)           // the reader
    | Post
    | Open(ok: bool)              // the logger
    | Wait
    | Take
    | Delivered
    | Failed(appendOk: bool, readOk: bool, write: Write)
    | Sample
    | Append(write: Write)
    | Unpop
    | Repost
    | Resume(ferror: bool)

  predicate IsDelivery(e: Event) {
    e.Delivered? || e.Failed?
  }

  function Initial(hasBacklog: bool, file: seq<seq<byte>>): State {
    State(Opening, None, None, Disk(hasBacklog, file, None, false), Shared([], 0, 0, false, []),
          Past(file, [], UpTo(|file|), multiset{}, multiset{}))
  }

  /** A backlog file holds complete lines, and there is none unless configured. */
  predicate GoodFile(hasBacklog: bool, file: seq<seq<byte>>) {
    (forall line <- file :: Framed(line)) && (!hasBacklog ==> file == [])
  }

  /** The environment's choices: an existing backlog opens; reading opens
      whenever appending does; the reader pushes framed lines and one sentinel. */
  predicate Enabled(s: State, e: Event) {
    match e
    case Store(item) => !s.shared.finished && (item.Line? ==> Framed(item.text))
    case Post => s.shared.unposted > 0
    case Open(ok) => s.pc.Opening? && (ok ==> s.disk.hasBacklog) && (!ok ==> s.disk.file == [])
    case Wait => s.pc.Waiting? && s.shared.semaphore > 0
    case Take => s.pc.Taking? && s.shared.queue != []
    case Delivered => s.pc.Holding? && s.held.Some?
    case Failed(appendOk, readOk, _) => s.pc.Holding? && s.held.Some? && (appendOk ==> readOk)
    case Sample => s.pc.Sampling?
    case Append(_) => s.pc.Writing? && s.hand.Some?
    case Unpop => s.pc.Unpopping? && (s.pc.back.ToHolding? ==> s.held.Some?) && (s.pc.back.ToResuming? ==> s.hand.Some?)
    case Repost => s.pc.Reposting?
    case Resume(ferror) => s.pc.Resuming? && (ferror ==> s.pc.failed)
  }

  function Pos(s: State): nat {
    if s.disk.reading.Some? then s.disk.reading.value else 0
  }

  /** `getline` on the open backlog: holds the next line, or finds the end. */
  function GetLine(s: State): Option<State>
    requires Pos(s) <= |s.disk.file|
  {
    if Pos(s) == |s.disk.file| then None
    else Some(s.(held := Some(s.disk.file[Pos(s)]), disk := s.disk.(reading := Some(Pos(s) + 1)), pc := Holding))
  }

  function Next(s: State, e: Event): State
    requires Enabled(s, e) && Pos(s) <= |s.disk.file|
  {
    match e
    case Store(item) => AfterStore(s, item)
    case Post => AfterPost(s)
    case Open(ok) => AfterOpen(s, ok)
    case Wait => AfterWait(s)
    case Take => AfterTake(s)
    case Delivered => AfterDelivery(s)
    case Failed(appendOk, readOk, write) => AfterFailure(s, appendOk, readOk, write)
    case Sample => AfterSample(s)
    case Append(write) => AfterAppend(s, write)
    case Unpop => AfterUnpop(s)
    case Repost => AfterRepost(s)
    case Resume(ferror) => AfterResume(s, ferror)
  }

  function AfterStore(s: State, item: Item): State {
    var shared := s.shared;
    s.(shared := shared.(
         queue := shared.queue + [item],
         unposted := shared.unposted + 1,
         finished := item.Sentinel?,
         pushed := if item.Line? then shared.pushed + [item.text] else shared.pushed),
       past := if item.Line? then s.past.(numbers := s.past.numbers + [|s.past.initial| + |shared.pushed|]) else s.past)
  }

  function AfterPost(s: State): State
    requires s.shared.unposted > 0
  {
    s.(shared := s.shared.(semaphore := s.shared.semaphore + 1, unposted := s.shared.unposted - 1))
  }

  function AfterOpen(s: State, ok: bool): State
    requires Pos(s) <= |s.disk.file|
  {
    if ok then
      match GetLine(s.(disk := s.disk.(reading := Some(0))))
      case Some(s') => s'
      case None => s.(pc := Waiting(ForDelivery))
    else s.(pc := Waiting(ForDelivery))
  }

  function AfterWait(s: State): State
    requires s.pc.Waiting? && s.shared.semaphore > 0
  {
    s.(shared := s.shared.(semaphore := s.shared.semaphore - 1), pc := Taking(s.pc.goal))
  }

  function AfterTake(s: State): State
    requires s.pc.Taking? && s.shared.queue != []
  {
    var item, s' := s.shared.queue[0], s.(shared := s.shared.(queue := s.shared.queue[1..]));
    match s.pc.goal
    case ForDelivery =>
      if item.Line? then s'.(held := Some(item.text), pc := Holding) else s'.(pc := Stopped(Drained))
    case ForSpill(starting, left) =>
      if item.Line? then s'.(hand := Some(item.text), pc := Writing(starting, left))
      else s'.(pc := Stopped(Spilled))
  }

  function AfterDelivery(s: State): State
    requires s.held.Some? && Pos(s) <= |s.disk.file|
  {
    var s' := s.(past := s.past.(delivered := s.past.delivered + [s.held.value]), held := None);
    if s.disk.reading.None? then s'.(pc := Waiting(ForDelivery))
    else match GetLine(s'.(disk := s.disk.(appending := false)))
      case Some(s'') => s''
      case None => s'.(disk := Disk(s.disk.hasBacklog, [], None, false), pc := Waiting(ForDelivery))
  }

  /** With a backlog being read, the handle for appending is opened in one pass
      and used from the next failure on: the result of opening it is tested the
      wrong way round. Without a backlog, one is started with the message held,
      which is freed once `fputs` has taken it. */
  function AfterFailure(s: State, appendOk: bool, readOk: bool, write: Write): State
    requires s.held.Some?
  {
    if s.disk.reading.Some? then
      if s.disk.appending then s.(pc := Sampling(false))
      else if !s.disk.hasBacklog then s
      else if appendOk then s.(disk := s.disk.(appending := true))
      else s.(pc := Stopped(Aborted))
    else if !s.disk.hasBacklog then s
    else
      var disk := s.disk.(reading := if readOk then Some(0) else None, appending := appendOk);
      if !appendOk then s.(disk := disk)
      else match write
        case Refused => s.(disk := disk, pc := Unpopping(ToHolding))
        case Written => s.(disk := disk.(file := disk.file + [s.held.value]), held := None, pc := Sampling(true))
        case Lost => s.(disk := disk, held := None, pc := Sampling(true), past := Lose(s.past, |s.past.delivered|))
  }

  function AfterSample(s: State): State
    requires s.pc.Sampling?
  {
    s.(pc := if s.shared.semaphore == 0 then Resuming(s.pc.starting, false)
             else Waiting(ForSpill(s.pc.starting, s.shared.semaphore)))
  }

  /** The place of the message being spilled among those on their way. */
  function PlaceInHand(s: State): nat
    requires Pos(s) <= |s.disk.file|
  {
    |s.past.delivered| + (if s.held.Some? then 1 else 0) + (|s.disk.file| - Pos(s))
  }

  function AfterAppend(s: State, write: Write): State
    requires s.pc.Writing? && s.hand.Some? && Pos(s) <= |s.disk.file|
  {
    var after := if s.pc.left <= 1 then Resuming(s.pc.starting, false)
                 else Waiting(ForSpill(s.pc.starting, s.pc.left - 1));
    match write
    case Refused => s.(pc := Unpopping(ToResuming(s.pc.starting)))
    case Written => s.(disk := s.disk.(file := s.disk.file + [s.hand.value]), hand := None, pc := after)
    case Lost => s.(hand := None, pc := after, past := Lose(s.past, PlaceInHand(s)))
  }

  function AfterUnpop(s: State): State
    requires s.pc.Unpopping? && if s.pc.back.ToHolding? then s.held.Some? else s.hand.Some?
  {
    if s.pc.back.ToHolding? then
      s.(shared := s.shared.(queue := [Line(s.held.value)] + s.shared.queue), pc := Reposting(s.pc.back),
         past := Double(s.past, |s.past.delivered|))
    else
      s.(shared := s.shared.(queue := [Line(s.hand.value)] + s.shared.queue), pc := Reposting(s.pc.back),
         hand := None)
  }

  function AfterRepost(s: State): State
    requires s.pc.Reposting?
  {
    s.(shared := s.shared.(semaphore := s.shared.semaphore + 1),
       pc := if s.pc.back.ToHolding? then Holding else Resuming(s.pc.back.starting, true))
  }

  /** After a spill: an append handle in error is closed, and if the spill
      started the backlog, its first line is held. If nothing has got to the
      file, there is none, and the loop ends: `getline` leaves no message. */
  function AfterResume(s: State, ferror: bool): State
    requires s.pc.Resuming? && Pos(s) <= |s.disk.file|
  {
    var s' := s.(disk := s.disk.(appending := s.disk.appending && !ferror), pc := Holding);
    if !s.pc.starting then s'
    else match GetLine(s')
      case Some(s'') => s''
      case None => s'.(pc := Stopped(NothingRead))
  }

  /** A run: every event is enabled when it happens. */
  ghost predicate Reaches(s: State, events: seq<Event>, end: State)
    decreases |events|
  {
    if events == [] then end == s
    else Enabled(s, events[0]) && Pos(s) <= |s.disk.file| && Reaches(Next(s, events[0]), events[1..], end)
  }

  ghost predicate Steps(s: State, e: Event, s': State) {
    Enabled(s, e) && Pos(s) <= |s.disk.file| && s' == Next(s, e)
  }
}

/** What every reachable state satisfies. */
module LoggerInvariant {
  import opened Lines
  import opened Subsequences
  import opened Wrappers
  import opened LoggerModel

  function Opt(o: Option<seq<byte>>): seq<seq<byte>> {
    if o.Some? then [o.value] else []
  }

  function Texts(queue: seq<Item>): seq<seq<byte>> {
    if queue == [] then []
    else (if queue[0].Line? then [queue[0].text] else []) + Texts(queue[1..])
  }

  lemma {:induction false} TextsAppend(a: seq<Item>, b: seq<Item>)
    ensures Texts(a + b) == Texts(a) + Texts(b)
  {
    if a == [] {
      assert a + b == b;
    } else {
      assert (a + b)[1..] == a[1..] + b;
      TextsAppend(a[1..], b);
    }
  }

  function Unread(s: State): seq<seq<byte>>
    requires Pos(s) <= |s.disk.file|
  {
    s.disk.file[Pos(s)..]
  }

  function Chain<T>(a: seq<T>, b: seq<T>, c: seq<T>, d: seq<T>, e: seq<T>): (s: seq<T>)
    ensures |s| == |a| + |b| + |c| + |d| + |e|
  {
    a + b + c + d + e
  }

  // How a message moves along the chain

  lemma ChainMoves<T>(a: seq<T>, b: seq<T>, c: seq<T>, d: seq<T>, e: seq<T>, x: T)
    ensures Chain(a, [x], c, d, e) == Chain(a + [x], [], c, d, e)
    ensures Chain(a, [], [x] + c, d, e) == Chain(a, [x], c, d, e)
    ensures Chain(a, b, c, [x], e) == Chain(a, b, c + [x], [], e)
    ensures Chain(a, b, c, [], [x] + e) == Chain(a, b, c, [x], e)
    ensures Chain(a, [], [], [], [x] + e) == Chain(a, [x], [], [], e)
    ensures Chain(a, [x], [], d, e) == Chain(a, [], [x], d, e)
    ensures Chain(a, b, c, d, e + [x]) == Chain(a, b, c, d, e) + [x]
  {
  }

  /** Every message on its way, the one due first in front. */
  function Flow(s: State): seq<seq<byte>>
    requires Pos(s) <= |s.disk.file|
  {
    Chain(s.past.delivered, Opt(s.held), Unread(s), Opt(s.hand), Texts(s.shared.queue))
  }

  function Due(s: State): seq<seq<byte>> {
    s.past.initial + s.shared.pushed
  }

  // The backlog file

  /** Unless the message held came from elsewhere, it is the line read last; and
      what is before that line has been delivered. */
  predicate FileInv(s: State) {
    && GoodFile(s.disk.hasBacklog, s.disk.file)
    && Pos(s) <= |s.disk.file|
    && (s.disk.reading.None? ==> s.pc.Opening? || s.disk.file == [])
    && (Pos(s) > 0 ==> s.held == Some(s.disk.file[Pos(s) - 1]) && IsSuffix(s.disk.file[..Pos(s) - 1], s.past.delivered))
  }

  // The program counter

  predicate Spilling(s: State, starting: bool) {
    && s.disk.reading.Some? && s.disk.appending
    && (starting ==> s.held == None && Pos(s) == 0 && (s.disk.file == [] ==> s.past.lost != multiset{}))
    && (!starting ==> s.held.Some?)
  }

  predicate PcInv(s: State) {
    && (s.held.Some? ==> Framed(s.held.value))
    && (s.hand.Some? ==> Framed(s.hand.value))
    && (s.disk.appending ==> s.disk.reading.Some?)
    && (s.disk.reading.Some? ==> s.disk.hasBacklog)
    && match s.pc
       case Opening => s.held == None && s.hand == None && s.disk.reading == None && s.past.delivered == []
       case Waiting(goal) => s.hand == None && GoalInv(s, goal)
       case Taking(goal) => s.hand == None && GoalInv(s, goal)
       case Holding => s.held.Some? && s.hand == None
       case Sampling(starting) => s.hand == None && Spilling(s, starting)
       case Writing(starting, _) => s.hand.Some? && Spilling(s, starting)
       case Unpopping(ToHolding) => s.held.Some? && s.hand == None && s.disk.file == []
       case Reposting(ToHolding) => s.held.Some? && s.hand == None
       case Unpopping(ToResuming(starting)) => s.hand.Some? && Spilling(s, starting)
       case Reposting(ToResuming(starting)) => s.hand == None && Spilling(s, starting)
       case Resuming(starting, _) => s.hand == None && Spilling(s, starting)
       case Stopped(Drained) => s.held == None && s.hand == None && s.disk.reading == None
                                && s.shared.queue == [] && s.shared.finished
       case Stopped(Spilled) => s.hand == None && s.disk.reading.Some? && s.shared.queue == [] && s.shared.finished
                                && (s.held == None ==> Pos(s) == 0)
       case Stopped(Aborted) => s.held.Some? && s.hand == None
       case Stopped(NothingRead) => s.held == None && s.hand == None && s.disk.file == [] && s.past.lost != multiset{}
  }

  predicate GoalInv(s: State, goal: Goal) {
    match goal
    case ForDelivery => s.held == None && s.disk.reading == None
    case ForSpill(starting, left) => Spilling(s, starting)
  }

  // The queue

  /** The sentinel is the last item if it is there, the semaphore accounts for
      the items, and a spill has as many pops left as the semaphore allows at least. */
  predicate QueueInv(s: State) {
    && GoodItems(s.shared.queue, s.shared.finished)
    && |s.shared.queue| == s.shared.semaphore + s.shared.unposted + (if s.pc.Taking? || s.pc.Reposting? then 1 else 0)
    && match s.pc
       case Waiting(ForSpill(_, left)) => 0 < left <= s.shared.semaphore
       case Taking(ForSpill(_, left)) => 0 < left <= s.shared.semaphore + 1
       case Writing(_, left) => 0 < left <= s.shared.semaphore + 1
       case _ => true
  }

  predicate GoodItems(queue: seq<Item>, finished: bool) {
    && (forall i | 0 <= i < |queue| :: queue[i].Line? ==> Framed(queue[i].text))
    && (forall i | 0 <= i < |queue| :: queue[i].Sentinel? ==> i == |queue| - 1 && finished)
  }

  // The flow

  predicate Ascending(s: seq<nat>) {
    forall j, k | 0 <= j < k < |s| :: s[j] <= s[k]
  }

  /** What is on its way are messages due, in their order. */
  predicate InOrder(flow: seq<seq<byte>>, due: seq<seq<byte>>, numbers: seq<nat>) {
    && |numbers| == |flow|
    && (forall k | 0 <= k < |flow| :: numbers[k] < |due| && flow[k] == due[numbers[k]])
    && Ascending(numbers)
  }

  /** Of `due` messages every one is there once -- and once more each time it was
      put back while held, and once less each time it was lost. */
  predicate Balanced(past: Past, due: nat) {
    multiset(past.numbers) + past.lost == multiset(UpTo(due)) + past.doubled
  }

  /** The law of the pipeline. */
  predicate Accounts(flow: seq<seq<byte>>, due: seq<seq<byte>>, past: Past) {
    InOrder(flow, due, past.numbers) && Balanced(past, |due|)
  }

  predicate FlowInv(s: State)
    requires Pos(s) <= |s.disk.file|
  {
    Accounts(Flow(s), Due(s), s.past)
  }

  predicate RestInv(s: State) {
    FileInv(s) && PcInv(s) && QueueInv(s)
  }

  predicate Inv(s: State) {
    RestInv(s) && FlowInv(s)
  }

  lemma InvInitial(hasBacklog: bool, file: seq<seq<byte>>)
    requires GoodFile(hasBacklog, file)
    ensures Inv(Initial(hasBacklog, file))
  {
  }
}
