/** Reading a file of complete lines through a byte position. */
module BacklogFile {
  import opened Lines

  /** The byte position after the first `k` lines. */
  function Offset(lines: seq<seq<byte>>, k: nat): nat
    requires k <= |lines|
  {
    |Flatten(lines[..k])|
  }

  lemma TextAt(lines: seq<seq<byte>>, k: nat)
    requires k <= |lines|
    ensures Offset(lines, k) <= |Flatten(lines)|
    ensures Flatten(lines)[Offset(lines, k)..] == Flatten(lines[k..])
  {
    FlattenAppend(lines[..k], lines[k..]);
    assert lines == lines[..k] + lines[k..];
  }

  /** What is behind the first `k` lines splits into the others. */
  lemma LinesAt(lines: seq<seq<byte>>, k: nat)
    requires k <= |lines| && forall line <- lines :: Framed(line)
    ensures Offset(lines, k) <= |Flatten(lines)|
    ensures Split(Flatten(lines)[Offset(lines, k)..]) == lines[k..]
  {
    TextAt(lines, k);
    SplitFlatten(lines[k..]);
  }

  /** After the first `k` lines `getline` finds line `k`, newline included, or the end of the file. */
  lemma LineAt(lines: seq<seq<byte>>, k: nat)
    requires k <= |lines| && forall line <- lines :: Framed(line)
    ensures Offset(lines, k) <= |Flatten(lines)|
    ensures
      var text := Flatten(lines)[Offset(lines, k)..];
      if k == |lines| then text == []
      else NEWLINE in text && text[..LineLength(text)] == lines[k]
           && Offset(lines, k) + LineLength(text) == Offset(lines, k + 1)
  {
    TextAt(lines, k);
    if k < |lines| {
      SplitFlatten(lines[k..]);
      var text := Flatten(lines)[Offset(lines, k)..];
      assert NEWLINE in text && text[..LineLength(text)] == lines[k];
      FlattenSnoc(lines[..k], lines[k]);
      assert lines[..k + 1] == lines[..k] + [lines[k]];
    }
  }

  lemma EmptyText(lines: seq<seq<byte>>)
    requires forall line <- lines :: Framed(line)
    ensures Flatten(lines) == [] <==> lines == []
  {
    if lines != [] {
      assert Framed(lines[0]) && Flatten(lines) == lines[0] + Flatten(lines[1..]);
    }
  }

  /** Appending a line moves no earlier position. */
  lemma AppendedLine(lines: seq<seq<byte>>, line: seq<byte>)
    ensures Flatten(lines + [line]) == Flatten(lines) + line
    ensures forall k | 0 <= k <= |lines| :: Offset(lines + [line], k) == Offset(lines, k)
  {
    FlattenSnoc(lines, line);
    forall k | 0 <= k <= |lines| ensures Offset(lines + [line], k) == Offset(lines, k) {
      assert (lines + [line])[..k] == lines[..k];
    }
  }
}

/** What others decide of the logger's run: whether deliveries, opens and writes succeed. */
module LoggerScripts {
  import opened LoggerModel

  /** The answers one pass of the loop gets, as far as it asks. */
  datatype Answer = Answer(
    sent: bool,               // the delivery succeeds
    appendOk: bool,           // the backlog opens for appending
    readOk: bool,             // it opens for reading, as it does whenever it opens for appending
    write: Write,             // writing the message held
    spill: nat -> Write,      // writing the messages popped in a spill
    ferror: bool)             // the error of a refused write persists

  /** The answers to the passes, and whether an empty old backlog is there to be opened. */
  datatype Script = Script(opens: bool, answers: nat -> Answer)

  function FailedBy(a: Answer): Event {
    Failed(a.appendOk, a.appendOk || a.readOk, a.write)
  }

  /** What happens is what the answers say: deliveries those of the next pass,
      and everything else those of the pass being made. */
  predicate Answered(s: State, e: Event, script: Script, passes: nat, appends: nat) {
    match e
    case Open(ok) => ok == (s.disk.hasBacklog && (script.opens || s.disk.file != []))
    case Delivered => script.answers(passes).sent
    case Failed(_, _, _) => !script.answers(passes).sent && e == FailedBy(script.answers(passes))
    case Append(write) => passes > 0 && write == script.answers(passes - 1).spill(appends)
    case Resume(ferror) =>
      passes > 0 && s.pc.Resuming? && ferror == (s.pc.failed && script.answers(passes - 1).ferror)
    case _ => true
  }

  /** A state, with the number of deliveries tried, one in every pass, and of the
      messages written since the last of them. */
  datatype Config = Config(s: State, passes: nat, appends: nat)

  ghost predicate ScriptedStep(c: Config, e: Event, c': Config, script: Script) {
    && Steps(c.s, e, c'.s)
    && Answered(c.s, e, script, c.passes, c.appends)
    && c'.passes == (if IsDelivery(e) then c.passes + 1 else c.passes)
    && c'.appends == if IsDelivery(e) then 0 else if e.Append? then c.appends + 1 else c.appends
  }

  /** A run in which everything is as the script says. */
  ghost predicate IsScriptedRun(configs: seq<Config>, events: seq<Event>, script: Script) {
    && |configs| == |events| + 1
    && forall i {:trigger events[i]} | 0 <= i < |events| :: ScriptedStep(configs[i], events[i], configs[i + 1], script)
  }

  lemma {:induction false} ScriptedReaches(configs: seq<Config>, events: seq<Event>, script: Script)
    requires IsScriptedRun(configs, events, script)
    ensures Reaches(configs[0].s, events, configs[|events|].s)
    decreases |events|
  {
    if events != [] {
      assert ScriptedStep(configs[0], events[0], configs[1], script);
      assert forall i | 0 <= i < |events[1..]| :: events[1..][i] == events[i + 1];
      ScriptedReaches(configs[1..], events[1..], script);
    }
  }
}

module Loggers {
  import opened Lines
  import opened Wrappers
  import opened BacklogFile
  import opened LoggerModel
  import opened LoggerInvariant
  import opened LoggerSteps
  import opened LoggerScripts
  import opened LoggerTheorems

  /** The logger thread. Whether deliveries, opens and writes succeed is given by
      answers; what the reader does meanwhile is chosen freely. */
  class Logger {
    // the queue, as the contracts of the chunked queue present it
    var queue: seq<Item>
    var semaphore: nat

    const hasBacklog: bool            // a backlog file is configured
    var file: seq<byte>               // its content
    var backlog_in: Option<nat>       // the handle for reading, with its position
    var backlog_out: bool             // the handle for appending is open
    var output: seq<seq<byte>>        // the messages whose delivery succeeded

    // the reader's side: the post still to come, and whether it has ended the queue
    var unposted: nat
    var finished: bool

    ghost const start: State
    ghost var st: State
    ghost var configs: seq<Config>
    ghost var events: seq<Event>
    ghost const script: Script
    ghost var passes: nat             // how many deliveries were tried
    ghost var appends: nat            // how many messages were written since the last of them

    ghost predicate Valid()
      reads this
    {
      Recorded() && Matches()
    }

    /** The steps taken so far are a run of the step system, in which everything
        is as the script says. */
    ghost predicate Recorded()
      reads `st, `passes, `appends, `configs, `events
    {
      && start == Initial(start.disk.hasBacklog, start.past.initial)
      && GoodFile(start.disk.hasBacklog, start.past.initial)
      && IsScriptedRun(configs, events, script)
      && configs[0] == Config(start, 0, 0) && configs[|events|] == Config(st, passes, appends)
    }

    lemma StateInv()
      requires Recorded()
      ensures Reaches(start, events, st) && Inv(st)
    {
      InvInitial(start.disk.hasBacklog, start.past.initial);
      ScriptedReaches(configs, events, script);
      RunKeepsInv(start, events, st);
    }

    /** What of the backlog file is still to be read. */
    ghost function UnreadText(): seq<byte>
      reads `file, `backlog_in
    {
      if backlog_in.Some? && backlog_in.value <= |file| then file[backlog_in.value..] else file
    }

    /** The messages delivered, the message the loop holds, the lines unread
        in the backlog, and what is queued. */
    ghost function OnTheirWay(msg: Option<seq<byte>>): seq<seq<byte>>
      reads this
    {
      output + Opt(msg) + Split(UnreadText()) + Texts(queue)
    }

    ghost function DueMessages(): seq<seq<byte>>
      reads `st
    {
      start.past.initial + st.shared.pushed
    }

    lemma FieldsFlow(msg: Option<seq<byte>>)
      requires Valid() && Inv(st) && st.held == msg && st.hand == None
      ensures OnTheirWay(msg) == Flow(st)
    {
      LinesAt(st.disk.file, Pos(st));
      assert st.disk.file[..0] == [];
      assert Split(UnreadText()) == Unread(st);
    }

    /** The law of the pipeline on the fields, and when it makes them what is due. */
    lemma FieldsAccount(msg: Option<seq<byte>>)
      requires Valid() && st.held == msg && (st.pc == Holding || st.pc.Stopped? || st.pc == Waiting(ForDelivery))
      ensures Reaches(start, events, st)
      ensures Accounts(OnTheirWay(msg), DueMessages(), st.past)
      ensures st.past.lost == st.past.doubled ==> OnTheirWay(msg) == DueMessages()
      ensures NeverFailsToStart(start, events, st) ==>
                (OnTheirWay(msg) == DueMessages() <==> NeverLoses(start, events, st))
      ensures st.pc == Stopped(Drained) ==> OnTheirWay(msg) == output
    {
      StateInv();
      FieldsFlow(msg);
      InitialKept(start, events, st);
      Conservation(start.disk.hasBacklog, start.past.initial, events, st);
      ConservedIff(start.disk.hasBacklog, start.past.initial, events, st);
    }

    /** What the steps below need to know about the state. */
    lemma Known()
      requires Recorded()
      ensures Pos(st) <= |st.disk.file| && GoodFile(st.disk.hasBacklog, st.disk.file)
      ensures |st.shared.queue|
              == st.shared.semaphore + st.shared.unposted + if st.pc.Taking? || st.pc.Reposting? then 1 else 0
    {
      StateInv();
    }

    lemma NothingHeld()
      requires Recorded() && (st.pc == Opening || st.pc == Waiting(ForDelivery))
      ensures st.held == None
    {
      StateInv();
    }

    /** The fields are a representation of the state that run has reached. */
    ghost predicate Matches()
      reads this
    {
      && hasBacklog == st.disk.hasBacklog
      && FileMatches()
      && (st.pc.Stopped? || backlog_out == st.disk.appending)
      && output == st.past.delivered
      && QueueMatches()
    }

    ghost predicate FileMatches()
      reads `file, `backlog_in, `st
    {
      && file == Flatten(st.disk.file)
      && (backlog_in.Some? <==> st.disk.reading.Some?)
      && Pos(st) <= |st.disk.file|
      && (backlog_in.Some? ==> backlog_in.value == Offset(st.disk.file, Pos(st)))
    }

    ghost predicate QueueMatches()
      reads this
    {
      && queue == st.shared.queue
      && semaphore == st.shared.semaphore
      && unposted == st.shared.unposted
      && finished == st.shared.finished
    }

    constructor (hasBacklog: bool, ghost lines: seq<seq<byte>>, file: seq<byte>, ghost script: Script)
      requires GoodFile(hasBacklog, lines) && file == Flatten(lines)
      ensures Valid() && st == start == Initial(hasBacklog, lines) && this.script == script && passes == 0
    {
      queue := [];
      semaphore := 0;
      this.hasBacklog := hasBacklog;
      this.file := file;
      backlog_in := None;
      backlog_out := false;
      output := [];
      unposted := 0;
      finished := false;
      start := Initial(hasBacklog, lines);
      st := Initial(hasBacklog, lines);
      configs := [Config(Initial(hasBacklog, lines), 0, 0)];
      events := [];
      this.script := script;
      passes := 0;
      appends := 0;
    }

    /** Records what no answer decides. */
    ghost method Record(e: Event)
      requires Recorded() && Enabled(st, e)
      requires !e.Open? && !IsDelivery(e) && !e.Append? && !e.Resume?
      modifies `st, `configs, `events
      ensures Recorded() && Pos(old(st)) <= |old(st).disk.file| && st == Next(old(st), e)
    {
      Known();
      st := Next(st, e);
      configs := configs + [Config(st, passes, appends)];
      events := events + [e];
    }

    /** Records a delivery, which starts a new pass. */
    ghost method RecordDelivery(e: Event)
      requires Recorded() && Enabled(st, e) && IsDelivery(e) && Answered(st, e, script, passes, appends)
      modifies `st, `configs, `events, `passes, `appends
      ensures Recorded() && Pos(old(st)) <= |old(st).disk.file| && st == Next(old(st), e)
      ensures passes == old(passes) + 1 && appends == 0
    {
      Known();
      st := Next(st, e);
      passes := passes + 1;
      appends := 0;
      configs := configs + [Config(st, passes, appends)];
      events := events + [e];
    }

    /** Records the other actions that answers decide. */
    ghost method RecordAnswered(e: Event)
      requires Recorded() && Enabled(st, e) && (e.Open? || e.Append? || e.Resume?)
      requires Answered(st, e, script, passes, appends)
      modifies `st, `configs, `events, `appends
      ensures Recorded() && Pos(old(st)) <= |old(st).disk.file| && st == Next(old(st), e)
      ensures appends == if e.Append? then old(appends) + 1 else old(appends)
    {
      Known();
      st := Next(st, e);
      appends := if e.Append? then appends + 1 else appends;
      configs := configs + [Config(st, passes, appends)];
      events := events + [e];
    }

    // The reader

    method ReaderStores(item: Item)
      requires Valid() && !finished && (item.Line? ==> Framed(item.text))
      modifies `queue, `semaphore, `unposted, `finished, `st, `configs, `events
      ensures Valid()
      ensures SameLogger(old(st), st)
    {
      queue := queue + [item];
      unposted := unposted + 1;
      finished := item.Sentinel?;
      Record(Event.Store(item));
    }

    method ReaderPosts()
      requires Valid() && unposted > 0
      modifies `queue, `semaphore, `unposted, `st, `configs, `events
      ensures Valid()
      ensures SameLogger(old(st), st)
    {
      Known();
      semaphore := semaphore + 1;
      unposted := unposted - 1;
      Record(Event.Post);
    }

    /** What the reader does between two actions of the logger: any number of its steps. */
    method Interfere()
      requires Valid()
      modifies `queue, `semaphore, `unposted, `finished, `st, `configs, `events
      ensures Valid()
      ensures SameLogger(old(st), st)
    {
      var steps: nat := *;
      while steps > 0
        invariant Valid()
        invariant SameLogger(old(st), st)
      {
        steps := steps - 1;
        var item: Item := *;
        var storing: bool := *;
        if storing && !finished && (item.Line? ==> Framed(item.text)) {
          ReaderStores(item);
        } else if unposted > 0 {
          ReaderPosts();
        }
      }
    }

    // The logger's actions on the queue

    method WaitForMessage()
      requires Valid() && st.pc.Waiting? && semaphore > 0
      modifies `queue, `semaphore, `st, `configs, `events
      ensures Valid()
      ensures st == Next(old(st), Event.Wait)
    {
      semaphore := semaphore - 1;
      Record(Event.Wait);
    }

    method TakeMessage() returns (item: Item)
      requires Valid() && st.pc.Taking?
      modifies `queue, `semaphore, `st, `configs, `events
      ensures Valid()
      ensures old(st).shared.queue != [] && item == old(st).shared.queue[0] && st == AfterTake(old(st))
    {
      Known();
      item := queue[0];
      queue := queue[1..];
      Record(Event.Take);
    }

    method RestoreMessage(item: Item)
      requires Valid() && st.pc.Unpopping?
      requires st.pc.back.ToHolding? ==> st.held.Some? && item == Line(st.held.value)
      requires st.pc.back.ToResuming? ==> st.hand.Some? && item == Line(st.hand.value)
      modifies `queue, `semaphore, `st, `configs, `events
      ensures Valid()
      ensures st.pc == Reposting(old(st).pc.back) && st.held == old(st).held
      ensures backlog_out == old(backlog_out)
    {
      queue := [item] + queue;
      Record(Event.Unpop);
    }

    method PostRestored()
      requires Valid() && st.pc.Reposting?
      modifies `queue, `semaphore, `st, `configs, `events
      ensures Valid()
      ensures Enabled(old(st), Event.Repost) && Pos(old(st)) <= |old(st).disk.file| && st == Next(old(st), Event.Repost)
    {
      Known();
      semaphore := semaphore + 1;
      Record(Event.Repost);
    }

    /** Puts a popped message back at the front. */
    method Unpop(item: Item)
      requires Valid() && st.pc.Unpopping?
      requires st.pc.back.ToHolding? ==> st.held.Some? && item == Line(st.held.value)
      requires st.pc.back.ToResuming? ==> st.hand.Some? && item == Line(st.hand.value)
      modifies `queue, `semaphore, `unposted, `finished, `st, `configs, `events
      ensures Valid()
      ensures st.held == old(st).held
      ensures st.pc == if old(st).pc.back.ToHolding? then Holding else Resuming(old(st).pc.back.starting, true)
    {
      Interfere();
      RestoreMessage(item);
      Interfere();
      PostRestored();
    }

    /** Pops the next message to deliver, unless the queue is empty: then the
        logger is blocked, and the run observed ends. */
    method PopMessage() returns (blocked: bool, msg: Option<seq<byte>>)
      requires Valid() && st.pc == Waiting(ForDelivery)
      modifies `queue, `semaphore, `unposted, `finished, `st, `configs, `events
      ensures Valid()
      ensures blocked ==> st.pc == Waiting(ForDelivery) && st.shared.semaphore == 0 && msg == None && st.held == None
      ensures !blocked ==> st.pc == (if msg.Some? then Holding else Stopped(Drained)) && st.held == msg
    {
      Interfere();
      if semaphore == 0 {
        NothingHeld();
        return true, None;
      }
      WaitForMessage();
      Interfere();
      StateInv();
      var item := TakeMessage();
      return false, if item.Line? then Some(item.text) else None;
    }

    // The logger's actions on the backlog

    /** `getline` on the handle for reading, which has read the first `k` lines. */
    method GetBacklogLine(ghost lines: seq<seq<byte>>, ghost k: nat) returns (line: Option<seq<byte>>)
      requires file == Flatten(lines) && (forall line <- lines :: Framed(line))
      requires k <= |lines| && backlog_in == Some(Offset(lines, k))
      modifies `backlog_in
      ensures line == if k < |lines| then Some(lines[k]) else None
      ensures backlog_in == if k < |lines| then Some(Offset(lines, k + 1)) else old(backlog_in)
    {
      LineAt(lines, k);
      var text := file[backlog_in.value..];
      if text == [] {
        return None;
      }
      var n := LineLength(text);
      backlog_in := Some(backlog_in.value + n);
      return Some(text[..n]);
    }

    /** Writes the popped message to the backlog. If that is refused, it is put
        back; if only the flush fails, nobody notices. */
    method AppendMessage(msg: seq<byte>, write: Write) returns (written: bool)
      requires Valid() && st.pc.Writing? && st.hand == Some(msg)
      requires passes > 0 && write == script.answers(passes - 1).spill(appends)
      modifies `queue, `semaphore, `file, `unposted, `finished, `st, `configs, `events, `appends
      ensures Valid()
      ensures written <==> !write.Refused?
      ensures file == if write.Written? then old(file) + msg else old(file)
      ensures st.held == old(st).held && appends == old(appends) + 1
      ensures
        var starting, left := old(st).pc.starting, old(st).pc.left;
        st.pc == if !written then Resuming(starting, true)
                 else if left <= 1 then Resuming(starting, false)
                 else Waiting(ForSpill(starting, left - 1))
    {
      match write
      case Written =>
        Known();
        AppendedLine(st.disk.file, msg);
        file := file + msg;
        RecordAnswered(Event.Append(Written));
        return true;
      case Lost =>
        RecordAnswered(Event.Append(Lost));
        return true;
      case Refused =>
        RecordAnswered(Event.Append(Refused));
        Unpop(Line(msg));
        return false;
    }

    /** Pops a message during a spill, which the semaphore always allows. */
    method PopForSpill() returns (item: Item)
      requires Valid() && st.pc.Waiting? && st.pc.goal.ForSpill?
      modifies `queue, `semaphore, `unposted, `finished, `st, `configs, `events
      ensures Valid()
      ensures st.held == old(st).held
      ensures
        var goal := old(st).pc.goal;
        if item.Sentinel? then st.pc == Stopped(Spilled)
        else st.pc == Writing(goal.starting, goal.left) && st.hand == Some(item.text)
    {
      Interfere();
      StateInv();
      WaitForMessage();
      Interfere();
      item := TakeMessage();
    }

    /** Reads the queue size at the start of a spill. */
    method SampleSize() returns (qsize: nat)
      requires Valid() && st.pc.Sampling?
      modifies `queue, `semaphore, `unposted, `finished, `st, `configs, `events
      ensures Valid() && st.held == old(st).held && qsize == semaphore
      ensures
        var starting := old(st).pc.starting;
        st.pc == if qsize == 0 then Resuming(starting, false) else Waiting(ForSpill(starting, qsize))
    {
      Interfere();
      qsize := semaphore;
      Record(Event.Sample);
    }

    method CloseAppending()
      requires Valid() && st.pc.Stopped?
      modifies `backlog_out
      ensures Valid() && !backlog_out
    {
      backlog_out := false;
    }

    /** One round of a spill: pops a message and writes it. */
    method SpillMessage(write: Write) returns (status: int)
      requires Valid() && st.pc.Waiting? && st.pc.goal.ForSpill?
      requires passes > 0 && write == script.answers(passes - 1).spill(appends)
      modifies `queue, `semaphore, `file, `unposted, `finished, `st, `configs, `events, `appends
      ensures Valid() && st.held == old(st).held
      ensures status == 0 || status == -1 || status == -2
      ensures status != -2 ==> appends == old(appends) + 1 && status == if write.Refused? then -1 else 0
      ensures
        var starting, left := old(st).pc.goal.starting, old(st).pc.goal.left;
        st.pc == if status == -2 then Stopped(Spilled)
                 else if status == -1 then Resuming(starting, true)
                 else if left <= 1 then Resuming(starting, false)
                 else Waiting(ForSpill(starting, left - 1))
    {
      var msg := PopForSpill();
      if msg.Sentinel? {
        return -2;
      }
      var written := AppendMessage(msg.text, write);
      return if written then 0 else -1;
    }

    /** Appends the queue, as long as it was when sampled, to the backlog. */
    method WriteBacklog(a: Answer) returns (status: int)
      requires Valid() && st.pc.Sampling? && backlog_out
      requires passes > 0 && a == script.answers(passes - 1) && appends == 0
      modifies `queue, `semaphore, `unposted, `finished, `file, `backlog_out, `st, `configs, `events, `appends
      ensures Valid() && st.held == old(st).held
      ensures status == 0 || status == -1 || status == -2
      ensures status == -2 <==> st.pc == Stopped(Spilled)
      ensures backlog_out <==> status != -2
      ensures status != -2 ==> st.pc == Resuming(old(st).pc.starting, status == -1)
    {
      ghost var starting := st.pc.starting;
      var qsize := SampleSize();
      var i := 0;
      while i < qsize
        invariant Valid() && st.held == old(st).held && backlog_out
        invariant 0 <= i <= qsize && appends == i
        invariant st.pc == if i < qsize then Waiting(ForSpill(starting, qsize - i)) else Resuming(starting, false)
      {
        status := SpillMessage(a.spill(i));
        if status == -2 {
          CloseAppending();
        }
        if status != 0 {
          return status;
        }
        i := i + 1;
      }
      return 0;
    }

    // The main loop

    /** What the loop head sees: a message to deliver, or the end -- unless the
        logger is blocked on the empty queue, where the observed run ends. */
    ghost predicate AtLoopHead(msg: Option<seq<byte>>)
      reads this
    {
      st.held == msg &&
      if msg.Some? then st.pc == Holding
      else st.pc.Stopped? || (st.pc == Waiting(ForDelivery) && st.shared.semaphore == 0)
    }

    /** Opens an old backlog, and closes it again if there is nothing in it. */
    method ReadOldBacklog() returns (msg: Option<seq<byte>>)
      requires file == Flatten(st.disk.file) && forall line <- st.disk.file :: Framed(line)
      modifies `backlog_in
      ensures msg == if st.disk.file == [] then None else Some(st.disk.file[0])
      ensures backlog_in == if st.disk.file == [] then None else Some(Offset(st.disk.file, 1))
    {
      assert st.disk.file[..0] == [];
      backlog_in := Some(0);
      msg := GetBacklogLine(st.disk.file, 0);
      if msg.None? {
        backlog_in := None;
      }
    }

    /** Looks for the backlog of an earlier run. */
    method OpenBacklog(opens: bool) returns (msg: Option<seq<byte>>)
      requires Valid() && st.pc == Opening && st.disk.reading == None && opens == script.opens
      modifies `backlog_in, `st, `configs, `events, `appends
      ensures Valid()
      ensures st.pc == (if msg.Some? then Holding else Waiting(ForDelivery)) && st.held == msg
      ensures file == old(file) && queue == old(queue) && (backlog_in.Some? <==> msg.Some?)
    {
      NothingHeld();
      Known();
      var ok := hasBacklog && (opens || file != []);
      EmptyText(st.disk.file);
      Opened(st, ok);
      msg := None;
      if ok {
        msg := ReadOldBacklog();
      }
      RecordAnswered(Event.Open(ok));
    }

    /** The message held was delivered: go on with the backlog, nothing being
        appended to it any more, and truncate it when it is used up. */
    method AfterSending(sent: seq<byte>) returns (msg: Option<seq<byte>>)
      requires Valid() && st.pc == Holding && st.held == Some(sent) && script.answers(passes).sent
      modifies `output, `file, `backlog_in, `backlog_out,
        `st, `configs, `events, `passes, `appends
      ensures Valid() && output == old(output) + [sent]
      ensures st.pc == (if msg.Some? then Holding else Waiting(ForDelivery)) && st.held == msg
      ensures old(backlog_in).Some? ==> !backlog_out
      ensures backlog_in.Some? <==> old(backlog_in).Some? && msg.Some?
      ensures file == if old(backlog_in).Some? && msg.None? then [] else old(file)
      ensures passes == old(passes) + 1
    {
      Known();
      output := output + [sent];
      msg := NextLine();
      RecordDelivery(Event.Delivered);
    }

    /** The next line of the backlog, if one is being read; a backlog used up is truncated. */
    method NextLine() returns (msg: Option<seq<byte>>)
      requires FileMatches() && GoodFile(st.disk.hasBacklog, st.disk.file)
      modifies `file, `backlog_in, `backlog_out
      ensures
        var lines, k := st.disk.file, Pos(st);
        if old(backlog_in).None? then
          msg == None && backlog_in == None && file == old(file) && backlog_out == old(backlog_out)
        else if k < |lines| then
          msg == Some(lines[k]) && backlog_in == Some(Offset(lines, k + 1)) && file == old(file) && !backlog_out
        else
          msg == None && backlog_in == None && file == [] && !backlog_out
    {
      msg := None;
      if backlog_in.Some? {
        msg := GetBacklogLine(st.disk.file, Pos(st));
        backlog_out := false;
        if msg.None? {
          file := [];
          backlog_in := None;
        }
      }
    }

    /** Delivery failed and a backlog is being read. With the handle for appending
        closed it is reopened, and no more: file and queue stay as they are. If
        that fails the process is aborted. With the handle open the queue is
        appended to the file. */
    method SpillToBacklog(held: seq<byte>, a: Answer) returns (stop: bool)
      requires Valid() && st.pc == Holding && st.held == Some(held) && backlog_in.Some?
      requires a == script.answers(passes) && !a.sent
      modifies `queue, `semaphore, `unposted, `finished, `file, `backlog_out,
        `st, `configs, `events, `passes, `appends
      ensures Valid() && st.held == Some(held) && passes == old(passes) + 1
      ensures !old(backlog_out) ==>
                && file == old(file) && queue == old(queue) && semaphore == old(semaphore)
                && (hasBacklog ==> backlog_out == a.appendOk && (stop <==> !a.appendOk))
                && st.pc == if stop then Stopped(Aborted) else Holding
      ensures old(backlog_out) ==> st.pc == (if stop then Stopped(Spilled) else Holding) && (stop ==> !backlog_out)
    {
      RecordDelivery(FailedBy(a));
      if !backlog_out {
        if !hasBacklog {
          return false;
        }
        backlog_out := a.appendOk;
        return !a.appendOk;
      }

      var status := WriteBacklog(a);
      stop := status == -2;
      if !stop {
        AfterSpill(status, a);
      }
    }

    /** Closes the handle for appending if writing to it failed for good. */
    method AfterSpill(status: int, a: Answer)
      requires Valid() && st.pc == Resuming(false, status == -1)
      requires passes > 0 && a == script.answers(passes - 1)
      modifies `backlog_out, `st, `configs, `events, `appends
      ensures Valid() && st.pc == Holding && st.held == old(st).held
      ensures backlog_out <==> old(backlog_out) && !(status == -1 && a.ferror)
    {
      if status == -1 && a.ferror {
        backlog_out := false;
      }
      RecordAnswered(Resume(status == -1 && a.ferror));
    }

    /** Delivery failed and there is no backlog yet: one is started with the
        message held, the queue is appended, and its first line is held next.
        If there is none, the loop ends. */
    method StartBacklog(held: seq<byte>, a: Answer) returns (stop: bool, msg: Option<seq<byte>>)
      requires Valid() && st.pc == Holding && st.held == Some(held) && backlog_in.None?
      requires a == script.answers(passes) && !a.sent
      modifies `queue, `semaphore, `unposted, `finished, `file, `backlog_in, `backlog_out,
        `st, `configs, `events, `passes, `appends
      ensures Valid() && st.held == msg && passes == old(passes) + 1
      ensures !hasBacklog || !a.appendOk || a.write.Refused? ==> !stop && msg == Some(held) && file == old(file)
      ensures if stop then msg.None? && (st.pc == Stopped(Spilled) || st.pc == Stopped(NothingRead))
              else st.pc == Holding && msg.Some?
    {
      if !hasBacklog {
        RecordDelivery(FailedBy(a));
        return false, Some(held);
      }

      var begun := BeginBacklog(held, a);
      if !begun {
        return false, Some(held);
      }

      var status := WriteBacklog(a);
      if status == -2 {
        return true, None;
      }
      msg := FirstOfBacklog(status, a);
      stop := msg.None?;
    }

    /** Opens both handles and writes the message held. */
    method BeginBacklog(held: seq<byte>, a: Answer) returns (begun: bool)
      requires Valid() && st.pc == Holding && st.held == Some(held) && backlog_in.None? && hasBacklog
      requires a == script.answers(passes) && !a.sent
      modifies `queue, `semaphore, `unposted, `finished, `file, `backlog_in, `backlog_out,
        `st, `configs, `events, `passes, `appends
      ensures Valid() && passes == old(passes) + 1 && appends == 0
      ensures begun <==> a.appendOk && !a.write.Refused?
      ensures file == if begun && a.write.Written? then old(file) + held else old(file)
      ensures backlog_out == a.appendOk && backlog_in == if a.appendOk || a.readOk then Some(0) else None
      ensures if begun then st.pc == Sampling(true) && st.held == None else st.pc == Holding && st.held == Some(held)
    {
      EmptyFile();
      backlog_out := a.appendOk;
      backlog_in := if a.appendOk || a.readOk then Some(0) else None;
      if !a.appendOk {
        KeepHeld(held, a);
        return false;
      }

      WriteFirst(held, a);
      return !a.write.Refused?;
    }

    /** The backlog does not open for appending: the message stays held. */
    ghost method KeepHeld(held: seq<byte>, a: Answer)
      requires Recorded() && hasBacklog == st.disk.hasBacklog && output == st.past.delivered && QueueMatches()
      requires st.pc == Holding && st.held == Some(held) && st.disk.reading == None && st.disk.file == [] && file == []
      requires hasBacklog && !backlog_out && backlog_in == if a.readOk then Some(0) else None
      requires a == script.answers(passes) && !a.sent && !a.appendOk
      modifies `st, `configs, `events, `passes, `appends
      ensures Valid() && passes == old(passes) + 1 && appends == 0
      ensures st.pc == Holding && st.held == Some(held)
    {
      RecordDelivery(FailedBy(a));
    }

    /** Writes the message held to the backlog that has just been opened. If that
        is refused it is put back, and stays held. */
    method WriteFirst(held: seq<byte>, a: Answer)
      requires Recorded() && hasBacklog == st.disk.hasBacklog && output == st.past.delivered && QueueMatches()
      requires st.pc == Holding && st.held == Some(held) && st.disk.reading == None && st.disk.file == [] && file == []
      requires hasBacklog && backlog_out && backlog_in == Some(0)
      requires a == script.answers(passes) && !a.sent && a.appendOk
      modifies `queue, `semaphore, `unposted, `finished, `file, `st, `configs, `events, `passes, `appends
      ensures Valid() && passes == old(passes) + 1 && appends == 0
      ensures file == if a.write.Written? then held else []
      ensures if a.write.Refused? then st.pc == Holding && st.held == Some(held)
              else st.pc == Sampling(true) && st.held == None
    {
      if a.write.Written? {
        AppendedLine([], held);
        file := file + held;
      }
      RecordDelivery(FailedBy(a));
      if a.write.Refused? {
        Unpop(Line(held));
      }
    }

    lemma EmptyFile()
      requires Valid() && st.pc == Holding && backlog_in == None
      ensures st.disk.reading == None && st.disk.file == [] && file == []
    {
      StateInv();
    }

    /** The first line of the backlog just started, unless everything written to it was lost. */
    method FirstOfBacklog(status: int, a: Answer) returns (msg: Option<seq<byte>>)
      requires Valid() && st.pc == Resuming(true, status == -1)
      requires passes > 0 && a == script.answers(passes - 1)
      modifies `backlog_in, `backlog_out, `st, `configs, `events, `appends
      ensures Valid() && st.held == msg
      ensures st.pc == if msg.Some? then Holding else Stopped(NothingRead)
      ensures msg.None? <==> file == []
      ensures msg.Some? ==> (backlog_out <==> old(backlog_out) && !(status == -1 && a.ferror))
    {
      KnownStarting();
      if status == -1 && a.ferror {
        backlog_out := false;
      }
      msg := GetBacklogLine(st.disk.file, 0);
      RecordAnswered(Resume(status == -1 && a.ferror));
    }

    lemma KnownStarting()
      requires Valid() && st.pc.Resuming? && st.pc.starting
      ensures st.disk.reading == Some(0) && st.held == None && GoodFile(st.disk.hasBacklog, st.disk.file)
      ensures file == [] <==> st.disk.file == []
    {
      StateInv();
      EmptyText(st.disk.file);
    }

    /** Where the observed run of the logger can be: the loop has made `n` passes,
        the thread has ended, or it is blocked on the empty queue. */
    ghost predicate Observed(n: nat)
      reads `st, `passes
    {
      && passes <= n
      && (|| (st.pc == Holding && passes == n)
          || st.pc.Stopped?
          || (st.pc == Waiting(ForDelivery) && st.shared.semaphore == 0))
    }

    /** One pass of the loop: a delivery, and what follows from how it ends. */
    method MakePass(held: seq<byte>, a: Answer) returns (stop: bool, msg: Option<seq<byte>>)
      requires Valid() && st.pc == Holding && st.held == Some(held) && a == script.answers(passes)
      modifies this
      ensures Valid() && st.held == msg && passes == old(passes) + 1
      ensures if stop then st.pc.Stopped? else AtLoopHead(msg)
      ensures output == if a.sent then old(output) + [held] else old(output)
    {
      Interfere();
      stop, msg := false, Some(held);
      if a.sent {
        msg := AfterSending(held);
        if msg.None? {
          var blocked;
          blocked, msg := PopMessage();
        }
      } else if backlog_in.Some? {
        stop := SpillToBacklog(held, a);
      } else {
        stop, msg := StartBacklog(held, a);
      }
    }

    /** The logger thread, observed for at most `n` passes of its loop. */
    method RunLoop(n: nat, opens: bool, answers: nat -> Answer) returns (msg: Option<seq<byte>>)
      requires Valid() && st.pc == Opening && st.disk.reading == None
      requires script == Script(opens, answers) && passes == 0
      modifies this
      ensures Valid() && Observed(n) && st.held == msg
    {
      msg := OpenBacklog(opens);
      if msg.None? {
        var blocked;
        blocked, msg := PopMessage();
      }

      var pass := 0;
      var stop := false;
      while msg.Some? && pass < n && !stop
        invariant Valid() && st.held == msg && passes == pass <= n
        invariant if stop then st.pc.Stopped? else AtLoopHead(msg)
        decreases n - pass
      {
        stop, msg := MakePass(msg.value, answers(pass));
        pass := pass + 1;
      }
    }

    /** Every pass tries one delivery, and everything else happens as the answers
        say. Whenever it is looked at, the fields hold the messages due, in order,
        and each of them once but for those put back while held and those lost;
        and ended in the main loop, all of them have been delivered. */
    method Run(n: nat, opens: bool, answers: nat -> Answer) returns (msg: Option<seq<byte>>)
      requires Valid() && st.pc == Opening && st.disk.reading == None
      requires script == Script(opens, answers) && passes == 0
      modifies this
      ensures Valid() && Observed(n)
      ensures IsScriptedRun(configs, events, Script(opens, answers)) && configs[|events|] == Config(st, passes, appends)
      ensures Reaches(start, events, st)
      ensures Accounts(OnTheirWay(msg), DueMessages(), st.past)
      ensures st.past.lost == st.past.doubled ==> OnTheirWay(msg) == DueMessages()
      ensures NeverFailsToStart(start, events, st) ==>
                (OnTheirWay(msg) == DueMessages() <==> NeverLoses(start, events, st))
      ensures st.pc == Stopped(Drained) ==> OnTheirWay(msg) == output
    {
      msg := RunLoop(n, opens, answers);
      FieldsAccount(msg);
    }
  }

  /** Opening an old backlog holds its first line, or finds that there is nothing in it. */
  lemma Opened(s: State, ok: bool)
    requires Enabled(s, Event.Open(ok)) && Pos(s) <= |s.disk.file| && s.held == None && s.disk.reading == None
    ensures
      Next(s, Event.Open(ok)) ==
      if s.disk.file == [] then s.(pc := Waiting(ForDelivery))
      else s.(held := Some(s.disk.file[0]), disk := s.disk.(reading := Some(1)), pc := Holding)
  {
  }

  /** The reader changes its own side only. */
  ghost predicate SameLogger(s: State, s': State) {
    s'.pc == s.pc && s'.held == s.held && s'.hand == s.hand && s'.disk == s.disk
    && s'.past == s.past.(numbers := s'.past.numbers)
  }
}
