/** What the law of the pipeline says, and how it follows the messages. */
module LoggerAccounts {
  import opened Lines
  import opened LoggerModel
  import opened LoggerInvariant

  lemma UpToSnoc(n: nat)
    ensures UpTo(n + 1) == UpTo(n) + [n]
    ensures multiset(UpTo(n + 1)) == multiset(UpTo(n)) + multiset{n}
  {
    assert UpTo(n + 1) == UpTo(n) + [n];
  }

  lemma BalancedNew(past: Past, next: nat)
    requires Balanced(past, next)
    ensures Balanced(past.(numbers := past.numbers + [next]), next + 1)
  {
    UpToSnoc(next);
    assert multiset(past.numbers + [next]) + past.lost == (multiset(past.numbers) + past.lost) + multiset{next};
    assert multiset(UpTo(next + 1)) + past.doubled == (multiset(UpTo(next)) + past.doubled) + multiset{next};
  }

  /** A new message gets the next number. */
  lemma AccountsNew(flow: seq<seq<byte>>, due: seq<seq<byte>>, past: Past, msg: seq<byte>)
    requires Accounts(flow, due, past)
    ensures Accounts(flow + [msg], due + [msg], past.(numbers := past.numbers + [|due|]))
  {
    BalancedNew(past, |due|);
    assert InOrder(flow + [msg], due + [msg], past.numbers + [|due|]);
  }

  lemma BalancedLost(past: Past, k: nat, due: nat)
    requires k < |past.numbers|
    ensures Balanced(past, due) <==> Balanced(Lose(past, k), due)
  {
    var numbers := past.numbers;
    assert numbers == numbers[..k] + [numbers[k]] + numbers[k + 1..];
    var numbers' := numbers[..k] + numbers[k + 1..];
    assert multiset(numbers) == multiset(numbers') + multiset{numbers[k]};
    assert multiset(numbers) + past.lost == multiset(numbers') + (past.lost + multiset{numbers[k]});
  }

  lemma AccountsLost(flow: seq<seq<byte>>, due: seq<seq<byte>>, past: Past, k: nat)
    requires Accounts(flow, due, past) && k < |flow|
    ensures Accounts(flow[..k] + flow[k + 1..], due, Lose(past, k))
  {
    BalancedLost(past, k, |due|);
    assert InOrder(flow[..k] + flow[k + 1..], due, Lose(past, k).numbers);
  }

  lemma BalancedDoubled(past: Past, k: nat, due: nat)
    requires k < |past.numbers| && Balanced(past, due)
    ensures Balanced(Double(past, k), due)
  {
    var numbers, numbers' := past.numbers, past.numbers[..k + 1] + past.numbers[k..];
    assert multiset(numbers') == multiset(numbers) + multiset{numbers[k]} by {
      assert numbers == numbers[..k] + numbers[k..];
      assert numbers[..k + 1] == numbers[..k] + [numbers[k]];
    }
    assert multiset(numbers') + past.lost == (multiset(numbers) + past.lost) + multiset{numbers[k]};
  }

  lemma AccountsDoubled(flow: seq<seq<byte>>, due: seq<seq<byte>>, past: Past, k: nat)
    requires Accounts(flow, due, past) && k < |flow|
    ensures Accounts(flow[..k + 1] + flow[k..], due, Double(past, k))
  {
    BalancedDoubled(past, k, |due|);
    assert InOrder(flow[..k + 1] + flow[k..], due, Double(past, k).numbers);
  }

  /** In order and each once: there is only one way. */
  lemma {:induction false} AscendingOnce(s: seq<nat>, n: nat)
    requires Ascending(s) && multiset(s) == multiset(UpTo(n))
    ensures s == UpTo(n)
    decreases n
  {
    assert |s| == |multiset(s)| == |multiset(UpTo(n))| == n;
    if n > 0 {
      LastIsLargest(s, n - 1);
      WithoutLast(s, n - 1);
      AscendingOnce(s[..n - 1], n - 1);
      UpToSnoc(n - 1);
    }
  }

  lemma WithoutLast(s: seq<nat>, last: nat)
    requires |s| == last + 1 && s[last] == last && multiset(s) == multiset(UpTo(last + 1))
    ensures s == s[..last] + [last] && multiset(s[..last]) == multiset(UpTo(last))
  {
    UpToSnoc(last);
    assert s == s[..last] + [last];
    assert multiset(s[..last]) == multiset(s) - multiset{last} == multiset(UpTo(last));
  }

  lemma LastIsLargest(s: seq<nat>, n: nat)
    requires Ascending(s) && |s| == n + 1 && multiset(s) == multiset(UpTo(n + 1))
    ensures s[n] == n
  {
    assert s[n] in multiset(s);
    assert s[n] in UpTo(n + 1);
    assert UpTo(n + 1)[n] in multiset(UpTo(n + 1));
    assert n in s;
  }

  lemma BalancedIff(past: Past, due: nat)
    requires Balanced(past, due)
    ensures multiset(past.numbers) == multiset(UpTo(due)) <==> past.lost == past.doubled
  {
    forall x ensures multiset(past.numbers)[x] + past.lost[x] == multiset(UpTo(due))[x] + past.doubled[x] {
      assert (multiset(past.numbers) + past.lost)[x] == (multiset(UpTo(due)) + past.doubled)[x];
    }
  }

  /** Every message is there exactly once, in order, if and only if each was put
      back while held as often as it was lost. */
  lemma AccountsOnce(flow: seq<seq<byte>>, due: seq<seq<byte>>, past: Past)
    requires Accounts(flow, due, past)
    ensures past.numbers == UpTo(|due|) <==> past.lost == past.doubled
    ensures past.lost == past.doubled ==> flow == due
    ensures |flow| + |past.lost| == |due| + |past.doubled|
  {
    assert |multiset(past.numbers) + past.lost| == |multiset(UpTo(|due|)) + past.doubled|;
    BalancedIff(past, |due|);
    if past.lost == past.doubled {
      AscendingOnce(past.numbers, |due|);
    }
  }
}

/** Every step keeps the invariant. */
module LoggerSteps {
  import opened Lines
  import opened Subsequences
  import opened Wrappers
  import opened LoggerModel
  import opened LoggerInvariant
  import opened LoggerAccounts

  lemma SameFlow(s: State, s': State)
    requires Pos(s) <= |s.disk.file| && FlowInv(s) && Pos(s') <= |s'.disk.file|
    requires Flow(s') == Flow(s) && Due(s') == Due(s)
    requires s'.past.numbers == s.past.numbers && s'.past.lost == s.past.lost && s'.past.doubled == s.past.doubled
    ensures FlowInv(s')
  {
  }

  // The reader's steps

  lemma TextsSnoc(queue: seq<Item>, item: Item)
    ensures Texts(queue + [item]) == if item.Line? then Texts(queue) + [item.text] else Texts(queue)
  {
    TextsAppend(queue, [item]);
    assert [item][1..] == [];
    assert Texts(queue) + [] == Texts(queue);
  }

  lemma TextsFront(queue: seq<Item>)
    requires queue != []
    ensures Texts(queue) == if queue[0].Line? then [queue[0].text] + Texts(queue[1..]) else Texts(queue[1..])
  {
    assert [] + Texts(queue[1..]) == Texts(queue[1..]);
  }

  lemma StoreFlow(s: State, item: Item)
    requires Pos(s) <= |s.disk.file| && Enabled(s, Store(item))
    ensures var s' := Next(s, Store(item));
            Flow(s') == (if item.Line? then Flow(s) + [item.text] else Flow(s))
            && Due(s') == (if item.Line? then Due(s) + [item.text] else Due(s))
  {
    TextsSnoc(s.shared.queue, item);
    if item.Line? {
      ChainMoves(s.past.delivered, Opt(s.held), Unread(s), Opt(s.hand), Texts(s.shared.queue), item.text);
    }
  }

  lemma StoreAccounts(s: State, item: Item)
    requires Pos(s) <= |s.disk.file| && Enabled(s, Store(item)) && FlowInv(s)
    ensures FlowInv(AfterStore(s, item))
  {
    StoreFlow(s, item);
    var s' := AfterStore(s, item);
    if item.Line? {
      NewFlow(s, s', item.text);
    } else {
      SameFlow(s, s');
    }
  }

  lemma NewFlow(s: State, s': State, msg: seq<byte>)
    requires Pos(s) <= |s.disk.file| && FlowInv(s) && Pos(s') <= |s'.disk.file|
    requires Flow(s') == Flow(s) + [msg] && Due(s') == Due(s) + [msg]
    requires s'.past == s.past.(numbers := s.past.numbers + [|Due(s)|])
    ensures FlowInv(s')
  {
    AccountsNew(Flow(s), Due(s), s.past, msg);
  }

  lemma StoreKeepsRest(s: State, item: Item)
    requires RestInv(s) && Enabled(s, Store(item))
    ensures RestInv(AfterStore(s, item))
  {
    assert GoodItems(AfterStore(s, item).shared.queue, AfterStore(s, item).shared.finished);
  }

  lemma StoreKeepsInv(s: State, item: Item)
    requires Inv(s) && Enabled(s, Store(item))
    ensures Inv(Next(s, Store(item)))
  {
    StoreKeepsRest(s, item);
    StoreAccounts(s, item);
  }

  lemma PostKeepsInv(s: State)
    requires Inv(s) && Enabled(s, Post)
    ensures Inv(Next(s, Post))
  {
    assert Flow(Next(s, Post)) == Flow(s);
  }

  // Around a spill

  lemma SampleKeepsInv(s: State)
    requires Inv(s) && Enabled(s, Sample)
    ensures Inv(Next(s, Sample))
  {
    assert Flow(Next(s, Sample)) == Flow(s);
  }

  /** Holding the next unread line takes it off the front of the unread ones. */
  lemma GetLineFlow(s: State)
    requires Pos(s) < |s.disk.file| && s.held == None
    ensures Pos(GetLine(s).value) <= |s.disk.file| && Flow(GetLine(s).value) == Flow(s)
  {
    var s' := GetLine(s).value;
    assert Unread(s) == [s'.held.value] + Unread(s');
    ChainMoves(s.past.delivered, [], Unread(s'), Opt(s.hand), Texts(s.shared.queue), s'.held.value);
  }

  lemma ResumeFlow(s: State, ferror: bool)
    requires s.pc.Resuming? && Pos(s) <= |s.disk.file| && (s.pc.starting ==> s.held == None)
    ensures Pos(AfterResume(s, ferror)) <= |AfterResume(s, ferror).disk.file|
    ensures Flow(AfterResume(s, ferror)) == Flow(s)
  {
    var s1 := s.(disk := s.disk.(appending := s.disk.appending && !ferror), pc := Holding);
    assert Flow(s1) == Flow(s);
    if s.pc.starting && Pos(s) < |s.disk.file| {
      GetLineFlow(s1);
    }
  }

  /** A starting spill ends with a line to hold, unless all it wrote was lost. */
  lemma ResumeKeepsRest(s: State, ferror: bool)
    requires RestInv(s) && Enabled(s, Resume(ferror))
    ensures var s' := AfterResume(s, ferror); RestInv(s')
  {
    assert s.pc.starting ==> s.disk.file[..0] == [] && IsSuffix([], s.past.delivered);
  }

  lemma ResumeKeepsInv(s: State, ferror: bool)
    requires Inv(s) && Enabled(s, Resume(ferror))
    ensures Inv(Next(s, Resume(ferror)))
  {
    ResumeFlow(s, ferror);
    ResumeKeepsRest(s, ferror);
  }

  // Popping and putting back

  lemma WaitKeepsInv(s: State)
    requires Inv(s) && Enabled(s, Wait)
    ensures Inv(Next(s, Wait))
  {
    assert Flow(Next(s, Wait)) == Flow(s);
  }

  lemma TakeFlow(s: State)
    requires Pos(s) <= |s.disk.file| && Enabled(s, Take) && s.hand == None
    requires s.pc.goal.ForDelivery? ==> s.held == None && Unread(s) == []
    ensures Flow(AfterTake(s)) == Flow(s)
  {
    TextsFront(s.shared.queue);
    if s.shared.queue[0].Line? {
      ChainMoves(s.past.delivered, Opt(s.held), Unread(s), [], Texts(s.shared.queue[1..]), s.shared.queue[0].text);
    }
  }

  lemma TakeKeepsRest(s: State)
    requires RestInv(s) && Enabled(s, Take)
    ensures var s' := AfterTake(s); RestInv(s')
  {
    assert GoodItems(AfterTake(s).shared.queue, AfterTake(s).shared.finished);
  }

  lemma TakeKeepsInv(s: State)
    requires Inv(s) && Enabled(s, Take)
    ensures Inv(Next(s, Take))
  {
    TakeKeepsRest(s);
    assert s.pc.goal.ForDelivery? ==> Unread(s) == [];
    TakeFlow(s);
    SameFlow(s, AfterTake(s));
  }

  lemma AppendFlow(s: State, s': State)
    requires Pos(s) <= |s.disk.file| && s.hand.Some?
    requires s' == s.(disk := s.disk.(file := s.disk.file + [s.hand.value]), hand := None)
    ensures Flow(s') == Flow(s)
  {
    assert Unread(s') == Unread(s) + [s.hand.value];
    ChainMoves(s.past.delivered, Opt(s.held), Unread(s), [], Texts(s.shared.queue), s.hand.value);
  }

  /** A line taken and then not flushed leaves the place it had in the flow. */
  lemma LostInHandFlow(s: State, s': State)
    requires Pos(s) <= |s.disk.file| && s.hand.Some?
    requires s' == s.(hand := None, pc := s'.pc, past := Lose(s.past, PlaceInHand(s)))
    ensures var flow, k := Flow(s), PlaceInHand(s); k < |flow| && Flow(s') == flow[..k] + flow[k + 1..]
  {
  }

  lemma AppendKeepsRest(s: State, write: Write)
    requires RestInv(s) && Enabled(s, Append(write)) && PlaceInHand(s) < |s.past.numbers|
    ensures RestInv(AfterAppend(s, write))
  {
    if write.Written? && Pos(s) > 0 {
      assert AfterAppend(s, write).disk.file[..Pos(s) - 1] == s.disk.file[..Pos(s) - 1];
    }
  }

  lemma AppendKeepsInv(s: State, write: Write)
    requires Inv(s) && Enabled(s, Append(write))
    ensures Inv(Next(s, Append(write)))
  {
    var s' := AfterAppend(s, write);
    assert PlaceInHand(s) < |Flow(s)|;
    AppendKeepsRest(s, write);
    match write
    case Written =>
      AppendFlow(s, s.(disk := s.disk.(file := s.disk.file + [s.hand.value]), hand := None));
      SameFlow(s, s');
    case Refused =>
      SameFlow(s, s');
    case Lost =>
      LostInHandFlow(s, s');
      AccountsLost(Flow(s), Due(s), s.past, PlaceInHand(s));
  }

  lemma UnpopFlow(s: State)
    requires Pos(s) <= |s.disk.file| && Enabled(s, Unpop)
    requires s.pc.back.ToHolding? ==> s.hand == None && s.disk.file == []
    ensures
      var s', flow, k := Next(s, Unpop), Flow(s), |s.past.delivered|;
      if s.pc.back.ToResuming? then Flow(s') == flow
      else k < |flow| && Flow(s') == flow[..k + 1] + flow[k..]
  {
    var queue := s.shared.queue;
    if s.pc.back.ToResuming? {
      TextsCons(s.hand.value, queue);
      ChainMoves(s.past.delivered, Opt(s.held), Unread(s), [], Texts(queue), s.hand.value);
    } else {
      TextsCons(s.held.value, queue);
      ChainCopies(s.past.delivered, Texts(queue), s.held.value);
    }
  }

  lemma TextsCons(text: seq<byte>, queue: seq<Item>)
    ensures Texts([Line(text)] + queue) == [text] + Texts(queue)
  {
    assert ([Line(text)] + queue)[1..] == queue;
  }

  /** A copy of the message held at the front of the queue is right behind it if nothing is unread. */
  lemma ChainCopies<T>(a: seq<T>, e: seq<T>, x: T)
    ensures var flow := Chain(a, [x], [], [], e); Chain(a, [x], [], [], [x] + e) == flow[..|a| + 1] + flow[|a|..]
  {
    var flow := Chain(a, [x], [], [], e);
    assert flow == a + [x] + e && flow[..|a| + 1] == a + [x] && flow[|a|..] == [x] + e;
    assert Chain(a, [x], [], [], [x] + e) == a + [x] + ([x] + e);
  }

  lemma UnpopKeepsRest(s: State)
    requires RestInv(s) && Enabled(s, Unpop)
    ensures var s' := AfterUnpop(s); RestInv(s')
  {
    assert GoodItems(AfterUnpop(s).shared.queue, AfterUnpop(s).shared.finished);
  }

  lemma UnpopKeepsInv(s: State)
    requires Inv(s) && Enabled(s, Unpop)
    ensures Inv(Next(s, Unpop))
  {
    UnpopKeepsRest(s);
    UnpopFlow(s);
    if s.pc.back.ToHolding? {
      AccountsDoubled(Flow(s), Due(s), s.past, |s.past.delivered|);
    } else {
      SameFlow(s, Next(s, Unpop));
    }
  }

  lemma RepostKeepsInv(s: State)
    requires Inv(s) && Enabled(s, Repost)
    ensures Inv(Next(s, Repost))
  {
    assert Flow(Next(s, Repost)) == Flow(s);
  }

  // Steps at the loop head

  lemma OpenKeepsInv(s: State, ok: bool)
    requires Inv(s) && Enabled(s, Open(ok))
    ensures Inv(Next(s, Open(ok)))
  {
    var s' := Next(s, Open(ok));
    if s.disk.file != [] {
      assert Unread(s) == [s'.held.value] + Unread(s');
      ChainMoves(s.past.delivered, [], Unread(s'), [], Texts(s.shared.queue), s'.held.value);
      assert s'.disk.file[..0] == [] == s.past.delivered[|s.past.delivered|..];
    }
    assert Flow(s') == Flow(s);
  }

  lemma DeliveredFlow(s: State)
    requires Pos(s) <= |s.disk.file| && s.held.Some? && (s.disk.reading == None ==> s.disk.file == [])
    ensures Pos(AfterDelivery(s)) <= |AfterDelivery(s).disk.file|
    ensures Flow(AfterDelivery(s)) == Flow(s)
  {
    var s', done := AfterDelivery(s), s.past.delivered + [s.held.value];
    ChainMoves(s.past.delivered, [], Unread(s), Opt(s.hand), Texts(s.shared.queue), s.held.value);
    if Pos(s) < |s.disk.file| {
      assert Unread(s) == [s'.held.value] + Unread(s');
      ChainMoves(done, [], Unread(s'), Opt(s.hand), Texts(s.shared.queue), s'.held.value);
    } else {
      assert Unread(s) == [] == Unread(s');
    }
  }

  /** Everything up to the position has been delivered once the message held has. */
  lemma DeliveredCovers(s: State)
    requires FileInv(s) && s.held.Some?
    ensures IsSuffix(s.disk.file[..Pos(s)], s.past.delivered + [s.held.value])
  {
    var done := s.past.delivered + [s.held.value];
    if Pos(s) > 0 {
      var before := s.disk.file[..Pos(s) - 1];
      assert s.disk.file[..Pos(s)] == before + [s.held.value];
      assert done[|done| - Pos(s)..] == s.past.delivered[|s.past.delivered| - |before|..] + [s.held.value];
    }
  }

  lemma DeliveredKeepsInv(s: State)
    requires Inv(s) && Enabled(s, Delivered)
    ensures Inv(Next(s, Delivered))
  {
    var s' := Next(s, Delivered);
    DeliveredFlow(s);
    DeliveredCovers(s);
    assert FileInv(s');
    assert FlowInv(s');
  }

  lemma FailedFlow(s: State, appendOk: bool, readOk: bool, write: Write)
    requires s.held.Some? && Pos(s) <= |s.disk.file| && (s.disk.reading == None ==> s.disk.file == [])
    requires |s.past.delivered| < |s.past.numbers|
    ensures
      var s', flow, k := AfterFailure(s, appendOk, readOk, write), Flow(s), |s.past.delivered|;
      && Pos(s') <= |s'.disk.file|
      && if s'.past == s.past then Flow(s') == flow
         else s'.past == Lose(s.past, k) && k < |flow| && Flow(s') == flow[..k] + flow[k + 1..]
  {
    var s' := AfterFailure(s, appendOk, readOk, write);
    if s'.held.Some? {
      assert Unread(s') == Unread(s);
    } else if write.Written? {
      assert s'.disk.file == [s.held.value] && Unread(s') == [s.held.value] && Unread(s) == [];
      ChainMoves(s.past.delivered, [], [], Opt(s.hand), Texts(s.shared.queue), s.held.value);
    }
  }

  lemma FailedKeepsRest(s: State, appendOk: bool, readOk: bool, write: Write)
    requires Inv(s) && Enabled(s, Failed(appendOk, readOk, write))
    ensures var s' := AfterFailure(s, appendOk, readOk, write);
            RestInv(s')
  {
    assert |s.past.delivered| < |Flow(s)|;
  }

  lemma FailedKeepsInv(s: State, appendOk: bool, readOk: bool, write: Write)
    requires Inv(s) && Enabled(s, Failed(appendOk, readOk, write))
    ensures Inv(Next(s, Failed(appendOk, readOk, write)))
  {
    FailedKeepsRest(s, appendOk, readOk, write);
    FailedFlow(s, appendOk, readOk, write);
    if AfterFailure(s, appendOk, readOk, write).past != s.past {
      AccountsLost(Flow(s), Due(s), s.past, |s.past.delivered|);
    }
  }

  lemma NextKeepsInv(s: State, e: Event)
    requires Inv(s) && Enabled(s, e)
    ensures Inv(Next(s, e))
  {
    match e
    case Store(item) => StoreKeepsInv(s, item);
    case Post => PostKeepsInv(s);
    case Open(ok) => OpenKeepsInv(s, ok);
    case Wait => WaitKeepsInv(s);
    case Take => TakeKeepsInv(s);
    case Delivered => DeliveredKeepsInv(s);
    case Failed(appendOk, readOk, write) => FailedKeepsInv(s, appendOk, readOk, write);
    case Sample => SampleKeepsInv(s);
    case Append(write) => AppendKeepsInv(s, write);
    case Unpop => UnpopKeepsInv(s);
    case Repost => RepostKeepsInv(s);
    case Resume(ferror) => ResumeKeepsInv(s, ferror);
  }

  lemma {:induction false} RunKeepsInv(s: State, events: seq<Event>, end: State)
    requires Inv(s) && Reaches(s, events, end)
    ensures Inv(end)
    decreases |events|
  {
    if events != [] {
      NextKeepsInv(s, events[0]);
      RunKeepsInv(Next(s, events[0]), events[1..], end);
    }
  }
}
