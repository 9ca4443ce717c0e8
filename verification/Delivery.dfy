/** Delivering one message, on values: what the delivery loop does given the
    answers of the operating system, pass by pass. */
module DeliverySpec {
  datatype OutputState = Disconnected | Connecting | Ready | Sending | Error

  datatype ConnectAnswer = Unresolved | Established | AlreadyConnected | Pending | Refused

  datatype SelectAnswer = SelectFailed | TimedOut | Active(isSet: bool)

  /** What `write` answers: some bytes taken, none taken, try again, or an error. */
  datatype WriteAnswer = Took(n: nat) | Nothing | TryAgain | Broken

  /** The answers one pass of the loop gets, as far as it asks. When the write
      answers are used up the destination takes no more for now. */
  datatype Answers = Answers(
    socket: nat,
    connect: ConnectAnswer,
    select: SelectAnswer,
    writes: seq<WriteAnswer>)

  datatype Outcome =
    | Delivered
    | GaveUp
    | SelectError
    | StillTrying      // the observed passes are used up

  const RETRY: int := 3

  function ConnectedState(answer: ConnectAnswer): OutputState {
    match answer
    case Unresolved => Error
    case Established => Ready
    case AlreadyConnected => Ready
    case Pending => Connecting
    case Refused => Error
  }

  predicate Watched(state: OutputState) {
    state == Ready || state == Sending
  }

  /** `select` watches the descriptor of a ready or sending handler, and nothing
      otherwise: then it cannot report activity. */
  function Selected(state: OutputState, answer: SelectAnswer): SelectAnswer {
    if answer.Active? && !Watched(state) then TimedOut else answer
  }

  /** A write takes at least one and at most all of the bytes it is given, or it takes none. */
  function Taken(answer: WriteAnswer, todo: nat): (n: nat)
    ensures n <= todo
  {
    if answer.Took? && answer.n <= todo then answer.n else 0
  }

  datatype Written = Written(left: nat, state: OutputState)

  function WriteAll(todo: nat, writes: seq<WriteAnswer>): (w: Written)
    requires todo > 0
    ensures w.left <= todo && (w.left == 0 <==> w.state == Ready) && w.state != Disconnected && w.state != Connecting
  {
    if writes == [] then Written(todo, Sending)
    else
      var n := Taken(writes[0], todo);
      if n == todo then Written(0, Ready)
      else if n > 0 then WriteAll(todo - n, writes[1..])
      else Written(todo, if writes[0] == Broken then Error else Sending)
  }

  /** The writes from the `k`-th answer on. */
  lemma WriteAllNext(todo: nat, writes: seq<WriteAnswer>, k: nat)
    requires todo > 0 && k < |writes|
    ensures
      var n := Taken(writes[k], todo);
      WriteAll(todo, writes[k..]) ==
      if n == todo then Written(0, Ready)
      else if n > 0 then WriteAll(todo - n, writes[k + 1..])
      else Written(todo, if writes[k] == Broken then Error else Sending)
  {
    assert writes[k..][1..] == writes[k + 1..];
  }

  datatype Result = Result(
    outcome: Outcome,
    state: OutputState,
    todo: nat,
    passes: nat,       // passes made
    activity: nat,     // how often `select` reported activity
    misses: nat)       // timeouts and errors since the last activity

  datatype PassResult =
    | Stop(outcome: Outcome, state: OutputState, todo: nat, active: bool)
    | Continue(state: OutputState, todo: nat, misses: nat, active: bool)

  /** One pass: connect if disconnected, wait, write, and disconnect after an error. */
  function Pass(state: OutputState, todo: nat, misses: nat, a: Answers): (p: PassResult)
    requires todo > 0
    ensures p.todo <= todo && (p.Continue? ==> p.todo > 0 && p.state != Error)
  {
    var connected := if state == Disconnected then ConnectedState(a.connect) else state;
    match Selected(connected, a.select)
    case SelectFailed => Stop(SelectError, connected, todo, false)
    case TimedOut => AfterPass(connected, todo, misses + 1, false)
    case Active(false) => AfterPass(connected, todo, 0, true)
    case Active(true) =>
      var w := WriteAll(todo, a.writes);
      if w.left == 0 then Stop(Delivered, Ready, 0, true) else AfterPass(w.state, w.left, 0, true)
  }

  /** A handler in error is disconnected, which counts as one more miss. */
  function AfterPass(state: OutputState, todo: nat, misses: nat, active: bool): PassResult {
    if state == Error then Continue(Disconnected, todo, misses + 1, active)
    else Continue(state, todo, misses, active)
  }

  /** The loop, from a given pass on. */
  function Loop(state: OutputState, todo: nat, misses: nat, answers: nat -> Answers, pass: nat, limit: nat): Result
    requires todo > 0 && pass <= limit
    decreases limit - pass
  {
    if misses >= RETRY then Result(GaveUp, state, todo, 0, 0, misses)
    else if pass == limit then Result(StillTrying, state, todo, 0, 0, misses)
    else
      match Pass(state, todo, misses, answers(pass))
      case Stop(outcome, state', todo', active) =>
        Result(outcome, state', todo', 1, if active then 1 else 0, if active then 0 else misses)
      case Continue(state', todo', misses', active) =>
        var r := Loop(state', todo', misses', answers, pass + 1, limit);
        r.(passes := r.passes + 1, activity := r.activity + if active then 1 else 0)
  }

  // What the loop guarantees

  /** At most three passes per report of activity, plus three. */
  lemma {:induction false} PassesBounded(state: OutputState, todo: nat, misses: nat,
                                         answers: nat -> Answers, pass: nat, limit: nat)
    requires todo > 0 && pass <= limit
    ensures
      var r := Loop(state, todo, misses, answers, pass, limit);
      && r.passes <= 3 * r.activity + (if misses < 3 then 3 - misses else 0)
      && (r.outcome == StillTrying ==> r.passes == limit - pass)
    decreases limit - pass
  {
    if misses < RETRY && pass < limit {
      var p := Pass(state, todo, misses, answers(pass));
      if p.Continue? {
        PassesBounded(p.state, p.todo, p.misses, answers, pass + 1, limit);
      }
    }
  }

  /** A destination that is never active is given up within three passes. */
  lemma SilentGivenUp(state: OutputState, todo: nat, answers: nat -> Answers, limit: nat)
    requires todo > 0 && limit > 3
    requires forall k: nat :: answers(k).select == TimedOut
    ensures
      var r := Loop(state, todo, 0, answers, 0, limit);
      r.outcome == GaveUp && r.passes <= 3 && r.todo == todo
  {
    SilentFrom(state, todo, 0, answers, 0, limit);
    PassesBounded(state, todo, 0, answers, 0, limit);
  }

  lemma {:induction false} SilentFrom(state: OutputState, todo: nat, misses: nat,
                                      answers: nat -> Answers, pass: nat, limit: nat)
    requires todo > 0 && pass <= limit
    requires forall k: nat :: answers(k).select == TimedOut
    ensures
      var r := Loop(state, todo, misses, answers, pass, limit);
      r.activity == 0 && r.todo == todo && (r.outcome == GaveUp || r.outcome == StillTrying)
    decreases limit - pass
  {
    if misses < RETRY && pass < limit {
      assert answers(pass).select == TimedOut;
      var p := Pass(state, todo, misses, answers(pass));
      SilentFrom(p.state, p.todo, p.misses, answers, pass + 1, limit);
    }
  }

  /** It never gives up early: only after three timeouts or errors without
      activity in between, and never leaving an error behind. The outcome is
      success exactly when nothing is left to do. */
  lemma {:induction false} GivesUpLate(state: OutputState, todo: nat, misses: nat,
                                       answers: nat -> Answers, pass: nat, limit: nat)
    requires todo > 0 && pass <= limit && (misses >= RETRY ==> state != Error)
    ensures
      var r := Loop(state, todo, misses, answers, pass, limit);
      && r.todo <= todo && (r.outcome == Delivered <==> r.todo == 0)
      && (r.outcome == Delivered ==> r.state == Ready)
      && (r.outcome == GaveUp ==> r.misses >= 3 && r.state != Error)
    decreases limit - pass
  {
    if misses < RETRY && pass < limit {
      var p := Pass(state, todo, misses, answers(pass));
      if p.Continue? {
        GivesUpLate(p.state, p.todo, p.misses, answers, pass + 1, limit);
      }
    }
  }

  /** How many of the bytes left a sequence of write answers takes, up to the first refusal. */
  function Offered(todo: nat, writes: seq<WriteAnswer>): nat {
    if todo == 0 || writes == [] || Taken(writes[0], todo) == 0 then 0
    else Taken(writes[0], todo) + Offered(todo - Taken(writes[0], todo), writes[1..])
  }

  lemma {:induction false} WriteAllTakesOffered(todo: nat, writes: seq<WriteAnswer>)
    requires todo > 0
    ensures Offered(todo, writes) <= todo && WriteAll(todo, writes).left == todo - Offered(todo, writes)
  {
    if writes != [] && 0 < Taken(writes[0], todo) < todo {
      WriteAllTakesOffered(todo - Taken(writes[0], todo), writes[1..]);
    }
  }

  /** The next pass delivers if and only if the handler is connected or gets
      connected at once, is reported writable, and the writes take all that is left. */
  lemma DeliversAtOnceIff(state: OutputState, todo: nat, misses: nat, answers: nat -> Answers, pass: nat, limit: nat)
    requires todo > 0 && pass < limit && misses < RETRY
    ensures
      var r, a := Loop(state, todo, misses, answers, pass, limit), answers(pass);
      r.outcome == Delivered && r.passes == 1 <==>
      && (Watched(state) || (state == Disconnected && ConnectedState(a.connect) == Ready))
      && a.select == Active(true)
      && Offered(todo, a.writes) == todo
  {
    WriteAllTakesOffered(todo, answers(pass).writes);
    var p := Pass(state, todo, misses, answers(pass));
    if p.Continue? && p.misses < RETRY && pass + 1 < limit {
      var r := Loop(p.state, p.todo, p.misses, answers, pass + 1, limit);
      assert r.passes > 0;
    }
  }

  // What the answers decide, without looking at the loop's own state and counter

  predicate Connects(answer: ConnectAnswer) {
    answer == Established || answer == AlreadyConnected
  }

  predicate FailsToConnect(answer: ConnectAnswer) {
    answer == Refused || answer == Unresolved
  }

  /** `select` reports activity on a handler that is connected or gets connected. */
  predicate IsActive(state: OutputState, a: Answers) {
    a.select.Active? && (state == Ready || state == Sending || (state == Disconnected && Connects(a.connect)))
  }

  /** The first write that takes nothing, before all is taken, finds the connection broken. */
  predicate Breaks(todo: nat, writes: seq<WriteAnswer>) {
    && todo > 0 && writes != []
    && if Taken(writes[0], todo) == 0 then writes[0] == Broken
       else Breaks(todo - Taken(writes[0], todo), writes[1..])
  }

  /** The connection fails in this pass, so that it has to be made again. */
  predicate LosesConnection(state: OutputState, todo: nat, a: Answers) {
    || state == Error
    || (state == Disconnected && FailsToConnect(a.connect))
    || (IsActive(state, a) && a.select.isSet && Breaks(todo, a.writes))
  }

  lemma {:induction false} BreaksIff(todo: nat, writes: seq<WriteAnswer>)
    requires todo > 0
    ensures WriteAll(todo, writes).state == Error <==> Breaks(todo, writes)
  {
    if writes != [] && 0 < Taken(writes[0], todo) < todo {
      BreaksIff(todo - Taken(writes[0], todo), writes[1..]);
    }
  }

  /** A delivery leaves the handler connecting if and only if it was so from the
      start, or a connect it made was answered with "in progress". */
  lemma {:induction false} ConnectingIff(state: OutputState, todo: nat, misses: nat,
                                         answers: nat -> Answers, pass: nat, limit: nat)
    requires todo > 0 && pass <= limit
    ensures Loop(state, todo, misses, answers, pass, limit).state == Connecting
            <==> state == Connecting || GetsPending(state, todo, misses, answers, pass, limit)
    decreases limit - pass
  {
    if misses < RETRY && pass < limit {
      var p := Pass(state, todo, misses, answers(pass));
      if p.Continue? {
        ConnectingIff(p.state, p.todo, p.misses, answers, pass + 1, limit);
        if p.state == Connecting {
          NeverPendingAgain(p.todo, p.misses, answers, pass + 1, limit);
        }
      }
    }
  }

  /** In some pass made a disconnected handler connects, and is answered "in progress". */
  ghost predicate GetsPending(state: OutputState, todo: nat, misses: nat,
                              answers: nat -> Answers, pass: nat, limit: nat)
    requires todo > 0 && pass <= limit
    decreases limit - pass
  {
    misses < RETRY && pass < limit &&
    ((state == Disconnected && answers(pass).connect == Pending) ||
     var p := Pass(state, todo, misses, answers(pass));
     p.Continue? && GetsPending(p.state, p.todo, p.misses, answers, pass + 1, limit))
  }

  lemma {:induction false} NeverPendingAgain(todo: nat, misses: nat, answers: nat -> Answers, pass: nat, limit: nat)
    requires todo > 0 && pass <= limit
    ensures !GetsPending(Connecting, todo, misses, answers, pass, limit)
    decreases limit - pass
  {
    if misses < RETRY && pass < limit {
      NeverPendingAgain(todo, misses + 1, answers, pass + 1, limit);
    }
  }

  /** A delivery ends with an error of `select` if and only if `select` failed in a
      pass it made, which is then its last one. */
  lemma {:induction false} SelectErrorIff(state: OutputState, todo: nat, misses: nat,
                                          answers: nat -> Answers, pass: nat, limit: nat)
    requires todo > 0 && pass <= limit
    ensures
      var r := Loop(state, todo, misses, answers, pass, limit);
      var end := pass + r.passes;
      && (r.outcome == SelectError <==> exists k: nat :: pass <= k < end && answers(k).select == SelectFailed)
      && (forall k: nat :: pass <= k < end && answers(k).select == SelectFailed ==> k + 1 == end)
    decreases limit - pass
  {
    if misses < RETRY && pass < limit {
      var p := Pass(state, todo, misses, answers(pass));
      if p.Continue? {
        SelectErrorIff(p.state, p.todo, p.misses, answers, pass + 1, limit);
      } else {
        assert answers(pass).select == SelectFailed <==> p.outcome == SelectError;
      }
    }
  }

  /** A connect that fails leaves the handler disconnected: the next pass connects
      again, and delivers if and only if that succeeds at once, the handler is
      reported writable, and the writes take everything. */
  lemma FailedConnectIsRepeated(todo: nat, answers: nat -> Answers, pass: nat, limit: nat)
    requires todo > 0 && pass + 1 < limit
    requires FailsToConnect(answers(pass).connect) && answers(pass).select != SelectFailed
    ensures
      var r, next := Loop(Disconnected, todo, 0, answers, pass, limit), answers(pass + 1);
      r.outcome == Delivered && r.passes == 2 <==>
      Connects(next.connect) && next.select == Active(true) && Offered(todo, next.writes) == todo
  {
    assert Pass(Disconnected, todo, 0, answers(pass)) == Continue(Disconnected, todo, 2, false);
    DeliversAtOnceIff(Disconnected, todo, 2, answers, pass + 1, limit);
  }

  /** Two connects that fail in a row end the delivery. */
  lemma TwoFailedConnectsGiveUp(todo: nat, answers: nat -> Answers, pass: nat, limit: nat)
    requires todo > 0 && pass + 1 < limit
    requires FailsToConnect(answers(pass).connect) && answers(pass).select != SelectFailed
    requires FailsToConnect(answers(pass + 1).connect) && answers(pass + 1).select != SelectFailed
    ensures
      var r := Loop(Disconnected, todo, 0, answers, pass, limit);
      r.outcome == GaveUp && r.state == Disconnected && r.todo == todo && r.passes == 2
  {
    assert Pass(Disconnected, todo, 0, answers(pass)) == Continue(Disconnected, todo, 2, false);
    assert Pass(Disconnected, todo, 2, answers(pass + 1)) == Continue(Disconnected, todo, 4, false);
    assert Loop(Disconnected, todo, 4, answers, pass + 2, limit).outcome == GaveUp;
    assert Loop(Disconnected, todo, 2, answers, pass + 1, limit).outcome == GaveUp;
  }

  /** After writes that did not take all, the next pass goes on with the byte where
      they stopped. It delivers if and only if the handler is reported writable
      and the rest is taken -- and, if the connection had broken, it is made again at once. */
  lemma WritesGoOn(state: OutputState, todo: nat, misses: nat, answers: nat -> Answers, pass: nat, limit: nat)
    requires (state == Ready || state == Sending) && misses < RETRY && pass + 1 < limit
    requires answers(pass).select == Active(true) && Offered(todo, answers(pass).writes) < todo
    ensures
      var r, next := Loop(state, todo, misses, answers, pass, limit), answers(pass + 1);
      var left := todo - Offered(todo, answers(pass).writes);
      r.outcome == Delivered && r.passes == 2 <==>
      && next.select == Active(true) && Offered(left, next.writes) == left
      && (Breaks(todo, answers(pass).writes) ==> Connects(next.connect))
  {
    WriteAllTakesOffered(todo, answers(pass).writes);
    BreaksIff(todo, answers(pass).writes);
    var p := Pass(state, todo, misses, answers(pass));
    DeliversAtOnceIff(p.state, p.todo, p.misses, answers, pass + 1, limit);
  }

  /** Activity renews the tries: how it goes on after a pass that saw activity does
      not depend on how many tries were left before it. */
  lemma ActivityRenews(state: OutputState, todo: nat, misses: nat, misses': nat,
                       answers: nat -> Answers, pass: nat, limit: nat)
    requires todo > 0 && pass < limit && misses < 3 && misses' < 3
    requires IsActive(state, answers(pass))
    ensures Loop(state, todo, misses, answers, pass, limit) == Loop(state, todo, misses', answers, pass, limit)
  {
  }

  /** A pass costs one try if it sees no activity, and one if it loses the connection. */
  datatype PassCost = PassCost(active: bool, lost: bool) {
    function Tries(): nat {
      (if active then 0 else 1) + if lost then 1 else 0
    }
  }

  function CostOf(state: OutputState, todo: nat, a: Answers): PassCost {
    PassCost(IsActive(state, a), LosesConnection(state, todo, a))
  }

  /** The costs of the passes made, but for one that ends the delivery by itself. */
  function Costs(state: OutputState, todo: nat, misses: nat, answers: nat -> Answers, pass: nat, limit: nat)
    : seq<PassCost>
    requires todo > 0 && pass <= limit
    decreases limit - pass
  {
    if misses >= RETRY || pass == limit then []
    else
      var p := Pass(state, todo, misses, answers(pass));
      if p.Stop? then []
      else [CostOf(state, todo, answers(pass))] + Costs(p.state, p.todo, p.misses, answers, pass + 1, limit)
  }

  /** What the passes since the last one with activity cost, that one included;
      and what was spent before, if there is none. */
  function Spent(before: nat, costs: seq<PassCost>): nat {
    if costs == [] then before
    else
      var last := costs[|costs| - 1];
      last.Tries() + if last.active then 0 else Spent(before, costs[..|costs| - 1])
  }

  predicate NotSpentEarly(before: nat, costs: seq<PassCost>) {
    forall k | 0 <= k < |costs| :: Spent(before, costs[..k]) < 3
  }

  lemma {:induction false} SpentCons(before: nat, first: PassCost, costs: seq<PassCost>)
    ensures Spent(before, [first] + costs) == Spent(first.Tries() + (if first.active then 0 else before), costs)
    decreases |costs|
  {
    if costs == [] {
      assert [first] + costs == [first] && [first][..0] == [];
    } else {
      SpentCons(before, first, costs[..|costs| - 1]);
      assert ([first] + costs)[..|costs|] == [first] + costs[..|costs| - 1];
    }
  }

  lemma PassCosts(state: OutputState, todo: nat, misses: nat, a: Answers)
    requires todo > 0 && Pass(state, todo, misses, a).Continue?
    ensures Pass(state, todo, misses, a).misses
            == CostOf(state, todo, a).Tries() + if CostOf(state, todo, a).active then 0 else misses
  {
    BreaksIff(todo, a.writes);
  }

  lemma SpentOnwards(state: OutputState, todo: nat, misses: nat, answers: nat -> Answers, pass: nat, limit: nat)
    requires todo > 0 && misses < RETRY && pass < limit && Pass(state, todo, misses, answers(pass)).Continue?
    ensures
      var p := Pass(state, todo, misses, answers(pass));
      Spent(misses, Costs(state, todo, misses, answers, pass, limit))
      == Spent(p.misses, Costs(p.state, p.todo, p.misses, answers, pass + 1, limit))
  {
    var p := Pass(state, todo, misses, answers(pass));
    PassCosts(state, todo, misses, answers(pass));
    SpentCons(misses, CostOf(state, todo, answers(pass)),
              Costs(p.state, p.todo, p.misses, answers, pass + 1, limit));
  }

  lemma {:induction false} GivenUpWhenSpent(state: OutputState, todo: nat, misses: nat,
                                            answers: nat -> Answers, pass: nat, limit: nat)
    requires todo > 0 && pass <= limit
    ensures Loop(state, todo, misses, answers, pass, limit).outcome == GaveUp
            <==> Spent(misses, Costs(state, todo, misses, answers, pass, limit)) >= 3
    decreases limit - pass
  {
    if misses < RETRY && pass < limit {
      var p := Pass(state, todo, misses, answers(pass));
      if p.Continue? {
        SpentOnwards(state, todo, misses, answers, pass, limit);
        GivenUpWhenSpent(p.state, p.todo, p.misses, answers, pass + 1, limit);
      }
    }
  }

  lemma {:induction false} NotSpentBefore(state: OutputState, todo: nat, misses: nat,
                                          answers: nat -> Answers, pass: nat, limit: nat)
    requires todo > 0 && pass <= limit
    ensures NotSpentEarly(misses, Costs(state, todo, misses, answers, pass, limit))
    decreases limit - pass
  {
    if misses < RETRY && pass < limit {
      var p := Pass(state, todo, misses, answers(pass));
      if p.Continue? {
        var first := CostOf(state, todo, answers(pass));
        var later := Costs(p.state, p.todo, p.misses, answers, pass + 1, limit);
        PassCosts(state, todo, misses, answers(pass));
        NotSpentBefore(p.state, p.todo, p.misses, answers, pass + 1, limit);
        NotBefore(misses, p.misses, first, later);
      }
    }
  }

  lemma {:induction false} CostsCounted(state: OutputState, todo: nat, misses: nat,
                                        answers: nat -> Answers, pass: nat, limit: nat)
    requires todo > 0 && pass <= limit
    ensures
      var r := Loop(state, todo, misses, answers, pass, limit);
      |Costs(state, todo, misses, answers, pass, limit)|
      == if r.outcome == Delivered || r.outcome == SelectError then r.passes - 1 else r.passes
    decreases limit - pass
  {
    if misses < RETRY && pass < limit {
      var p := Pass(state, todo, misses, answers(pass));
      if p.Continue? {
        CostsCounted(p.state, p.todo, p.misses, answers, pass + 1, limit);
      }
    }
  }

  /** A delivery is given up if and only if the passes since the last activity have
      cost three tries, and not before. */
  lemma GivenUpIff(state: OutputState, todo: nat, misses: nat, answers: nat -> Answers, pass: nat, limit: nat)
    requires todo > 0 && pass <= limit
    ensures
      var r, costs := Loop(state, todo, misses, answers, pass, limit), Costs(state, todo, misses, answers, pass, limit);
      && (r.outcome == GaveUp <==> Spent(misses, costs) >= 3)
      && NotSpentEarly(misses, costs)
      && |costs| == if r.outcome == Delivered || r.outcome == SelectError then r.passes - 1 else r.passes
  {
    GivenUpWhenSpent(state, todo, misses, answers, pass, limit);
    NotSpentBefore(state, todo, misses, answers, pass, limit);
    CostsCounted(state, todo, misses, answers, pass, limit);
  }

  /** Some pass has lost the connection and none has made it again. */
  predicate Unconnected(state: OutputState, costs: seq<PassCost>) {
    if costs == [] then state == Disconnected else costs[|costs| - 1].lost
  }

  lemma PassLoses(state: OutputState, todo: nat, misses: nat, a: Answers)
    requires todo > 0 && state != Error
    ensures
      var p := Pass(state, todo, misses, a);
      if p.Continue? then p.state == Disconnected <==> LosesConnection(state, todo, a)
      else p.state != Disconnected
           && (p.state == Error <==> p.outcome == SelectError && state == Disconnected && FailsToConnect(a.connect))
  {
    BreaksIff(todo, a.writes);
  }

  /** A delivery leaves the handler disconnected if and only if its last pass has
      lost the connection and it has not ended otherwise since. */
  lemma {:induction false} DisconnectedIff(state: OutputState, todo: nat, misses: nat,
                                           answers: nat -> Answers, pass: nat, limit: nat)
    requires todo > 0 && pass <= limit && state != Error
    ensures
      var r, costs := Loop(state, todo, misses, answers, pass, limit), Costs(state, todo, misses, answers, pass, limit);
      r.state == Disconnected <==> (r.outcome == GaveUp || r.outcome == StillTrying) && Unconnected(state, costs)
    decreases limit - pass
  {
    if misses < RETRY && pass < limit {
      PassLoses(state, todo, misses, answers(pass));
      var p := Pass(state, todo, misses, answers(pass));
      if p.Continue? {
        DisconnectedIff(p.state, p.todo, p.misses, answers, pass + 1, limit);
        UnconnectedCons(state, p.state, CostOf(state, todo, answers(pass)),
                        Costs(p.state, p.todo, p.misses, answers, pass + 1, limit));
      }
    }
  }

  /** And in error if and only if connecting and then `select` failed in the same, last pass. */
  lemma {:induction false} InErrorIff(state: OutputState, todo: nat, misses: nat,
                                      answers: nat -> Answers, pass: nat, limit: nat)
    requires todo > 0 && pass <= limit && state != Error
    ensures
      var r, costs := Loop(state, todo, misses, answers, pass, limit), Costs(state, todo, misses, answers, pass, limit);
      r.state == Error <==>
      r.outcome == SelectError && Unconnected(state, costs) && FailsToConnect(answers(pass + |costs|).connect)
    decreases limit - pass
  {
    if misses < RETRY && pass < limit {
      PassLoses(state, todo, misses, answers(pass));
      var p := Pass(state, todo, misses, answers(pass));
      if p.Continue? {
        InErrorIff(p.state, p.todo, p.misses, answers, pass + 1, limit);
        UnconnectedCons(state, p.state, CostOf(state, todo, answers(pass)),
                        Costs(p.state, p.todo, p.misses, answers, pass + 1, limit));
      }
    }
  }

  lemma UnconnectedCons(state: OutputState, state': OutputState, first: PassCost, costs: seq<PassCost>)
    requires state' == Disconnected <==> first.lost
    ensures Unconnected(state, [first] + costs) <==> Unconnected(state', costs)
  {
    if costs != [] {
      assert ([first] + costs)[|costs|] == costs[|costs| - 1];
    }
  }

  /** The write of this pass is neither complete nor broken. */
  predicate LeavesUnfinished(state: OutputState, todo: nat, a: Answers) {
    IsActive(state, a) && a.select.isSet && Offered(todo, a.writes) < todo && !Breaks(todo, a.writes)
  }

  /** Whether at the end a write is unfinished on a connection that has not been
      lost since; `unfinished` says so of the start. */
  ghost predicate EndsUnfinished(state: OutputState, todo: nat, misses: nat,
                                 answers: nat -> Answers, pass: nat, limit: nat, unfinished: bool)
    requires todo > 0 && pass <= limit
    decreases limit - pass
  {
    if misses >= RETRY || pass == limit || answers(pass).select == SelectFailed then unfinished
    else
      var p := Pass(state, todo, misses, answers(pass));
      p.Continue? &&
      EndsUnfinished(p.state, p.todo, p.misses, answers, pass + 1, limit,
                     LeavesUnfinished(state, todo, answers(pass))
                     || (unfinished && !LosesConnection(state, todo, answers(pass))))
  }

  /** A delivery leaves the handler sending if and only if a write is unfinished. */
  lemma {:induction false} SendingIff(state: OutputState, todo: nat, misses: nat,
                                      answers: nat -> Answers, pass: nat, limit: nat)
    requires todo > 0 && pass <= limit
    ensures Loop(state, todo, misses, answers, pass, limit).state == Sending
            <==> EndsUnfinished(state, todo, misses, answers, pass, limit, state == Sending)
    decreases limit - pass
  {
    if misses < RETRY && pass < limit {
      BreaksIff(todo, answers(pass).writes);
      WriteAllTakesOffered(todo, answers(pass).writes);
      var p := Pass(state, todo, misses, answers(pass));
      if p.Continue? {
        SendingIff(p.state, p.todo, p.misses, answers, pass + 1, limit);
      }
    }
  }

  lemma NotBefore(before: nat, start: nat, first: PassCost, costs: seq<PassCost>)
    requires before < 3 && start == first.Tries() + if first.active then 0 else before
    requires NotSpentEarly(start, costs)
    ensures NotSpentEarly(before, [first] + costs)
  {
    forall k | 0 <= k < |costs| + 1 ensures Spent(before, ([first] + costs)[..k]) < 3 {
      if k > 0 {
        SpentCons(before, first, costs[..k - 1]);
        assert ([first] + costs)[..k] == [first] + costs[..k - 1];
      }
    }
  }

  // What a delivery given up leaves behind

  /** In this pass the destination takes at least one byte. */
  predicate Takes(state: OutputState, todo: nat, a: Answers) {
    && Watched(if state == Disconnected then ConnectedState(a.connect) else state)
    && a.select == Active(true)
    && Offered(todo, a.writes) > 0
  }

  /** No pass made takes anything. */
  ghost predicate NeverTakes(state: OutputState, todo: nat, misses: nat, answers: nat -> Answers, pass: nat, limit: nat)
    requires todo > 0 && pass <= limit
    decreases limit - pass
  {
    misses >= RETRY || pass == limit ||
    (!Takes(state, todo, answers(pass)) &&
     var p := Pass(state, todo, misses, answers(pass));
     p.Continue? ==> NeverTakes(p.state, todo, p.misses, answers, pass + 1, limit))
  }

  lemma PassTakesIff(state: OutputState, todo: nat, misses: nat, a: Answers)
    requires todo > 0
    ensures Pass(state, todo, misses, a).todo == todo <==> !Takes(state, todo, a)
  {
    WriteAllTakesOffered(todo, a.writes);
  }

  /** A delivery leaves the whole message to do if and only if in no pass made
      the handler is writable and the first write takes something. */
  lemma {:induction false} NothingTakenIff(state: OutputState, todo: nat, misses: nat,
                                           answers: nat -> Answers, pass: nat, limit: nat)
    requires todo > 0 && pass <= limit
    ensures Loop(state, todo, misses, answers, pass, limit).todo == todo
            <==> NeverTakes(state, todo, misses, answers, pass, limit)
    ensures Loop(state, todo, misses, answers, pass, limit).todo <= todo
    decreases limit - pass
  {
    if misses < RETRY && pass < limit {
      PassTakesIff(state, todo, misses, answers(pass));
      var p := Pass(state, todo, misses, answers(pass));
      if p.Continue? {
        NothingTakenIff(p.state, p.todo, p.misses, answers, pass + 1, limit);
      }
    }
  }

  /** The destination takes one byte and is never writable again. */
  function OneByte(pass: nat): Answers {
    if pass == 0 then Answers(0, Established, Active(true), [Took(1), TryAgain])
    else Answers(0, Established, TimedOut, [])
  }

  /** Such a delivery is given up half written, with the connection left open. */
  lemma GivenUpHalfWritten(todo: nat, limit: nat)
    requires todo > 1 && limit > 3
    ensures
      var r := Loop(Disconnected, todo, 0, OneByte, 0, limit);
      r.outcome == GaveUp && r.state == Sending && r.todo == todo - 1
  {
    assert [Took(1), TryAgain][1..] == [TryAgain];
    assert WriteAll(todo - 1, [TryAgain]) == Written(todo - 1, Sending);
    assert Pass(Disconnected, todo, 0, OneByte(0)) == Continue(Sending, todo - 1, 0, true);
    SilentLoop(todo - 1, 2, 3, limit);
    SilentLoop(todo - 1, 1, 2, limit);
    SilentLoop(todo - 1, 0, 1, limit);
  }

  lemma SilentLoop(todo: nat, misses: nat, pass: nat, limit: nat)
    requires todo > 0 && misses < RETRY && 0 < pass < limit
    ensures SameEnd(Loop(Sending, todo, misses, OneByte, pass, limit),
                    Loop(Sending, todo, misses + 1, OneByte, pass + 1, limit))
  {
  }

  /** The same but for the counts. */
  ghost predicate SameEnd(r: Result, r': Result) {
    r.outcome == r'.outcome && r.state == r'.state && r.todo == r'.todo
  }

  // Connecting

  /** A handler that is connecting stays so: no descriptor is watched, so nothing
      ever happens that could change its state, and nothing is delivered. */
  lemma {:induction false} ConnectingForever(todo: nat, misses: nat, answers: nat -> Answers, pass: nat, limit: nat)
    requires todo > 0 && pass <= limit
    ensures
      var r := Loop(Connecting, todo, misses, answers, pass, limit);
      r.outcome != Delivered && r.state == Connecting && r.todo == todo && r.activity == 0
    decreases limit - pass
  {
    if misses < RETRY && pass < limit {
      ConnectingForever(todo, misses + 1, answers, pass + 1, limit);
    }
  }
}

module Delivery {
  import opened Lines
  import opened DeliverySpec

  class OutputHandler {
    var state: OutputState
    var fd: int
    var wire: seq<byte>     // every byte the destination has taken, over all connections

    /** A descriptor is open exactly when the handler is not disconnected. */
    ghost predicate Coupled()
      reads this
    {
      fd >= -1 && (state == Disconnected <==> fd == -1)
    }

    constructor ()
      ensures Coupled() && state == Disconnected && wire == []
    {
      state := Disconnected;
      fd := -1;
      wire := [];
    }

    method Connect(socket: nat, answer: ConnectAnswer)
      requires (state == Disconnected && fd == -1) || (state == Connecting && fd >= 0)
      modifies this`state, this`fd
      ensures Coupled() && state == ConnectedState(answer)
      ensures state == Ready <==> Connects(answer)
      ensures state == Connecting <==> answer == Pending
      ensures state == Error <==> FailsToConnect(answer)
      ensures fd == if old(state) == Disconnected then socket else old(fd)
    {
      if state == Disconnected {
        fd := socket;
      }

      match answer {
        case Unresolved => state := Error;
        case Established => state := Ready;
        case AlreadyConnected => state := Ready;
        case Pending => state := Connecting;
        case Refused => state := Error;
      }
    }

    /** Closing the descriptor may fail; it is forgotten all the same. */
    method Disconnect()
      requires state == Ready || state == Connecting || state == Error
      modifies this`state, this`fd
      ensures Coupled() && state == Disconnected
    {
      state := Disconnected;
      fd := -1;
    }

    /** One `write` of the last `todo` bytes of a message. */
    method SystemWrite(msg: seq<byte>, todo: nat, answer: WriteAnswer) returns (sent: nat)
      requires todo <= |msg|
      modifies this`wire
      ensures sent == Taken(answer, todo)
      ensures wire == old(wire) + msg[|msg| - todo..|msg| - todo + sent]
    {
      sent := Taken(answer, todo);
      wire := wire + msg[|msg| - todo..|msg| - todo + sent];
    }

    /** The same, with the bytes sent of the message from a given place on. */
    method SendOn(ghost before: seq<byte>, msg: seq<byte>, ghost from: nat, todo: nat, answer: WriteAnswer)
      returns (sent: nat)
      requires todo <= |msg| && from <= |msg| - todo
      requires wire == before + msg[from..|msg| - todo]
      modifies this`wire
      ensures sent == Taken(answer, todo)
      ensures wire == before + msg[from..|msg| - todo + sent]
    {
      sent := SystemWrite(msg, todo, answer);
      JoinSlices(before, msg, from, |msg| - todo, |msg| - todo + sent);
    }

    /** Writes on from where the message stands until it is complete or no more
        is taken. What the destination has taken grows by exactly the bytes
        between the two places. */
    method Write(msg: seq<byte>, todo: nat, answers: seq<WriteAnswer>) returns (complete: bool, left: nat)
      requires state == Ready || state == Sending
      requires Framed(msg) && 0 < todo <= |msg|
      modifies this`state, this`wire
      ensures Written(left, state) == WriteAll(todo, answers)
      ensures complete <==> left == 0
      ensures wire == old(wire) + msg[|msg| - todo..|msg| - left]
    {
      left := todo;
      var k := 0;
      while k < |answers|
        invariant 0 <= k <= |answers| && 0 < left <= todo
        invariant k > 0 ==> state == Sending
        invariant WriteAll(todo, answers) == WriteAll(left, answers[k..])
        invariant wire == old(wire) + msg[|msg| - todo..|msg| - left]
      {
        WriteAllNext(left, answers, k);
        var sent := SendOn(old(wire), msg, |msg| - todo, left, answers[k]);
        if sent == 0 {
          state := if answers[k] == Broken then Error else Sending;
          return false, left;
        }

        left := left - sent;
        if left == 0 {
          state := Ready;
          return true, 0;
        }

        state := Sending;
        k := k + 1;
      }
      state := Sending;
      return false, left;
    }

    /** One pass of the delivery loop: the tries left, and the outcome if it ends here. */
    method MakePass(ghost before: seq<byte>, msg: seq<byte>, todo: nat, retry: int, a: Answers)
      returns (stop: bool, outcome: Outcome, left: nat, tries: int)
      requires Coupled() && Framed(msg) && 0 < todo <= |msg| && 0 < retry <= RETRY
      requires wire == before + msg[..|msg| - todo]
      modifies this
      ensures Coupled() && left <= todo && wire == before + msg[..|msg| - left] && tries <= RETRY
      ensures
        match Pass(old(state), todo, RETRY - retry, a)
        case Stop(o, s, n, _) => stop && outcome == o && state == s && left == n
        case Continue(s, n, misses, _) => !stop && state == s && left == n && misses == RETRY - tries
    {
      stop, outcome, left, tries := false, StillTrying, todo, retry;
      if state == Disconnected {
        Connect(a.socket, a.connect);
      }

      match Selected(state, a.select) {
        case SelectFailed =>
          return true, SelectError, todo, retry;

        case TimedOut =>
          tries := tries - 1;

        case Active(isSet) =>
          tries := RETRY;
          if isSet {
            var complete;
            complete, left := Write(msg, todo, a.writes);
            JoinSlices(before, msg, 0, |msg| - todo, |msg| - left);
            if complete {
              return true, Delivered, left, tries;
            }
          }
      }

      if state == Error {
        Disconnect();
        tries := tries - 1;
      }
    }

    /** Tries to deliver a message, observed for at most `limit` passes of the
        loop. Whatever happens, the bytes the destination has taken are the
        first ones of the message, each once and in order. */
    method Deliver(msg: seq<byte>, answers: nat -> Answers, limit: nat) returns (outcome: Outcome, todo: nat)
      requires Coupled() && Framed(msg)
      modifies this
      ensures Coupled()
      ensures todo <= |msg| && wire == old(wire) + msg[..|msg| - todo]
      ensures outcome == Delivered <==> todo == 0
      ensures
        var r := Loop(old(state), |msg|, 0, answers, 0, limit);
        outcome == r.outcome && todo == r.todo && state == r.state
    {
      GivesUpLate(state, |msg|, 0, answers, 0, limit);
      ghost var r := Loop(state, |msg|, 0, answers, 0, limit);
      todo := |msg|;
      var retry := RETRY;
      var pass := 0;
      while retry > 0
        invariant Coupled() && 0 <= pass <= limit && retry <= RETRY
        invariant 0 < todo <= |msg| && wire == old(wire) + msg[..|msg| - todo]
        invariant SameEnd(r, Loop(state, todo, RETRY - retry, answers, pass, limit))
        decreases limit - pass
      {
        if pass == limit {
          return StillTrying, todo;
        }
        var stop;
        stop, outcome, todo, retry := MakePass(old(wire), msg, todo, retry, answers(pass));
        if stop {
          return outcome, todo;
        }
        pass := pass + 1;
      }
      return GaveUp, todo;
    }

    /** One of a sequence of deliveries, by the part of the message taken. */
    method DeliverPart(msg: seq<byte>, answers: nat -> Answers, limit: nat) returns (part: seq<byte>, done: bool)
      requires Coupled() && Framed(msg)
      modifies this
      ensures Coupled() && wire == old(wire) + part
      ensures
        var r := Loop(old(state), |msg|, 0, answers, 0, limit);
        r.todo <= |msg| && part == msg[..|msg| - r.todo] && (done <==> r.outcome == Delivered) && state == r.state
      ensures old(state) == Connecting ==> state == Connecting && part == [] && !done
    {
      ConnectingForever(|msg|, 0, answers, 0, limit);
      var outcome, todo := Deliver(msg, answers, limit);
      part := msg[..|msg| - todo];
      done := outcome == Delivered;
    }

    /** Any sequence of deliveries: the destination has taken of every message, in
        order, the part its delivery got through, which is all of it where the
        delivery succeeded. It has taken the messages delivered and nothing else
        if and only if the others were given up before their first byte. Once a
        delivery leaves the handler connecting, none of the later ones succeeds. */
    method DeliverAll(msgs: seq<seq<byte>>, answers: (nat, nat) -> Answers, limit: nat)
      returns (sent: seq<seq<byte>>, done: seq<bool>)
      requires Coupled() && AllFramed(msgs)
      modifies this
      ensures Coupled() && IsSent(msgs, sent, done)
      ensures FollowsAll(old(state), msgs, answers, limit, sent, done)
      ensures wire == old(wire) + Flatten(sent)
      ensures wire == old(wire) + Flatten(Chosen(msgs, done)) <==> GivenUpWhole(sent, done)
      ensures old(state) == Connecting ==> wire == old(wire) && true !in done
    {
      sent, done := [], [];
      while |sent| < |msgs|
        invariant Coupled() && |sent| <= |msgs|
        invariant FollowsAll(old(state), msgs, answers, limit, sent, done)
        invariant state == StateBefore(old(state), msgs, answers, limit, |sent|)
        invariant wire == old(wire) + Flatten(sent)
        invariant old(state) == Connecting ==> state == Connecting && wire == old(wire) && true !in done
      {
        var i := |sent|;
        var part, complete := DeliverPart(msgs[i], Row(answers, i), limit);
        FlattenSnoc(sent, part);
        Assoc(old(wire), Flatten(sent), part);
        FollowsMore(old(state), msgs, answers, limit, sent, done, part, complete);
        sent, done := sent + [part], done + [complete];
      }
      AllFollow(old(state), msgs, answers, limit, sent, done);
      WholeIff(msgs, sent, done);
      SameAfter(old(wire), Flatten(sent), Flatten(Chosen(msgs, done)));
    }
  }

  // Sequences of deliveries

  predicate AllFramed(msgs: seq<seq<byte>>) {
    forall i | 0 <= i < |msgs| :: Framed(msgs[i])
  }

  /** The answers to the passes of the `i`-th delivery. */
  function Row(answers: (nat, nat) -> Answers, i: nat): nat -> Answers {
    (pass: nat) => answers(i, pass)
  }

  /** The state the `i`-th delivery starts in: the one the delivery before it left. */
  function StateBefore(state: OutputState, msgs: seq<seq<byte>>, answers: (nat, nat) -> Answers, limit: nat, i: nat)
    : OutputState
    requires i <= |msgs| && AllFramed(msgs)
    decreases i, 0
  {
    if i == 0 then state else ResultOf(state, msgs, answers, limit, i - 1).state
  }

  /** How the `i`-th delivery ends. */
  function ResultOf(state: OutputState, msgs: seq<seq<byte>>, answers: (nat, nat) -> Answers, limit: nat, i: nat)
    : Result
    requires i < |msgs| && AllFramed(msgs)
    decreases i, 1
  {
    Loop(StateBefore(state, msgs, answers, limit, i), |msgs[i]|, 0, Row(answers, i), 0, limit)
  }

  /** The part sent of the `i`-th message is what its delivery got through, and it is done if that succeeded. */
  predicate Follows(state: OutputState, msgs: seq<seq<byte>>, answers: (nat, nat) -> Answers, limit: nat,
                    sent: seq<seq<byte>>, done: seq<bool>, i: nat)
    requires i < |msgs| && i < |sent| && i < |done| && AllFramed(msgs)
  {
    var r := ResultOf(state, msgs, answers, limit, i);
    r.todo <= |msgs[i]| && sent[i] == msgs[i][..|msgs[i]| - r.todo] && (done[i] <==> r.outcome == Delivered)
  }

  predicate FollowsAll(state: OutputState, msgs: seq<seq<byte>>, answers: (nat, nat) -> Answers, limit: nat,
                       sent: seq<seq<byte>>, done: seq<bool>)
    requires AllFramed(msgs)
  {
    && |sent| == |done| <= |msgs|
    && forall i | 0 <= i < |sent| :: Follows(state, msgs, answers, limit, sent, done, i)
  }

  lemma FollowsMore(state: OutputState, msgs: seq<seq<byte>>, answers: (nat, nat) -> Answers, limit: nat,
                    sent: seq<seq<byte>>, done: seq<bool>, part: seq<byte>, complete: bool)
    requires AllFramed(msgs) && FollowsAll(state, msgs, answers, limit, sent, done) && |sent| < |msgs|
    requires
      var i := |sent|;
      var r := Loop(StateBefore(state, msgs, answers, limit, i), |msgs[i]|, 0, Row(answers, i), 0, limit);
      r.todo <= |msgs[i]| && part == msgs[i][..|msgs[i]| - r.todo] && (complete <==> r.outcome == Delivered)
    ensures FollowsAll(state, msgs, answers, limit, sent + [part], done + [complete])
  {
    var sent', done' := sent + [part], done + [complete];
    forall i | 0 <= i < |sent'| ensures Follows(state, msgs, answers, limit, sent', done', i) {
      if i < |sent| {
        assert Follows(state, msgs, answers, limit, sent, done, i);
      }
    }
  }

  /** Of every message a front part was sent, and all of it exactly if it is done. */
  predicate IsSent(msgs: seq<seq<byte>>, sent: seq<seq<byte>>, done: seq<bool>) {
    && |sent| == |done| == |msgs|
    && forall i | 0 <= i < |msgs| :: sent[i] <= msgs[i] && (done[i] <==> sent[i] == msgs[i])
  }

  lemma AllFollow(state: OutputState, msgs: seq<seq<byte>>, answers: (nat, nat) -> Answers, limit: nat,
                  sent: seq<seq<byte>>, done: seq<bool>)
    requires AllFramed(msgs) && |sent| == |msgs| && FollowsAll(state, msgs, answers, limit, sent, done)
    ensures IsSent(msgs, sent, done)
  {
    forall i | 0 <= i < |msgs| ensures sent[i] <= msgs[i] && (done[i] <==> sent[i] == msgs[i]) {
      assert Follows(state, msgs, answers, limit, sent, done, i);
      GivesUpLate(StateBefore(state, msgs, answers, limit, i), |msgs[i]|, 0, Row(answers, i), 0, limit);
    }
  }

  /** The messages that are done. */
  function Chosen(msgs: seq<seq<byte>>, done: seq<bool>): seq<seq<byte>>
    requires |msgs| == |done|
  {
    if msgs == [] then [] else (if done[0] then [msgs[0]] else []) + Chosen(msgs[1..], done[1..])
  }

  /** No message was given up half written. */
  predicate GivenUpWhole(sent: seq<seq<byte>>, done: seq<bool>)
    requires |sent| == |done|
  {
    forall i | 0 <= i < |sent| :: !done[i] ==> sent[i] == []
  }

  lemma {:induction false} FragmentsAddBytes(msgs: seq<seq<byte>>, sent: seq<seq<byte>>, done: seq<bool>)
    requires IsSent(msgs, sent, done)
    ensures |Flatten(sent)| >= |Flatten(Chosen(msgs, done))|
    ensures GivenUpWhole(sent, done) ==> Flatten(sent) == Flatten(Chosen(msgs, done))
    ensures |Flatten(sent)| == |Flatten(Chosen(msgs, done))| ==> GivenUpWhole(sent, done)
    decreases |msgs|
  {
    if msgs != [] {
      var sent', done' := sent[1..], done[1..];
      FragmentsAddBytes(msgs[1..], sent', done');
      assert GivenUpWhole(sent, done) <==> (!done[0] ==> sent[0] == []) && GivenUpWhole(sent', done') by {
        assert forall i | 0 < i < |sent| :: sent[i] == sent'[i - 1] && done[i] == done'[i - 1];
      }
      if done[0] {
        FlattenCons(msgs[0], Chosen(msgs[1..], done'));
      } else {
        assert [] + Chosen(msgs[1..], done') == Chosen(msgs[1..], done');
      }
    }
  }

  /** The bytes sent are those of the messages done exactly if nothing was given up half written. */
  lemma WholeIff(msgs: seq<seq<byte>>, sent: seq<seq<byte>>, done: seq<bool>)
    requires IsSent(msgs, sent, done)
    ensures Flatten(sent) == Flatten(Chosen(msgs, done)) <==> GivenUpWhole(sent, done)
  {
    FragmentsAddBytes(msgs, sent, done);
  }

  lemma {:induction false} ChosenFramed(msgs: seq<seq<byte>>, done: seq<bool>)
    requires |msgs| == |done| && AllFramed(msgs)
    ensures forall msg <- Chosen(msgs, done) :: Framed(msg)
    decreases |msgs|
  {
    if msgs != [] {
      ChosenFramed(msgs[1..], done[1..]);
    }
  }

  /** And then, and only then, a destination that splits its bytes into lines
      sees the messages done. */
  lemma LinesSeenIff(msgs: seq<seq<byte>>, sent: seq<seq<byte>>, done: seq<bool>)
    requires IsSent(msgs, sent, done) && AllFramed(msgs)
    ensures Split(Flatten(sent)) == Chosen(msgs, done) && Rest(Flatten(sent)) == [] <==> GivenUpWhole(sent, done)
  {
    WholeIff(msgs, sent, done);
    ChosenFramed(msgs, done);
    SplitFlatten(Chosen(msgs, done));
    FlattenSplit(Flatten(sent));
    assert Flatten(Chosen(msgs, done)) + [] == Flatten(Chosen(msgs, done));
  }

  /** Nothing of the `i`-th message is sent exactly if no pass of its delivery takes anything. */
  lemma NothingSentIff(state: OutputState, msgs: seq<seq<byte>>, answers: (nat, nat) -> Answers, limit: nat,
                       sent: seq<seq<byte>>, done: seq<bool>, i: nat)
    requires i < |msgs| && i < |sent| && i < |done| && AllFramed(msgs)
    requires Follows(state, msgs, answers, limit, sent, done, i)
    ensures sent[i] == [] <==>
            NeverTakes(StateBefore(state, msgs, answers, limit, i), |msgs[i]|, 0, Row(answers, i), 0, limit)
  {
    NothingTakenIff(StateBefore(state, msgs, answers, limit, i), |msgs[i]|, 0, Row(answers, i), 0, limit);
  }

  /** A message given up half written is glued to the next one on the same
      connection: the destination sees one line that nobody has sent. */
  method FragmentIsGlued(first: seq<byte>, second: seq<byte>) returns (wire: seq<byte>, outcomes: seq<Outcome>)
    requires Framed(first) && Framed(second) && |first| > 1
    ensures outcomes == [GaveUp, Delivered]
    ensures wire == [first[0]] + second && Split(wire) == [wire] && wire != second
  {
    var handler := new OutputHandler();
    GivenUpHalfWritten(|first|, 4);
    var given, todo := handler.Deliver(first, OneByte, 4);

    var answers := (pass: nat) => Answers(0, Established, Active(true), [Took(|second|)]);
    DeliversAtOnceIff(Sending, |second|, 0, answers, 0, 4);
    var taken, left := handler.Deliver(second, answers, 4);
    wire, outcomes := handler.wire, [given, taken];
    assert first[..1] == [first[0]] && second[..|second|] == second;
    GluedLine(first, second);
  }

  lemma GluedLine(first: seq<byte>, second: seq<byte>)
    requires Framed(first) && Framed(second) && |first| > 1
    ensures var wire := [first[0]] + second; Split(wire) == [wire] && wire != second
  {
    var wire := [first[0]] + second;
    assert first[0] in first[..|first| - 1];
    assert wire[..|wire| - 1] == [first[0]] + second[..|second| - 1];
    SplitOneLine(wire);
    assert |wire| == |second| + 1;
  }

  lemma SameAfter(before: seq<byte>, a: seq<byte>, b: seq<byte>)
    ensures before + a == before + b <==> a == b
  {
    assert a == (before + a)[|before|..] && b == (before + b)[|before|..];
  }

  lemma JoinSlices(before: seq<byte>, msg: seq<byte>, a: nat, b: nat, c: nat)
    requires a <= b <= c <= |msg|
    ensures before + msg[a..b] + msg[b..c] == before + msg[a..c]
  {
  }
}
