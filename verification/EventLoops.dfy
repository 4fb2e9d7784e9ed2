/** The hand-off to an event loop, as atomic steps of any number of threads under sequential
    consistency: `queueInLoop`, `wakeup` and `quit` on one side, `loop`, `handleRead` and
    `doPendingFuncs` on the other. */
module EventLoops {
  import opened MpscQueues

  type Func = nat
  type Thread = nat

  /** Where a thread other than the loop's is inside `queueInLoop` or `quit`. */
  datatype Caller =
    | Idle
    | Exchanged(prev: nat)   // head exchanged, link of node `prev` not set yet
    | Waking                 // linked, or `quit_` set; about to write the eventfd

  /** The same for the loop's own thread, where a wakeup may be skipped. */
  datatype OwnCall = NoCall | OwnExchanged(prev: nat) | OwnLinked

  datatype Pc =
    | Outside            // before `loop`, or after it returned
    | FirstCheck         // `while (!quit_)` for the first time
    | Polling            // about to call `poll`, or blocked in it
    | Handling(wake: bool)  // running channel handlers; `wake`: the eventfd channel is still to be read
    | OuterCheck         // `while (!funcs_.empty())`
    | Inner              // `while (funcs_.dequeue(func))`
    | Running            // inside a functor
    | Dropping           // the local functor is destroyed
    | CheckQuit          // `while (!quit_)` after a turn

  datatype State = State(
    queue: Queue<Func>,
    callers: map<Thread, Caller>,
    own: OwnCall,
    pc: Pc,
    calling: bool,
    quit: bool,
    count: nat,
    ran: seq<Func>)

  predicate Init(s: State) {
    s.queue == NewQueue() && s.callers == map[] && s.own == NoCall && s.pc == Outside
    && !s.calling && !s.quit && s.count == 0 && s.ran == []
  }

  function CallerOf(s: State, t: Thread): Caller {
    if t in s.callers then s.callers[t] else Idle
  }

  datatype Event =
    // another thread
    | CallExchange(t: Thread, f: Func) | CallLink(t: Thread) | CallWake(t: Thread) | CallQuit(t: Thread)
    // the loop's thread calling `queueInLoop` or `quit`
    | OwnExchange(f: Func) | OwnLink | OwnWake | OwnQuit
    // the loop
    | Start | Enter | PollReturns(wake: bool) | ReadEventfd | HandlersDone
    | FoundEmpty | FoundSome | TakeFunc | NoFunc | FuncDone | Dropped | Again | Stop

  /** The loop's thread runs foreign code, which may queue more work. */
  predicate RunsUserCode(pc: Pc) {
    pc == Outside || pc.Handling? || pc == Running || pc == Dropping
  }

  predicate Enabled(s: State, e: Event) {
    match e
    case CallExchange(t, _) => CallerOf(s, t) == Idle
    case CallLink(t) => CallerOf(s, t).Exchanged? && CallerOf(s, t).prev < |s.queue.linked|
    case CallWake(t) => CallerOf(s, t) == Waking
    case CallQuit(t) => CallerOf(s, t) == Idle
    case OwnExchange(_) => s.own == NoCall && RunsUserCode(s.pc)
    case OwnLink => s.own.OwnExchanged? && s.own.prev < |s.queue.linked|
    case OwnWake => s.own == OwnLinked && !s.calling
    case OwnQuit => s.own == NoCall && RunsUserCode(s.pc)
    case Start => s.pc == Outside && s.own == NoCall
    case Enter => s.pc == FirstCheck && !s.quit
    // poll blocks while the eventfd reads zero and nothing else happens; it may always time out
    case PollReturns(wake) => s.pc == Polling && (wake ==> 0 < s.count)
    case ReadEventfd => s.pc == Handling(true) && s.own == NoCall
    case HandlersDone => s.pc == Handling(false) && s.own == NoCall
    case FoundEmpty => s.pc == OuterCheck && s.queue.done < |s.queue.linked| && !s.queue.Ready()
    case FoundSome => s.pc == OuterCheck && s.queue.done < |s.queue.linked| && s.queue.Ready()
    case TakeFunc => s.pc == Inner && s.queue.done < |s.queue.items| < |s.queue.linked| && s.queue.Ready()
    case NoFunc => s.pc == Inner && s.queue.done < |s.queue.linked| && !s.queue.Ready()
    case FuncDone => s.pc == Running && s.own == NoCall
    case Dropped => s.pc == Dropping && s.own == NoCall
    case Again => s.pc == CheckQuit && !s.quit
    case Stop => (s.pc == CheckQuit || s.pc == FirstCheck) && s.quit
  }

  /** After its link the loop's thread skips the wakeup while it is draining. */
  function AfterOwnLink(s: State): OwnCall {
    if s.calling then NoCall else OwnLinked
  }

  function Next(s: State, e: Event): State
    requires Enabled(s, e)
  {
    match e
    case CallExchange(t, f) =>
      s.(queue := Exchange(s.queue, f), callers := s.callers[t := Exchanged(|s.queue.items|)])
    case CallLink(t) => s.(queue := Link(s.queue, CallerOf(s, t).prev), callers := s.callers[t := Waking])
    case CallWake(t) => s.(count := s.count + 1, callers := s.callers[t := Idle])
    case CallQuit(t) => s.(quit := true, callers := s.callers[t := Waking])
    case OwnExchange(f) => s.(queue := Exchange(s.queue, f), own := OwnExchanged(|s.queue.items|))
    case OwnLink => s.(queue := Link(s.queue, s.own.prev), own := AfterOwnLink(s))
    case OwnWake => s.(count := s.count + 1, own := NoCall)
    case OwnQuit => s.(quit := true)
    case Start => s.(pc := FirstCheck, quit := false)
    case Enter => s.(pc := Polling)
    case PollReturns(wake) => s.(pc := Handling(wake))
    case ReadEventfd => s.(pc := Handling(false), count := 0)
    case HandlersDone => s.(pc := OuterCheck, calling := true)
    case FoundEmpty => s.(pc := CheckQuit, calling := false)
    case FoundSome => s.(pc := Inner)
    case TakeFunc => s.(pc := Running, queue := Dequeue(s.queue), ran := s.ran + [s.queue.items[s.queue.done]])
    case NoFunc => s.(pc := Dropping)
    case FuncDone => s.(pc := Inner)
    case Dropped => s.(pc := OuterCheck)
    case Again => s.(pc := Polling)
    case Stop => s.(pc := Outside)
  }

  // ---------------------------------------------------------------- the invariant

  predicate Draining(pc: Pc) {
    pc == OuterCheck || pc == Inner || pc == Running || pc == Dropping
  }

  /** Some other thread will still write the eventfd. */
  ghost predicate WakeupComing(s: State) {
    exists t :: CallerOf(s, t) != Idle
  }

  /** Node `i` has a successor whose producer has yet to set the link. */
  predicate Unlinked(q: Queue<Func>, i: nat) {
    i < |q.items| && i < |q.linked| && !q.linked[i]
  }

  /** Missing links and threads between exchange and link correspond. */
  ghost predicate LinksOwed(s: State) {
    && (forall t :: CallerOf(s, t).Exchanged? ==> Unlinked(s.queue, CallerOf(s, t).prev))
    && (s.own.OwnExchanged? ==> Unlinked(s.queue, s.own.prev))
    && (forall t, u :: CallerOf(s, t).Exchanged? && CallerOf(s, u).Exchanged? && t != u ==>
          CallerOf(s, t).prev != CallerOf(s, u).prev)
    && (forall t :: CallerOf(s, t).Exchanged? && s.own.OwnExchanged? ==> CallerOf(s, t).prev != s.own.prev)
    && (forall i: nat | Unlinked(s.queue, i) :: LinkOwed(s, i))
  }

  ghost predicate LinkOwed(s: State, i: nat) {
    s.own == OwnExchanged(i) || exists t :: CallerOf(s, t) == Exchanged(i)
  }

  /** Work the loop has not taken is announced: the eventfd is nonzero, or a wakeup is on its way. */
  ghost predicate Covered(s: State) {
    0 < s.count || WakeupComing(s)
  }

  ghost predicate Inv(s: State) {
    && s.queue.Valid()
    && LinksOwed(s)
    && s.calling == Draining(s.pc)
    && (s.own != NoCall ==> RunsUserCode(s.pc))
    && (s.own == OwnLinked ==> !s.calling)
    && s.ran == s.queue.items[..s.queue.done]
    && Announced(s)
  }

  /** Outside a drain what is pending is announced, and a quit at `poll` is. */
  ghost predicate Announced(s: State)
    requires s.queue.Valid()
  {
    && (s.pc == FirstCheck || s.pc == Polling || s.pc == CheckQuit ==> s.queue.Pending() == [] || Covered(s))
    && (s.pc == Outside ==> s.queue.Pending() == [] || Covered(s) || s.own != NoCall)
    && (s.pc == Polling && s.quit ==> Covered(s))
  }

  function CallerAfter(s: State, e: Event, t: Thread): Caller {
    match e
    case CallExchange(u, _) => if t == u then Exchanged(|s.queue.items|) else CallerOf(s, t)
    case CallLink(u) => if t == u then Waking else CallerOf(s, t)
    case CallQuit(u) => if t == u then Waking else CallerOf(s, t)
    case CallWake(u) => if t == u then Idle else CallerOf(s, t)
    case _ => CallerOf(s, t)
  }

  lemma CallersAfter(s: State, e: Event)
    requires Enabled(s, e)
    ensures forall t :: CallerOf(Next(s, e), t) == CallerAfter(s, e, t)
  {
  }

  /** An exchange opens one link, owed by the thread that exchanged. */
  lemma ExchangeOwes(s: State, e: Event)
    requires s.queue.Valid() && LinksOwed(s) && Enabled(s, e) && (e.CallExchange? || e.OwnExchange?)
    ensures LinksOwed(Next(s, e))
  {
    var s' := Next(s, e);
    CallersAfter(s, e);
    forall i: nat | Unlinked(s'.queue, i) ensures LinkOwed(s', i) {
      if i < |s.queue.items| {
        assert Unlinked(s.queue, i);
        if s.own != OwnExchanged(i) {
          var t :| CallerOf(s, t) == Exchanged(i);
          assert CallerOf(s', t) == Exchanged(i);
        }
      } else if e.CallExchange? {
        assert CallerOf(s', e.t) == Exchanged(i);
      }
    }
  }

  /** A link closes the one its thread owed. */
  lemma LinkPays(s: State, e: Event)
    requires s.queue.Valid() && LinksOwed(s) && Enabled(s, e) && (e.CallLink? || e.OwnLink?)
    ensures LinksOwed(Next(s, e))
  {
    var s' := Next(s, e);
    CallersAfter(s, e);
    forall i: nat | Unlinked(s'.queue, i) ensures LinkOwed(s', i) {
      assert Unlinked(s.queue, i);
      if s.own != OwnExchanged(i) {
        var t :| CallerOf(s, t) == Exchanged(i);
        assert CallerOf(s', t) == Exchanged(i);
      }
    }
  }

  /** All else leaves links and debts alone. */
  lemma OthersOwe(s: State, e: Event)
    requires s.queue.Valid() && LinksOwed(s) && Enabled(s, e)
    requires !e.CallExchange? && !e.OwnExchange? && !e.CallLink? && !e.OwnLink?
    ensures LinksOwed(Next(s, e))
  {
    var s' := Next(s, e);
    CallersAfter(s, e);
    forall i: nat | Unlinked(s'.queue, i) ensures LinkOwed(s', i) {
      assert Unlinked(s.queue, i);
      if s.own != OwnExchanged(i) {
        var t :| CallerOf(s, t) == Exchanged(i);
        assert CallerOf(s', t) == Exchanged(i);
      }
    }
  }

  lemma LinksStayOwed(s: State, e: Event)
    requires s.queue.Valid() && LinksOwed(s) && Enabled(s, e)
    ensures LinksOwed(Next(s, e))
  {
    if e.CallExchange? || e.OwnExchange? {
      ExchangeOwes(s, e);
    } else if e.CallLink? || e.OwnLink? {
      LinkPays(s, e);
    } else {
      OthersOwe(s, e);
    }
  }

  lemma QueueStaysValid(s: State, e: Event)
    requires Inv(s) && Enabled(s, e)
    ensures Next(s, e).queue.Valid() && Next(s, e).ran == Next(s, e).queue.items[..Next(s, e).queue.done]
  {
    hide Covered;
  }

  /** A wakeup on its way stays so until it is written, and what is written stays until it is read. */
  lemma CoverStays(s: State, e: Event)
    requires Covered(s) && Enabled(s, e) && e != ReadEventfd
    ensures Covered(Next(s, e))
  {
    CallersAfter(s, e);
    var s' := Next(s, e);
    if s.count == 0 && !e.CallWake? {
      var t :| CallerOf(s, t) != Idle;
      assert CallerOf(s', t) != Idle;
    }
  }

  /** The heart of it: a drain that stops short stops at a missing link, and with no call of its own
      under way the loop owes none -- some other thread does, and that thread will wake the loop. */
  lemma EmptyMeansCovered(s: State)
    requires Inv(s) && Enabled(s, FoundEmpty)
    ensures s.queue.Pending() == [] || Covered(s)
  {
    if s.queue.Pending() != [] {
      assert Unlinked(s.queue, s.queue.done);
      assert LinkOwed(s, s.queue.done);
      assert s.own == NoCall;
    }
  }

  lemma StaysAnnounced(s: State, e: Event)
    requires Inv(s) && Enabled(s, e)
    ensures Next(s, e).queue.Valid() && Announced(Next(s, e))
  {
    hide LinksOwed;
    QueueStaysValid(s, e);
    var s' := Next(s, e);
    CallersAfter(s, e);
    if e == FoundEmpty {
      EmptyMeansCovered(s);
    }
    if e != ReadEventfd && Covered(s) {
      CoverStays(s, e);
    }
    if e.CallExchange? || e.CallLink? || e.CallQuit? {
      assert CallerOf(s', e.t) != Idle;
    }
  }

  lemma StepInv(s: State, e: Event)
    requires Inv(s) && Enabled(s, e)
    ensures Inv(Next(s, e))
  {
    hide Covered;
    LinksStayOwed(s, e);
    QueueStaysValid(s, e);
    StaysAnnounced(s, e);
    hide LinksOwed, Announced;
  }

  // ---------------------------------------------------------------- every run

  ghost predicate CanRun(s: State, es: seq<Event>)
    decreases |es|
  {
    es == [] || (Enabled(s, es[0]) && CanRun(Next(s, es[0]), es[1..]))
  }

  ghost function After(s: State, es: seq<Event>): State
    requires CanRun(s, es)
    decreases |es|
  {
    if es == [] then s else After(Next(s, es[0]), es[1..])
  }

  lemma InitInv(s: State)
    requires Init(s)
    ensures Inv(s)
  {
  }

  lemma {:induction false} RunInv(s: State, es: seq<Event>)
    requires Inv(s) && CanRun(s, es)
    ensures Inv(After(s, es))
    decreases |es|
  {
    if es != [] {
      StepInv(s, es[0]);
      RunInv(Next(s, es[0]), es[1..]);
    }
  }

  predicate IsQuit(e: Event) {
    e.CallQuit? || e.OwnQuit?
  }

  /** Some call of `quit` is later than every start of the loop. */
  ghost predicate QuitCalled(es: seq<Event>) {
    exists i :: 0 <= i < |es| && IsQuit(es[i]) && forall j | i < j < |es| :: es[j] != Start
  }

  lemma StepQuit(s: State, e: Event)
    requires Enabled(s, e)
    ensures Next(s, e).quit <==> IsQuit(e) || (s.quit && e != Start)
  {
  }

  lemma {:induction false} AfterPrefix(s: State, es: seq<Event>, n: nat)
    requires CanRun(s, es) && n < |es|
    ensures CanRun(s, es[..n]) && Enabled(After(s, es[..n]), es[n])
    ensures CanRun(s, es[..n + 1]) && After(s, es[..n + 1]) == Next(After(s, es[..n]), es[n])
    decreases n
  {
    hide Enabled, Next;
    assert es[..n + 1][0] == es[0];
    if 0 < n {
      AfterPrefix(Next(s, es[0]), es[1..], n - 1);
      assert es[..n][1..] == es[1..][..n - 1] && es[..n + 1][1..] == es[1..][..n];
    } else {
      assert es[..1][1..] == [];
    }
  }

  /** `quit_` is what the last of the starts and quits made it, over every interleaving. */
  lemma {:induction false} QuitIffCalled(s0: State, es: seq<Event>)
    requires Init(s0) && CanRun(s0, es)
    ensures After(s0, es).quit <==> QuitCalled(es)
    decreases |es|
  {
    if es != [] {
      hide Enabled, Next, QuitCalled;
      var n := |es| - 1;
      AfterPrefix(s0, es, n);
      assert es[..n + 1] == es && es == es[..n] + [es[n]];
      QuitIffCalled(s0, es[..n]);
      StepQuit(After(s0, es[..n]), es[n]);
      QuitCalledLast(es[..n], es[n]);
    }
  }

  lemma QuitCalledLast(es: seq<Event>, e: Event)
    ensures QuitCalled(es + [e]) <==> IsQuit(e) || (QuitCalled(es) && e != Start)
  {
    var fs := es + [e];
    if QuitCalled(fs) && !IsQuit(e) {
      var i :| 0 <= i < |fs| && IsQuit(fs[i]) && forall j | i < j < |fs| :: fs[j] != Start;
      assert fs[|es|] == e;
      assert forall j | i < j < |es| :: es[j] == fs[j];
    }
    if IsQuit(e) {
      assert fs[|es|] == e;
    } else if QuitCalled(es) && e != Start {
      var i :| 0 <= i < |es| && IsQuit(es[i]) && forall j | i < j < |es| :: es[j] != Start;
      assert fs[i] == es[i];
    }
  }

  /** The loop returns only when `quit` was called since it last started. */
  lemma StopsOnlyOnQuit(s0: State, es: seq<Event>, n: nat)
    requires Init(s0) && CanRun(s0, es) && n < |es| && es[n] == Stop
    ensures QuitCalled(es[..n])
  {
    AfterPrefix(s0, es, n);
    QuitIffCalled(s0, es[..n]);
  }

  /** No lost wakeup, over every interleaving: whenever the loop is at `poll`, whatever it has not
      taken, and a `quit` it has not seen, is announced by the eventfd or by a thread that is about
      to write it -- also when the loop's own functors queued work and skipped their wakeup. */
  lemma NoLostWakeup(s0: State, es: seq<Event>)
    requires Init(s0) && CanRun(s0, es)
    ensures var s := After(s0, es);
      s.pc == Polling && (s.queue.done < |s.queue.items| || QuitCalled(es)) ==> 0 < s.count || WakeupComing(s)
  {
    InitInv(s0);
    RunInv(s0, es);
    QuitIffCalled(s0, es);
  }

  /** When every other thread has finished its calls, a blocked loop has nothing left to do. */
  lemma BlockedMeansDone(s0: State, es: seq<Event>)
    requires Init(s0) && CanRun(s0, es)
    requires After(s0, es).pc == Polling && After(s0, es).count == 0 && !WakeupComing(After(s0, es))
    ensures After(s0, es).ran == After(s0, es).queue.items && !QuitCalled(es)
  {
    InitInv(s0);
    RunInv(s0, es);
    QuitIffCalled(s0, es);
    var s := After(s0, es);
    assert s.queue.items[..|s.queue.items|] == s.queue.items;
  }

  /** Functors run once each, in the order their threads exchanged them. */
  lemma RunsInExchangeOrder(s0: State, es: seq<Event>)
    requires Init(s0) && CanRun(s0, es)
    ensures After(s0, es).ran <= ExchangedBy(es)
    ensures After(s0, es).queue.items == ExchangedBy(es)
  {
    InitInv(s0);
    RunInv(s0, es);
    ItemsAreExchanged(s0, es);
  }

  function Exchanges(e: Event): seq<Func> {
    match e
    case CallExchange(_, f) => [f]
    case OwnExchange(f) => [f]
    case _ => []
  }

  /** The functors of a schedule, in exchange order. */
  function ExchangedBy(es: seq<Event>): seq<Func> {
    if es == [] then [] else Exchanges(es[0]) + ExchangedBy(es[1..])
  }

  lemma StepExchanges(s: State, e: Event)
    requires Enabled(s, e)
    ensures Next(s, e).queue.items == s.queue.items + Exchanges(e)
  {
  }

  lemma {:induction false} ItemsAreExchanged(s: State, es: seq<Event>)
    requires CanRun(s, es)
    ensures After(s, es).queue.items == s.queue.items + ExchangedBy(es)
    decreases |es|
  {
    hide Enabled, Next, Exchanges;
    if es != [] {
      StepExchanges(s, es[0]);
      ItemsAreExchanged(Next(s, es[0]), es[1..]);
    }
  }

  // ---------------------------------------------------------------- progress

  ghost predicate Quiet(s: State) {
    s.own == NoCall && !WakeupComing(s)
  }

  lemma StaysQuiet(s: State, s': State)
    requires Quiet(s) && s'.callers == s.callers && s'.own == NoCall
    ensures Quiet(s')
  {
    forall t ensures CallerOf(s', t) == Idle {
      assert CallerOf(s, t) == Idle;
    }
  }

  /** With no call under way every item is linked. */
  lemma AllLinked(s: State)
    requires Inv(s) && Quiet(s) && s.queue.done < |s.queue.items|
    ensures s.queue.Ready()
  {
    assert Unlinked(s.queue, s.queue.done) ==> LinkOwed(s, s.queue.done);
  }

  // ---------------------------------------------------------------- every turn

  /** The loop's own steps; no call of `queueInLoop` or `quit` begins or goes on. */
  predicate LoopStep(e: Event) {
    match e
    case Start => true
    case Enter => true
    case PollReturns(_) => true
    case ReadEventfd => true
    case HandlersDone => true
    case FoundEmpty => true
    case FoundSome => true
    case TakeFunc => true
    case NoFunc => true
    case FuncDone => true
    case Dropped => true
    case Again => true
    case Stop => true
    case _ => false
  }

  /** A turn is over only with the queue empty. */
  ghost predicate TurnInv(s: State) {
    Inv(s) && Quiet(s) && (s.pc == CheckQuit ==> s.queue.done == |s.queue.items|)
  }

  lemma TurnStep(s: State, e: Event)
    requires TurnInv(s) && Enabled(s, e) && LoopStep(e)
    ensures TurnInv(Next(s, e)) && Next(s, e).queue.items == s.queue.items
  {
    StepInv(s, e);
    StaysQuiet(s, Next(s, e));
    if e == FoundEmpty && s.queue.done < |s.queue.items| { AllLinked(s); }
  }

  lemma {:induction false} TurnInvAfter(s: State, es: seq<Event>)
    requires TurnInv(s) && CanRun(s, es) && forall i | 0 <= i < |es| :: LoopStep(es[i])
    ensures TurnInv(After(s, es)) && After(s, es).queue.items == s.queue.items
    decreases |es|
  {
    hide Inv, Quiet, TurnInv, Next, Enabled;
    if es != [] {
      TurnStep(s, es[0]);
      TurnInvAfter(Next(s, es[0]), es[1..]);
    }
  }

  /** Once the callers are done, whatever course the loop takes -- the eventfd read or not, `poll`
      timing out or not, one turn or many -- each time it comes to look at `quit_` it has run all. */
  lemma EveryTurnRunsAll(s: State, es: seq<Event>)
    requires Inv(s) && Quiet(s) && s.pc == Polling
    requires CanRun(s, es) && forall i | 0 <= i < |es| :: LoopStep(es[i])
    ensures After(s, es).pc == CheckQuit ==> After(s, es).ran == s.queue.items
  {
    TurnInvAfter(s, es);
    var t := After(s, es);
    assert t.queue.items[..|t.queue.items|] == t.queue.items;
  }

  /** How far the loop is from the end of its turn, with `pending` functors to go. */
  function ToGo(pc: Pc, pending: nat): nat {
    var atCheck := if pending == 0 then 1 else 2 * pending + 4;
    match pc
    case Polling => atCheck + 3
    case Handling(wake) => if wake then atCheck + 2 else atCheck + 1
    case OuterCheck => atCheck
    case Inner => 2 * pending + 3
    case Running => 2 * pending + 4
    case Dropping => atCheck + 1
    case CheckQuit => 0
    case FirstCheck => atCheck + 4
    case Outside => 0
  }

  ghost function Left(s: State): nat
    requires s.queue.Valid()
  {
    ToGo(s.pc, |s.queue.items| - s.queue.done)
  }

  /** And it does come to it: until then some step of the loop is always enabled, and each one, no
      matter which, brings it nearer. */
  lemma TurnEnds(s: State)
    requires Inv(s) && Quiet(s) && s.pc != CheckQuit && s.pc != Outside
    ensures exists e :: LoopStep(e) && Enabled(s, e)
    ensures forall e | LoopStep(e) && Enabled(s, e) :: Next(s, e).queue.Valid() && Left(Next(s, e)) < Left(s)
  {
    SomeStep(s);
    forall e | LoopStep(e) && Enabled(s, e) ensures Next(s, e).queue.Valid() && Left(Next(s, e)) < Left(s) {
      StepInv(s, e);
      if s.queue.done < |s.queue.items| { AllLinked(s); }
    }
  }

  lemma SomeStep(s: State)
    requires Inv(s) && Quiet(s) && s.pc != CheckQuit && s.pc != Outside
    ensures exists e :: LoopStep(e) && Enabled(s, e)
  {
    var ready := s.queue.Ready();
    var e := match s.pc
      case FirstCheck => if s.quit then Stop else Enter
      case Polling => PollReturns(false)
      case Handling(wake) => if wake then ReadEventfd else HandlersDone
      case OuterCheck => if ready then FoundSome else FoundEmpty
      case Inner => if ready then TakeFunc else NoFunc
      case Running => FuncDone
      case Dropping => Dropped
      case _ => Stop;
    assert LoopStep(e) && Enabled(s, e);
  }

  /** From `poll` to the check after the turn. */
  predicate InTurn(pc: Pc) {
    pc != Outside && pc != FirstCheck
  }

  lemma {:induction false} TurnCompletes(s: State) returns (es: seq<Event>)
    requires TurnInv(s) && InTurn(s.pc)
    ensures CanRun(s, es) && (forall i | 0 <= i < |es| :: LoopStep(es[i]) && es[i] != Stop)
    ensures After(s, es).pc == CheckQuit
    decreases Left(s)
  {
    hide Inv, Quiet, Enabled, Next;
    es := [];
    if s.pc != CheckQuit {
      var e := NextStep(s);
      var rest := TurnCompletes(Next(s, e));
      es := [e] + rest;
      assert es[1..] == rest;
    }
  }

  lemma NextStep(s: State) returns (e: Event)
    requires TurnInv(s) && InTurn(s.pc) && s.pc != CheckQuit
    ensures s.queue.Valid() && LoopStep(e) && e != Stop && Enabled(s, e)
    ensures TurnInv(Next(s, e)) && InTurn(Next(s, e).pc)
    ensures Next(s, e).queue.Valid() && Left(Next(s, e)) < Left(s)
  {
    hide Inv, Quiet;
    TurnEnds(s);
    e :| LoopStep(e) && Enabled(s, e);
    TurnStep(s, e);
  }

  /** With work pending and the callers done `poll` cannot block, and the turn it starts runs it all. */
  lemma OneTurnRunsAll(s: State) returns (es: seq<Event>)
    requires Inv(s) && Quiet(s) && s.pc == Polling && s.queue.done < |s.queue.items|
    ensures es != [] && es[0] == PollReturns(true) && CanRun(s, es)
    ensures forall i | 0 <= i < |es| :: LoopStep(es[i]) && es[i] != Stop
    ensures After(s, es).pc == CheckQuit && After(s, es).ran == s.queue.items
  {
    hide LinksOwed;
    TurnStep(s, PollReturns(true));
    var rest := TurnCompletes(Next(s, PollReturns(true)));
    es := [PollReturns(true)] + rest;
    assert es[1..] == rest;
    EveryTurnRunsAll(s, es);
  }

  // ---------------------------------------------------------------- a loop that is told to quit

  /** A loop that was told to quit stays told while it runs, and does not go round again. */
  lemma {:induction false} QuitStays(s: State, es: seq<Event>)
    requires s.quit && InTurn(s.pc) && CanRun(s, es) && forall i | 0 <= i < |es| :: LoopStep(es[i]) && es[i] != Stop
    ensures After(s, es).quit && InTurn(After(s, es).pc) && forall i | 0 <= i < |es| :: es[i] != Again
    decreases |es|
  {
    if es != [] {
      QuitStays(Next(s, es[0]), es[1..]);
      assert forall i | 0 < i < |es| :: es[i] == es[1..][i - 1];
    }
  }

  /** A turn has no more steps than it has to go. */
  lemma {:induction false} TurnIsFinite(s: State, es: seq<Event>)
    requires TurnInv(s) && InTurn(s.pc) && CanRun(s, es)
    requires forall i | 0 <= i < |es| :: LoopStep(es[i]) && es[i] != Stop && es[i] != Again
    ensures s.queue.Valid() && |es| <= Left(s)
    decreases |es|
  {
    if es != [] {
      TurnEnds(s);
      TurnStep(s, es[0]);
      TurnIsFinite(Next(s, es[0]), es[1..]);
    }
  }

  /** Once the eventfd is read and nobody writes it again, only a timeout brings `poll` back. */
  lemma {:induction false} QuietsDown(s: State, es: seq<Event>)
    requires CanRun(s, es) && forall i | 0 <= i < |es| :: LoopStep(es[i])
    ensures s.count == 0 || ReadEventfd in es ==> After(s, es).count == 0 && !Enabled(After(s, es), PollReturns(true))
    decreases |es|
  {
    if es != [] {
      QuietsDown(Next(s, es[0]), es[1..]);
      assert ReadEventfd in es ==> es[0] == ReadEventfd || ReadEventfd in es[1..];
    }
  }

  /** With a quit called since the last start and the callers done, every course of the loop ends: it
      has no more steps than a turn, and where it comes to look at `quit_` it has run all and can only
      return. */
  lemma QuitEndsLoop(s0: State, before: seq<Event>, es: seq<Event>)
    requires Init(s0) && CanRun(s0, before) && QuitCalled(before)
    requires Quiet(After(s0, before)) && After(s0, before).pc == Polling
    requires CanRun(After(s0, before), es) && forall i | 0 <= i < |es| :: LoopStep(es[i]) && es[i] != Stop
    ensures After(s0, before).queue.Valid() && |es| <= Left(After(s0, before))
    ensures var s := After(After(s0, before), es);
      s.pc == CheckQuit ==>
        && s.ran == s.queue.items && Enabled(s, Stop) && Next(s, Stop).pc == Outside
        && forall e | Enabled(s, e) && LoopStep(e) :: e == Stop
  {
    var s := After(s0, before);
    InitInv(s0);
    RunInv(s0, before);
    QuitIffCalled(s0, before);
    QuitStays(s, es);
    EveryTurnRunsAll(s, es);
    TurnInvAfter(s, es);
    TurnIsFinite(s, es);
  }

  lemma {:induction false} OneMoreStep(s: State, es: seq<Event>, e: Event)
    requires CanRun(s, es) && Enabled(After(s, es), e)
    ensures CanRun(s, es + [e]) && After(s, es + [e]) == Next(After(s, es), e)
    decreases |es|
  {
    hide Enabled, Next;
    if es != [] {
      OneMoreStep(Next(s, es[0]), es[1..], e);
      assert (es + [e])[1..] == es[1..] + [e];
    } else {
      assert (es + [e])[1..] == [];
    }
  }

  lemma {:induction false} AppendRun(s: State, es: seq<Event>, fs: seq<Event>)
    requires CanRun(s, es) && CanRun(After(s, es), fs)
    ensures CanRun(s, es + fs) && After(s, es + fs) == After(After(s, es), fs)
    decreases |es|
  {
    hide Enabled, Next;
    if es == [] {
      assert es + fs == fs;
    } else {
      AppendRun(Next(s, es[0]), es[1..], fs);
      assert (es + fs)[1..] == es[1..] + fs;
    }
  }

  /** A whole life: a functor queued and a quit called while the loop is at `poll`; it runs the one and
      returns on the other. */
  lemma CallThenQuit(s0: State, t: Thread, f: Func) returns (es: seq<Event>)
    requires Init(s0)
    ensures CanRun(s0, es) && After(s0, es).pc == Outside && After(s0, es).ran == [f]
  {
    var called := Called(s0, t, f);
    var s := After(s0, called);
    InitInv(s0);
    RunInv(s0, called);
    hide Inv, Next, Enabled;
    var turn := OneTurnRunsAll(s);
    QuitStays(s, turn);
    StopsThen(After(s, turn));
    OneMoreStep(s, turn, Stop);
    AppendRun(s0, called, turn + [Stop]);
    es := called + (turn + [Stop]);
  }

  lemma StopsThen(s: State)
    requires s.pc == CheckQuit && s.quit
    ensures Enabled(s, Stop) && Next(s, Stop) == s.(pc := Outside)
  {
  }

  lemma NoSteps(s: State)
    ensures CanRun(s, []) && After(s, []) == s
  {
  }

  lemma Called(s0: State, t: Thread, f: Func) returns (es: seq<Event>)
    requires Init(s0)
    ensures CanRun(s0, es) && Quiet(After(s0, es)) && After(s0, es).pc == Polling && After(s0, es).quit
    ensures After(s0, es).queue == Queue([f], [true, false], 0)
  {
    hide CanRun, After;
    NoSteps(s0);
    OneMoreStep(s0, [], Start);
    es := [] + [Start];
    OneMoreStep(s0, es, Enter);
    es := es + [Enter];
    OneMoreStep(s0, es, CallExchange(t, f));
    es := es + [CallExchange(t, f)];
    OneMoreStep(s0, es, CallLink(t));
    es := es + [CallLink(t)];
    OneMoreStep(s0, es, CallWake(t));
    es := es + [CallWake(t)];
    OneMoreStep(s0, es, CallQuit(t));
    es := es + [CallQuit(t)];
    OneMoreStep(s0, es, CallWake(t));
    es := es + [CallWake(t)];
    assert After(s0, es).callers == map[t := Idle];
  }
}
