/**
 Starting and stopping the server: `Start`, the accept loop it launches, `Stop` and the connection handlers,
 as steps of concurrent goroutines around the listener, the quit channel and the wait group. One `Start` and
 one `Stop`.
 */
module Lifecycle {
  import opened Wrappers

  datatype Listener = Unbound | Open | Shut

  /** `Bound`: listening, `ts.ln` not yet set. `Released`: the quit channel was closed, `ln.Close` is next. */
  datatype Starter = NotStarted | ListenFailed | Bound | Published | Blocked | Released | Returned

  /** `Holding`: a connection was accepted and not yet counted. `Counted`: its handler is not yet launched. */
  datatype Acceptor = Unborn | Accepting | Holding(held: nat) | Counted(counted: nat) | Ended

  datatype Stopper = NotCalled | Called | ListenerClosed | Waiting | Stopped

  /** `Deregistered`: `wg.Done` was called, `conn.Close` is next. */
  datatype Handler = Serving | Deregistered | Closed

  /** `foundListener` tells whether `Stop` found `ts.ln` set. */
  datatype State = State(
    listener: Listener, starter: Starter, acceptor: Acceptor, stopper: Stopper, published: bool, quitClosed: bool,
    waitGroup: int, handlers: map<nat, Handler>, foundListener: bool)

  datatype Step =
    | Listen(ok: bool)
    | PublishListener
    | LaunchAcceptor
    | ReceiveQuit
    | DeferredClose
    | Accept(id: nat)
    | AcceptError
    | AcceptClosed
    | AddOne
    | LaunchHandler
    | HandlerDone(id: nat)
    | HandlerClose(id: nat)
    | CallStop
    | StopListener
    | StopQuit
    | WaitReturns

  const INITIAL := State(Unbound, NotStarted, Unborn, NotCalled, false, false, 0, map[], false)

  function Shutting(s: State): State {
    s.(listener := Shut)
  }

  function StartApply(s: State, step: Step): Option<State> {
    match step
    case Listen(ok) =>
      if s.starter != NotStarted then None
      else if ok then Some(s.(starter := Bound, listener := Open)) else Some(s.(starter := ListenFailed))
    case PublishListener =>
      if s.starter != Bound then None else Some(s.(starter := Published, published := true))
    case LaunchAcceptor =>
      if s.starter != Published then None else Some(s.(starter := Blocked, acceptor := Accepting))
    case ReceiveQuit => if s.starter != Blocked || !s.quitClosed then None else Some(s.(starter := Released))
    case DeferredClose => if s.starter != Released then None else Some(Shutting(s.(starter := Returned)))
    case _ => None
  }

  /** An accept fails for good once the listener is closed; other errors only repeat the loop. */
  function AcceptApply(s: State, step: Step): Option<State> {
    match step
    case Accept(id) =>
      if !s.acceptor.Accepting? || s.listener != Open || id in s.handlers then None
      else Some(s.(acceptor := Holding(id)))
    case AcceptError => if !s.acceptor.Accepting? || s.listener != Open then None else Some(s)
    case AcceptClosed =>
      if !s.acceptor.Accepting? || s.listener != Shut then None else Some(s.(acceptor := Ended))
    case AddOne =>
      if !s.acceptor.Holding? then None
      else Some(s.(acceptor := Counted(s.acceptor.held), waitGroup := s.waitGroup + 1))
    case LaunchHandler =>
      if !s.acceptor.Counted? then None
      else Some(s.(acceptor := Accepting, handlers := s.handlers[s.acceptor.counted := Serving]))
    case _ => None
  }

  function HandlerApply(s: State, step: Step): Option<State> {
    match step
    case HandlerDone(id) =>
      if id !in s.handlers || s.handlers[id] != Serving then None
      else Some(s.(handlers := s.handlers[id := Deregistered], waitGroup := s.waitGroup - 1))
    case HandlerClose(id) =>
      if id !in s.handlers || s.handlers[id] != Deregistered then None
      else Some(s.(handlers := s.handlers[id := Closed]))
    case _ => None
  }

  function StopApply(s: State, step: Step): Option<State> {
    match step
    case CallStop => if s.stopper != NotCalled then None else Some(s.(stopper := Called))
    case StopListener =>
      if s.stopper != Called then None
      else if s.published then Some(Shutting(s.(stopper := ListenerClosed, foundListener := true)))
      else Some(s.(stopper := ListenerClosed))
    case StopQuit => if s.stopper != ListenerClosed then None else Some(s.(stopper := Waiting, quitClosed := true))
    case WaitReturns => if s.stopper != Waiting || s.waitGroup != 0 then None else Some(s.(stopper := Stopped))
    case _ => None
  }

  function Apply(s: State, step: Step): Option<State> {
    match step
    case Listen(_) => StartApply(s, step)
    case PublishListener => StartApply(s, step)
    case LaunchAcceptor => StartApply(s, step)
    case ReceiveQuit => StartApply(s, step)
    case DeferredClose => StartApply(s, step)
    case HandlerDone(_) => HandlerApply(s, step)
    case HandlerClose(_) => HandlerApply(s, step)
    case CallStop => StopApply(s, step)
    case StopListener => StopApply(s, step)
    case StopQuit => StopApply(s, step)
    case WaitReturns => StopApply(s, step)
    case _ => AcceptApply(s, step)
  }

  function RunFrom(s: State, steps: seq<Step>): Option<State> {
    if steps == [] then Some(s)
    else
      match RunFrom(s, steps[..|steps| - 1])
      case None => None
      case Some(t) => Apply(t, steps[|steps| - 1])
  }

  function Run(steps: seq<Step>): Option<State> {
    RunFrom(INITIAL, steps)
  }

  // ---------------------------------------------------------------- the wait group

  function ServingSet(h: map<nat, Handler>): set<nat> {
    set id | id in h && h[id] == Serving
  }

  /** Handlers that have been counted and have not called `Done`, launched or not. */
  function Outstanding(s: State): nat {
    |ServingSet(s.handlers)| + if s.acceptor.Counted? then 1 else 0
  }

  /** Connections accepted and not yet handed to a handler. */
  function InHand(s: State): nat {
    if s.acceptor.Holding? || s.acceptor.Counted? then 1 else 0
  }

  predicate Inv(s: State) {
    && s.waitGroup == Outstanding(s)
    && (s.acceptor.Holding? ==> s.acceptor.held !in s.handlers)
    && (s.acceptor.Counted? ==> s.acceptor.counted !in s.handlers)
    && (s.starter == NotStarted || s.starter == ListenFailed <==> s.listener == Unbound)
    && (s.published <==> s.starter in {Published, Blocked, Released, Returned})
    && (s.acceptor == Unborn <==> s.starter in {NotStarted, ListenFailed, Bound, Published})
    && (s.listener != Shut ==> s.acceptor != Ended)
    && (s.listener == Shut ==> s.published)
    && (s.starter == Returned ==> s.listener == Shut)
    && (s.quitClosed <==> s.stopper in {Waiting, Stopped})
    && (s.starter in {Released, Returned} ==> s.quitClosed)
    && (s.listener == Shut ==> s.stopper !in {NotCalled, Called})
    && (s.foundListener ==> s.listener == Shut)
    && (s.stopper == NotCalled || s.stopper == Called ==> !s.foundListener)
    && (s.stopper == Stopped && s.foundListener ==> |ServingSet(s.handlers)| + InHand(s) <= 1)
  }

  lemma ServingAdds(h: map<nat, Handler>, id: nat)
    requires id !in h
    ensures |ServingSet(h[id := Serving])| == |ServingSet(h)| + 1
  {
    assert ServingSet(h[id := Serving]) == ServingSet(h) + {id};
  }

  lemma ServingDrops(h: map<nat, Handler>, id: nat)
    requires id in h && h[id] == Serving
    ensures |ServingSet(h[id := Deregistered])| == |ServingSet(h)| - 1
  {
    assert ServingSet(h[id := Deregistered]) == ServingSet(h) - {id};
  }

  lemma ServingSame(h: map<nat, Handler>, id: nat)
    requires id in h && h[id] == Deregistered
    ensures ServingSet(h[id := Closed]) == ServingSet(h)
  {
  }

  lemma ApplyKeeps(s: State, step: Step)
    requires Inv(s) && Apply(s, step).Some?
    ensures Inv(Apply(s, step).value)
  {
    hide ServingSet;
    match step
    case LaunchHandler => ServingAdds(s.handlers, s.acceptor.counted);
    case HandlerDone(id) => ServingDrops(s.handlers, id);
    case HandlerClose(id) => ServingSame(s.handlers, id);
    case _ =>
  }

  lemma {:induction false} RunKeeps(s: State, steps: seq<Step>)
    requires Inv(s) && RunFrom(s, steps).Some?
    ensures Inv(RunFrom(s, steps).value)
    decreases |steps|
  {
    hide Inv, Apply;
    if steps == [] {
    } else {
      RunKeeps(s, steps[..|steps| - 1]);
      ApplyKeeps(RunFrom(s, steps[..|steps| - 1]).value, steps[|steps| - 1]);
    }
  }

  lemma InitialInv()
    ensures Inv(INITIAL)
  {
    assert ServingSet(map[]) == {};
  }

  lemma {:induction false} RunFromCat(s: State, a: seq<Step>, b: seq<Step>)
    requires RunFrom(s, a).Some?
    ensures RunFrom(s, a + b) == RunFrom(RunFrom(s, a).value, b)
    decreases |b|
  {
    hide Apply;
    if b == [] {
      assert a + b == a;
    } else {
      var n := |b| - 1;
      assert (a + b)[..|a + b| - 1] == a + b[..n];
      RunFromCat(s, a, b[..n]);
    }
  }

  /** The handlers launched by the steps. */
  function Launches(steps: seq<Step>): nat {
    if steps == [] then 0
    else Launches(steps[..|steps| - 1]) + if steps[|steps| - 1] == LaunchHandler then 1 else 0
  }

  /** Once the listener is closed, only the connection that the accept loop has in hand can still get a handler. */
  lemma {:induction false} LateLaunches(s: State, more: seq<Step>)
    requires Inv(s) && s.listener == Shut && RunFrom(s, more).Some?
    ensures var t := RunFrom(s, more).value;
            t.listener == Shut && Launches(more) + InHand(t) == InHand(s) <= 1
    decreases |more|
  {
    hide Inv;
    if more == [] {
    } else {
      var n := |more| - 1;
      LateLaunches(s, more[..n]);
      RunKeeps(s, more[..n]);
      ShutStays(RunFrom(s, more[..n]).value, more[n]);
    }
  }

  lemma ShutStays(s: State, step: Step)
    requires Inv(s) && s.listener == Shut && Apply(s, step).Some?
    ensures var t := Apply(s, step).value;
            t.listener == Shut && InHand(t) + (if step == LaunchHandler then 1 else 0) == InHand(s)
  {
    hide ServingSet;
  }

  /**
   In every run the wait group counts exactly the handlers that are registered and have not called `Done`, and
   at most one handler is launched once the listener is closed. After `Stop` returns from its wait, if it
   found the listener, at most one handler can still be serving. `Start` comes back only after `Stop` has closed
   the quit channel, and the listener is closed only after `Stop` was called.
   */
  lemma Shutdown(steps: seq<Step>)
    requires Run(steps).Some?
    ensures var s := Run(steps).value;
            s.waitGroup == Outstanding(s)
            && (s.stopper == Stopped && s.foundListener ==> |ServingSet(s.handlers)| <= 1)
            && (s.quitClosed <==> s.stopper in {Waiting, Stopped})
            && (s.starter in {Released, Returned} ==> s.stopper in {Waiting, Stopped})
            && (s.listener == Shut ==> s.stopper !in {NotCalled, Called})
    ensures forall n: nat :: n <= |steps| && Run(steps[..n]).Some? && Run(steps[..n]).value.listener == Shut ==>
              Launches(steps[n..]) <= 1
  {
    hide RunFrom, Inv, Launches;
    InitialInv();
    RunKeeps(INITIAL, steps);
    InvMeans(Run(steps).value);
    forall n: nat | n <= |steps| && Run(steps[..n]).Some? && Run(steps[..n]).value.listener == Shut
      ensures Launches(steps[n..]) <= 1
    {
      RunKeeps(INITIAL, steps[..n]);
      assert steps[..n] + steps[n..] == steps;
      RunFromCat(INITIAL, steps[..n], steps[n..]);
      LateLaunches(Run(steps[..n]).value, steps[n..]);
    }
  }

  lemma InvMeans(s: State)
    requires Inv(s)
    ensures s.waitGroup == Outstanding(s)
            && (s.stopper == Stopped && s.foundListener ==> |ServingSet(s.handlers)| <= 1)
            && (s.quitClosed <==> s.stopper in {Waiting, Stopped})
            && (s.starter in {Released, Returned} ==> s.stopper in {Waiting, Stopped})
            && (s.listener == Shut ==> s.stopper !in {NotCalled, Called})
  {
  }

  // ---------------------------------------------------------------- what Stop guarantees

  /** Nothing serves, nothing is in hand, and the listener is closed or never was one. */
  predicate Drained(s: State) {
    && InHand(s) == 0 && ServingSet(s.handlers) == {}
    && (if s.listener == Shut then s.starter != NotStarted && s.starter != Bound
        else s.starter == ListenFailed && s.acceptor == Unborn)
  }

  lemma DrainedStays(s: State, step: Step)
    requires Drained(s) && Apply(s, step).Some?
    ensures Drained(Apply(s, step).value)
  {
    NoneServingMeans(s.handlers);
    if step.HandlerClose? { ServingSame(s.handlers, step.id); }
  }

  lemma NoneServingMeans(h: map<nat, Handler>)
    ensures ServingSet(h) == {} <==> forall id <- h :: h[id] != Serving
  {
    if ServingSet(h) == {} {
      forall id <- h ensures h[id] != Serving {
        assert id !in ServingSet(h);
      }
    }
  }

  lemma {:induction false} DrainedForever(s: State, more: seq<Step>)
    requires Drained(s) && RunFrom(s, more).Some?
    ensures Drained(RunFrom(s, more).value)
    decreases |more|
  {
    hide Drained, Apply;
    if more == [] {
    } else {
      DrainedForever(s, more[..|more| - 1]);
      DrainedStays(RunFrom(s, more[..|more| - 1]).value, more[|more| - 1]);
    }
  }

  lemma NoneServing(h: map<nat, Handler>)
    requires |ServingSet(h)| == 0
    ensures ServingSet(h) == {}
  {
  }

  /** The first of these steps leads to a handler that serves, and the acceptor's next one closer to it. */
  function Towards(s: State): nat {
    match s.starter
    case NotStarted => 4
    case Bound => 3
    case Published => 2
    case _ => if s.acceptor.Accepting? then 1 else 0
  }

  /** While the listener can still open or is open, a handler can come to serve. */
  lemma HandlerAhead(s: State) returns (more: seq<Step>)
    requires Inv(s) && !s.acceptor.Counted? && s.listener != Shut && s.starter != ListenFailed
    ensures RunFrom(s, more).Some? && ServingSet(RunFrom(s, more).value.handlers) != {}
    decreases Towards(s)
  {
    hide RunFrom, ServingSet;
    if s.acceptor.Holding? {
      LateHandler(s);
      more := [AddOne, LaunchHandler];
    } else {
      var id := FreshId(s.handlers);
      var step :=
        match s.starter
        case NotStarted => Listen(true)
        case Bound => PublishListener
        case Published => LaunchAcceptor
        case _ => Accept(id);
      var t := Apply(s, step).value;
      ApplyKeeps(s, step);
      var later := HandlerAhead(t);
      RunOne(s, step);
      RunFromCat(s, [step], later);
      more := [step] + later;
    }
  }

  lemma {:induction false} Above(ids: set<nat>) returns (bound: nat)
    ensures forall id <- ids :: id < bound
  {
    if ids == {} {
      bound := 0;
    } else {
      var id :| id in ids;
      var b := Above(ids - {id});
      bound := if id < b then b else id + 1;
      forall other | other in ids ensures other < bound {
        assert other == id || other in ids - {id};
      }
    }
  }

  lemma FreshId(h: map<nat, Handler>) returns (id: nat)
    ensures id !in h
  {
    id := Above(h.Keys);
  }

  /**
   When `Stop` comes back from its wait, no handler is serving. None ever will be exactly when listening had
   failed, or the listener is closed and the accept loop does not hold a connection it has yet to count.
   */
  lemma StopGuarantee(steps: seq<Step>)
    requires Run(steps).Some? && Apply(Run(steps).value, WaitReturns).Some?
    ensures var s := Apply(Run(steps).value, WaitReturns).value;
            ServingSet(s.handlers) == {}
            && ((forall more: seq<Step> :: RunFrom(s, more).Some? ==> ServingSet(RunFrom(s, more).value.handlers) == {})
                <==> s.starter == ListenFailed || (s.listener == Shut && !s.acceptor.Holding?))
  {
    hide RunFrom, ServingSet;
    InitialInv();
    RunKeeps(INITIAL, steps);
    var s := Apply(Run(steps).value, WaitReturns).value;
    ApplyKeeps(Run(steps).value, WaitReturns);
    NoneServing(s.handlers);
    if s.acceptor.Holding? {
      LateHandler(s);
      assert ServingSet(RunFrom(s, [AddOne, LaunchHandler]).value.handlers) != {};
    } else if s.starter == ListenFailed || s.listener == Shut {
      forall more: seq<Step> | RunFrom(s, more).Some? ensures ServingSet(RunFrom(s, more).value.handlers) == {} {
        DrainedForever(s, more);
      }
    } else {
      var more := HandlerAhead(s);
      assert ServingSet(RunFrom(s, more).value.handlers) != {};
    }
  }

  lemma RunOne(s: State, step: Step)
    ensures RunFrom(s, [step]) == Apply(s, step)
  {
    hide Apply;
    assert [step][..0] == [];
  }

  lemma RunTwo(s: State, first: Step, second: Step)
    requires Apply(s, first).Some?
    ensures RunFrom(s, [first, second]) == Apply(Apply(s, first).value, second)
  {
    hide Apply;
    assert [first, second] == [first] + [second];
    RunOne(s, first);
    RunFromCat(s, [first], [second]);
    RunOne(Apply(s, first).value, second);
  }

  lemma LateHandler(s: State)
    requires s.acceptor.Holding?
    ensures RunFrom(s, [AddOne, LaunchHandler]).Some?
    ensures var t := RunFrom(s, [AddOne, LaunchHandler]).value;
            ServingSet(t.handlers) != {} && t.stopper == s.stopper && t.foundListener == s.foundListener
  {
    RunTwo(s, AddOne, LaunchHandler);
    var t := RunFrom(s, [AddOne, LaunchHandler]).value;
    assert s.acceptor.held in t.handlers && t.handlers[s.acceptor.held] == Serving;
    NoneServingMeans(t.handlers);
  }

  /** A connection in hand, before `Stop` is called and after it has returned. */
  function InHandOpen(): State {
    State(Open, Blocked, Holding(0), NotCalled, true, false, 0, map[], false)
  }

  function InHandStopped(): State {
    State(Shut, Blocked, Holding(0), Stopped, true, true, 0, map[], true)
  }

  lemma ReachInHand() returns (steps: seq<Step>)
    ensures Run(steps) == Some(InHandOpen())
  {
    hide RunFrom;
    RunTwo(INITIAL, Listen(true), PublishListener);
    var s := State(Open, Published, Unborn, NotCalled, true, false, 0, map[], false);
    RunTwo(s, LaunchAcceptor, Accept(0));
    RunFromCat(INITIAL, [Listen(true), PublishListener], [LaunchAcceptor, Accept(0)]);
    steps := [Listen(true), PublishListener] + [LaunchAcceptor, Accept(0)];
  }

  lemma StopInHand() returns (steps: seq<Step>)
    ensures RunFrom(InHandOpen(), steps) == Some(InHandStopped())
  {
    hide RunFrom;
    RunTwo(InHandOpen(), CallStop, StopListener);
    var s := State(Shut, Blocked, Holding(0), ListenerClosed, true, false, 0, map[], true);
    RunTwo(s, StopQuit, WaitReturns);
    RunFromCat(InHandOpen(), [CallStop, StopListener], [StopQuit, WaitReturns]);
    steps := [CallStop, StopListener] + [StopQuit, WaitReturns];
  }

  /** A run in which `Stop` has returned while a handler serves: accepted before the stop, counted after it. */
  lemma ServingAfterStop()
    ensures exists steps: seq<Step> :: Run(steps).Some? && Run(steps).value.stopper == Stopped
              && Run(steps).value.foundListener && ServingSet(Run(steps).value.handlers) != {}
  {
    hide RunFrom, ServingSet, Apply;
    var front := ReachInHand();
    var back := StopInHand();
    RunFromCat(INITIAL, front, back);
    LateHandler(InHandStopped());
    RunFromCat(INITIAL, front + back, [AddOne, LaunchHandler]);
    assert Run(front + back + [AddOne, LaunchHandler]).Some?;
  }

  // ---------------------------------------------------------------- what has happened in a run

  lemma StepIn(steps: seq<Step>, step: Step, other: Step)
    ensures other in steps + [step] <==> other in steps || other == step
  {
  }

  /** The step that closes the listener that `Stop` found. */
  predicate StopFound(steps: seq<Step>) {
    exists n: nat :: n < |steps| && steps[n] == StopListener && PublishListener in steps[..n]
  }

  lemma FoundIn(steps: seq<Step>, step: Step)
    ensures StopFound(steps + [step]) <==> StopFound(steps) || (step == StopListener && PublishListener in steps)
  {
    var all := steps + [step];
    if StopFound(all) {
      var n: nat :| n < |all| && all[n] == StopListener && PublishListener in all[..n];
      assert n < |steps| ==> steps[..n] == all[..n];
      assert n == |steps| ==> steps == all[..n];
    }
    if StopFound(steps) {
      var n: nat :| n < |steps| && steps[n] == StopListener && PublishListener in steps[..n];
      assert all[n] == StopListener && all[..n] == steps[..n];
    }
    if step == StopListener && PublishListener in steps {
      assert all[|steps|] == StopListener && all[..|steps|] == steps;
    }
  }

  ghost predicate StartTold(steps: seq<Step>, s: State) {
    && (s.starter == ListenFailed <==> Listen(false) in steps)
    && (s.starter !in {NotStarted, ListenFailed} <==> Listen(true) in steps)
    && (s.published <==> PublishListener in steps)
    && (s.acceptor != Unborn <==> LaunchAcceptor in steps)
    && (s.starter in {Released, Returned} <==> ReceiveQuit in steps)
    && (s.starter == Returned <==> DeferredClose in steps)
    && (s.acceptor == Ended <==> AcceptClosed in steps)
  }

  ghost predicate StopTold(steps: seq<Step>, s: State) {
    && (s.stopper != NotCalled <==> CallStop in steps)
    && (s.stopper !in {NotCalled, Called} <==> StopListener in steps)
    && (s.quitClosed <==> StopQuit in steps)
    && (s.stopper == Stopped <==> WaitReturns in steps)
    && (s.foundListener <==> StopFound(steps))
    && (s.listener == Shut <==> DeferredClose in steps || StopFound(steps))
  }

  lemma StartTells(steps: seq<Step>, s: State, step: Step)
    requires Inv(s) && StartTold(steps, s) && Apply(s, step).Some?
    ensures StartTold(steps + [step], Apply(s, step).value)
  {
    hide ServingSet;
    StepIn(steps, step, Listen(false));
    StepIn(steps, step, Listen(true));
    StepIn(steps, step, PublishListener);
    StepIn(steps, step, LaunchAcceptor);
    StepIn(steps, step, ReceiveQuit);
    StepIn(steps, step, DeferredClose);
    StepIn(steps, step, AcceptClosed);
  }

  lemma StopTells(steps: seq<Step>, s: State, step: Step)
    requires Inv(s) && s.published == (PublishListener in steps) && StopTold(steps, s) && Apply(s, step).Some?
    ensures StopTold(steps + [step], Apply(s, step).value)
  {
    hide ServingSet, StopFound;
    FoundIn(steps, step);
    StepIn(steps, step, DeferredClose);
    StepIn(steps, step, CallStop);
    StepIn(steps, step, StopListener);
    StepIn(steps, step, StopQuit);
    StepIn(steps, step, WaitReturns);
  }

  /** The state of a run tells exactly which of these steps have happened. */
  lemma {:induction false} RunTells(steps: seq<Step>)
    requires Run(steps).Some?
    ensures StartTold(steps, Run(steps).value) && StopTold(steps, Run(steps).value)
    decreases |steps|
  {
    hide Apply, Inv, StopFound;
    if steps == [] {
      NothingFound();
    } else {
      var n := |steps| - 1;
      RunTells(steps[..n]);
      InitialInv();
      RunKeeps(INITIAL, steps[..n]);
      StartTells(steps[..n], Run(steps[..n]).value, steps[n]);
      StopTells(steps[..n], Run(steps[..n]).value, steps[n]);
      assert steps == steps[..n] + [steps[n]];
    }
  }

  lemma NothingFound()
    ensures !StopFound([])
  {
  }

  ghost predicate HandlerTold(steps: seq<Step>, s: State, id: nat) {
    && (Accept(id) in steps
        <==> id in s.handlers || s.acceptor == Holding(id) || s.acceptor == Counted(id))
    && (HandlerDone(id) in steps <==> id in s.handlers && s.handlers[id] != Serving)
    && (HandlerClose(id) in steps <==> id in s.handlers && s.handlers[id] == Closed)
  }

  lemma HandlerStepTells(steps: seq<Step>, s: State, step: Step, id: nat)
    requires Inv(s) && HandlerTold(steps, s, id) && Apply(s, step).Some?
    ensures HandlerTold(steps + [step], Apply(s, step).value, id)
  {
    hide ServingSet;
    StepIn(steps, step, Accept(id));
    StepIn(steps, step, HandlerDone(id));
    StepIn(steps, step, HandlerClose(id));
  }

  /** A connection is in the state exactly when it was accepted, and its handler is as far as its steps in the run. */
  lemma {:induction false} HandlersTell(steps: seq<Step>, id: nat)
    requires Run(steps).Some?
    ensures HandlerTold(steps, Run(steps).value, id)
    decreases |steps|
  {
    hide Apply, Inv;
    if steps == [] {
    } else {
      var n := |steps| - 1;
      HandlersTell(steps[..n], id);
      InitialInv();
      RunKeeps(INITIAL, steps[..n]);
      HandlerStepTells(steps[..n], Run(steps[..n]).value, steps[n], id);
      assert steps == steps[..n] + [steps[n]];
    }
  }

  // ---------------------------------------------------------------- nothing waits forever

  predicate OfStart(step: Step) {
    step.Listen? || step in {PublishListener, LaunchAcceptor, ReceiveQuit, DeferredClose}
  }

  function StartRest(s: State): nat {
    match s.starter
    case Bound => 4
    case Published => 3
    case Blocked => 2
    case Released => 1
    case _ => 0
  }

  /** After the quit channel is closed, steps of `Start` alone bring it back, with the listener closed. */
  lemma StartReturns(s: State) returns (more: seq<Step>)
    requires Inv(s) && s.quitClosed && s.starter !in {NotStarted, ListenFailed}
    ensures (forall step <- more :: OfStart(step)) && |more| == StartRest(s) <= 4 && RunFrom(s, more).Some?
    ensures var t := RunFrom(s, more).value; t.starter == Returned && t.listener == Shut
    decreases StartRest(s)
  {
    hide RunFrom, ServingSet;
    if s.starter == Returned {
      more := [];
      NoSteps(s);
    } else {
      var step :=
        match s.starter
        case Bound => PublishListener
        case Published => LaunchAcceptor
        case Blocked => ReceiveQuit
        case _ => DeferredClose;
      ApplyKeeps(s, step);
      RunOne(s, step);
      var later := StartReturns(Apply(s, step).value);
      RunFromCat(s, [step], later);
      more := [step] + later;
    }
  }

  lemma NoSteps(s: State)
    ensures RunFrom(s, []) == Some(s)
  {
  }

  predicate OfAcceptor(step: Step) {
    step in {AddOne, LaunchHandler, AcceptClosed}
  }

  function AcceptorRest(s: State): nat {
    match s.acceptor
    case Holding(_) => 3
    case Counted(_) => 2
    case Accepting => 1
    case _ => 0
  }

  /** Once the listener is closed, the accept loop ends by itself, with what it has in hand handed over. */
  lemma AcceptorEnds(s: State) returns (more: seq<Step>)
    requires Inv(s) && s.listener == Shut && s.acceptor != Unborn
    ensures (forall step <- more :: OfAcceptor(step)) && |more| == AcceptorRest(s) <= 3 && RunFrom(s, more).Some?
    ensures RunFrom(s, more).value.acceptor == Ended && RunFrom(s, more).value.stopper == s.stopper
    decreases AcceptorRest(s)
  {
    hide RunFrom, ServingSet;
    if s.acceptor == Ended {
      more := [];
      NoSteps(s);
    } else {
      var step :=
        match s.acceptor
        case Holding(_) => AddOne
        case Counted(_) => LaunchHandler
        case _ => AcceptClosed;
      ApplyKeeps(s, step);
      RunOne(s, step);
      var later := AcceptorEnds(Apply(s, step).value);
      RunFromCat(s, [step], later);
      more := [step] + later;
    }
  }

  /** A handler that serves can always finish, by its two last calls. */
  lemma HandlerReturns(s: State, id: nat)
    requires Inv(s) && id in s.handlers && s.handlers[id] == Serving
    ensures var end := RunFrom(s, [HandlerDone(id), HandlerClose(id)]);
            end.Some? && id in end.value.handlers && end.value.handlers[id] == Closed
            && end.value.waitGroup == s.waitGroup - 1
  {
    RunTwo(s, HandlerDone(id), HandlerClose(id));
  }

  /** What a waiting `Stop` needs: handlers that finish, and the launch of one that was counted. */
  predicate Finishing(step: Step) {
    step.HandlerDone? || step == LaunchHandler || step == WaitReturns
  }

  /** No deadlock: a waiting `Stop` returns once the counted handlers have finished; nothing else is needed. */
  lemma StopReturns(s: State) returns (more: seq<Step>)
    requires Inv(s) && s.stopper == Waiting
    ensures (forall step <- more :: Finishing(step)) && RunFrom(s, more).Some?
    ensures RunFrom(s, more).value.stopper == Stopped
    decreases |ServingSet(s.handlers)| + (if s.acceptor.Counted? then 2 else 0)
  {
    hide RunFrom;
    if s.waitGroup == 0 {
      RunOne(s, WaitReturns);
      more := [WaitReturns];
    } else {
      var step;
      if s.acceptor.Counted? {
        step := LaunchHandler;
        ServingAdds(s.handlers, s.acceptor.counted);
      } else {
        var id :| id in ServingSet(s.handlers);
        step := HandlerDone(id);
        ServingDrops(s.handlers, id);
      }
      ApplyKeeps(s, step);
      RunOne(s, step);
      var later := StopReturns(Apply(s, step).value);
      RunFromCat(s, [step], later);
      more := [step] + later;
    }
  }

  /**
   In every run: when the quit channel is closed and listening has worked, `Start` can come back by its own steps
   alone; a waiting `Stop` can return when the counted handlers finish; and an accept loop whose listener is closed
   can end by its own steps alone.
   */
  lemma AllComeBack(steps: seq<Step>)
    requires Run(steps).Some?
    ensures StopQuit in steps && Listen(true) in steps ==>
              exists more: seq<Step> :: (forall step <- more :: OfStart(step)) && Run(steps + more).Some?
                && Run(steps + more).value.starter == Returned && Run(steps + more).value.listener == Shut
    ensures StopQuit in steps && WaitReturns !in steps ==>
              exists more: seq<Step> :: (forall step <- more :: Finishing(step)) && Run(steps + more).Some?
                && Run(steps + more).value.stopper == Stopped
    ensures LaunchAcceptor in steps && Run(steps).value.listener == Shut ==>
              exists more: seq<Step> :: (forall step <- more :: OfAcceptor(step)) && Run(steps + more).Some?
                && Run(steps + more).value.acceptor == Ended
  {
    hide RunFrom, ServingSet, StopFound, OfStart, Finishing, OfAcceptor;
    InitialInv();
    RunKeeps(INITIAL, steps);
    RunTells(steps);
    var s := Run(steps).value;
    if StopQuit in steps && Listen(true) in steps {
      var more := StartReturns(s);
      RunFromCat(INITIAL, steps, more);
    }
    if StopQuit in steps && WaitReturns !in steps {
      var more := StopReturns(s);
      RunFromCat(INITIAL, steps, more);
    }
    if LaunchAcceptor in steps && s.listener == Shut {
      var more := AcceptorEnds(s);
      RunFromCat(INITIAL, steps, more);
    }
  }

  // ---------------------------------------------------------------- Stop before Start has set the listener

  function Servers(n: nat): (h: map<nat, Handler>)
    ensures forall id <- h :: id < n
  {
    if n == 0 then map[] else Servers(n - 1)[n - 1 := Serving]
  }

  /** `Stop` found no listener and has returned; `Start` went on, and `n` connections are served. */
  function StoppedTooEarly(n: nat): State {
    State(Open, Blocked, Accepting, Stopped, true, true, n, Servers(n), false)
  }

  lemma {:induction false} ReachTooEarly(n: nat) returns (steps: seq<Step>)
    ensures Run(steps) == Some(StoppedTooEarly(n))
  {
    hide RunFrom;
    if n == 0 {
      var stopped := State(Unbound, NotStarted, Unborn, Stopped, false, true, 0, map[], false);
      var bound := State(Open, Published, Unborn, Stopped, true, true, 0, map[], false);
      RunTwo(INITIAL, CallStop, StopListener);
      RunTwo(INITIAL.(stopper := ListenerClosed), StopQuit, WaitReturns);
      RunTwo(stopped, Listen(true), PublishListener);
      RunOne(bound, LaunchAcceptor);
      var a, b := [CallStop, StopListener], [StopQuit, WaitReturns];
      RunFromCat(INITIAL, a, b);
      RunFromCat(INITIAL, a + b, [Listen(true), PublishListener]);
      RunFromCat(INITIAL, a + b + [Listen(true), PublishListener], [LaunchAcceptor]);
      steps := a + b + [Listen(true), PublishListener] + [LaunchAcceptor];
    } else {
      var before := ReachTooEarly(n - 1);
      var s := StoppedTooEarly(n - 1);
      RunTwo(s, Accept(n - 1), AddOne);
      RunOne(s.(acceptor := Counted(n - 1), waitGroup := n), LaunchHandler);
      RunFromCat(INITIAL, before, [Accept(n - 1), AddOne]);
      RunFromCat(INITIAL, before + [Accept(n - 1), AddOne], [LaunchHandler]);
      steps := before + [Accept(n - 1), AddOne] + [LaunchHandler];
    }
  }

  lemma {:induction false} ServersCount(n: nat)
    ensures |ServingSet(Servers(n))| == n
  {
    if n == 0 {
      assert ServingSet(Servers(0)) == {};
    } else {
      ServersCount(n - 1);
      ServingAdds(Servers(n - 1), n - 1);
    }
  }

  /** A `Stop` that comes before the listener is set returns, and any number of handlers may serve after it. */
  lemma AnyNumberAfterStop(n: nat)
    ensures exists steps: seq<Step> :: Run(steps).Some? && Run(steps).value.stopper == Stopped
              && |ServingSet(Run(steps).value.handlers)| == n
  {
    hide Run, ServingSet;
    var steps := ReachTooEarly(n);
    ServersCount(n);
    assert |ServingSet(Run(steps).value.handlers)| == n;
  }

  /** No handler closes its connection before it has called `Done`. */
  lemma {:induction false} DoneBeforeClose(steps: seq<Step>, id: nat)
    requires Run(steps).Some? && id in Run(steps).value.handlers && Run(steps).value.handlers[id] == Closed
    ensures exists n: nat :: n < |steps| && Run(steps[..n]).Some? && id in Run(steps[..n]).value.handlers
              && Run(steps[..n]).value.handlers[id] == Deregistered
    decreases |steps|
  {
    hide AcceptApply, StartApply, StopApply;
    var n := |steps| - 1;
    assert n >= 0;
    var before := Run(steps[..n]).value;
    InitialInv();
    RunKeeps(INITIAL, steps[..n]);
    OnlyCloseCloses(before, steps[n], id);
    if before.handlers[id] == Closed {
      DoneBeforeClose(steps[..n], id);
      var m: nat :| m < n && Run(steps[..n][..m]).Some? && id in Run(steps[..n][..m]).value.handlers
                    && Run(steps[..n][..m]).value.handlers[id] == Deregistered;
      assert steps[..n][..m] == steps[..m];
    }
  }

  lemma OnlyCloseCloses(s: State, step: Step, id: nat)
    requires Inv(s) && Apply(s, step).Some?
    requires id in Apply(s, step).value.handlers && Apply(s, step).value.handlers[id] == Closed
    ensures id in s.handlers && (s.handlers[id] == Closed || s.handlers[id] == Deregistered)
  {
  }
}
