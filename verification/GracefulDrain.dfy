/** The graceful-drain protocol (common/http_utils.py): worker threads that count themselves in and
    out around each request, and a signal handler that waits for the count to reach zero. Any
    number of workers and any interleaving of their atomic steps. */
module GracefulDrain {
  // Where a worker is in _dispatch.
  datatype Worker =
    | Arrived      // before enter_request
    | Counted      // counted in; neither the path nor the flag looked at yet
    | Admitted     // read `draining` as false
    | Handling     // inside the route handler
    | Leaving      // answered; before exit_request
    | Gone

  // Where the signal handler is in _drain_and_stop.
  datatype Drainer =
    | Serving
    | FlagSet      // draining is set, ready is not yet cleared
    | Polling      // in the wait loop
    | Deciding     // the loop is over; inflight is about to be read once more
    | Forced
    | Drained
    | Stopped(drained: bool)

  datatype State = State(live: bool, ready: bool, draining: bool, inflight: int,
                         workers: seq<Worker>, drainer: Drainer)

  datatype Step =
    | Arrive                          // a connection gets a thread
    | Enter(w: nat)                   // enter_request
    | ServeOperational(w: nat)        // /health or /ready
    | ReadDraining(w: nat)
    | NoRoute(w: nat)                 // no route matched, or the request could not be read
    | StartHandler(w: nat)
    | FinishHandler(w: nat)           // returned or raised
    | Exit(w: nat)                    // exit_request
    | SetDraining                     // first signal
    | ClearReady
    | Poll(late: bool)                // one test of the loop condition; `late` when past the deadline
    | Decide                          // the test after the loop
    | Stop

  const INITIAL := State(true, true, false, 0, [], Serving)

  function Max(a: int, b: int): int { if a >= b then a else b }

  predicate At(s: State, w: nat, pc: Worker) {
    w < |s.workers| && s.workers[w] == pc
  }

  predicate Enabled(s: State, step: Step) {
    match step
    case Arrive => true
    case Enter(w) => At(s, w, Arrived)
    case ServeOperational(w) => At(s, w, Counted)
    case ReadDraining(w) => At(s, w, Counted)
    case NoRoute(w) => At(s, w, Admitted)
    case StartHandler(w) => At(s, w, Admitted)
    case FinishHandler(w) => At(s, w, Handling)
    case Exit(w) => At(s, w, Leaving)
    case SetDraining => s.drainer == Serving
    case ClearReady => s.drainer == FlagSet
    case Poll(_) => s.drainer == Polling
    case Decide => s.drainer == Deciding
    case Stop => s.drainer == Forced || s.drainer == Drained
  }

  function Move(s: State, w: nat, pc: Worker): State
    requires w < |s.workers|
  {
    s.(workers := s.workers[w := pc])
  }

  function Next(s: State, step: Step): State
    requires Enabled(s, step)
  {
    match step
    case Arrive => s.(workers := s.workers + [Arrived])
    case Enter(w) => Move(s, w, Counted).(inflight := s.inflight + 1)
    case ServeOperational(w) => Move(s, w, Leaving)
    case ReadDraining(w) => Move(s, w, if s.draining then Leaving else Admitted)
    case NoRoute(w) => Move(s, w, Leaving)
    case StartHandler(w) => Move(s, w, Handling)
    case FinishHandler(w) => Move(s, w, Leaving)
    case Exit(w) => Move(s, w, Gone).(inflight := Max(0, s.inflight - 1))
    case SetDraining => s.(draining := true, drainer := FlagSet)
    case ClearReady => s.(ready := false, drainer := Polling)
    case Poll(late) => if s.inflight > 0 && !late then s else s.(drainer := Deciding)
    case Decide => s.(drainer := if s.inflight > 0 then Forced else Drained)
    case Stop => s.(live := false, drainer := Stopped(s.drainer == Drained))
  }

  predicate Run(steps: seq<Step>)
    decreases |steps|, 0
  {
    steps == [] || (Run(steps[..|steps| - 1]) && Enabled(After(steps[..|steps| - 1]), steps[|steps| - 1]))
  }

  function After(steps: seq<Step>): State
    requires Run(steps)
    decreases |steps|, 1
  {
    if steps == [] then INITIAL else Next(After(steps[..|steps| - 1]), steps[|steps| - 1])
  }

  // ---- The program's objects ----

  /** _ServiceState: the fields the threads share, and its two locked operations. */
  class ServiceState {
    var live: bool
    var ready: bool
    var draining: bool
    var inflight: int

    constructor ()
      ensures live && !ready && !draining && inflight == 0
    {
      live, ready, draining, inflight := true, false, false, 0;
    }

    method EnterRequest()
      modifies this`inflight
      ensures inflight == old(inflight) + 1
    {
      inflight := inflight + 1;
    }

    method ExitRequest()
      modifies this`inflight
      ensures inflight == Max(0, old(inflight) - 1)
    {
      inflight := Max(0, inflight - 1);
    }

    // /ready, with the state store's own health as a parameter.
    method Readiness(storeOk: bool) returns (ok: bool)
      ensures ok ==> ready && !draining && storeOk
      ensures ready && !draining && storeOk ==> ok
    {
      ok := ready && !draining;
      ok := ok && storeOk;
    }
  }

  /** The server: its workers and the signal handler, one method for each stretch of code between
      two points where threads may switch. */
  class Server {
    const state: ServiceState
    var workers: seq<Worker>
    var drainer: Drainer

    ghost function View(): State
      reads this, state
    {
      State(state.live, state.ready, state.draining, state.inflight, workers, drainer)
    }

    constructor ()
      ensures fresh(state) && View() == INITIAL
    {
      state := new ServiceState();
      workers, drainer := [], Serving;
      new;
      state.ready := true;
    }

    method AcceptConnection()
      modifies this
      ensures View() == Next(old(View()), Arrive)
    {
      workers := workers + [Arrived];
    }

    method EnterDispatch(w: nat)
      requires Enabled(View(), Enter(w))
      modifies this, state
      ensures View() == Next(old(View()), Enter(w))
    {
      state.EnterRequest();
      workers := workers[w := Counted];
    }

    // The path test and the draining test of _dispatch.
    method Route(w: nat, operational: bool)
      requires At(View(), w, Counted)
      modifies this
      ensures View() == Next(old(View()), if operational then ServeOperational(w) else ReadDraining(w))
    {
      if operational {
        workers := workers[w := Leaving];
        return;
      }
      if state.draining {
        workers := workers[w := Leaving];
        return;
      }
      workers := workers[w := Admitted];
    }

    method MatchRoute(w: nat, found: bool)
      requires At(View(), w, Admitted)
      modifies this
      ensures View() == Next(old(View()), if found then StartHandler(w) else NoRoute(w))
    {
      if !found {
        workers := workers[w := Leaving];
        return;
      }
      workers := workers[w := Handling];
    }

    method HandlerReturns(w: nat)
      requires Enabled(View(), FinishHandler(w))
      modifies this
      ensures View() == Next(old(View()), FinishHandler(w))
    {
      workers := workers[w := Leaving];
    }

    method LeaveDispatch(w: nat)
      requires Enabled(View(), Exit(w))
      modifies this, state
      ensures View() == Next(old(View()), Exit(w))
    {
      state.ExitRequest();
      workers := workers[w := Gone];
    }

    // A second signal finds the flag set and does nothing.
    method Signal()
      modifies this, state
      ensures View() == if Enabled(old(View()), SetDraining) && !old(state.draining)
                        then Next(old(View()), SetDraining) else old(View())
    {
      if state.draining || drainer != Serving {
        return;
      }
      state.draining := true;
      drainer := FlagSet;
    }

    method AdvanceDrain(late: bool)
      requires drainer != Serving && !drainer.Stopped?
      modifies this, state
      ensures View() == Next(old(View()),
                match old(drainer)
                case FlagSet => ClearReady
                case Polling => Poll(late)
                case Deciding => Decide
                case _ => Stop)
    {
      if drainer == FlagSet {
        state.ready := false;
        drainer := Polling;
      } else if drainer == Polling {
        if state.inflight > 0 && !late {
          return;
        }
        drainer := Deciding;
      } else if drainer == Deciding {
        drainer := if state.inflight > 0 then Forced else Drained;
      } else {
        state.live := false;
        drainer := Stopped(drainer == Drained);
      }
    }
  }

  // ---- Safety ----

  // Between enter_request and exit_request.
  predicate Inside(pc: Worker) {
    pc == Counted || pc == Admitted || pc == Handling || pc == Leaving
  }

  function CountInside(workers: seq<Worker>): nat {
    if workers == [] then 0
    else (if Inside(workers[0]) then 1 else 0) + CountInside(workers[1..])
  }

  lemma {:induction false} CountMove(workers: seq<Worker>, w: nat, pc: Worker)
    requires w < |workers|
    ensures CountInside(workers[w := pc])
         == CountInside(workers) - (if Inside(workers[w]) then 1 else 0) + (if Inside(pc) then 1 else 0)
  {
    if w > 0 {
      assert workers[w := pc][1..] == workers[1..][w - 1 := pc];
      CountMove(workers[1..], w - 1, pc);
    } else {
      assert workers[w := pc][1..] == workers[1..];
    }
  }

  lemma {:induction false} CountArrival(workers: seq<Worker>)
    ensures CountInside(workers + [Arrived]) == CountInside(workers)
  {
    if workers != [] {
      assert (workers + [Arrived])[1..] == workers[1..] + [Arrived];
      CountArrival(workers[1..]);
    }
  }

  lemma {:induction false} NoneInside(workers: seq<Worker>, w: nat)
    requires CountInside(workers) == 0 && w < |workers|
    ensures !Inside(workers[w])
  {
    if w > 0 {
      NoneInside(workers[1..], w - 1);
    }
  }

  predicate Busy(pc: Worker) { pc == Admitted || pc == Handling }

  predicate PastFlag(d: Drainer) { d != Serving }

  predicate WentDrained(d: Drainer) { d == Drained || d == Stopped(true) }

  // inflight counts exactly the workers inside; the flag is up from the first signal on, `ready` falls
  // right after it, and `live` at the end; and once drained, no worker is in a handler or admitted to
  // one.
  ghost predicate Inv(s: State) {
    && s.inflight == CountInside(s.workers)
    && (s.draining <==> PastFlag(s.drainer))
    && (s.ready <==> s.drainer == Serving || s.drainer == FlagSet)
    && (s.live <==> !s.drainer.Stopped?)
    && (WentDrained(s.drainer) ==> forall w | 0 <= w < |s.workers| :: !Busy(s.workers[w]))
  }

  lemma InvStep(s: State, step: Step)
    requires Inv(s) && Enabled(s, step)
    ensures Inv(Next(s, step))
  {
    hide CountInside;
    match step
    case Arrive => CountArrival(s.workers);
    case Decide =>
      if s.inflight == 0 {
        forall w | 0 <= w < |s.workers| ensures !Busy(s.workers[w]) {
          NoneInside(s.workers, w);
        }
      }
    case Enter(w) => CountMove(s.workers, w, Counted);
    case ServeOperational(w) => CountMove(s.workers, w, Leaving);
    case ReadDraining(w) => CountMove(s.workers, w, if s.draining then Leaving else Admitted);
    case NoRoute(w) => CountMove(s.workers, w, Leaving);
    case StartHandler(w) => CountMove(s.workers, w, Handling);
    case FinishHandler(w) => CountMove(s.workers, w, Leaving);
    case Exit(w) => CountMove(s.workers, w, Gone);
    case _ =>
  }

  lemma {:induction false} InvAlways(steps: seq<Step>)
    requires Run(steps)
    ensures Inv(After(steps))
  {
    if steps != [] {
      InvAlways(steps[..|steps| - 1]);
      InvStep(After(steps[..|steps| - 1]), steps[|steps| - 1]);
    }
  }

  // In every run inflight is the number of workers between enter and exit, and the clamp in
  // exit_request never fires.
  lemma InflightIsExact(steps: seq<Step>, w: nat)
    requires Run(steps)
    ensures After(steps).inflight == CountInside(After(steps).workers)
    ensures At(After(steps), w, Leaving) ==> After(steps).inflight - 1 >= 0
  {
    InvAlways(steps);
    var s := After(steps);
    if At(s, w, Leaving) {
      CountMove(s.workers, w, Gone);
    }
  }

  lemma LastStep(steps: seq<Step>)
    requires Run(steps) && steps != []
    ensures var n := |steps| - 1;
            Run(steps[..n]) && Enabled(After(steps[..n]), steps[n]) && After(steps) == Next(After(steps[..n]), steps[n])
  {
  }

  lemma RunPrefix(steps: seq<Step>, later: seq<Step>)
    requires Run(steps + later)
    ensures Run(steps)
    decreases |later|
  {
    if later == [] {
      assert steps + later == steps;
    } else {
      assert (steps + later)[..|steps + later| - 1] == steps + later[..|later| - 1];
      RunPrefix(steps, later[..|later| - 1]);
    }
  }

  lemma DrainedStays(s: State, step: Step)
    requires WentDrained(s.drainer) && Enabled(s, step)
    ensures WentDrained(Next(s, step).drainer)
  {
  }

  lemma NobodyBusy(s: State)
    requires Inv(s) && WentDrained(s.drainer)
    ensures (forall w | 0 <= w < |s.workers| :: s.workers[w] != Handling) && (forall w :: !Enabled(s, StartHandler(w)))
  {
  }

  lemma {:induction false} DrainedForGood(steps: seq<Step>, later: seq<Step>)
    requires Run(steps + later) && Run(steps) && WentDrained(After(steps).drainer)
    ensures WentDrained(After(steps + later).drainer)
    decreases |later|
  {
    hide Run, After, Next, Enabled, WentDrained;
    var all := steps + later;
    if later == [] {
      assert all == steps;
    } else {
      var n := |later| - 1;
      assert all[..|all| - 1] == steps + later[..n];
      LastStep(all);
      DrainedForGood(steps, later[..n]);
      DrainedStays(After(steps + later[..n]), later[n]);
    }
  }

  // Once the drainer takes the drained branch, no handler is running, and none ever starts.
  lemma DrainIsSafe(steps: seq<Step>, later: seq<Step>)
    requires Run(steps + later) && Run(steps) && After(steps).drainer == Drained
    ensures var s := After(steps + later);
            && WentDrained(s.drainer)
            && (forall w | 0 <= w < |s.workers| :: s.workers[w] != Handling)
            && (forall w :: !Enabled(s, StartHandler(w)))
  {
    hide Run, After, Next, Enabled, Inv;
    DrainedForGood(steps, later);
    InvAlways(steps + later);
    NobodyBusy(After(steps + later));
  }

  lemma {:induction false} SomeoneInside(workers: seq<Worker>)
    requires CountInside(workers) > 0
    ensures exists w :: 0 <= w < |workers| && Inside(workers[w])
  {
    if !Inside(workers[0]) {
      SomeoneInside(workers[1..]);
      var w :| 0 <= w < |workers[1..]| && Inside(workers[1..][w]);
      assert Inside(workers[w + 1]);
    }
  }

  // The drainer takes the drained branch exactly when no worker is between enter and exit at the
  // moment it looks.
  lemma DrainedIffQuiet(steps: seq<Step>)
    requires Run(steps) && After(steps).drainer == Deciding
    ensures Next(After(steps), Decide).drainer == Drained
            <==> forall w | 0 <= w < |After(steps).workers| :: !Inside(After(steps).workers[w])
  {
    InvAlways(steps);
    var s := After(steps);
    if s.inflight == 0 {
      forall w | 0 <= w < |s.workers| ensures !Inside(s.workers[w]) {
        NoneInside(s.workers, w);
      }
    } else {
      SomeoneInside(s.workers);
    }
  }

  lemma Then(steps: seq<Step>, step: Step) returns (more: seq<Step>, s: State)
    requires Run(steps) && Enabled(After(steps), step)
    ensures more == steps + [step] && Run(more) && s == After(more) == Next(After(steps), step)
  {
    more := steps + [step];
    assert more[..|steps|] == steps;
    s := After(more);
  }

  lemma NobodyInside(workers: seq<Worker>)
    ensures CountInside(workers) == 0 <==> forall w | 0 <= w < |workers| :: !Inside(workers[w])
  {
    if CountInside(workers) == 0 {
      forall w | 0 <= w < |workers| ensures !Inside(workers[w]) {
        NoneInside(workers, w);
      }
    } else {
      SomeoneInside(workers);
    }
  }

  // The drainer waits: a test ends the loop exactly when the deadline has passed or no worker is
  // between enter and exit.
  lemma PollLeavesIff(steps: seq<Step>, late: bool)
    requires Run(steps) && After(steps).drainer == Polling
    ensures Next(After(steps), Poll(late)).drainer == Deciding
            <==> late || forall w | 0 <= w < |After(steps).workers| :: !Inside(After(steps).workers[w])
    ensures Next(After(steps), Poll(late)).drainer != Deciding ==> Next(After(steps), Poll(late)) == After(steps)
  {
    InvAlways(steps);
    NobodyInside(After(steps).workers);
  }

  // Test p ended the loop: it came past the deadline, or it found nobody inside.
  ghost predicate EndsLoop(steps: seq<Step>, p: int) {
    && 0 <= p < |steps| && steps[p].Poll? && Run(steps[..p]) && After(steps[..p]).drainer == Polling
    && (steps[p] == Poll(true) || After(steps[..p]).inflight == 0)
  }

  // Between the end of the loop and the drainer's decision, the count is zero unless the deadline had
  // passed or someone entered since.
  predicate Late(steps: seq<Step>, p: int) {
    0 <= p < |steps| && (steps[p] == Poll(true) || exists q :: p < q < |steps| && steps[q].Enter?)
  }

  lemma LateGrows(steps: seq<Step>, p: int)
    requires steps != [] && Late(steps[..|steps| - 1], p)
    ensures Late(steps, p)
  {
    if steps[p] != Poll(true) {
      var n := |steps| - 1;
      var q :| p < q < n && steps[..n][q].Enter?;
      assert steps[q].Enter?;
    }
  }

  predicate PastLoop(d: Drainer) { d == Deciding || d == Forced || d == Drained || d.Stopped? }

  // The drainer is deciding while someone is inside, or was when it decided.
  predicate FoundBusy(s: State) {
    (s.drainer == Deciding && s.inflight > 0) || s.drainer == Forced || s.drainer == Stopped(false)
  }

  lemma LoopEnds(s: State, step: Step)
    requires Inv(s) && Enabled(s, step) && s.drainer == Polling && PastLoop(Next(s, step).drainer)
    ensures step.Poll? && (step == Poll(true) || s.inflight == 0)
    ensures FoundBusy(Next(s, step)) ==> step == Poll(true)
  {
  }

  lemma AfterLoop(s: State, step: Step)
    requires Enabled(s, step) && s.drainer != Polling && PastLoop(Next(s, step).drainer)
    ensures PastLoop(s.drainer)
    ensures FoundBusy(Next(s, step)) ==> FoundBusy(s) || step.Enter?
  {
  }

  lemma {:induction false} LoopEndsForAReason(steps: seq<Step>) returns (p: int)
    requires Run(steps) && PastLoop(After(steps).drainer)
    ensures EndsLoop(steps, p)
    ensures FoundBusy(After(steps)) ==> Late(steps, p)
  {
    var n := |steps| - 1;
    var before, step := After(steps[..n]), steps[n];
    assert After(steps) == Next(before, step);
    hide Next, Enabled, FoundBusy, Inv, PastLoop;
    InvAlways(steps[..n]);
    if before.drainer == Polling {
      LoopEnds(before, step);
      p := n;
    } else {
      AfterLoop(before, step);
      p := LoopEndsForAReason(steps[..n]);
      assert steps[..n][..p] == steps[..p];
      if Late(steps[..n], p) {
        LateGrows(steps, p);
      } else if step.Enter? {
        assert p < n && steps[n].Enter?;
      }
    }
  }

  // A forced stop needs a test past the deadline, or a worker that entered after the last test.
  lemma ForcedNeedsAReason(steps: seq<Step>)
    requires Run(steps) && After(steps).drainer in {Forced, Stopped(false)}
    ensures exists p :: EndsLoop(steps, p) && Late(steps, p)
  {
    var p := LoopEndsForAReason(steps);
  }

  lemma OneHandlerRunning() returns (steps: seq<Step>, s: State)
    ensures Run(steps) && After(steps) == s == State(true, true, false, 1, [Handling], Serving)
  {
    steps, s := Then([], Arrive);
    steps, s := Then(steps, Enter(0));
    steps, s := Then(steps, ReadDraining(0));
    steps, s := Then(steps, StartHandler(0));
  }

  // A forced stop gives no such guarantee: a handler may be running when the listener closes.
  lemma ForcedStopMayAbandon()
    ensures exists steps :: Run(steps) && After(steps).drainer == Stopped(false) && At(After(steps), 0, Handling)
  {
    var steps, s := OneHandlerRunning();
    steps, s := Then(steps, SetDraining);
    steps, s := Then(steps, ClearReady);
    steps, s := Then(steps, Poll(true));
    steps, s := Then(steps, Decide);
    steps, s := Then(steps, Stop);
  }

  lemma FlagStays(s: State, step: Step)
    requires PastFlag(s.drainer) && Enabled(s, step)
    ensures PastFlag(Next(s, step).drainer)
  {
  }

  lemma {:induction false} FlagStaysUp(steps: seq<Step>, later: seq<Step>)
    requires Run(steps) && Run(steps + later) && PastFlag(After(steps).drainer)
    ensures PastFlag(After(steps + later).drainer)
    decreases |later|
  {
    hide Run, After, Next, Enabled, PastFlag;
    var all := steps + later;
    if later == [] {
      assert all == steps;
    } else {
      var n := |later| - 1;
      assert all[..|all| - 1] == steps + later[..n];
      LastStep(all);
      FlagStaysUp(steps, later[..n]);
      FlagStays(After(steps + later[..n]), later[n]);
    }
  }

  // From the first signal on the flag stays up, so that /ready answers 503 and no new work is taken,
  // and the server stays live until the drain is over.
  lemma NotReadyWhileDraining(steps: seq<Step>, later: seq<Step>)
    requires Run(steps) && Run(steps + later) && PastFlag(After(steps).drainer)
    ensures var s := After(steps + later);
            PastFlag(s.drainer) && s.draining && (s.ready ==> s.drainer == FlagSet) && (s.live <==> !s.drainer.Stopped?)
  {
    hide Run, After, Next, Enabled;
    FlagStaysUp(steps, later);
    InvAlways(steps + later);
  }

  // The step answers its worker's request without a handler: a health or readiness probe at any
  // time, a request without a route, and any other request from the first signal on.
  predicate AnswersOutright(s: State, step: Step, w: nat) {
    step == ServeOperational(w) || step == NoRoute(w) || (step == ReadDraining(w) && s.drainer != Serving)
  }

  predicate Answered(s: State, w: nat) {
    At(s, w, Leaving) || At(s, w, Gone)
  }

  lemma AnsweredStays(s: State, step: Step, w: nat)
    requires Answered(s, w) && Enabled(s, step)
    ensures Answered(Next(s, step), w)
  {
  }

  lemma StepAnswers(s: State, step: Step, w: nat)
    requires Inv(s) && Enabled(s, step) && AnswersOutright(s, step, w)
    ensures Answered(Next(s, step), w)
  {
  }

  // Its worker never gets to a handler afterwards.
  lemma {:induction false} AnsweredOutright(steps: seq<Step>, step: Step, later: seq<Step>, w: nat)
    requires Run(steps) && Run(steps + [step] + later) && Enabled(After(steps), step) && AnswersOutright(After(steps), step, w)
    ensures Answered(After(steps + [step] + later), w)
    decreases |later|
  {
    hide Run, After, Next, Enabled, Answered, AnswersOutright;
    var all := steps + [step] + later;
    LastStep(all);
    if later == [] {
      assert all[..|steps|] == steps && all == steps + [step];
      InvAlways(steps);
      StepAnswers(After(steps), step, w);
    } else {
      var n := |later| - 1;
      assert all[..|all| - 1] == steps + [step] + later[..n];
      AnsweredOutright(steps, step, later[..n], w);
      AnsweredStays(After(steps + [step] + later[..n]), later[n], w);
    }
  }

  // Every other request that has a route is handled: before the first signal a worker that has
  // counted itself in gets to its handler in two steps of its own.
  lemma HandledBeforeTheSignal(steps: seq<Step>, w: nat)
    requires Run(steps) && After(steps).drainer == Serving && At(After(steps), w, Counted)
    ensures Run(steps + [ReadDraining(w), StartHandler(w)])
    ensures At(After(steps + [ReadDraining(w), StartHandler(w)]), w, Handling)
  {
    InvAlways(steps);
    var more, s := Then(steps, ReadDraining(w));
    more, s := Then(more, StartHandler(w));
    assert more == steps + [ReadDraining(w), StartHandler(w)];
  }
}
