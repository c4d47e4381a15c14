/**
 `ReadyAwareForkWorker` of `vitest.config.ts`: a wrapper that holds back work until the
 wrapped worker has really started. Every callback is one atomic step; timers and
 delegate messages arrive in any order.
 */
module ReadyAwareWorker {
  import opened Wrappers

  datatype Request = Start | Run(id: nat) | Collect(id: nat) | Other(id: nat)

  datatype Reply = Started(error: bool) | Response(id: nat)

  datatype Emission =
    RealStarted(error: bool) | SyntheticStarted | Message(id: nat) | TimeoutError | StartupError
    | Passed(trouble: Trouble)

  /** The delegate's own `error` and `exit` events, which are passed on as they are. */
  datatype Trouble = DelegateError(id: nat) | DelegateExit(code: int)

  /** What the worker listens to: `stop` takes only the message handler off the delegate again. */
  datatype Listeners = Detached | Attached | TroubleOnly

  datatype Timer = Extension(n: nat) | Deadline(n: nat)

  datatype Event = Listen | Send(request: Request) | Fire(timer: Timer) | Deliver(reply: Reply)
    | Report(trouble: Trouble) | Stop

  /**
   The worker's fields, the timers pending, and the traffic so far: what was sent to it, passed on,
   heard and emitted.
   */
  datatype State = State(
    pending: seq<Request>, extended: bool, complete: bool, failed: bool,
    extension: Option<Timer>, deadline: Option<Timer>,
    armed: set<Timer>, next: nat, listeners: Listeners,
    sent: seq<Request>, forwarded: seq<Request>, heard: nat, emitted: seq<Emission>)

  const INITIAL := State([], false, false, false, None, None, {}, 0, Detached, [], [], 0, [])

  predicate IsWork(m: Request) {
    m.Run? || m.Collect?
  }

  function Work(messages: seq<Request>): seq<Request> {
    if messages == [] then []
    else Work(messages[..|messages| - 1]) + if IsWork(messages[|messages| - 1]) then [messages[|messages| - 1]] else []
  }

  // ----- The steps

  function Disarm(s: State): State {
    var cleared := (if s.extension.Some? then {s.extension.value} else {})
          + (if s.deadline.Some? then {s.deadline.value} else {});
    s.(armed := s.armed - cleared, extension := None, deadline := None)
  }

  function OnSend(s: State, m: Request): State {
    var s := s.(sent := s.sent + [m]);
    if m.Start? then
      s.(armed := s.armed + {Extension(s.next), Deadline(s.next)}, extension := Some(Extension(s.next)),
         deadline := Some(Deadline(s.next)), next := s.next + 1, forwarded := s.forwarded + [m])
    else if IsWork(m) && (s.failed || !s.complete) then
      if s.failed then s else s.(pending := s.pending + [m])
    else s.(forwarded := s.forwarded + [m])
  }

  function OnFire(s: State, t: Timer): State {
    if t !in s.armed then s
    else
      var s := s.(armed := s.armed - {t});
      match t
      case Extension(_) => s.(extended := true, emitted := s.emitted + [SyntheticStarted])
      case Deadline(_) => Disarm(s.(failed := true, pending := [])).(emitted := s.emitted + [TimeoutError])
  }

  function OnReply(s: State, reply: Reply): State {
    if !s.listeners.Attached? then s
    else match reply
      case Response(id) => s.(emitted := s.emitted + [Message(id)])
      case Started(error) =>
        var s := s.(heard := s.heard + 1);
        if s.failed then s
        else
          var s := Disarm(s.(complete := true));
          if !s.extended then Flush(s.(emitted := s.emitted + [RealStarted(error)]))
          else if error then s.(pending := [], emitted := s.emitted + [StartupError])
          else Flush(s)
  }

  function Flush(s: State): State {
    s.(forwarded := s.forwarded + s.pending, pending := [])
  }

  function Step(s: State, e: Event): State {
    match e
    case Listen => s.(listeners := Attached)
    case Send(m) => OnSend(s, m)
    case Fire(t) => OnFire(s, t)
    case Deliver(reply) => OnReply(s, reply)
    case Report(trouble) => if s.listeners.Detached? then s else s.(emitted := s.emitted + [Passed(trouble)])
    case Stop => Disarm(s).(pending := [], listeners := if s.listeners.Attached? then TroubleOnly else s.listeners)
  }

  function After(s: State, run: seq<Event>): State {
    if run == [] then s else Step(After(s, run[..|run| - 1]), run[|run| - 1])
  }

  class Worker {
    var pending: seq<Request>
    var startupExtended: bool
    var realStartupComplete: bool
    var startupFailed: bool
    var startupExtensionTimer: Option<Timer>
    var startupDeadlineTimer: Option<Timer>
    /** The timer queue, the delegate's message listener, and the traffic. */
    var armed: set<Timer>
    var next: nat
    var listeners: Listeners
    var forwarded: seq<Request>
    var emitted: seq<Emission>
    ghost var sent: seq<Request>
    ghost var heard: nat

    ghost function View(): State
      reads this
    {
      State(pending, startupExtended, realStartupComplete, startupFailed, startupExtensionTimer, startupDeadlineTimer,
            armed, next, listeners, sent, forwarded, heard, emitted)
    }

    constructor ()
      ensures View() == INITIAL
    {
      pending, startupExtended, realStartupComplete, startupFailed := [], false, false, false;
      startupExtensionTimer, startupDeadlineTimer, armed, next := None, None, {}, 0;
      listeners, forwarded, emitted, sent, heard := Detached, [], [], [], 0;
    }

    method ClearStartupTimers()
      modifies this
      ensures View() == Disarm(old(View()))
    {
      if startupExtensionTimer.Some? { armed := armed - {startupExtensionTimer.value}; }
      if startupDeadlineTimer.Some? { armed := armed - {startupDeadlineTimer.value}; }
      startupExtensionTimer, startupDeadlineTimer := None, None;
    }

    /** `start`, once the delegate is up. */
    method StartListening()
      modifies this
      ensures View() == Step(old(View()), Listen)
    {
      listeners := Attached;
    }

    method SendRequest(message: Request)
      modifies this
      ensures View() == Step(old(View()), Send(message))
    {
      hide Work, OnFire, OnReply, Disarm, Flush, After;
      sent := sent + [message];
      if message.Start? {
        ArmStartup();
        forwarded := forwarded + [message];
      } else if IsWork(message) && (startupFailed || !realStartupComplete) {
        if !startupFailed { pending := pending + [message]; }
      } else {
        forwarded := forwarded + [message];
      }
    }

    method ArmStartup()
      modifies this`startupExtensionTimer, this`startupDeadlineTimer, this`armed, this`next
      ensures startupExtensionTimer == Some(Extension(old(next))) && startupDeadlineTimer == Some(Deadline(old(next)))
      ensures armed == old(armed) + {Extension(old(next)), Deadline(old(next))} && next == old(next) + 1
    {
      startupExtensionTimer, startupDeadlineTimer := Some(Extension(next)), Some(Deadline(next));
      armed, next := armed + {Extension(next), Deadline(next)}, next + 1;
    }

    method FireExtension(timer: Timer)
      requires timer in armed && timer.Extension?
      modifies this
      ensures View() == Step(old(View()), Fire(timer))
    {
      armed := armed - {timer};
      startupExtended := true;
      emitted := emitted + [SyntheticStarted];
    }

    method FireDeadline(timer: Timer)
      requires timer in armed && timer.Deadline?
      modifies this
      ensures View() == Step(old(View()), Fire(timer))
    {
      armed := armed - {timer};
      startupFailed := true;
      pending := [];
      ClearStartupTimers();
      emitted := emitted + [TimeoutError];
    }

    method HandleDelegateMessage(reply: Reply)
      requires listeners.Attached?
      modifies this
      ensures View() == Step(old(View()), Deliver(reply))
    {
      hide Work, OnSend, OnFire, After, Disarm, Flush;
      if reply.Started? {
        HandleStarted(reply.error);
      } else {
        emitted := emitted + [Message(reply.id)];
      }
    }

    method HandleStarted(error: bool)
      requires listeners.Attached?
      modifies this
      ensures View() == OnReply(old(View()), Started(error))
    {
      hide Work, OnSend, OnFire, After;
      heard := heard + 1;
      if startupFailed { return; }
      realStartupComplete := true;
      ClearStartupTimers();
      if !startupExtended {
        emitted := emitted + [RealStarted(error)];
      } else if error {
        pending := [];
        emitted := emitted + [StartupError];
        return;
      }
      SendQueued();
    }

    method SendQueued()
      modifies this`pending, this`forwarded
      ensures pending == [] && forwarded == old(forwarded) + old(pending)
    {
      var queued := pending;
      pending := [];
      for n := 0 to |queued|
        modifies this`forwarded
        invariant forwarded == old(forwarded) + queued[..n]
      {
        forwarded := forwarded + [queued[n]];
      }
      assert queued[..|queued|] == queued;
    }

    /** The listeners for `error` and `exit`. */
    method PassOn(trouble: Trouble)
      requires !listeners.Detached?
      modifies this
      ensures View() == Step(old(View()), Report(trouble))
    {
      emitted := emitted + [Passed(trouble)];
    }

    method StopWorker()
      modifies this
      ensures View() == Step(old(View()), Stop)
    {
      ClearStartupTimers();
      pending := [];
      if listeners.Attached? { listeners := TroubleOnly; }
    }
  }

  // ----- No work before the real start

  lemma {:induction false} WorkOfConcat(a: seq<Request>, b: seq<Request>)
    ensures Work(a + b) == Work(a) + Work(b)
  {
    if b == [] {
      assert a + b == a;
    } else {
      assert (a + b)[..|a + b| - 1] == a + b[..|b| - 1];
      WorkOfConcat(a, b[..|b| - 1]);
    }
  }

  lemma {:induction false} WorkOfOne(m: Request)
    ensures Work([m]) == if IsWork(m) then [m] else []
  {
    assert [m][..0] == [];
    assert Work([m][..0]) == [];
  }

  ghost predicate AllWork(messages: seq<Request>) {
    forall n | 0 <= n < |messages| :: IsWork(messages[n])
  }

  lemma {:induction false} WorkOfWork(messages: seq<Request>)
    requires AllWork(messages)
    ensures Work(messages) == messages
  {
    if messages != [] {
      WorkOfWork(messages[..|messages| - 1]);
      assert IsWork(messages[|messages| - 1]);
    }
  }

  ghost predicate Held(s: State) {
    && AllWork(s.pending)
    && (!s.complete ==> Work(s.forwarded) == [])
    && (s.complete ==> s.pending == [] && s.heard > 0)
  }

  lemma {:induction false} StepHolds(s: State, e: Event)
    requires Held(s)
    ensures Held(Step(s, e))
  {
    hide Work;
    if e.Send? {
      WorkOfConcat(s.forwarded, [e.request]);
      WorkOfOne(e.request);
    }
  }

  /** On every run, no run or collect request has reached the delegate before its real `started`. */
  lemma {:induction false} NoWorkBeforeStarted(run: seq<Event>)
    ensures Held(After(INITIAL, run))
    ensures var s := After(INITIAL, run); s.heard == 0 ==> forall m | m in s.forwarded :: !IsWork(m)
  {
    if run != [] {
      NoWorkBeforeStarted(run[..|run| - 1]);
      StepHolds(After(INITIAL, run[..|run| - 1]), run[|run| - 1]);
    }
    WorkIsComplete(After(INITIAL, run).forwarded);
  }

  lemma {:induction false} WorkIsComplete(messages: seq<Request>)
    ensures forall m | m in messages && IsWork(m) :: m in Work(messages)
  {
    if messages != [] {
      WorkIsComplete(messages[..|messages| - 1]);
    }
  }

  // ----- Nothing lost, duplicated or reordered

  /** Work handed over or waiting. */
  function Kept(s: State): seq<Request> {
    Work(s.forwarded) + s.pending
  }

  /** The step throws work away. */
  predicate Discards(s: State, e: Event) {
    match e
    case Send(m) => IsWork(m) && s.failed
    case Fire(t) => t in s.armed && t.Deadline? && s.pending != []
    case Deliver(reply) => s.listeners.Attached? && reply.Started? && reply.error && s.extended && !s.failed
      && s.pending != []
    case Stop => s.pending != []
    case _ => false
  }

  /** The work an event brings. */
  function Brought(e: Event): seq<Request> {
    if e.Send? && IsWork(e.request) then [e.request] else []
  }

  lemma {:induction false} SendKeeps(s: State, m: Request)
    requires Held(s)
    ensures var next, more := OnSend(s, m), Brought(Send(m));
            && Work(next.sent) == Work(s.sent) + more
            && Kept(next) == if Discards(s, Send(m)) then Kept(s) else Kept(s) + more
  {
    hide Work;
    WorkOfConcat(s.sent, [m]);
    WorkOfConcat(s.forwarded, [m]);
    WorkOfOne(m);
  }

  lemma {:induction false} DeliverKeeps(s: State, reply: Reply)
    requires Held(s)
    ensures var next, e := Step(s, Deliver(reply)), Deliver(reply);
            && Work(next.sent) == Work(s.sent)
            && (if Discards(s, e) then |Kept(next)| < |Kept(s)| && Kept(next) <= Kept(s) else Kept(next) == Kept(s))
  {
    hide Work;
    WorkOfConcat(s.forwarded, s.pending);
    WorkOfWork(s.pending);
  }

  lemma {:induction false} StepKeeps(s: State, e: Event)
    requires Held(s)
    ensures var next, more := Step(s, e), Brought(e);
            && Work(next.sent) == Work(s.sent) + more
            && (if Discards(s, e) then |Kept(next)| < |Kept(s)| + |more| && Kept(next) <= Kept(s)
                else Kept(next) == Kept(s) + more)
  {
    hide Work;
    match e
    case Send(m) => SendKeeps(s, m);
    case Deliver(reply) => DeliverKeeps(s, reply);
    case _ =>
  }

  ghost predicate Lossless(run: seq<Event>) {
    forall n | 0 <= n < |run| :: !Discards(After(INITIAL, run[..n]), run[n])
  }

  /** `a` is `b` with some members left out. */
  ghost predicate Subsequence(a: seq<Request>, b: seq<Request>) {
    a == [] ||
    (b != [] && (Subsequence(a, b[..|b| - 1]) || (a[|a| - 1] == b[|b| - 1] && Subsequence(a[..|a| - 1], b[..|b| - 1]))))
  }

  lemma {:induction false} PrefixOfSubsequence(a: seq<Request>, b: seq<Request>, p: seq<Request>)
    requires Subsequence(a, b) && p <= a
    ensures Subsequence(p, b)
    decreases |b|
  {
    if p != [] && p != a {
      if Subsequence(a, b[..|b| - 1]) {
        PrefixOfSubsequence(a, b[..|b| - 1], p);
      } else {
        assert p <= a[..|a| - 1];
        PrefixOfSubsequence(a[..|a| - 1], b[..|b| - 1], p);
      }
    }
  }

  lemma {:induction false} ExtendedSubsequence(a: seq<Request>, b: seq<Request>, more: seq<Request>)
    requires Subsequence(a, b) && |more| <= 1
    ensures Subsequence(a + more, b + more) && Subsequence(a, b + more)
  {
    if more == [] {
      assert a + more == a && b + more == b;
    } else {
      assert (a + more)[..|a + more| - 1] == a && (b + more)[..|b + more| - 1] == b;
    }
  }

  /**
   What was handed over and what waits is always the work sent with some left out, in order and
   without repetition; it is all of it exactly on the runs that discard nothing.
   */
  lemma {:induction false} WorkIsKeptInOrder(run: seq<Event>)
    ensures var s := After(INITIAL, run);
            && Subsequence(Kept(s), Work(s.sent))
            && |Kept(s)| <= |Work(s.sent)|
            && (Kept(s) == Work(s.sent) <==> Lossless(run))
  {
    hide Work, Step, Discards, Held;
    if run != [] {
      var earlier, e := run[..|run| - 1], run[|run| - 1];
      var s, more := After(INITIAL, earlier), Brought(e);
      WorkIsKeptInOrder(earlier);
      NoWorkBeforeStarted(earlier);
      StepKeeps(s, e);
      ExtendedSubsequence(Kept(s), Work(s.sent), more);
      if Discards(s, e) { PrefixOfSubsequence(Kept(s), Work(s.sent) + more, Kept(Step(s, e))); }
      LosslessSoFar(run);
      SameTail(Kept(s), Work(s.sent), more);
    } else {
      NothingYet();
    }
  }

  lemma {:induction false} SameTail(a: seq<Request>, b: seq<Request>, more: seq<Request>)
    ensures a + more == b + more <==> a == b
  {
    if a + more == b + more {
      assert a == (a + more)[..|a|] && b == (b + more)[..|b|];
    }
  }

  lemma {:induction false} NothingYet()
    ensures Kept(INITIAL) == Work(INITIAL.sent) == []
  {
  }

  lemma {:induction false} LosslessSoFar(run: seq<Event>)
    requires run != []
    ensures Lossless(run) <==> Lossless(run[..|run| - 1]) && !Discards(After(INITIAL, run[..|run| - 1]), run[|run| - 1])
  {
    var earlier := run[..|run| - 1];
    assert forall n | 0 <= n < |earlier| :: run[..n] == earlier[..n];
  }

  // ----- After the deadline

  /** The messages of a run that are not work. */
  function Control(run: seq<Event>): seq<Request> {
    if run == [] then []
    else
      var e := run[|run| - 1];
      Control(run[..|run| - 1]) + if e.Send? && !IsWork(e.request) then [e.request] else []
  }

  lemma {:induction false} FailedStep(s: State, e: Event)
    requires s.failed
    ensures var next := Step(s, e);
            next.failed && next.forwarded == s.forwarded + if e.Send? && !IsWork(e.request) then [e.request] else []
  {
    hide Work, After;
  }

  /** Once the deadline has failed, no run or collect request is handed over; every other message still is. */
  lemma {:induction false} FailedTakesControlOnly(s: State, run: seq<Event>)
    requires s.failed
    ensures var next := After(s, run);
            && next.failed && next.forwarded == s.forwarded + Control(run)
            && Work(next.forwarded) == Work(s.forwarded)
  {
    hide Work, Step;
    if run == [] {
      assert s.forwarded + Control(run) == s.forwarded;
    } else {
      var middle, e := After(s, run[..|run| - 1]), run[|run| - 1];
      FailedTakesControlOnly(s, run[..|run| - 1]);
      FailedStep(middle, e);
      if e.Send? && !IsWork(e.request) {
        WorkOfConcat(middle.forwarded, [e.request]);
        WorkOfOne(e.request);
      } else {
        assert middle.forwarded + [] == middle.forwarded;
      }
    }
  }

  // ----- One start

  function StartedSeen(emitted: seq<Emission>): nat {
    if emitted == [] then 0
    else
      var last := emitted[|emitted| - 1];
      StartedSeen(emitted[..|emitted| - 1]) + if last.RealStarted? || last.SyntheticStarted? then 1 else 0
  }

  lemma {:induction false} SeenOfOneMore(emitted: seq<Emission>, e: Emission)
    ensures StartedSeen(emitted + [e]) == StartedSeen(emitted) + if e.RealStarted? || e.SyntheticStarted? then 1 else 0
  {
    assert (emitted + [e])[..|emitted + [e]| - 1] == emitted;
  }

  /** The runner sends `start` once, and the delegate answers `started` only after it. */
  ghost predicate Orderly(run: seq<Event>) {
    forall n | 0 <= n < |run| ::
      && (run[n] == Send(Start) ==> After(INITIAL, run[..n]).next == 0)
      && (run[n].Deliver? && run[n].reply.Started? ==> After(INITIAL, run[..n]).next > 0)
  }

  lemma {:induction false} OrderlySoFar(run: seq<Event>)
    requires run != [] && Orderly(run)
    ensures Orderly(run[..|run| - 1])
    ensures var s, e := After(INITIAL, run[..|run| - 1]), run[|run| - 1];
            (e == Send(Start) ==> s.next == 0) && (e.Deliver? && e.reply.Started? ==> s.next > 0)
  {
    var earlier := run[..|run| - 1];
    assert forall n | 0 <= n < |earlier| :: run[..n] == earlier[..n];
  }

  /**
   What an orderly run keeps: the timers pending are the ones the fields name, and being ready or
   failed ends them.
   */
  ghost predicate Tidy(s: State) {
    && s.next <= 1
    && (s.next == 0 ==> s.armed == {} && !s.extended && !s.complete && !s.failed && s.heard == 0)
    && (s.extension.Some? ==> s.extension.value == Extension(0))
    && (s.deadline.Some? ==> s.deadline.value == Deadline(0))
    && (forall t | t in s.armed :: s.extension == Some(t) || s.deadline == Some(t))
    && (s.complete || s.failed ==> s.armed == {})
    && !(s.complete && s.failed)
    && (s.extended ==> Extension(0) !in s.armed)
  }

  /** The `started` messages the runner has seen. */
  ghost predicate Counted(s: State) {
    var seen := StartedSeen(s.emitted);
    && (s.extended ==> seen == 1)
    && (!s.extended && !s.failed ==> seen == s.heard)
    && (!s.extended ==> seen <= s.heard)
    && (!s.complete && !s.extended ==> seen == 0)
  }

  lemma {:induction false} StepIsTidy(s: State, e: Event)
    requires Tidy(s) && (e == Send(Start) ==> s.next == 0) && (e.Deliver? && e.reply.Started? ==> s.next > 0)
    ensures Tidy(Step(s, e))
  {
    hide Work, After, StartedSeen;
    match e
    case Deliver(_) => hide OnSend, OnFire;
    case Fire(_) => hide OnSend, OnReply;
    case Send(_) => hide OnFire, OnReply;
    case _ => hide OnSend, OnFire, OnReply;
  }

  lemma {:induction false} StepCounts(s: State, e: Event)
    requires Tidy(s) && Counted(s) && (e == Send(Start) ==> s.next == 0)
             && (e.Deliver? && e.reply.Started? ==> s.next > 0)
    ensures Counted(Step(s, e))
  {
    hide StartedSeen;
    match e
    case Fire(t) => SeenOfOneMore(s.emitted, if t.Extension? then SyntheticStarted else TimeoutError);
    case Deliver(Response(id)) => SeenOfOneMore(s.emitted, Message(id));
    case Deliver(Started(error)) =>
      SeenOfOneMore(s.emitted, RealStarted(error));
      SeenOfOneMore(s.emitted, StartupError);
    case Report(trouble) => SeenOfOneMore(s.emitted, Passed(trouble));
    case _ =>
  }

  lemma {:induction false} OrderlyIsTidy(run: seq<Event>)
    requires Orderly(run)
    ensures Tidy(After(INITIAL, run)) && Counted(After(INITIAL, run))
  {
    if run != [] {
      OrderlySoFar(run);
      OrderlyIsTidy(run[..|run| - 1]);
      StepIsTidy(After(INITIAL, run[..|run| - 1]), run[|run| - 1]);
      StepCounts(After(INITIAL, run[..|run| - 1]), run[|run| - 1]);
    }
  }

  /**
   On orderly runs the runner has seen at most one `started` for each the delegate sent, exactly
   when the synthetic one is not still waiting for the first real one; and if the delegate
   answers once, the runner sees one. A worker that became ready is never failed afterwards.
   */
  lemma {:induction false} StartedIsSeenOnce(run: seq<Event>)
    requires Orderly(run)
    ensures var s := After(INITIAL, run);
            && (StartedSeen(s.emitted) <= s.heard <==> !(s.extended && s.heard == 0))
            && (s.heard <= 1 ==> StartedSeen(s.emitted) <= 1)
            && !(s.complete && s.failed)
            && (s.complete || s.failed ==> s.armed == {})
  {
    OrderlyIsTidy(run);
  }

  /** A second `start` overwrites the handle of a pending deadline, which then fails a worker that is ready. */
  lemma {:induction false} SecondStartLeaksTheDeadline(s: State, t: Timer)
    requires s.deadline == Some(t) && t in s.armed && t.Deadline? && t.n < s.next && s.listeners.Attached? && !s.failed
    ensures var ready := Step(Step(s, Send(Start)), Deliver(Started(false)));
            ready.complete && !ready.failed && t in ready.armed && Step(ready, Fire(t)).failed
  {
  }

  lemma {:induction false} SecondStartIsPossible()
    ensures var run := [Listen, Send(Start), Send(Start), Deliver(Started(false)), Fire(Deadline(0))];
            After(INITIAL, run).complete && After(INITIAL, run).failed && !Orderly(run)
  {
    var run := [Listen, Send(Start), Send(Start), Deliver(Started(false)), Fire(Deadline(0))];
    assert run[..1] == [Listen] && run[..2] == [Listen, Send(Start)];
    assert run[..4][..3] == run[..3] && run[..3][..2] == run[..2] && run[..2][..1] == run[..1] && run[..1][..0] == [];
    var s2 := Step(Step(INITIAL, Listen), Send(Start));
    assert After(INITIAL, run[..1]) == Step(INITIAL, Listen);
    assert After(INITIAL, run[..2]) == s2;
    assert After(INITIAL, run[..3]) == Step(s2, Send(Start));
    assert After(INITIAL, run[..4]) == Step(Step(s2, Send(Start)), Deliver(Started(false)));
    SecondStartLeaksTheDeadline(s2, Deadline(0));
    assert run[2] == Send(Start) && After(INITIAL, run[..2]).next == 1;
  }

  /**
   The runner sees a `started` that the delegate has not sent: the synthetic one, while the first
   real one is awaited.
   */
  lemma {:induction false} SyntheticStartedComesFirst()
    ensures var run := [Listen, Send(Start), Fire(Extension(0))];
            Orderly(run) && StartedSeen(After(INITIAL, run).emitted) == 1 && After(INITIAL, run).heard == 0
  {
  }

  ghost predicate DeadlineArmed(s: State) {
    exists n :: Deadline(n) in s.armed
  }

  predicate NoStart(later: seq<Event>) {
    forall n | 0 <= n < |later| :: later[n] != Send(Start)
  }

  /** A ready worker can still fail, without another start, exactly if a deadline timer is left armed. */
  lemma {:induction false} ReadyFailsIfDeadlineIsLeft(s: State)
    requires s.complete && !s.failed
    ensures (exists later :: NoStart(later) && After(s, later).failed) <==> DeadlineArmed(s)
  {
    if DeadlineArmed(s) {
      var n :| Deadline(n) in s.armed;
      var later := [Fire(Deadline(n))];
      assert later[..0] == [];
      assert After(s, later[..0]) == s;
      assert NoStart(later) && After(s, later).failed;
    }
    if later :| NoStart(later) && After(s, later).failed {
      if !DeadlineArmed(s) { NoDeadlineNoFailure(s, later); }
    }
  }

  lemma {:induction false} NoDeadlineNoFailure(s: State, later: seq<Event>)
    requires !s.failed && !DeadlineArmed(s) && NoStart(later)
    ensures !After(s, later).failed && !DeadlineArmed(After(s, later))
  {
    hide Step, DeadlineArmed;
    if later != [] {
      NoDeadlineNoFailure(s, later[..|later| - 1]);
      NoNewDeadline(After(s, later[..|later| - 1]), later[|later| - 1]);
    }
  }

  lemma {:induction false} NoNewDeadline(s: State, e: Event)
    requires !s.failed && !DeadlineArmed(s) && e != Send(Start)
    ensures !Step(s, e).failed && !DeadlineArmed(Step(s, e))
  {
    hide Work, After;
    assert Step(s, e).armed <= s.armed;
  }

  // ----- Stopping

  predicate NoNewStart(later: seq<Event>) {
    forall n | 0 <= n < |later| :: later[n] != Listen && later[n] != Send(Start)
  }

  /** What the delegate reports of its own trouble, passed on. */
  function PassedOn(later: seq<Event>): seq<Emission> {
    if later == [] then []
    else
      var e := later[|later| - 1];
      PassedOn(later[..|later| - 1]) + if e.Report? then [Passed(e.trouble)] else []
  }

  /** Of all that may come, exactly the delegate's own errors and exits are still emitted. */
  predicate PassesTroubleOnly(s: State, later: seq<Event>) {
    After(s, later).emitted == s.emitted + if s.listeners.Detached? then [] else PassedOn(later)
  }

  /**
   After `stop`, whatever came before it, exactly the delegate's own errors and exits are emitted, if and
   only if no timer is armed: one that is left can still fire.
   */
  lemma {:induction false} StoppedPassesTroubleOnly(s: State)
    ensures var stopped := Step(s, Stop);
            (forall later | NoNewStart(later) :: PassesTroubleOnly(stopped, later)) <==> stopped.armed == {}
  {
    var stopped := Step(s, Stop);
    if stopped.armed == {} {
      forall later | NoNewStart(later) ensures PassesTroubleOnly(stopped, later) {
        NothingArmed(stopped, later);
      }
    } else {
      var t :| t in stopped.armed;
      ArmedTimerFires(stopped, t);
    }
  }

  lemma {:induction false} ArmedTimerFires(s: State, t: Timer)
    requires t in s.armed
    ensures NoNewStart([Fire(t)]) && !PassesTroubleOnly(s, [Fire(t)])
  {
    hide Work;
    assert [Fire(t)][..0] == [];
    assert After(s, []) == s && PassedOn([]) == [];
    assert |After(s, [Fire(t)]).emitted| == |s.emitted| + 1;
  }

  /** After a single `start`, none is left. */
  lemma {:induction false} OrderlyStopIsComplete(run: seq<Event>)
    requires Orderly(run)
    ensures Step(After(INITIAL, run), Stop).armed == {}
  {
    OrderlyIsTidy(run);
  }

  /** After a second one, the first deadline outlives `stop`. */
  lemma {:induction false} SecondStartOutlivesStop()
    ensures var run := [Listen, Send(Start), Send(Start), Stop];
            Deadline(0) in After(INITIAL, run).armed
  {
    hide Work;
    var run := [Listen, Send(Start), Send(Start), Stop];
    assert run[..3] == [Listen, Send(Start), Send(Start)] && run[..3][..2] == [Listen, Send(Start)];
    assert [Listen, Send(Start)][..1] == [Listen] && [Listen][..0] == [];
    assert After(INITIAL, [Listen]) == Step(INITIAL, Listen);
    assert After(INITIAL, [Listen, Send(Start)]) == Step(Step(INITIAL, Listen), Send(Start));
  }

  lemma {:induction false} NothingArmed(s: State, later: seq<Event>)
    requires s.armed == {} && !s.listeners.Attached? && NoNewStart(later)
    ensures var next := After(s, later);
            && next.armed == {} && next.listeners == s.listeners
            && next.emitted == s.emitted + if s.listeners.Detached? then [] else PassedOn(later)
  {
    hide Step;
    if later != [] {
      NothingArmed(s, later[..|later| - 1]);
      StepOfUnarmed(After(s, later[..|later| - 1]), later[|later| - 1]);
    }
  }

  lemma {:induction false} StepOfUnarmed(s: State, e: Event)
    requires s.armed == {} && !s.listeners.Attached? && e != Listen && e != Send(Start)
    ensures var next := Step(s, e);
            && next.armed == {} && next.listeners == s.listeners
            && next.emitted == s.emitted + if e.Report? && !s.listeners.Detached? then [Passed(e.trouble)] else []
  {
    hide Work, After;
  }
}
