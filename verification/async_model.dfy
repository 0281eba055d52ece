/** `AsyncProducer` (pkg/producer/producer.go:229-354) as a state machine: one action is one
    atomic step (an atomic load or swap, one channel operation, one Publish returning), and
    actions of unboundedly many callers interleave freely. */
module AsyncModel {
  import opened Errors

  /** A `pendingMessage`, identified. */
  type Msg = nat

  datatype LoopPhase =
    | NotStarted
    | Launching                     // Start has swapped `running`, the goroutine is not counted yet
    | Selecting                     // at the outer select
    | Publishing(m: Msg)            // took m in the outer select
    | Reporting(err: Error)         // failure counted, error not yet offered to errCh
    | Draining                      // at the inner select
    | DrainPublishing(m: Msg)       // took m in the inner select
    | Exited(drained: bool)         // drained: left through the inner default branch

  datatype StopPhase = StopIdle | StopSwapped | StopWaiting | StopReturned

  /** One finished Publish; `err` is Nil when it succeeded. */
  datatype Attempt = Attempt(m: Msg, err: Error, main: bool)

  /** Flags, phases and pending Sends. */
  datatype Control = Control(
    running: bool, stopClosed: bool, cancelled: bool, loop: LoopPhase, stop: StopPhase,
    checked: multiset<Msg>,         // Sends past the running check, not yet at the channel
    caught: nat,                    // |checked| when Stop cleared the flag
    late: nat,                      // Sends accepted after that
    startReturned: bool)            // Start had returned when Stop cleared the flag

  /** The message channel, the counters and their history. */
  datatype Traffic = Traffic(
    msgCh: seq<Msg>, sent: nat, failed: nat,
    accepted: seq<Msg>,             // Sends that returned nil, in channel order
    attempts: seq<Attempt>)

  /** The error channel and its history. */
  datatype ErrorChannel = ErrorChannel(
    buffer: seq<Error>,
    offered: seq<Error>,            // errors the loop has offered
    dropped: nat,                   // of those, how many found the channel full
    read: seq<Error>)

  datatype State = State(capacity: nat, ctl: Control, traffic: Traffic, errs: ErrorChannel)

  datatype Action =
    | StartSwap | StartSpawn
    | SendCheck(m: Msg) | SendEnqueue(m: Msg)
    | LoopReceive | LoopStop | LoopCancel | LoopReport
    | DrainReceive | DrainDefault
    | Published(err: Error)
    | StopSwap | StopClose | StopReturn
    | Cancel | ReadError

  function Init(capacity: nat): State {
    State(capacity,
          Control(false, false, false, NotStarted, StopIdle, multiset{}, 0, 0, false),
          Traffic([], 0, 0, [], []),
          ErrorChannel([], [], 0, []))
  }

  /** The constructor's clamp: a usable size is kept, anything below one becomes 1000. */
  function ClampBuffer(bufferSize: int): (c: nat)
    ensures c >= 1 && (c == bufferSize || (bufferSize < 1 && c == 1000))
  {
    if bufferSize < 1 then 1000 else bufferSize
  }

  // ------------------------------------------------- the steps, one by one

  function DoStartSwap(c: Control): Control {
    if c.running then c else c.(running := true, loop := Launching)
  }

  function DoSendCheck(c: Control, m: Msg): Control {
    if c.running then c.(checked := c.checked + multiset{m}) else c
  }

  /** The non-blocking send: accepted while there is room, otherwise refused. */
  function DoSendEnqueue(s: State, m: Msg): State {
    var q, c := s.traffic, s.ctl.(checked := s.ctl.checked - multiset{m});
    if |q.msgCh| < s.capacity then
      s.(ctl := c.(late := if c.stop.StopIdle? then c.late else c.late + 1),
         traffic := q.(msgCh := q.msgCh + [m], accepted := q.accepted + [m]))
    else s.(ctl := c)
  }

  function DoReceive(s: State): State
    requires s.traffic.msgCh != []
  {
    var m := s.traffic.msgCh[0];
    s.(ctl := s.ctl.(loop := if s.ctl.loop.Draining? then DrainPublishing(m) else Publishing(m)),
       traffic := s.traffic.(msgCh := s.traffic.msgCh[1..]))
  }

  function DoPublished(s: State, err: Error): State
    requires s.ctl.loop.Publishing? || s.ctl.loop.DrainPublishing?
  {
    var q, main := s.traffic, s.ctl.loop.Publishing?;
    s.(ctl := s.ctl.(loop := if !main then Draining else if err.Nil? then Selecting else Reporting(err)),
       traffic := q.(attempts := q.attempts + [Attempt(s.ctl.loop.m, err, main)],
                     sent := if err.Nil? then q.sent + 1 else q.sent,
                     failed := if err.Nil? then q.failed else q.failed + 1))
  }

  /** The non-blocking send of the error: kept while there is room, otherwise dropped. */
  function Offer(e: ErrorChannel, capacity: nat, err: Error): ErrorChannel {
    if |e.buffer| < capacity then e.(buffer := e.buffer + [err], offered := e.offered + [err])
    else e.(dropped := e.dropped + 1, offered := e.offered + [err])
  }

  function DoRead(e: ErrorChannel): ErrorChannel
    requires e.buffer != []
  {
    e.(buffer := e.buffer[1..], read := e.read + [e.buffer[0]])
  }

  function DoStopSwap(c: Control): Control {
    if !c.running then c
    else c.(running := false, stop := StopSwapped, caught := |c.checked|, startReturned := !c.loop.Launching?)
  }

  /** Which actions the code can take next. Restarting after Stop is not part of the model. */
  predicate Enabled(s: State, a: Action) {
    var c, q := s.ctl, s.traffic.msgCh;
    match a
    case StartSwap => c.loop.NotStarted? || c.running
    case StartSpawn => c.loop.Launching?
    case SendCheck(_) => true
    case SendEnqueue(m) => m in c.checked
    case LoopReceive => c.loop.Selecting? && q != []
    case LoopStop => c.loop.Selecting? && c.stopClosed
    case LoopCancel => c.loop.Selecting? && c.cancelled
    case LoopReport => c.loop.Reporting?
    case DrainReceive => c.loop.Draining? && q != []
    case DrainDefault => c.loop.Draining? && q == []
    case Published(_) => c.loop.Publishing? || c.loop.DrainPublishing?
    case StopSwap => true
    case StopClose => c.stop.StopSwapped?
    case StopReturn => c.stop.StopWaiting? && (c.loop.NotStarted? || c.loop.Launching? || c.loop.Exited?)
    case Cancel => true
    case ReadError => s.errs.buffer != []
  }

  function Apply(s: State, a: Action): State
    requires Enabled(s, a)
  {
    match a
    case StartSwap => s.(ctl := DoStartSwap(s.ctl))
    case StartSpawn => s.(ctl := s.ctl.(loop := Selecting))
    case SendCheck(m) => s.(ctl := DoSendCheck(s.ctl, m))
    case SendEnqueue(m) => DoSendEnqueue(s, m)
    case LoopReceive => DoReceive(s)
    case LoopStop => s.(ctl := s.ctl.(loop := Draining))
    case LoopCancel => s.(ctl := s.ctl.(loop := Exited(false)))
    case LoopReport =>
      s.(ctl := s.ctl.(loop := Selecting), errs := Offer(s.errs, s.capacity, s.ctl.loop.err))
    case DrainReceive => DoReceive(s)
    case DrainDefault => s.(ctl := s.ctl.(loop := Exited(true)))
    case Published(err) => DoPublished(s, err)
    case StopSwap => s.(ctl := DoStopSwap(s.ctl))
    case StopClose => s.(ctl := s.ctl.(stopClosed := true, stop := StopWaiting))
    case StopReturn => s.(ctl := s.ctl.(stop := StopReturned))
    case Cancel => s.(ctl := s.ctl.(cancelled := true))
    case ReadError => s.(errs := DoRead(s.errs))
  }

  /** An action that is not enabled does nothing, so every action sequence is a schedule. */
  function Step(s: State, a: Action): State { if Enabled(s, a) then Apply(s, a) else s }

  function Exec(s: State, acts: seq<Action>): State {
    if acts == [] then s else Step(Exec(s, acts[..|acts| - 1]), acts[|acts| - 1])
  }

  // ------------------------------------------------------------ invariants

  function Messages(attempts: seq<Attempt>): seq<Msg> {
    if attempts == [] then [] else Messages(attempts[..|attempts| - 1]) + [attempts[|attempts| - 1].m]
  }

  function InFlight(p: LoopPhase): seq<Msg> {
    if p.Publishing? || p.DrainPublishing? then [p.m] else []
  }

  function Successes(attempts: seq<Attempt>): nat {
    if attempts == [] then 0
    else Successes(attempts[..|attempts| - 1]) + (if attempts[|attempts| - 1].err.Nil? then 1 else 0)
  }

  /** Errors of the failed Publishes of the outer loop, oldest first. */
  function MainFailures(attempts: seq<Attempt>): seq<Error> {
    if attempts == [] then []
    else
      var a := attempts[|attempts| - 1];
      MainFailures(attempts[..|attempts| - 1]) + (if a.main && !a.err.Nil? then [a.err] else [])
  }

  predicate IsSubsequence<T(==)>(a: seq<T>, b: seq<T>) {
    if a == [] then true
    else if b == [] then false
    else if a[|a| - 1] == b[|b| - 1] && IsSubsequence(a[..|a| - 1], b[..|b| - 1]) then true
    else IsSubsequence(a, b[..|b| - 1])
  }

  /** Nothing accepted is lost, duplicated or reordered. */
  ghost predicate Fifo(q: Traffic, inFlight: seq<Msg>, capacity: nat) {
    && q.accepted == Messages(q.attempts) + inFlight + q.msgCh
    && q.sent == Successes(q.attempts)
    && q.sent + q.failed == |q.attempts|
    && |q.msgCh| <= capacity
  }

  ghost predicate Lifecycle(c: Control) {
    && (c.loop.NotStarted? ==> !c.running && c.stop.StopIdle? && c.checked == multiset{})
    && (c.stop.StopIdle? && !c.running ==> c.loop.NotStarted?)
    && (c.running ==> c.stop.StopIdle?)
    && (c.stopClosed <==> c.stop.StopWaiting? || c.stop.StopReturned?)
    && (c.loop.Draining? || c.loop.DrainPublishing? || c.loop == Exited(true) ==> c.stopClosed)
    && (c.loop == Exited(false) ==> c.cancelled)
    && (c.stop.StopReturned? && c.startReturned ==> c.loop.Exited?)
    && (c.loop.Launching? && !c.stop.StopIdle? ==> !c.startReturned)
  }

  /** After Stop cleared the flag, only Sends it caught past the check can still be accepted. */
  ghost predicate Stranded(c: Control, queued: nat) {
    && (c.stop.StopIdle? ==> c.late == 0)
    && (!c.stop.StopIdle? ==> |c.checked| + c.late <= c.caught)
    && (c.loop == Exited(true) ==> queued <= c.late)
  }

  function Pending(p: LoopPhase): seq<Error> { if p.Reporting? then [p.err] else [] }

  ghost predicate ErrorSample(e: ErrorChannel, failures: seq<Error>, pending: seq<Error>, capacity: nat) {
    && failures == e.offered + pending
    && |e.buffer| <= capacity
    && IsSubsequence(e.read + e.buffer, e.offered)
    && |e.read| + |e.buffer| + e.dropped == |e.offered|
    && (e.dropped > 0 ==> |e.read| + |e.buffer| >= capacity)
    && (e.read == [] ==> e.buffer == e.offered[..Min(|e.offered|, capacity)])
  }

  function Min(a: nat, b: nat): nat { if a <= b then a else b }

  ghost predicate Inv(s: State) {
    && Fifo(s.traffic, InFlight(s.ctl.loop), s.capacity)
    && Lifecycle(s.ctl)
    && Stranded(s.ctl, |s.traffic.msgCh|)
    && ErrorSample(s.errs, MainFailures(s.traffic.attempts), Pending(s.ctl.loop), s.capacity)
  }

  lemma FifoEnqueue(q: Traffic, inFlight: seq<Msg>, capacity: nat, m: Msg)
    requires Fifo(q, inFlight, capacity) && |q.msgCh| < capacity
    ensures Fifo(q.(msgCh := q.msgCh + [m], accepted := q.accepted + [m]), inFlight, capacity)
  {
    assert Messages(q.attempts) + inFlight + (q.msgCh + [m]) == (Messages(q.attempts) + inFlight + q.msgCh) + [m];
  }

  lemma FifoReceive(q: Traffic, capacity: nat)
    requires Fifo(q, [], capacity) && q.msgCh != []
    ensures Fifo(q.(msgCh := q.msgCh[1..]), [q.msgCh[0]], capacity)
  {
    assert q.msgCh == [q.msgCh[0]] + q.msgCh[1..];
  }

  lemma AttemptAppended(attempts: seq<Attempt>, a: Attempt)
    ensures Messages(attempts + [a]) == Messages(attempts) + [a.m]
    ensures Successes(attempts + [a]) == Successes(attempts) + (if a.err.Nil? then 1 else 0)
    ensures MainFailures(attempts + [a])
            == if a.main && !a.err.Nil? then MainFailures(attempts) + [a.err] else MainFailures(attempts)
  {
    assert (attempts + [a])[..|attempts|] == attempts;
  }

  predicate MovesMessages(a: Action) {
    a.SendEnqueue? || a.LoopReceive? || a.DrainReceive? || a.Published?
  }

  lemma OtherStepsLeaveTraffic(s: State, a: Action)
    requires Enabled(s, a) && !MovesMessages(a)
    ensures Apply(s, a).traffic == s.traffic && Apply(s, a).capacity == s.capacity
    ensures InFlight(Apply(s, a).ctl.loop) == InFlight(s.ctl.loop)
  {
  }

  lemma FifoStep(s: State, a: Action)
    requires Fifo(s.traffic, InFlight(s.ctl.loop), s.capacity) && Enabled(s, a)
    ensures var s' := Apply(s, a); Fifo(s'.traffic, InFlight(s'.ctl.loop), s'.capacity)
  {
    if !MovesMessages(a) {
      OtherStepsLeaveTraffic(s, a);
      hide Fifo, Apply, InFlight;
    } else {
      MessageMoves(s, a);
    }
  }

  lemma MessageMoves(s: State, a: Action)
    requires Fifo(s.traffic, InFlight(s.ctl.loop), s.capacity) && Enabled(s, a) && MovesMessages(a)
    ensures var s' := Apply(s, a); Fifo(s'.traffic, InFlight(s'.ctl.loop), s'.capacity)
  {
    match a
    case SendEnqueue(m) =>
      if |s.traffic.msgCh| < s.capacity {
        FifoEnqueue(s.traffic, InFlight(s.ctl.loop), s.capacity, m);
      }
    case Published(err) =>
      AttemptAppended(s.traffic.attempts, Attempt(s.ctl.loop.m, err, s.ctl.loop.Publishing?));
    case _ => FifoReceive(s.traffic, s.capacity);
  }

  lemma LifecycleStep(s: State, a: Action)
    requires Lifecycle(s.ctl) && Enabled(s, a)
    ensures Lifecycle(Apply(s, a).ctl)
  {
  }

  lemma StrandedStep(s: State, a: Action)
    requires Stranded(s.ctl, |s.traffic.msgCh|) && Lifecycle(s.ctl) && Enabled(s, a)
    ensures Stranded(Apply(s, a).ctl, |Apply(s, a).traffic.msgCh|)
  {
    if a.SendEnqueue? {
      assert |s.ctl.checked - multiset{a.m}| == |s.ctl.checked| - 1;
    }
  }

  lemma SubsequenceSkip<T>(a: seq<T>, b: seq<T>, x: T)
    requires IsSubsequence(a, b)
    ensures IsSubsequence(a, b + [x])
  {
    assert (b + [x])[..|b|] == b;
  }

  lemma SubsequenceKeep<T>(a: seq<T>, b: seq<T>, x: T)
    requires IsSubsequence(a, b)
    ensures IsSubsequence(a + [x], b + [x])
  {
    assert (a + [x])[..|a|] == a && (b + [x])[..|b|] == b;
  }

  lemma SampleOffer(e: ErrorChannel, err: Error, failures: seq<Error>, capacity: nat)
    requires ErrorSample(e, failures, [err], capacity)
    ensures ErrorSample(Offer(e, capacity, err), failures, [], capacity)
  {
    var e' := Offer(e, capacity, err);
    if |e.buffer| < capacity {
      SubsequenceKeep(e.read + e.buffer, e.offered, err);
      assert e'.read + e'.buffer == (e.read + e.buffer) + [err];
    } else {
      SubsequenceSkip(e.read + e.buffer, e.offered, err);
    }
    hide IsSubsequence;
    assert e'.offered + [] == e.offered + [err];
  }

  lemma SampleRead(e: ErrorChannel, failures: seq<Error>, pending: seq<Error>, capacity: nat)
    requires ErrorSample(e, failures, pending, capacity) && e.buffer != []
    ensures ErrorSample(DoRead(e), failures, pending, capacity)
  {
    assert (e.read + [e.buffer[0]]) + e.buffer[1..] == e.read + e.buffer;
  }

  lemma SampleFailure(e: ErrorChannel, failures: seq<Error>, err: Error, capacity: nat)
    requires ErrorSample(e, failures, [], capacity)
    ensures ErrorSample(e, failures + [err], [err], capacity)
  {
    hide IsSubsequence;
  }

  lemma SampleStep(s: State, a: Action)
    requires Enabled(s, a)
    requires ErrorSample(s.errs, MainFailures(s.traffic.attempts), Pending(s.ctl.loop), s.capacity)
    ensures var s' := Apply(s, a);
            ErrorSample(s'.errs, MainFailures(s'.traffic.attempts), Pending(s'.ctl.loop), s'.capacity)
  {
    hide IsSubsequence, MainFailures, ErrorSample;
    match a
    case Published(err) =>
      var main := s.ctl.loop.Publishing?;
      AttemptAppended(s.traffic.attempts, Attempt(s.ctl.loop.m, err, main));
      if main && !err.Nil? {
        SampleFailure(s.errs, MainFailures(s.traffic.attempts), err, s.capacity);
      }
    case LoopReport => SampleOffer(s.errs, s.ctl.loop.err, MainFailures(s.traffic.attempts), s.capacity);
    case ReadError => SampleRead(s.errs, MainFailures(s.traffic.attempts), Pending(s.ctl.loop), s.capacity);
    case _ =>
  }

  lemma InvStep(s: State, a: Action)
    requires Inv(s)
    ensures Inv(Step(s, a))
  {
    if Enabled(s, a) {
      FifoStep(s, a);
      LifecycleStep(s, a);
      StrandedStep(s, a);
      SampleStep(s, a);
      hide Fifo, Lifecycle, Stranded, ErrorSample, Apply, Enabled;
    }
  }

  /** Everything below holds in every state any schedule can reach. */
  lemma {:induction false} Invariant(capacity: nat, acts: seq<Action>)
    ensures Inv(Exec(Init(capacity), acts))
    ensures Exec(Init(capacity), acts).capacity == capacity
  {
    if acts != [] {
      Invariant(capacity, acts[..|acts| - 1]);
      InvStep(Exec(Init(capacity), acts[..|acts| - 1]), acts[|acts| - 1]);
      hide Inv;
    }
  }

  // -------------------------------------------------------------- theorems

  /** FIFO and conservation at every step of every schedule. */
  lemma FifoAndConservation(capacity: nat, acts: seq<Action>)
    ensures var s := Exec(Init(capacity), acts); var q := s.traffic;
            && q.accepted == Messages(q.attempts) + InFlight(s.ctl.loop) + q.msgCh
            && q.sent == Successes(q.attempts)
            && |q.accepted| == q.sent + q.failed + |InFlight(s.ctl.loop)| + |q.msgCh|
            && |q.msgCh| <= capacity
  {
    Invariant(capacity, acts);
    MessagesLength(Exec(Init(capacity), acts).traffic.attempts);
  }

  lemma {:induction false} MessagesLength(attempts: seq<Attempt>)
    ensures |Messages(attempts)| == |attempts|
  {
    if attempts != [] {
      MessagesLength(attempts[..|attempts| - 1]);
    }
  }

  /** Once the loop has left through the drain - as it has when Stop has returned after a Start that
      returned first, and the context was not cancelled - what is left in the queue is at most the
      Sends Stop caught past the check. */
  lemma StopStrandsOnlyRacingSends(capacity: nat, acts: seq<Action>)
    requires var c := Exec(Init(capacity), acts).ctl;
             c.loop == Exited(true) || (c.stop.StopReturned? && c.startReturned && !c.cancelled)
    ensures var s := Exec(Init(capacity), acts); var q := s.traffic;
            && |q.accepted| == q.sent + q.failed + |q.msgCh|
            && |q.msgCh| <= s.ctl.caught
            && (s.ctl.caught == 0 ==> q.msgCh == [] && q.sent + q.failed == |q.accepted|)
  {
    Invariant(capacity, acts);
    FifoAndConservation(capacity, acts);
  }

  lemma ExecOne(s: State, acts: seq<Action>, a: Action)
    ensures Exec(s, acts + [a]) == Step(Exec(s, acts), a)
  {
    assert (acts + [a])[..|acts|] == acts;
  }

  /** Stop does not always drain: one Send caught between its check and the channel is accepted
      after the loop has left, and never published. */
  lemma StopCanStrandOneMessage(m: Msg) returns (acts: seq<Action>)
    ensures var s := Exec(Init(1), acts);
            && s.ctl.stop.StopReturned? && s.ctl.startReturned && !s.ctl.cancelled
            && s.traffic.accepted == [m] && s.traffic.msgCh == [m] && s.traffic.sent + s.traffic.failed == 0
  {
    acts := StrandControl(m);
    var s := Exec(Init(1), acts);
    assert Step(s, SendEnqueue(m)).traffic.msgCh == [] + [m];
    ExecOne(Init(1), acts, SendEnqueue(m));
    acts := acts + [SendEnqueue(m)];
  }

  lemma StrandControl(m: Msg) returns (acts: seq<Action>)
    ensures Exec(Init(1), acts)
            == Init(1).(ctl := Control(false, true, false, Exited(true), StopReturned, multiset{m}, 1, 0, true))
  {
    hide Exec;
    acts := StrandSend(m);
    var s := Exec(Init(1), acts);
    acts, s := Extend(1, acts, s, StopClose);
    acts, s := Extend(1, acts, s, LoopStop);
    acts, s := Extend(1, acts, s, DrainDefault);
    acts, s := Extend(1, acts, s, StopReturn);
  }

  lemma StrandSend(m: Msg) returns (acts: seq<Action>)
    ensures Exec(Init(1), acts)
            == Init(1).(ctl := Control(false, false, false, Selecting, StopSwapped, multiset{m}, 1, 0, true))
  {
    acts := [];
    var s := Init(1);
    acts, s := Extend(1, acts, s, StartSwap);
    acts, s := Extend(1, acts, s, StartSpawn);
    acts, s := Extend(1, acts, s, SendCheck(m));
    acts, s := Extend(1, acts, s, StopSwap);
  }

  lemma Extend(capacity: nat, acts: seq<Action>, s: State, a: Action) returns (acts': seq<Action>, s': State)
    requires Exec(Init(capacity), acts) == s
    ensures s' == Step(s, a) && Exec(Init(capacity), acts') == s'
  {
    ExecOne(Init(capacity), acts, a);
    acts', s' := acts + [a], Step(s, a);
  }

  lemma {:induction false} NoNewSends(s: State, acts: seq<Action>)
    requires Lifecycle(s.ctl) && s.ctl.loop == Exited(true)
    requires s.ctl.checked == multiset{} && s.traffic.msgCh == []
    ensures var s' := Exec(s, acts);
            && Lifecycle(s'.ctl) && s'.ctl.loop == Exited(true)
            && s'.ctl.checked == multiset{} && s'.traffic.msgCh == []
  {
    if acts != [] {
      NoNewSends(s, acts[..|acts| - 1]);
      var mid, a := Exec(s, acts[..|acts| - 1]), acts[|acts| - 1];
      if Enabled(mid, a) {
        LifecycleStep(mid, a);
      }
    }
  }

  lemma PendingSendArrives(s: State, m: Msg) returns (more: seq<Action>)
    requires s.capacity >= 1 && m in s.ctl.checked && s.traffic.msgCh == []
    ensures Exec(s, more).traffic.msgCh == [m]
  {
    more := [SendEnqueue(m)];
    ExecOne(s, [], SendEnqueue(m));
    assert [] + more == more;
  }

  /** The exact condition: once the drain has found the queue empty and left, the queue stays
      empty on every continuation if and only if no Send is between its check and the channel. */
  lemma DrainCompleteIffNoSendPending(capacity: nat, acts: seq<Action>)
    requires capacity >= 1
    requires var s := Exec(Init(capacity), acts); s.ctl.loop == Exited(true) && s.traffic.msgCh == []
    ensures var s := Exec(Init(capacity), acts);
            (forall more :: Exec(s, more).traffic.msgCh == []) <==> s.ctl.checked == multiset{}
  {
    Invariant(capacity, acts);
    var s := Exec(Init(capacity), acts);
    if s.ctl.checked == multiset{} {
      forall more ensures Exec(s, more).traffic.msgCh == [] {
        NoNewSends(s, more);
      }
    } else {
      var m :| m in s.ctl.checked;
      hide Exec, Step, Inv;
      var more := PendingSendArrives(s, m);
    }
  }

  // ----------------------------------------------- the drain after Stop ends

  function Rank(p: LoopPhase): nat {
    match p
    case Publishing(_) => 4
    case Launching => 3
    case Reporting(_) => 3
    case Selecting => 2
    case DrainPublishing(_) => 2
    case Draining => 1
    case NotStarted => 0
    case Exited(_) => 0
  }

  /** Remaining work of the loop and the pending Sends. */
  function Measure(s: State): nat { 4 * |s.ctl.checked| + 3 * |s.traffic.msgCh| + Rank(s.ctl.loop) }

  /** A step of the loop, or of a Send that is past its check. */
  predicate IsWork(a: Action) {
    || a.StartSpawn? || a.SendEnqueue? || a.LoopReceive? || a.LoopStop? || a.LoopCancel? || a.LoopReport?
    || a.DrainReceive? || a.DrainDefault? || a.Published?
  }

  /** Once stopCh is closed every such step lowers the measure, whichever ready branch the select
      picks, and nothing else raises it. */
  lemma WorkLowersMeasure(s: State, a: Action)
    requires Lifecycle(s.ctl) && s.ctl.stopClosed && Enabled(s, a)
    ensures Apply(s, a).ctl.stopClosed
    ensures if IsWork(a) then Measure(Apply(s, a)) < Measure(s) else Measure(Apply(s, a)) <= Measure(s)
  {
    if a.SendEnqueue? {
      assert |s.ctl.checked - multiset{a.m}| == |s.ctl.checked| - 1;
    }
  }

  /** How many steps of a schedule were such steps and took effect. */
  function WorkDone(s: State, acts: seq<Action>): nat {
    if acts == [] then 0
    else
      var mid, a := Exec(s, acts[..|acts| - 1]), acts[|acts| - 1];
      WorkDone(s, acts[..|acts| - 1]) + (if IsWork(a) && Enabled(mid, a) then 1 else 0)
  }

  /** No schedule can make the loop and the pending Sends work forever after stopCh is closed. */
  lemma {:induction false} DrainTerminates(s: State, acts: seq<Action>)
    requires Lifecycle(s.ctl) && s.ctl.stopClosed
    ensures Lifecycle(Exec(s, acts).ctl) && Exec(s, acts).ctl.stopClosed
    ensures WorkDone(s, acts) + Measure(Exec(s, acts)) <= Measure(s)
  {
    if acts != [] {
      DrainTerminates(s, acts[..|acts| - 1]);
      var mid, a := Exec(s, acts[..|acts| - 1]), acts[|acts| - 1];
      if Enabled(mid, a) {
        LifecycleStep(mid, a);
        WorkLowersMeasure(mid, a);
      }
      hide Apply, Lifecycle, Measure;
    }
  }

  /** And the loop is never stuck before it has left: some step of its own is ready. */
  lemma LoopAlwaysReady(s: State)
    requires Lifecycle(s.ctl) && s.ctl.stopClosed && !s.ctl.loop.Exited?
    ensures exists a :: IsWork(a) && !a.SendEnqueue? && Enabled(s, a)
  {
    var a := match s.ctl.loop
      case Launching => StartSpawn
      case Selecting => LoopStop
      case Reporting(_) => LoopReport
      case Draining => if s.traffic.msgCh == [] then DrainDefault else DrainReceive
      case _ => Published(Nil);
    assert IsWork(a) && Enabled(s, a);
  }

  /** Together, from any reachable state in which stopCh is closed: whatever is scheduled next, the
      loop and the pending Sends take at most Measure more steps, and until the loop has left one of
      its own steps is ready. */
  lemma DrainAfterStop(capacity: nat, acts: seq<Action>, more: seq<Action>)
    requires Exec(Init(capacity), acts).ctl.stopClosed
    ensures var s := Exec(Init(capacity), acts); var s' := Exec(s, more);
            && WorkDone(s, more) <= Measure(s)
            && (s'.ctl.loop.Exited? || exists a :: IsWork(a) && !a.SendEnqueue? && Enabled(s', a))
  {
    Invariant(capacity, acts);
    var s := Exec(Init(capacity), acts);
    DrainTerminates(s, more);
    if !Exec(s, more).ctl.loop.Exited? {
      LoopAlwaysReady(Exec(s, more));
    }
  }

  // ------------------------------------------- the goroutine's own control flow

  /** The branches of the outer select. */
  datatype Branch = MessageReady | Stopped | ContextDone

  /** What surrounds the loop's k-th turn: what other goroutines do before it, the branch a select
      takes, and what a Publish returns. */
  datatype Surroundings = Surroundings(others: nat -> seq<Action>, pick: nat -> Branch, result: nat -> Error)

  predicate ByOthers(a: Action) {
    || a.StartSwap? || a.SendCheck? || a.SendEnqueue? || a.StopSwap? || a.StopClose? || a.Cancel? || a.ReadError?
  }

  ghost predicate OthersOnly(env: Surroundings) {
    forall k: nat, i :: 0 <= i < |env.others(k)| ==> ByOthers(env.others(k)[i])
  }

  /** The loop's next step by its phase alone; none when the picked branch is not ready (the select
      waits) or the loop has left. */
  function OwnStep(s: State, pick: Branch, result: Error): seq<Action> {
    match s.ctl.loop
    case Selecting =>
      (match pick
       case MessageReady => if s.traffic.msgCh == [] then [] else [LoopReceive]
       case Stopped => if s.ctl.stopClosed then [LoopStop] else []
       case ContextDone => if s.ctl.cancelled then [LoopCancel] else [])
    case Publishing(_) => [Published(result)]
    case Reporting(_) => [LoopReport]
    case Draining => if s.traffic.msgCh == [] then [DrainDefault] else [DrainReceive]
    case DrainPublishing(_) => [Published(result)]
    case _ => []
  }

  /** What the outer select does, by the channels alone: it takes the oldest queued message, goes to the
      drain once stopCh is closed, leaves once the context is cancelled, and waits only when the branch
      picked is not ready. */
  lemma SelectTakesReadyBranch(s: State, pick: Branch, result: Error)
    requires s.ctl.loop.Selecting?
    ensures var own := OwnStep(s, pick, result);
            match pick
            case MessageReady =>
              if s.traffic.msgCh == [] then own == []
              else
                && |own| == 1 && Step(s, own[0]).ctl.loop == Publishing(s.traffic.msgCh[0])
                && Step(s, own[0]).traffic.msgCh == s.traffic.msgCh[1..]
            case Stopped =>
              if !s.ctl.stopClosed then own == []
              else |own| == 1 && Step(s, own[0]) == s.(ctl := s.ctl.(loop := Draining))
            case ContextDone =>
              if !s.ctl.cancelled then own == []
              else |own| == 1 && Step(s, own[0]) == s.(ctl := s.ctl.(loop := Exited(false)))
  {
  }

  /** And what the drain's select does: the oldest queued message, or out when there is none. */
  lemma DrainTakesQueueThenLeaves(s: State, pick: Branch, result: Error)
    requires s.ctl.loop.Draining?
    ensures var own := OwnStep(s, pick, result);
            && |own| == 1
            && Step(s, own[0]).ctl.loop
               == (if s.traffic.msgCh == [] then Exited(true) else DrainPublishing(s.traffic.msgCh[0]))
            && Step(s, own[0]).traffic.msgCh == (if s.traffic.msgCh == [] then [] else s.traffic.msgCh[1..])
  {
  }

  /** The schedule before the own step of turn n. */
  function BeforeTurn(capacity: nat, start: seq<Action>, env: Surroundings, n: nat): seq<Action>
    decreases n, 1
  {
    Turns(capacity, start, env, n) + env.others(n)
  }

  /** The schedule `start` extended by n turns of the loop. */
  function Turns(capacity: nat, start: seq<Action>, env: Surroundings, n: nat): seq<Action>
    decreases n, 0
  {
    if n == 0 then start
    else
      var before := BeforeTurn(capacity, start, env, n - 1);
      before + OwnStep(Exec(Init(capacity), before), env.pick(n - 1), env.result(n - 1))
  }

  lemma NoTurns(capacity: nat, start: seq<Action>, env: Surroundings)
    ensures Turns(capacity, start, env, 0) == start
  {
  }

  lemma TurnTaken(capacity: nat, start: seq<Action>, env: Surroundings, n: nat, own: seq<Action>)
    requires own == OwnStep(Exec(Init(capacity), BeforeTurn(capacity, start, env, n)), env.pick(n), env.result(n))
    ensures Turns(capacity, start, env, n + 1) == BeforeTurn(capacity, start, env, n) + own
    ensures own == [] ==> Turns(capacity, start, env, n + 1) == BeforeTurn(capacity, start, env, n)
  {
    var before := BeforeTurn(capacity, start, env, n);
    assert before + [] == before;
  }

  /** No select waits while one of its branches is ready. After Stop its stop branch always is. */
  ghost predicate PicksReady(capacity: nat, start: seq<Action>, env: Surroundings) {
    forall n: nat ::
      var s := Exec(Init(capacity), BeforeTurn(capacity, start, env, n));
      s.ctl.loop.Selecting? ==> OwnStep(s, env.pick(n), env.result(n)) != []
  }

  lemma {:induction false} ExecMore(s: State, acts: seq<Action>, more: seq<Action>)
    ensures Exec(s, acts + more) == Exec(Exec(s, acts), more)
  {
    if more == [] {
      assert acts + more == acts;
    } else {
      var init := more[..|more| - 1];
      ExecMore(s, acts, init);
      assert (acts + more)[..|acts + more| - 1] == acts + init;
    }
  }

  lemma {:induction false} StaysClosed(s: State, acts: seq<Action>)
    requires s.ctl.stopClosed
    ensures Exec(s, acts).ctl.stopClosed
  {
    if acts != [] {
      StaysClosed(s, acts[..|acts| - 1]);
    }
  }

  lemma {:induction false} TurnsExtend(capacity: nat, start: seq<Action>, env: Surroundings, n: nat)
    ensures start <= BeforeTurn(capacity, start, env, n)
  {
    if n > 0 {
      TurnsExtend(capacity, start, env, n - 1);
    }
  }

  /** Once stopCh is closed, taking the stop branch every time is one way never to wait. */
  lemma StopBranchAlwaysReady(capacity: nat, start: seq<Action>, env: Surroundings)
    requires Exec(Init(capacity), start).ctl.stopClosed && forall n: nat :: env.pick(n).Stopped?
    ensures PicksReady(capacity, start, env)
  {
    forall n: nat ensures Exec(Init(capacity), BeforeTurn(capacity, start, env, n)).ctl.stopClosed {
      var before := BeforeTurn(capacity, start, env, n);
      TurnsExtend(capacity, start, env, n);
      assert before == start + before[|start|..];
      ExecMore(Init(capacity), start, before[|start|..]);
      StaysClosed(Exec(Init(capacity), start), before[|start|..]);
    }
  }

  /** The loop has been entered. */
  predicate Entered(p: LoopPhase) { !p.NotStarted? && !p.Launching? }

  lemma OtherLeavesLoop(s: State, a: Action)
    requires Entered(s.ctl.loop) && ByOthers(a)
    ensures Step(s, a).ctl.loop == s.ctl.loop
  {
  }

  lemma {:induction false} OthersLeaveLoop(s: State, acts: seq<Action>)
    requires Entered(s.ctl.loop) && forall i :: 0 <= i < |acts| ==> ByOthers(acts[i])
    ensures Exec(s, acts).ctl.loop == s.ctl.loop
  {
    hide Step, ByOthers, Entered;
    if acts != [] {
      OthersLeaveLoop(s, acts[..|acts| - 1]);
      OtherLeavesLoop(Exec(s, acts[..|acts| - 1]), acts[|acts| - 1]);
    }
  }

  lemma OwnStepWorks(s: State, pick: Branch, result: Error)
    requires Lifecycle(s.ctl) && s.ctl.stopClosed && Entered(s.ctl.loop)
    requires OwnStep(s, pick, result) != []
    ensures var own := OwnStep(s, pick, result);
            |own| == 1 && Enabled(s, own[0]) && IsWork(own[0]) && Entered(Step(s, own[0]).ctl.loop)
  {
  }

  /** One turn after stopCh is closed: the remaining work shrinks, or the loop has left for good. */
  lemma TurnLowersMeasure(capacity: nat, start: seq<Action>, env: Surroundings, n: nat)
    requires OthersOnly(env) && PicksReady(capacity, start, env)
    requires var s := Exec(Init(capacity), Turns(capacity, start, env, n)); Entered(s.ctl.loop) && s.ctl.stopClosed
    ensures var s := Exec(Init(capacity), Turns(capacity, start, env, n));
            var s' := Exec(Init(capacity), Turns(capacity, start, env, n + 1));
            && Entered(s'.ctl.loop) && s'.ctl.stopClosed
            && if s.ctl.loop.Exited? then s'.ctl.loop == s.ctl.loop else Measure(s') < Measure(s)
  {
    var turns, before := Turns(capacity, start, env, n), BeforeTurn(capacity, start, env, n);
    var s, mid := Exec(Init(capacity), turns), Exec(Init(capacity), before);
    Invariant(capacity, turns);
    ExecMore(Init(capacity), turns, env.others(n));
    OthersLeaveLoop(s, env.others(n));
    DrainTerminates(s, env.others(n));
    var own := OwnStep(mid, env.pick(n), env.result(n));
    if own == [] {
      assert before + own == before;
    } else {
      OwnStepWorks(mid, env.pick(n), env.result(n));
      WorkLowersMeasure(mid, own[0]);
      ExecOne(Init(capacity), before, own[0]);
      assert own == [own[0]];
    }
    hide Exec, OwnStep, Enabled, Step, Lifecycle, Measure, IsWork, Inv;
  }

  /** So the goroutine leaves: once stopCh is closed, within Measure of its own turns, whatever other
      goroutines do between them, whichever ready branch each select takes and whatever Publish returns. */
  lemma {:induction false} LoopLeavesAfterStop(capacity: nat, start: seq<Action>, env: Surroundings, n: nat)
    requires OthersOnly(env) && PicksReady(capacity, start, env)
    requires var s := Exec(Init(capacity), start); Entered(s.ctl.loop) && s.ctl.stopClosed
    ensures var s := Exec(Init(capacity), start); var s' := Exec(Init(capacity), Turns(capacity, start, env, n));
            && Entered(s'.ctl.loop) && s'.ctl.stopClosed
            && (s'.ctl.loop.Exited? || n + Measure(s') <= Measure(s))
            && (n >= Measure(s) ==> s'.ctl.loop.Exited?)
  {
    hide PicksReady, OthersOnly, Exec, BeforeTurn;
    if n == 0 {
      NoTurns(capacity, start, env);
    } else {
      hide Turns;
      LoopLeavesAfterStop(capacity, start, env, n - 1);
      TurnLowersMeasure(capacity, start, env, n - 1);
    }
  }

  // ---------------------------------------------- when Stop keeps its promise

  /** On every continuation on which Stop has returned, nothing is left in the queue; unless
      `cancellable`, only continuations that do not cancel the context count. */
  ghost predicate DrainsAlways(s: State, cancellable: bool) {
    forall more :: (cancellable || Cancel !in more) && Exec(s, more).ctl.stop.StopReturned? ==>
      Exec(s, more).traffic.msgCh == []
  }

  /** Exactly when `Stop` drains, read off at the moment it clears the flag: no Send is past its check,
      and if the context is cancelled (or can still be), or Start has not returned yet, nothing is
      queued either. */
  lemma StopDrainsIff(capacity: nat, acts: seq<Action>, cancellable: bool)
    requires capacity >= 1 && Exec(Init(capacity), acts).ctl.running
    ensures var s := Exec(Init(capacity), acts);
            DrainsAlways(Step(s, StopSwap), cancellable)
            <==> s.ctl.checked == multiset{}
                 && (cancellable || s.ctl.cancelled || s.ctl.loop.Launching? ==> s.traffic.msgCh == [])
  {
    Invariant(capacity, acts);
    var s := Exec(Init(capacity), acts);
    var s1 := Step(s, StopSwap);
    InvStep(s, StopSwap);
    ExecOne(Init(capacity), acts, StopSwap);
    if s.ctl.checked != multiset{} {
      CaughtSendStrands(s1);
    } else if s.traffic.msgCh != [] && s.ctl.loop.Launching? {
      var more := StopUncounted(s1);
    } else if s.traffic.msgCh != [] && (cancellable || s.ctl.cancelled) {
      var more := CancelStrands(s1);
    } else {
      forall more | (cancellable || Cancel !in more) && Exec(s1, more).ctl.stop.StopReturned?
        ensures Exec(s1, more).traffic.msgCh == []
      {
        if s.traffic.msgCh == [] {
          NothingArrives(s1, more);
        } else {
          StaysUncancelled(s1, more);
          ExecMore(Init(capacity), acts + [StopSwap], more);
          StopStrandsOnlyRacingSends(capacity, acts + [StopSwap] + more);
        }
      }
    }
  }

  /** Stop has cleared the flag and not closed stopCh yet. */
  ghost predicate Stopping(s: State) {
    Lifecycle(s.ctl) && s.ctl.stop.StopSwapped? && !s.ctl.loop.NotStarted? && s.capacity >= 1
  }

  lemma {:induction false} NothingArrives(s: State, more: seq<Action>)
    requires Stopping(s) && s.ctl.checked == multiset{} && s.traffic.msgCh == []
    ensures var s' := Exec(s, more);
            && Lifecycle(s'.ctl) && !s'.ctl.stop.StopIdle? && !s'.ctl.loop.NotStarted?
            && s'.ctl.checked == multiset{} && s'.traffic.msgCh == []
  {
    if more != [] {
      NothingArrives(s, more[..|more| - 1]);
      var mid, a := Exec(s, more[..|more| - 1]), more[|more| - 1];
      if Enabled(mid, a) {
        LifecycleStep(mid, a);
      }
    }
  }

  lemma {:induction false} StaysUncancelled(s: State, more: seq<Action>)
    requires Stopping(s) && !s.ctl.cancelled && Cancel !in more
    ensures var c := Exec(s, more).ctl;
            && Lifecycle(c) && !c.running && !c.stop.StopIdle? && !c.loop.NotStarted?
            && !c.cancelled && c.caught == s.ctl.caught && c.startReturned == s.ctl.startReturned
  {
    if more != [] {
      StaysUncancelled(s, more[..|more| - 1]);
      var mid, a := Exec(s, more[..|more| - 1]), more[|more| - 1];
      assert a in more;
      if Enabled(mid, a) {
        LifecycleStep(mid, a);
      }
    }
  }

  /** Once stopCh is closed, the loop can leave without anybody else moving. */
  lemma {:induction false} LoopCanLeave(s: State) returns (more: seq<Action>)
    requires Lifecycle(s.ctl) && s.ctl.stopClosed && Entered(s.ctl.loop)
    ensures Cancel !in more
    ensures var s' := Exec(s, more);
            && s'.ctl.loop.Exited? && s'.ctl.checked == s.ctl.checked && s'.ctl.stop == s.ctl.stop
            && s'.capacity == s.capacity
    decreases Measure(s)
  {
    if s.ctl.loop.Exited? {
      more := [];
    } else {
      OwnStepWorks(s, Stopped, Nil);
      var a := OwnStep(s, Stopped, Nil)[0];
      LifecycleStep(s, a);
      WorkLowersMeasure(s, a);
      var rest := LoopCanLeave(Step(s, a));
      ExecOne(s, [], a);
      ExecMore(s, [] + [a], rest);
      more := [a] + rest;
      assert [] + [a] + rest == more;
    }
  }

  lemma CloseHappens(s: State)
    requires s.ctl.stop.StopSwapped?
    ensures Enabled(s, StopClose)
    ensures Step(s, StopClose) == s.(ctl := s.ctl.(stopClosed := true, stop := StopWaiting))
  {
  }

  lemma CaughtSendArrives(s: State, m: Msg)
    requires s.ctl.stop.StopWaiting? && (s.ctl.loop.Launching? || s.ctl.loop.Exited?)
    requires m in s.ctl.checked && s.capacity >= 1
    ensures var s' := Step(Step(s, StopReturn), SendEnqueue(m)); s'.ctl.stop.StopReturned? && s'.traffic.msgCh != []
  {
    assert Step(s, StopReturn) == s.(ctl := s.ctl.(stop := StopReturned));
  }

  lemma CaughtSendStrands(s: State)
    requires Stopping(s) && s.ctl.checked != multiset{}
    ensures exists more :: Cancel !in more && Exec(s, more).ctl.stop.StopReturned? && Exec(s, more).traffic.msgCh != []
  {
    hide Exec, Step, Enabled, Apply, Lifecycle;
    var m :| m in s.ctl.checked;
    CloseHappens(s);
    var more, s' := NoActions(s);
    more, s' := Then(s, more, s, StopClose);
    if Entered(s.ctl.loop) {
      StepKeepsLifecycle(s, StopClose);
      var rest := LoopCanLeave(s');
      ExecMore(s, more, rest);
      more, s' := more + rest, Exec(s', rest);
    }
    CaughtSendArrives(s', m);
    more, s' := Then(s, more, s', StopReturn);
    more, s' := Then(s, more, s', SendEnqueue(m));
    assert Exec(s, more).traffic.msgCh != [];
  }

  lemma StepKeepsLifecycle(s: State, a: Action)
    requires Lifecycle(s.ctl)
    ensures Lifecycle(Step(s, a).ctl)
  {
    if Enabled(s, a) {
      LifecycleStep(s, a);
    }
  }

  lemma NoActions(s: State) returns (acts: seq<Action>, s': State)
    ensures acts == [] && s' == s && Exec(s, acts) == s
  {
    acts, s' := [], s;
  }

  lemma UncountedStops(s: State)
    requires s.ctl.stop.StopWaiting? && s.ctl.loop.Launching?
    ensures Step(s, StopReturn).ctl.stop.StopReturned? && Step(s, StopReturn).traffic == s.traffic
  {
  }

  lemma StopUncounted(s: State) returns (more: seq<Action>)
    requires Stopping(s) && s.ctl.loop.Launching?
    ensures Cancel !in more
    ensures Exec(s, more).ctl.stop.StopReturned? && Exec(s, more).traffic.msgCh == s.traffic.msgCh
  {
    hide Exec, Step;
    CloseHappens(s);
    var s';
    more, s' := NoActions(s);
    more, s' := Then(s, more, s', StopClose);
    UncountedStops(s');
    more, s' := Then(s, more, s', StopReturn);
  }

  /** The loop finishes what it has in hand and is back at its select, or has left. */
  lemma LoopReselects(s: State) returns (more: seq<Action>)
    requires Stopping(s) && Entered(s.ctl.loop)
    ensures Cancel !in more
    ensures var s' := Exec(s, more);
            && (s'.ctl.loop.Selecting? || s'.ctl.loop.Exited?) && s'.ctl.stop.StopSwapped?
            && s'.traffic.msgCh == s.traffic.msgCh && s'.ctl.cancelled == s.ctl.cancelled
  {
    var s' := s;
    more := [];
    if s.ctl.loop.Publishing? {
      more, s' := Then(s, more, s', Published(Nil));
    } else if s.ctl.loop.Reporting? {
      more, s' := Then(s, more, s', LoopReport);
    }
  }

  lemma CancelledLoopStops(s: State)
    requires (s.ctl.loop.Selecting? && s.ctl.cancelled) || s.ctl.loop.Exited?
    requires s.ctl.stop.StopSwapped?
    ensures var s' := Step(Step(Step(s, LoopCancel), StopClose), StopReturn);
            s'.ctl.stop.StopReturned? && s'.traffic == s.traffic
  {
    assert Step(s, LoopCancel).ctl.loop.Exited?;
  }

  lemma CancelHappens(s: State)
    ensures Step(s, Cancel) == s.(ctl := s.ctl.(cancelled := true))
  {
  }

  /** A cancelled context lets the loop leave with everything still queued. */
  lemma CancelStrands(s: State) returns (more: seq<Action>)
    requires Stopping(s) && Entered(s.ctl.loop)
    ensures s.ctl.cancelled ==> Cancel !in more
    ensures Exec(s, more).ctl.stop.StopReturned? && Exec(s, more).traffic.msgCh == s.traffic.msgCh
  {
    hide Stopping, Exec, Step;
    more := LoopReselects(s);
    var s' := Exec(s, more);
    if !s.ctl.cancelled {
      CancelHappens(s');
      more, s' := Then(s, more, s', Cancel);
    }
    CancelledLoopStops(s');
    more, s' := Then(s, more, s', LoopCancel);
    more, s' := Then(s, more, s', StopClose);
    more, s' := Then(s, more, s', StopReturn);
  }

  lemma Then(s0: State, acts: seq<Action>, s: State, a: Action) returns (acts': seq<Action>, s': State)
    requires Exec(s0, acts) == s
    ensures s' == Step(s, a) && acts' == acts + [a] && Exec(s0, acts') == s'
  {
    ExecOne(s0, acts, a);
    acts', s' := acts + [a], Step(s, a);
  }

  /** A cancelled context strands what is queued although Stop caught no Send at all. */
  lemma CancelledContextStrandsQueue(m: Msg) returns (acts: seq<Action>)
    ensures var s := Exec(Init(1), acts);
            && s.ctl.stop.StopReturned? && s.ctl.startReturned && s.ctl.caught == 0 && s.ctl.checked == multiset{}
            && s.traffic.accepted == [m] && s.traffic.msgCh == [m] && s.traffic.sent + s.traffic.failed == 0
  {
    hide Exec;
    var s;
    acts, s := CancelledQueue(m);
    acts, s := Extend(1, acts, s, StopSwap);
    acts, s := Extend(1, acts, s, StopClose);
    acts, s := Extend(1, acts, s, StopReturn);
  }

  lemma CancelledQueue(m: Msg) returns (acts: seq<Action>, s: State)
    ensures s == Exec(Init(1), acts)
    ensures s == Init(1).(ctl := Control(true, false, true, Exited(false), StopIdle, multiset{}, 0, 0, false),
                          traffic := Traffic([m], 0, 0, [m], []))
  {
    hide Exec;
    acts, s := OneQueued(m);
    acts, s := Extend(1, acts, s, Cancel);
    acts, s := Extend(1, acts, s, LoopCancel);
  }

  lemma OneQueued(m: Msg) returns (acts: seq<Action>, s: State)
    ensures s == Exec(Init(1), acts)
    ensures s == Init(1).(ctl := Control(true, false, false, Selecting, StopIdle, multiset{}, 0, 0, false),
                          traffic := Traffic([m], 0, 0, [m], []))
  {
    acts, s := [], Init(1);
    acts, s := Extend(1, acts, s, StartSwap);
    acts, s := Extend(1, acts, s, StartSpawn);
    acts, s := Extend(1, acts, s, SendCheck(m));
    acts, s := Extend(1, acts, s, SendEnqueue(m));
    assert s.traffic.msgCh == [m] && s.traffic.accepted == [m];
  }

  // ----------------------------------------------------- the error channel

  /** Errors read and errors still buffered are an in-order sample of the outer loop's failures, and
      with the dropped ones they are all of them; up to `capacity` failures none is lost, and with no
      reader the first `capacity` are kept. */
  lemma ErrorChannelIsHonestSample(capacity: nat, acts: seq<Action>)
    ensures var s := Exec(Init(capacity), acts); var e := s.errs;
            && MainFailures(s.traffic.attempts) == e.offered + Pending(s.ctl.loop)
            && IsSubsequence(e.read + e.buffer, e.offered)
            && |e.read| + |e.buffer| + e.dropped == |e.offered|
            && |e.buffer| <= capacity
            && (|e.offered| <= capacity ==> e.read + e.buffer == e.offered)
            && (e.read == [] ==> e.buffer == e.offered[..Min(|e.offered|, capacity)])
  {
    Invariant(capacity, acts);
    var e := Exec(Init(capacity), acts).errs;
    if |e.offered| <= capacity {
      FullSubsequence(e.read + e.buffer, e.offered);
    }
  }

  /** The error an action puts to the channel, if any. */
  function OfferedBy(s: State, a: Action): seq<Error> {
    if a.LoopReport? && s.ctl.loop.Reporting? then [s.ctl.loop.err] else []
  }

  lemma DropStep(s: State, a: Action)
    requires |s.errs.buffer| <= s.capacity
    ensures var e, e', news := s.errs, Step(s, a).errs, OfferedBy(s, a);
            && e'.offered == e.offered + news
            && (e'.dropped != e.dropped <==> news != [] && |e.buffer| == s.capacity)
            && e'.read + e'.buffer == e.read + e.buffer + (if e'.dropped != e.dropped then [] else news)
  {
    if a.LoopReport? && Enabled(s, a) {
    } else if a.ReadError? && Enabled(s, a) {
      assert s.errs.buffer == [s.errs.buffer[0]] + s.errs.buffer[1..];
    } else {
      assert Step(s, a).errs == s.errs;
    }
  }

  /** At every moment of every run: the next action drops an error exactly when it offers one and the
      channel is full, and everything else it offers is kept. */
  lemma ErrorDroppedIffChannelFull(capacity: nat, acts: seq<Action>, a: Action)
    ensures var s := Exec(Init(capacity), acts);
            var e, e', news := s.errs, Exec(Init(capacity), acts + [a]).errs, OfferedBy(s, a);
            && e'.offered == e.offered + news
            && (e'.dropped != e.dropped <==> news != [] && |e.buffer| == capacity)
            && e'.read + e'.buffer == e.read + e.buffer + (if e'.dropped != e.dropped then [] else news)
  {
    hide Step, Fifo, Lifecycle, Stranded, IsSubsequence;
    Invariant(capacity, acts);
    ExecOne(Init(capacity), acts, a);
    DropStep(Exec(Init(capacity), acts), a);
  }

  lemma {:induction false} SubsequenceShorter<T>(a: seq<T>, b: seq<T>)
    requires IsSubsequence(a, b)
    ensures |a| <= |b|
  {
    if a != [] && b != [] {
      if IsSubsequence(a, b[..|b| - 1]) {
        SubsequenceShorter(a, b[..|b| - 1]);
      } else {
        SubsequenceShorter(a[..|a| - 1], b[..|b| - 1]);
      }
    }
  }

  lemma {:induction false} FullSubsequence<T>(a: seq<T>, b: seq<T>)
    requires IsSubsequence(a, b) && |a| == |b|
    ensures a == b
  {
    if a != [] {
      if IsSubsequence(a, b[..|b| - 1]) {
        SubsequenceShorter(a, b[..|b| - 1]);
      } else {
        FullSubsequence(a[..|a| - 1], b[..|b| - 1]);
      }
    }
  }
}
