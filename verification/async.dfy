/** The `AsyncProducer` object (pkg/producer/producer.go:229-354). Each method body works on the
    fields as the source does, and is proved to be one step of AsyncModel; `Valid` says the object
    is in a state some schedule of that machine reaches, so the machine's theorems hold of it. */
module AsyncProducers {
  import opened Errors
  import opened AsyncModel

  class AsyncProducer {
    const bufferSize: nat
    var running: bool
    var stopClosed: bool
    var contextDone: bool
    var msgCh: seq<Msg>
    var errCh: seq<Error>
    var sent: nat
    var failed: nat
    /** Where the callers are: Sends past their check, and how far Stop has got. */
    var pendingSends: multiset<Msg>
    var stopper: StopPhase
    ghost var model: State
    ghost var schedule: seq<Action>

    ghost predicate Valid()
      reads this
    {
      && bufferSize >= 1
      && model == Exec(Init(bufferSize), schedule)
      && model.capacity == bufferSize
      && running == model.ctl.running && stopClosed == model.ctl.stopClosed && contextDone == model.ctl.cancelled
      && msgCh == model.traffic.msgCh && sent == model.traffic.sent && failed == model.traffic.failed
      && errCh == model.errs.buffer
      && pendingSends == model.ctl.checked && stopper == model.ctl.stop
    }

    constructor (bufferSize: int)
      ensures Valid() && model == Init(ClampBuffer(bufferSize)) && schedule == []
    {
      this.bufferSize := ClampBuffer(bufferSize);
      running, stopClosed, contextDone := false, false, false;
      msgCh, errCh, sent, failed := [], [], 0, 0;
      pendingSends, stopper := multiset{}, StopIdle;
      model, schedule := Init(ClampBuffer(bufferSize)), [];
    }

    ghost method Record(a: Action)
      requires model == Exec(Init(bufferSize), schedule)
      modifies this`model, this`schedule
      ensures model == Step(old(model), a) && schedule == old(schedule) + [a]
      ensures model == Exec(Init(bufferSize), schedule)
    {
      ExecOne(Init(bufferSize), schedule, a);
      model, schedule := Step(model, a), schedule + [a];
    }

    /** `Start`: the swap, then the goroutine. */
    method StartSwapStep() returns (first: bool)
      requires Valid() && Enabled(model, StartSwap)
      modifies this
      ensures Valid() && schedule == old(schedule) + [StartSwap]
      ensures first == !old(running) && running && stopClosed == old(stopClosed)
      ensures model.ctl.loop == if first then Launching else old(model.ctl.loop)
    {
      first := !running;
      running := true;
      Record(StartSwap);
    }

    /** `Start` undisturbed: only the caller that flips the flag launches the goroutine. */
    method Start()
      requires Valid() && (running || model.ctl.loop.NotStarted?)
      modifies this
      ensures Valid() && running
      ensures schedule == old(schedule) + if old(running) then [StartSwap] else [StartSwap, StartSpawn]
      ensures model.ctl.loop == if old(running) then old(model.ctl.loop) else Selecting
    {
      var first := StartSwapStep();
      if first {
        Record(StartSpawn);
      }
    }

    /** The check at the head of `Send`. */
    method CheckRunning(m: Msg) returns (ok: bool)
      requires Valid()
      modifies this`pendingSends, this`model, this`schedule
      ensures Valid() && schedule == old(schedule) + [SendCheck(m)]
      ensures model.ctl.loop == old(model.ctl.loop) && stopClosed == old(stopClosed)
      ensures ok == running && (ok ==> m in pendingSends)
    {
      ok := running;
      if ok {
        pendingSends := pendingSends + multiset{m};
      }
      Record(SendCheck(m));
    }

    /** The non-blocking channel send of `Send`. */
    method TryEnqueue(m: Msg) returns (accepted: bool)
      requires Valid() && m in pendingSends
      modifies this
      ensures Valid() && schedule == old(schedule) + [SendEnqueue(m)]
      ensures model.ctl.loop == old(model.ctl.loop) && stopClosed == old(stopClosed)
      ensures accepted == (|old(msgCh)| < bufferSize)
      ensures msgCh == if accepted then old(msgCh) + [m] else old(msgCh)
    {
      pendingSends := pendingSends - multiset{m};
      accepted := |msgCh| < bufferSize;
      if accepted {
        msgCh := msgCh + [m];
      }
      Record(SendEnqueue(m));
    }

    /** An undisturbed `Send`. */
    method Send(m: Msg) returns (ok: bool)
      requires Valid()
      modifies this
      ensures Valid()
      ensures ok == (old(running) && |old(msgCh)| < bufferSize)
      ensures msgCh == if ok then old(msgCh) + [m] else old(msgCh)
      ensures sent == old(sent) && failed == old(failed) && errCh == old(errCh)
    {
      ok := CheckRunning(m);
      if ok {
        ok := TryEnqueue(m);
      }
    }

    method StopSwapStep() returns (first: bool)
      requires Valid()
      modifies this
      ensures Valid() && schedule == old(schedule) + [StopSwap]
      ensures model.ctl.loop == old(model.ctl.loop) && stopClosed == old(stopClosed)
      ensures first == old(running) && !running
    {
      first := running;
      running := false;
      if first {
        stopper := StopSwapped;
      }
      Record(StopSwap);
    }

    method CloseStopCh()
      requires Valid() && stopper.StopSwapped?
      modifies this
      ensures Valid() && schedule == old(schedule) + [StopClose] && stopClosed
      ensures model.ctl.loop == old(model.ctl.loop)
    {
      stopClosed := true;
      stopper := StopWaiting;
      Record(StopClose);
    }

    /** `wg.Wait` in `Stop` returns once the goroutine is done, or at once when Start has not counted it
        yet. */
    method FinishStop()
      requires Valid() && Enabled(model, StopReturn)
      modifies this
      ensures Valid() && schedule == old(schedule) + [StopReturn] && stopper.StopReturned?
      ensures msgCh == old(msgCh) && sent == old(sent) && failed == old(failed)
    {
      stopper := StopReturned;
      Record(StopReturn);
    }

    method CancelContext()
      requires Valid()
      modifies this
      ensures Valid() && schedule == old(schedule) + [Cancel] && contextDone
      ensures model.ctl.loop == old(model.ctl.loop) && stopClosed == old(stopClosed)
    {
      contextDone := true;
      Record(Cancel);
    }

    method ReadErrors() returns (err: Error)
      requires Valid() && errCh != []
      modifies this
      ensures Valid() && schedule == old(schedule) + [ReadError]
      ensures model.ctl.loop == old(model.ctl.loop) && stopClosed == old(stopClosed)
      ensures old(errCh) == [err] + errCh
    {
      hide Exec, Init;
      err := errCh[0];
      errCh := errCh[1..];
      Record(ReadError);
    }

    // ------------------------------------------------- steps of the goroutine

    /** Receive from msgCh in either select. */
    method Receive() returns (m: Msg)
      requires Valid() && msgCh != [] && (model.ctl.loop.Selecting? || model.ctl.loop.Draining?)
      modifies this
      ensures Valid()
      ensures schedule == old(schedule) + [if old(model.ctl.loop.Selecting?) then LoopReceive else DrainReceive]
      ensures old(msgCh) == [m] + msgCh
      ensures stopClosed == old(stopClosed)
      ensures model.ctl.loop == if old(model.ctl.loop.Selecting?) then Publishing(m) else DrainPublishing(m)
    {
      m := msgCh[0];
      msgCh := msgCh[1..];
      Record(if model.ctl.loop.Selecting? then LoopReceive else DrainReceive);
    }

    /** Publish has returned `err`: count it. */
    method CountResult(err: Error)
      requires Valid() && (model.ctl.loop.Publishing? || model.ctl.loop.DrainPublishing?)
      modifies this
      ensures Valid() && schedule == old(schedule) + [Published(err)]
      ensures stopClosed == old(stopClosed)
      ensures model.ctl.loop == if old(model.ctl.loop.DrainPublishing?) then Draining
                                else if err.Nil? then Selecting else Reporting(err)
      ensures sent + failed == old(sent) + old(failed) + 1 && (sent > old(sent) <==> err.Nil?)
    {
      if !err.Nil? {
        failed := failed + 1;
      } else {
        sent := sent + 1;
      }
      Record(Published(err));
    }

    /** Offer the error to errCh without blocking. */
    method Report(err: Error)
      requires Valid() && model.ctl.loop == Reporting(err)
      modifies this
      ensures Valid() && schedule == old(schedule) + [LoopReport] && model.ctl.loop.Selecting?
      ensures errCh == if |old(errCh)| < bufferSize then old(errCh) + [err] else old(errCh)
    {
      if |errCh| < bufferSize {
        errCh := errCh + [err];
      }
      Record(LoopReport);
    }

    /** A move of the loop that touches no field. */
    ghost method LoopMove(a: Action)
      requires Valid() && (a.LoopStop? || a.LoopCancel? || a.DrainDefault?)
      requires if a.DrainDefault? then model.ctl.loop.Draining? && msgCh == []
               else model.ctl.loop.Selecting? && (if a.LoopStop? then stopClosed else contextDone)
      modifies this`model, this`schedule
      ensures Valid() && schedule == old(schedule) + [a]
      ensures model.ctl.loop == if a.LoopStop? then Draining else Exited(a.DrainDefault?)
    {
      Record(a);
    }

    /** Whether another goroutine's next step can take effect, by the fields. */
    predicate Able(a: Action)
      reads this
    {
      match a
      case StartSwap => running
      case SendEnqueue(m) => m in pendingSends
      case StopClose => stopper.StopSwapped?
      case ReadError => errCh != []
      case _ => true
    }

    lemma AbleIsEnabled(a: Action)
      requires Valid() && ByOthers(a) && Entered(model.ctl.loop)
      ensures Able(a) <==> Enabled(model, a)
    {
    }

    /** A step that cannot be taken now. */
    ghost method Skip(a: Action)
      requires Valid() && ByOthers(a) && Entered(model.ctl.loop) && !Able(a)
      modifies this`model, this`schedule
      ensures Valid() && schedule == old(schedule) + [a] && model == old(model)
    {
      AbleIsEnabled(a);
      Record(a);
    }

    /** What the other goroutines do while the loop is between two of its steps: exactly these actions,
        in this order. */
    method Interfere(acts: seq<Action>)
      requires Valid() && Entered(model.ctl.loop) && forall i :: 0 <= i < |acts| ==> ByOthers(acts[i])
      modifies this
      ensures Valid() && schedule == old(schedule) + acts && model.ctl.loop == old(model.ctl.loop)
      ensures old(stopClosed) ==> stopClosed
    {
      hide Valid;
      for i := 0 to |acts|
        invariant Valid() && schedule == old(schedule) + acts[..i] && model.ctl.loop == old(model.ctl.loop)
        invariant old(stopClosed) ==> stopClosed
      {
        assert acts[..i + 1] == acts[..i] + [acts[i]];
        Other(acts[i]);
      }
      assert acts[..|acts|] == acts;
    }

    /** One step of another goroutine. */
    method Other(a: Action)
      requires Valid() && Entered(model.ctl.loop) && ByOthers(a)
      modifies this
      ensures Valid() && schedule == old(schedule) + [a] && model.ctl.loop == old(model.ctl.loop)
      ensures old(stopClosed) ==> stopClosed
    {
      hide Valid, Enabled;
      AbleIsEnabled(a);
      if !Able(a) {
        Skip(a);
        return;
      }
      match a {
        case StartSwap =>
          var _ := StartSwapStep();
        case SendCheck(m) =>
          var _ := CheckRunning(m);
        case SendEnqueue(m) =>
          var _ := TryEnqueue(m);
        case StopSwap =>
          var _ := StopSwapStep();
        case StopClose => CloseStopCh();
        case Cancel => CancelContext();
        case ReadError =>
          var _ := ReadErrors();
      }
    }

    /** Turn n begins: other goroutines go first. */
    method BeginTurn(env: Surroundings, ghost start: seq<Action>, n: nat)
      requires Valid() && Entered(model.ctl.loop) && OthersOnly(env)
      requires schedule == Turns(bufferSize, start, env, n)
      modifies this
      ensures Valid() && schedule == BeforeTurn(bufferSize, start, env, n)
      ensures model == Exec(Init(bufferSize), BeforeTurn(bufferSize, start, env, n))
      ensures model.ctl.loop == old(model.ctl.loop) && (old(stopClosed) ==> stopClosed)
      ensures msgCh == model.traffic.msgCh && stopClosed == model.ctl.stopClosed && contextDone == model.ctl.cancelled
    {
      Interfere(env.others(n));
    }

    /** `sendLoop`: the outer select, and on stop the drain with its own select, watched for `steps` turns
        or until it leaves; `env` is what happens around it. The nested loops take exactly the turns the
        loop's phase dictates. So once stopCh is closed and `steps` is at least the machine's measure, the
        goroutine has left. */
    method SendLoop(env: Surroundings, steps: nat) returns (n: nat)
      requires Valid() && model.ctl.loop.Selecting? && OthersOnly(env)
      modifies this
      ensures Valid() && schedule == Turns(bufferSize, old(schedule), env, n)
      ensures n >= steps || model.ctl.loop.Exited?
      ensures model.ctl.loop.Selecting? || model.ctl.loop.Draining? || model.ctl.loop.Exited?
      ensures model.ctl.loop == Exited(false) ==> contextDone
      ensures model.ctl.loop == Exited(true) ==> stopClosed && msgCh == []
      ensures old(stopClosed) && PicksReady(bufferSize, old(schedule), env) && steps >= Measure(old(model)) ==>
                model.ctl.loop.Exited?
    {
      n := Watch(env, steps);
      if old(stopClosed) && PicksReady(bufferSize, old(schedule), env) && n >= Measure(old(model)) {
        LoopLeavesAfterStop(bufferSize, old(schedule), env, n);
      }
    }

    method Watch(env: Surroundings, steps: nat) returns (n: nat)
      requires Valid() && model.ctl.loop.Selecting? && OthersOnly(env)
      modifies this
      ensures Valid() && schedule == Turns(bufferSize, old(schedule), env, n)
      ensures n >= steps || model.ctl.loop.Exited?
      ensures model.ctl.loop.Selecting? || model.ctl.loop.Draining? || model.ctl.loop.Exited?
      ensures model.ctl.loop == Exited(false) ==> contextDone
      ensures model.ctl.loop == Exited(true) ==> stopClosed && msgCh == []
    {
      hide Valid, Exec, Turns, BeforeTurn, OthersOnly;
      n := 0;
      NoTurns(bufferSize, schedule, env);
      while n < steps
        invariant Valid() && model.ctl.loop.Selecting?
        invariant schedule == Turns(bufferSize, old(schedule), env, n)
      {
        BeginTurn(env, old(schedule), n);
        match env.pick(n) {
          case MessageReady =>
            if msgCh != [] {
              n := PublishOne(env, old(schedule), n);
            } else {
              TurnTaken(bufferSize, old(schedule), env, n, []);
              n := n + 1;
            }
          case Stopped =>
            TurnTaken(bufferSize, old(schedule), env, n, if stopClosed then [LoopStop] else []);
            n := n + 1;
            if stopClosed {
              LoopMove(LoopStop);
              n := Drain(env, old(schedule), n, steps);
              return;
            }
          case ContextDone =>
            TurnTaken(bufferSize, old(schedule), env, n, if contextDone then [LoopCancel] else []);
            n := n + 1;
            if contextDone {
              LoopMove(LoopCancel);
              return;
            }
        }
      }
    }

    /** The branch of the outer select that takes a message. */
    method PublishOne(env: Surroundings, ghost start: seq<Action>, from: nat) returns (n: nat)
      requires Valid() && model.ctl.loop.Selecting? && msgCh != [] && OthersOnly(env)
      requires schedule == BeforeTurn(bufferSize, start, env, from)
      requires model == Exec(Init(bufferSize), BeforeTurn(bufferSize, start, env, from))
      requires env.pick(from).MessageReady? && msgCh == model.traffic.msgCh
      modifies this
      ensures Valid() && model.ctl.loop.Selecting?
      ensures n >= from + 2 && schedule == Turns(bufferSize, start, env, n)
    {
      hide Valid, Exec, Turns, BeforeTurn, OthersOnly;
      n := from;
      TurnTaken(bufferSize, start, env, n, [LoopReceive]);
      var _ := Receive();
      n := n + 1;
      BeginTurn(env, start, n);
      var err := env.result(n);
      TurnTaken(bufferSize, start, env, n, [Published(err)]);
      CountResult(err);
      n := n + 1;
      if !err.Nil? {
        BeginTurn(env, start, n);
        TurnTaken(bufferSize, start, env, n, [LoopReport]);
        Report(err);
        n := n + 1;
      }
    }

    /** The inner loop, from turn `from` on: publish what is queued, leave when the channel is empty;
        failures are counted but not offered to errCh. */
    method Drain(env: Surroundings, ghost start: seq<Action>, from: nat, steps: nat) returns (n: nat)
      requires Valid() && model.ctl.loop.Draining? && stopClosed && OthersOnly(env)
      requires schedule == Turns(bufferSize, start, env, from)
      modifies this
      ensures Valid() && n >= from && schedule == Turns(bufferSize, start, env, n)
      ensures n >= steps || model.ctl.loop.Exited?
      ensures model.ctl.loop.Draining? || (model.ctl.loop == Exited(true) && stopClosed && msgCh == [])
    {
      hide Valid, Exec, Turns, BeforeTurn, OthersOnly;
      n := from;
      while n < steps
        invariant Valid() && model.ctl.loop.Draining? && stopClosed
        invariant n >= from && schedule == Turns(bufferSize, start, env, n)
      {
        BeginTurn(env, start, n);
        if msgCh == [] {
          TurnTaken(bufferSize, start, env, n, [DrainDefault]);
          LoopMove(DrainDefault);
          n := n + 1;
          return;
        }
        TurnTaken(bufferSize, start, env, n, [DrainReceive]);
        var _ := Receive();
        n := n + 1;
        BeginTurn(env, start, n);
        TurnTaken(bufferSize, start, env, n, [Published(env.result(n))]);
        CountResult(env.result(n));
        n := n + 1;
      }
    }

    /** When a Stop called now will have drained the queue whenever it returns. */
    lemma StopPromise(cancellable: bool)
      requires Valid() && running
      ensures DrainsAlways(Step(model, StopSwap), cancellable)
              <==> pendingSends == multiset{}
                   && (cancellable || contextDone || model.ctl.loop.Launching? ==> msgCh == [])
    {
      hide DrainsAlways, Step, Exec;
      StopDrainsIff(bufferSize, schedule, cancellable);
    }

    /** The guarantee of the machine, read off the object. */
    lemma StopGuarantee()
      requires Valid()
      requires model.ctl.loop == Exited(true)
               || (stopper.StopReturned? && model.ctl.startReturned && !contextDone)
      ensures |model.traffic.accepted| == sent + failed + |msgCh|
      ensures |msgCh| <= model.ctl.caught
    {
      StopStrandsOnlyRacingSends(bufferSize, schedule);
    }
  }
}
